// Report routing: the static table of report kinds, the six report modes, the
// hash each mode writes (`toHash`) and the parser that reads a hash back into a
// mode (`Mode.parse`).
module Modes {
  import opened Wrappers
  import opened JsText
  import opened Keys

  /** One entry of the static list of report kinds shown in the mode picker. */
  datatype ModeDescr = ModeDescr(hashName: string, descr: string)
  {
    predicate UseVerNum() { hashName == "delta" }
    predicate UseUsers() { hashName != "delta" }
    predicate UseTimeRange() { hashName != "delta" }
  }

  const DescrList: seq<ModeDescr> := [
    ModeDescr("daily", "Show a daily report for all users"),
    ModeDescr("sessions", "Show active sessions for users"),
    ModeDescr("ndeltarange", "Show individual results"),
    ModeDescr("delta", "Show single raw delta"),
    ModeDescr("deltarange", "Show range of raw deltas"),
    ModeDescr("byrecid", "Show deltas grouped by RecId")
  ]

  function LookupIn(list: seq<ModeDescr>, name: string): (r: Option<ModeDescr>)
    ensures r.Some? <==> exists i :: 0 <= i < |list| && list[i].hashName == name
    ensures r.Some? ==> r.value in list && r.value.hashName == name
  {
    if list == [] then None
    else if list[0].hashName == name then Some(list[0])
    else
      var r := LookupIn(list[1..], name);
      assert forall i :: 1 <= i < |list| ==> list[i] == list[1..][i - 1];
      r
  }

  /** ModeDescr.lookup: the first entry with that hash name, or undefined. */
  function Lookup(name: string): (r: Option<ModeDescr>)
    ensures r.Some? <==> name in {"daily", "sessions", "ndeltarange", "delta", "deltarange", "byrecid"}
    ensures r.Some? ==> r.value in DescrList && r.value.hashName == name
  {
    var r := LookupIn(DescrList, name);
    assert DescrList[0].hashName == "daily" && DescrList[1].hashName == "sessions";
    assert DescrList[2].hashName == "ndeltarange" && DescrList[3].hashName == "delta";
    assert DescrList[4].hashName == "deltarange" && DescrList[5].hashName == "byrecid";
    r
  }

  /** The serialisable report state: one variant per report kind. */
  datatype Mode =
    | ShowDelta(ver: Option<int>)            // a single raw delta; None is a NaN version
    | ShowDeltaRange(filter: Filter)         // raw deltas through the change-list filter
    | ShowNDeltaRange(filter: Filter)        // normalised deltas and the response summary
    | ShowSessionList(filter: Filter)        // the clusters ("sessions") of each user
    | ShowDailyReport(filter: Filter)        // minutes per user per day
    | ShowFlattenToRecId(filter: Filter)     // deltas grouped by record id

  function KindName(m: Mode): string
  {
    match m
    case ShowDelta(_) => "delta"
    case ShowDeltaRange(_) => "deltarange"
    case ShowNDeltaRange(_) => "ndeltarange"
    case ShowSessionList(_) => "sessions"
    case ShowDailyReport(_) => "daily"
    case ShowFlattenToRecId(_) => "byrecid"
  }

  /** A mode whose filter values survive the `;`-separated hash. */
  predicate WellFormedMode(m: Mode)
  {
    m.ShowDelta? || WellFormed(m.filter)
  }

  /** mode.toHash() */
  function ToHash(m: Mode): string
  {
    match m
    case ShowDelta(ver) => "show=delta;ver=" + NumberToString(ver)
    case _ => "show=" + KindName(m) + ";" + FilterToString(m.filter)
  }

  /** The text JavaScript gives a possibly undefined string in a concatenation. */
  function ShowText(kind: Option<string>): string
  {
    match kind
    case Some(k) => k
    case None => "undefined"
  }

  /** parseInt(obj["ver"]): NaN when the key is missing. */
  function VerOf(obj: map<string, string>): Option<int>
  {
    match Get(obj, "ver")
    case None => None
    case Some(v) => ParseInt(v)
  }

  /** The dispatch of Mode.parse over the dictionary of the hash. */
  function ParseKeys(obj: map<string, string>): (r: Result<Mode, string>)
    ensures r.Ok? <==> Get(obj, "show").Some? && Lookup(Get(obj, "show").value).Some?
    ensures r.Ok? ==> Get(obj, "show") == Some(KindName(r.value))
    ensures r.Ok? && r.value.ShowDelta? ==> r.value.ver == VerOf(obj)
    ensures r.Ok? && !r.value.ShowDelta? ==> r.value.filter == FilterFromKeys(obj)
    ensures r.Err? ==> r.error == "Unidentified mode: " + ShowText(Get(obj, "show"))
  {
    var normFilter := FilterFromKeys(obj);
    var clf := FilterFromKeys(obj);
    var kind := Get(obj, "show");
    if kind == Some("delta") then Ok(ShowDelta(VerOf(obj)))
    else if kind == Some("deltarange") then Ok(ShowDeltaRange(clf))
    else if kind == Some("sessions") then Ok(ShowSessionList(normFilter))
    else if kind == Some("ndeltarange") then Ok(ShowNDeltaRange(normFilter))
    else if kind == Some("byrecid") then Ok(ShowFlattenToRecId(clf))
    else if kind == Some("daily") then Ok(ShowDailyReport(normFilter))
    else Err("Unidentified mode: " + ShowText(kind))
  }

  /**
   * Mode.parse: dispatch on the `show` key; only `delta` reads `ver`, every
   * other kind takes the filter read from the same string; any other `show`
   * value throws "Unidentified mode: " followed by that value.
   */
  function Parse(s: string): Result<Mode, string>
  {
    ParseKeys(KeyParse(s))
  }

  /** The text each kind's getDescription returns, in the order of the Mode variants. */
  const Descriptions: seq<string> := [
    "This is an advanced view. It shows an individual piece of information (a 'delta') uploaded by the mobile clients. "
    + "Each delta is given a unique version number, and may edit one of more RecIds.",
    "This is an advanced view and shows a specific range of 'deltas'. You can use this to drill into specific activity for sessions.",
    "This is an advanced view and shows a specific range of updates. "
    + "You can use this to drill into specific activity for sessions.",
    "This shows 'sessions' - which are continuous periods of active usage where the user is submitting results.",
    "This shows 'active' usage (in minutes) per day for each user. Active usage is a span on consecutively uploading data. "
    + "Days are in YYYYMMDD format for easy sorting.",
    "This shows the information uploaded per each RecId."
  ]

  function KindIndex(m: Mode): (i: nat)
    ensures i < |Descriptions|
  {
    match m
    case ShowDelta(_) => 0
    case ShowDeltaRange(_) => 1
    case ShowNDeltaRange(_) => 2
    case ShowSessionList(_) => 3
    case ShowDailyReport(_) => 4
    case ShowFlattenToRecId(_) => 5
  }

  /** mode.getDescription() */
  function Description(m: Mode): string
  {
    Descriptions[KindIndex(m)]
  }

  lemma ShowIsNotAFilterKey()
    ensures IsKey("show") && "show" !in FilterKeys
  {
  }

  /** The hash of a delta is the tagged hash of a filter holding only `ver`. */
  lemma DeltaHashShape(ver: Option<int>)
    ensures ToHash(ShowDelta(ver)) == Pair("show", "delta") + ";" + FilterToString(NoFilter.(ver := Some(NumberToString(ver))))
  {
    var n := NumberToString(ver);
    var f := NoFilter.(ver := Some(n));
    var vs := FilterValues(f);
    var ks := FilterKeys;
    assert Present(ks[2..], vs[2..]) == [] by {
      assert Present(ks[6..], vs[6..]) == [];
      assert Present(ks[5..], vs[5..]) == [];
      assert Present(ks[4..], vs[4..]) == [];
      assert Present(ks[3..], vs[3..]) == [];
    }
    assert Present(ks, vs) == [Pair("ver", n)];
  }

  lemma ParseDeltaHash(ver: Option<int>)
    ensures Parse(ToHash(ShowDelta(ver))) == Ok(ShowDelta(ver))
  {
    ShowIsNotAFilterKey();
    var n := NumberToString(ver);
    var f := NoFilter.(ver := Some(n));
    DeltaHashShape(ver);
    KeyParseTagged("show", "delta", f);
    var obj := KeyParse(ToHash(ShowDelta(ver)));
    assert Get(obj, "show") == Some("delta");
    assert FilterFromKeys(obj).ver == Get(obj, "ver");
    assert VerOf(obj) == ParseInt(n);
    ParseIntOfNumberToString(ver);
  }

  /** A filter mode is determined by its kind name and its filter. */
  lemma ParseFromKeys(obj: map<string, string>, m: Mode)
    requires !m.ShowDelta?
    requires Get(obj, "show") == Some(KindName(m))
    requires FilterFromKeys(obj) == m.filter
    ensures ParseKeys(obj) == Ok(m)
  {
    var kind := Get(obj, "show");
    match m
    case ShowDeltaRange(_) =>
      assert kind == Some("deltarange") && kind != Some("delta");
    case ShowNDeltaRange(_) =>
      assert kind == Some("ndeltarange");
      assert kind != Some("delta") && kind != Some("deltarange") && kind != Some("sessions");
    case ShowSessionList(_) =>
      assert kind == Some("sessions");
      assert kind != Some("delta") && kind != Some("deltarange");
    case ShowDailyReport(_) =>
      assert kind == Some("daily");
      assert kind != Some("delta") && kind != Some("deltarange") && kind != Some("sessions");
      assert kind != Some("ndeltarange") && kind != Some("byrecid");
    case ShowFlattenToRecId(_) =>
      assert kind == Some("byrecid");
      assert kind != Some("delta") && kind != Some("deltarange") && kind != Some("sessions");
      assert kind != Some("ndeltarange");
  }

  lemma FilterHashShape(m: Mode)
    requires !m.ShowDelta?
    ensures ToHash(m) == Pair("show", KindName(m)) + ";" + FilterToString(m.filter)
  {
  }

  lemma ParseFilterHash(m: Mode)
    requires !m.ShowDelta? && WellFormed(m.filter)
    ensures Parse(ToHash(m)) == Ok(m)
  {
    ShowIsNotAFilterKey();
    var h := ToHash(m);
    FilterHashShape(m);
    KeyParseTagged("show", KindName(m), m.filter);
    var obj := KeyParse(h);
    assert Get(obj, "show") == Some(KindName(m));
    assert FilterFromKeys(obj) == m.filter;
    ParseFromKeys(obj, m);
  }

  /** Round trip: parsing a mode's hash gives back the same mode. */
  lemma ParseToHash(m: Mode)
    requires WellFormedMode(m)
    ensures Parse(ToHash(m)) == Ok(m)
  {
    if m.ShowDelta? {
      ParseDeltaHash(m.ver);
    } else {
      ParseFilterHash(m);
    }
  }

  /** Every mode that parsing produces can be written back to a hash losslessly. */
  lemma ParsedModeWellFormed(s: string)
    requires Parse(s).Ok?
    ensures WellFormedMode(Parse(s).value)
  {
    KeyParseValuesNoSemicolon(s);
  }

  /** Every name of the static mode list is accepted by the parser, as that kind. */
  lemma ListedNamesParse(i: nat)
    requires i < |DescrList|
    ensures Parse(Pair("show", DescrList[i].hashName)).Ok?
    ensures KindName(Parse(Pair("show", DescrList[i].hashName)).value) == DescrList[i].hashName
  {
    KeyParseSingle("show", DescrList[i].hashName);
  }

  /** Each mode's kind is listed, and only `delta` uses the version input. */
  lemma KindListed(m: Mode)
    ensures Lookup(KindName(m)).Some?
    ensures Lookup(KindName(m)).value.UseVerNum() <==> m.ShowDelta?
    ensures Lookup(KindName(m)).value.UseUsers() <==> !m.ShowDelta?
    ensures Lookup(KindName(m)).value.UseTimeRange() <==> !m.ShowDelta?
  {
  }
}
