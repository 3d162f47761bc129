// The plugin's navigation controller: the URL hash names the report shown.
// Buttons and the Apply button only write the hash; a change of the hash
// parses it and either renders the report it names, after updating the
// filter inputs to match, or reports the parse error and leaves the previous
// report on the page.
module Navigation {
  import opened Wrappers
  import opened JsText
  import opened Keys
  import opened Modes

  /** The values of the mode picker and of the four filter inputs. */
  datatype Inputs = Inputs(mode: string, ver: string, users: string, utcStart: string, utcEnd: string)

  /** Whether the version, users and time-range input groups are visible. */
  datatype Groups = Groups(version: bool, users: bool, range: bool)

  const Hidden := Groups(false, false, false)

  /** The message of the RangeError that toISOString throws on an invalid date. */
  const InvalidTime := "Invalid time value"

  /** `!!v` for a possibly undefined string: present and not empty. */
  predicate Truthy(v: Option<string>)
  {
    v.Some? && v.value != ""
  }

  /** The text an input is set to from a hash value: the value when truthy, else "". */
  function TextOf(v: Option<string>): string
  {
    if Truthy(v) then v.value else ""
  }

  /** A date input: the local rendering of a truthy ISO value, else "". */
  function LocaleOf(v: Option<string>, toLocale: string -> string): string
  {
    if Truthy(v) then toLocale(v.value) else ""
  }

  /** The inputs showInternal derives from the dictionary of a hash, the mode picker given. */
  function InputsFrom(obj: map<string, string>, mode: string, toLocale: string -> string): Inputs
  {
    Inputs(mode, TextOf(Get(obj, "ver")), TextOf(Get(obj, "user")),
           LocaleOf(Get(obj, "dateutcstart"), toLocale), LocaleOf(Get(obj, "dateutcend"), toLocale))
  }

  /**
   * The inputs that show a mode, read off the mode itself: a delta shows its
   * version and nothing else; every other kind shows its filter's version,
   * user and time range.
   */
  function InputsOf(m: Mode, toLocale: string -> string): Inputs
  {
    if m.ShowDelta? then Inputs("delta", TextOf(Some(NumberToString(m.ver))), "", "", "")
    else Inputs(KindName(m), TextOf(m.filter.ver), TextOf(m.filter.user),
                LocaleOf(m.filter.dateUtcStart, toLocale), LocaleOf(m.filter.dateUtcEnd, toLocale))
  }

  /** What the dictionary of a well-formed mode's hash holds under the keys the inputs read. */
  lemma HashKeys(m: Mode)
    requires WellFormedMode(m)
    ensures var obj := KeyParse(ToHash(m));
      Get(obj, "show") == Some(KindName(m))
      && (m.ShowDelta? ==>
            Get(obj, "ver") == Some(NumberToString(m.ver)) && Get(obj, "user") == None
            && Get(obj, "dateutcstart") == None && Get(obj, "dateutcend") == None)
      && (!m.ShowDelta? ==>
            Get(obj, "ver") == m.filter.ver && Get(obj, "user") == m.filter.user
            && Get(obj, "dateutcstart") == m.filter.dateUtcStart && Get(obj, "dateutcend") == m.filter.dateUtcEnd)
  {
    ShowIsNotAFilterKey();
    var obj := KeyParse(ToHash(m));
    if m.ShowDelta? {
      var f := NoFilter.(ver := Some(NumberToString(m.ver)));
      DeltaHashShape(m.ver);
      NumberToStringNoSemicolon(m.ver);
      KeyParseTagged("show", "delta", f);
      assert FilterValues(FilterFromKeys(obj))[0] == Get(obj, FilterKeys[0]);
      assert FilterValues(FilterFromKeys(obj))[1] == Get(obj, FilterKeys[1]);
      assert FilterValues(FilterFromKeys(obj))[3] == Get(obj, FilterKeys[3]);
      assert FilterValues(FilterFromKeys(obj))[4] == Get(obj, FilterKeys[4]);
    } else {
      FilterHashShape(m);
      KeyParseTagged("show", KindName(m), m.filter);
      assert FilterValues(FilterFromKeys(obj))[0] == Get(obj, FilterKeys[0]);
      assert FilterValues(FilterFromKeys(obj))[1] == Get(obj, FilterKeys[1]);
      assert FilterValues(FilterFromKeys(obj))[3] == Get(obj, FilterKeys[3]);
      assert FilterValues(FilterFromKeys(obj))[4] == Get(obj, FilterKeys[4]);
    }
  }

  lemma NumberToStringNoSemicolon(v: Option<int>)
    ensures ';' !in NumberToString(v)
  {
  }

  /** For a well-formed mode, the inputs showInternal derives from its hash are the mode's own. */
  lemma InputsOfHash(m: Mode, toLocale: string -> string)
    requires WellFormedMode(m)
    ensures InputsFrom(KeyParse(ToHash(m)), KindName(m), toLocale) == InputsOf(m, toLocale)
  {
    HashKeys(m);
  }

  /** A segment `name=value` when the value is present. */
  function Segment(name: string, v: Option<string>): seq<string>
  {
    if v.Some? then [Pair(name, v.value)] else []
  }

  function NonEmpty(val: string): Option<string>
  {
    if val != "" then Some(val) else None
  }

  /** The value appendDate writes: none for an empty input, else its ISO form, or the RangeError. */
  function DateValue(val: string, toIso: string -> Option<string>): Result<Option<string>, string>
  {
    if val == "" then Ok(None)
    else match toIso(val)
      case None => Err(InvalidTime)
      case Some(d) => Ok(Some(d))
  }

  /** The keys OnApplyFilter may write, in order. */
  const ApplyKeys: seq<string> := ["show", "ver", "user", "dateutcstart", "dateutcend"]

  /** The segments of the hash OnApplyFilter writes: show, then ver, user and the two dates when present. */
  function ApplySegments(mode: string, ver: Option<string>, user: Option<string>,
                         start: Option<string>, end: Option<string>): seq<string>
  {
    [Pair("show", mode)] + Segment("ver", ver) + Segment("user", user)
    + Segment("dateutcstart", start) + Segment("dateutcend", end)
  }

  /**
   * The hash the Apply button writes for the given inputs, or the error it
   * reports: the present segments joined by ';'.
   */
  function AppliedHash(inputs: Inputs, toIso: string -> Option<string>): Result<string, string>
  {
    match DateValue(inputs.utcStart, toIso)
    case Err(e) => Err(e)
    case Ok(start) =>
      match DateValue(inputs.utcEnd, toIso)
      case Err(e) => Err(e)
      case Ok(end) =>
        Ok(Join(ApplySegments(inputs.mode, NonEmpty(inputs.ver), NonEmpty(inputs.users), start, end), ';'))
  }

  /** appendX: adds `;name=val` when the input is not empty. */
  function AppendX(x: string, val: string, name: string): string
  {
    if val != "" then x + ";" + name + "=" + val else x
  }

  /** appendDate: adds `;name=` and the ISO form of a non-empty input, or throws the RangeError. */
  function AppendDate(x: string, val: string, name: string, toIso: string -> Option<string>): Result<string, string>
  {
    if val != "" then
      match toIso(val)
      case None => Err(InvalidTime)
      case Some(d) => Ok(x + ";" + name + "=" + d)
    else Ok(x)
  }

  lemma {:induction false} JoinSnoc(parts: seq<string>, p: string, sep: char)
    requires |parts| >= 1
    ensures Join(parts + [p], sep) == Join(parts, sep) + [sep] + p
  {
    if |parts| == 1 {
      assert (parts + [p])[1..] == [p];
    } else {
      JoinSnoc(parts[1..], p, sep);
      assert (parts + [p])[1..] == parts[1..] + [p];
    }
  }

  /** Appending a present segment extends the join by `;` and the segment. */
  lemma AppendSegment(parts: seq<string>, name: string, v: Option<string>)
    requires |parts| >= 1
    ensures Join(parts + Segment(name, v), ';')
      == Join(parts, ';') + (if v.Some? then ";" + name + "=" + v.value else "")
  {
    if v.Some? {
      var p := Pair(name, v.value);
      assert Segment(name, v) == [p];
      JoinSnoc(parts, p, ';');
      var j := Join(parts, ';');
      assert ";" + name + "=" + v.value == [';'] + p;
      assert j + [';'] + p == j + ([';'] + p);
    } else {
      assert parts + Segment(name, v) == parts;
    }
  }

  lemma PresentCons(k: string, ks: seq<string>, v: Option<string>, vs: seq<Option<string>>)
    requires |ks| == |vs|
    ensures Present([k] + ks, [v] + vs) == Segment(k, v) + Present(ks, vs)
  {
    assert ([k] + ks)[1..] == ks && ([v] + vs)[1..] == vs;
  }

  /** Present over five keys is the concatenation of their five segments. */
  lemma PresentFive(ks: seq<string>, vs: seq<Option<string>>)
    requires |ks| == 5 && |vs| == 5
    ensures Present(ks, vs)
      == Segment(ks[0], vs[0]) + Segment(ks[1], vs[1]) + Segment(ks[2], vs[2])
         + Segment(ks[3], vs[3]) + Segment(ks[4], vs[4])
  {
    PresentStep(ks, vs, 4);
    PresentStep(ks, vs, 3);
    PresentStep(ks, vs, 2);
    PresentStep(ks, vs, 1);
    PresentStep(ks, vs, 0);
    assert Present(ks[5..], vs[5..]) == [];
  }

  /** One step of Present, on the suffixes from i. */
  lemma PresentStep(ks: seq<string>, vs: seq<Option<string>>, i: nat)
    requires |ks| == |vs| && i < |ks|
    ensures Present(ks[i..], vs[i..]) == Segment(ks[i], vs[i]) + Present(ks[i + 1..], vs[i + 1..])
  {
    assert ks[i..][1..] == ks[i + 1..] && vs[i..][1..] == vs[i + 1..];
  }

  /** The segments of an applied hash, as the keys and values Present lists. */
  lemma ApplySegmentsPresent(mode: string, ver: Option<string>, user: Option<string>,
                             start: Option<string>, end: Option<string>)
    ensures ApplySegments(mode, ver, user, start, end) == Present(ApplyKeys, [Some(mode), ver, user, start, end])
  {
    var vs := [Some(mode), ver, user, start, end];
    PresentFive(ApplyKeys, vs);
    assert Segment(ApplyKeys[0], vs[0]) == [Pair("show", mode)];
  }

  lemma ApplyKeysAreKeys()
    ensures forall i :: 0 <= i < |ApplyKeys| ==> IsKey(ApplyKeys[i])
    ensures forall i, j :: 0 <= i < j < |ApplyKeys| ==> ApplyKeys[i] != ApplyKeys[j]
  {
    assert ApplyKeys[0][0] == 's' && ApplyKeys[2][0] == 'u';
    assert ApplyKeys[3][4] == 'u' && |ApplyKeys[4]| == 10;
  }

  /** The dictionary of an applied hash: the five applied keys and nothing under the other filter keys. */
  lemma AppliedDictionary(mode: string, ver: Option<string>, user: Option<string>,
                          start: Option<string>, end: Option<string>)
    requires ';' !in mode && Token(ver) && Token(user) && Token(start) && Token(end)
    ensures var obj := KeyParse(Join(ApplySegments(mode, ver, user, start, end), ';'));
      Get(obj, "show") == Some(mode) && Get(obj, "ver") == ver && Get(obj, "user") == user
      && Get(obj, "dateutcstart") == start && Get(obj, "dateutcend") == end
      && Get(obj, "verend") == None && Get(obj, "day") == None && Get(obj, "app") == None
  {
    var vs := [Some(mode), ver, user, start, end];
    var parts := ApplySegments(mode, ver, user, start, end);
    ApplySegmentsPresent(mode, ver, user, start, end);
    ApplyKeysAreKeys();
    assert forall i :: 0 <= i < |vs| ==> vs[i].Some? ==> ';' !in vs[i].value;
    PresentNoSemicolon(ApplyKeys, vs);
    SplitJoin(parts, ';');
    FoldPresent(map[], ApplyKeys, vs);
    var obj := Fold(map[], parts);
    assert Get(obj, ApplyKeys[0]) == vs[0] && Get(obj, ApplyKeys[1]) == vs[1] && Get(obj, ApplyKeys[2]) == vs[2];
    assert Get(obj, ApplyKeys[3]) == vs[3] && Get(obj, ApplyKeys[4]) == vs[4];
    assert "verend" !in ApplyKeys && "day" !in ApplyKeys && "app" !in ApplyKeys;
  }

  /**
   * Reading back an applied hash: `show` holds the picked mode, ver, user
   * and the two dates hold what was applied, and no other filter key is set;
   * so the hash parses exactly when the picked mode is one of the six kinds,
   * into that kind with the applied version (a delta) or filter (any other).
   */
  lemma AppliedHashParses(inputs: Inputs, toIso: string -> Option<string>)
    requires AppliedHash(inputs, toIso).Ok?
    requires ';' !in inputs.mode && ';' !in inputs.ver && ';' !in inputs.users
    requires Token(DateValue(inputs.utcStart, toIso).value) && Token(DateValue(inputs.utcEnd, toIso).value)
    ensures var start := DateValue(inputs.utcStart, toIso).value;
      var end := DateValue(inputs.utcEnd, toIso).value;
      var r := Parse(AppliedHash(inputs, toIso).value);
      (r.Ok? <==> Lookup(inputs.mode).Some?)
      && (r.Ok? ==> KindName(r.value) == inputs.mode)
      && (r.Ok? && r.value.ShowDelta? ==> r.value.ver == (if inputs.ver == "" then None else ParseInt(inputs.ver)))
      && (r.Ok? && !r.value.ShowDelta? ==>
            r.value.filter == Filter(NonEmpty(inputs.users), NonEmpty(inputs.ver), None, start, end, None, None))
  {
    var start := DateValue(inputs.utcStart, toIso).value;
    var end := DateValue(inputs.utcEnd, toIso).value;
    var ver, user := NonEmpty(inputs.ver), NonEmpty(inputs.users);
    AppliedDictionary(inputs.mode, ver, user, start, end);
    var obj := KeyParse(Join(ApplySegments(inputs.mode, ver, user, start, end), ';'));
    assert AppliedHash(inputs, toIso).value == Join(ApplySegments(inputs.mode, ver, user, start, end), ';');
    assert FilterFromKeys(obj) == Filter(user, ver, None, start, end, None, None);
  }

  /** appendX extends a joined hash by the segment of a non-empty input. */
  lemma AppendXSegment(x: string, parts: seq<string>, val: string, name: string)
    requires |parts| >= 1 && x == Join(parts, ';')
    ensures AppendX(x, val, name) == Join(parts + Segment(name, NonEmpty(val)), ';')
  {
    AppendSegment(parts, name, NonEmpty(val));
    if val != "" {
      ConcatSegment(x, name, val);
    }
  }

  lemma ConcatSegment(x: string, name: string, v: string)
    ensures x + ";" + name + "=" + v == x + (";" + name + "=" + v)
  {
  }

  /** appendDate extends a joined hash by the segment of the date's ISO form, or fails as DateValue does. */
  lemma AppendDateSegment(x: string, parts: seq<string>, val: string, name: string, toIso: string -> Option<string>)
    requires |parts| >= 1 && x == Join(parts, ';')
    ensures AppendDate(x, val, name, toIso).Err? <==> DateValue(val, toIso).Err?
    ensures AppendDate(x, val, name, toIso).Err? ==> AppendDate(x, val, name, toIso).error == DateValue(val, toIso).error
    ensures AppendDate(x, val, name, toIso).Ok? ==>
      AppendDate(x, val, name, toIso).value == Join(parts + Segment(name, DateValue(val, toIso).value), ';')
  {
    var d := DateValue(val, toIso);
    if d.Ok? {
      AppendSegment(parts, name, d.value);
      if d.value.Some? {
        ConcatSegment(x, name, d.value.value);
      }
    }
  }

  /** The plugin: the URL hash and the parts of the page the controller updates. */
  class Plugin {
    /** window.location.hash: the fragment, with its leading '#', or "" when there is none. */
    var hash: string
    var inputs: Inputs
    var groups: Groups
    /** The text of #queryx: the hash of the mode shown. */
    var queryText: string
    /** The text of #descr. */
    var descrText: string
    /** The mode whose report the output element holds; None when it holds none, or only part of one. */
    var rendered: Option<Mode>
    /** The error showError last reported, None after clearError. */
    var error: Option<string>
    /** Whether the render context's Next is bound to show. */
    var nextBound: bool
    /** new Date(val).toISOString(), None where it throws. */
    const toIso: string -> Option<string>
    /** new Date(val).toLocaleString() */
    const toLocale: string -> string
    /**
     * What mode.render(ctx) throws for the change list at hand (a version
     * missing from it, say), None when it renders.
     */
    const renderError: Mode -> Option<string>

    constructor(hash: string, inputs: Inputs, groups: Groups,
                toIso: string -> Option<string>, toLocale: string -> string,
                renderError: Mode -> Option<string>)
      ensures this.hash == hash && this.inputs == inputs && this.groups == groups
      ensures this.toIso == toIso && this.toLocale == toLocale && this.renderError == renderError
      ensures queryText == "" && descrText == "" && rendered == None && error == None && !nextBound
    {
      this.hash := hash;
      this.inputs := inputs;
      this.groups := groups;
      this.toIso := toIso;
      this.toLocale := toLocale;
      this.renderError := renderError;
      queryText := "";
      descrText := "";
      rendered := None;
      error := None;
      nextBound := false;
    }

    /** Assigning x to window.location.hash; reading it back gives x with a leading '#'. */
    method SetHash(x: string)
      modifies this`hash
      ensures hash == "#" + x
    {
      hash := "#" + x;
    }

    /**
     * updateFilters: hide the three groups, then show the version group for
     * a delta and the users and time-range groups for every other kind. A
     * name that is not a kind leaves the lookup undefined, and calling its
     * methods throws.
     */
    method UpdateFilters() returns (thrown: bool)
      modifies this`groups
      ensures thrown <==> Lookup(inputs.mode).None?
      ensures thrown ==> groups == Hidden
      ensures !thrown ==> (groups.version <==> inputs.mode == "delta")
      ensures !thrown ==> (groups.users <==> inputs.mode != "delta") && (groups.range <==> inputs.mode != "delta")
    {
      var val := inputs.mode;
      groups := groups.(version := false);
      groups := groups.(users := false);
      groups := groups.(range := false);
      var descr := Lookup(val);
      if descr.None? {
        return true;
      }
      if descr.value.UseTimeRange() {
        groups := groups.(range := true);
      }
      if descr.value.UseUsers() {
        groups := groups.(users := true);
      }
      if descr.value.UseVerNum() {
        groups := groups.(version := true);
      }
      thrown := false;
    }

    /** OnApplyFilter: clear the error, then write the hash of the inputs, or report the RangeError. */
    method OnApplyFilter()
      modifies this`error, this`hash
      ensures AppliedHash(inputs, toIso).Ok? ==> hash == "#" + AppliedHash(inputs, toIso).value && error == None
      ensures AppliedHash(inputs, toIso).Err? ==> hash == old(hash) && error == Some(AppliedHash(inputs, toIso).error)
    {
      error := None;
      var mode := inputs.mode;
      var x := "show=" + mode;
      ghost var parts := [Pair("show", mode)];
      assert x == Join(parts, ';');
      AppendXSegment(x, parts, inputs.ver, "ver");
      x := AppendX(x, inputs.ver, "ver");
      parts := parts + Segment("ver", NonEmpty(inputs.ver));
      AppendXSegment(x, parts, inputs.users, "user");
      x := AppendX(x, inputs.users, "user");
      parts := parts + Segment("user", NonEmpty(inputs.users));
      AppendDateSegment(x, parts, inputs.utcStart, "dateutcstart", toIso);
      var r := AppendDate(x, inputs.utcStart, "dateutcstart", toIso);
      if r.Err? {
        error := Some(r.error);
        return;
      }
      x := r.value;
      parts := parts + Segment("dateutcstart", DateValue(inputs.utcStart, toIso).value);
      AppendDateSegment(x, parts, inputs.utcEnd, "dateutcend", toIso);
      r := AppendDate(x, inputs.utcEnd, "dateutcend", toIso);
      if r.Err? {
        error := Some(r.error);
        return;
      }
      parts := parts + Segment("dateutcend", DateValue(inputs.utcEnd, toIso).value);
      assert parts == ApplySegments(mode, NonEmpty(inputs.ver), NonEmpty(inputs.users),
                                    DateValue(inputs.utcStart, toIso).value, DateValue(inputs.utcEnd, toIso).value);
      x := r.value;
      SetHash(x);
    }

    /** show(mode): only writes the mode's hash; the hash change does the rest. */
    method Show(m: Mode)
      modifies this`hash
      ensures hash == "#" + ToHash(m)
    {
      SetHash(ToHash(m));
    }

    /** The four filter inputs set from the dictionary of a hash, each cleared when its key is not truthy. */
    method SetInputs(obj: map<string, string>)
      modifies this`inputs
      ensures inputs == InputsFrom(obj, old(inputs.mode), toLocale)
    {
      var user := Get(obj, "user");
      if Truthy(user) {
        inputs := inputs.(users := user.value);
      } else {
        inputs := inputs.(users := "");
      }
      var ver := Get(obj, "ver");
      if Truthy(ver) {
        inputs := inputs.(ver := ver.value);
      } else {
        inputs := inputs.(ver := "");
      }
      var utcStart := Get(obj, "dateutcstart");
      if Truthy(utcStart) {
        inputs := inputs.(utcStart := toLocale(utcStart.value));
      } else {
        inputs := inputs.(utcStart := "");
      }
      var utcEnd := Get(obj, "dateutcend");
      if Truthy(utcEnd) {
        inputs := inputs.(utcEnd := toLocale(utcEnd.value));
      } else {
        inputs := inputs.(utcEnd := "");
      }
    }

    /** The text of #descr set to the mode's description. */
    method SetDescription(m: Mode)
      modifies this`descrText
      ensures descrText == Description(m)
    {
      descrText := Description(m);
    }

    /**
     * showInternal: the query text, the mode picker and the inputs from the
     * dictionary of the mode's hash, the visible groups, the description,
     * then Next is bound and the mode rendered into the emptied output. When
     * updateFilters throws, nothing after it runs (`thrown`); when the render
     * throws, the output has already been emptied (`renderFailure`).
     */
    method ShowInternal(m: Mode) returns (thrown: bool, renderFailure: Option<string>)
      modifies this`queryText, this`inputs, this`groups, this`descrText, this`rendered, this`nextBound
      ensures queryText == ToHash(m)
      ensures var kind := Get(KeyParse(ToHash(m)), "show");
        inputs.mode == if kind.Some? then kind.value else old(inputs.mode)
      ensures thrown <==> Lookup(inputs.mode).None?
      ensures thrown ==> groups == Hidden && inputs == old(inputs).(mode := inputs.mode)
      ensures thrown ==> descrText == old(descrText) && rendered == old(rendered) && nextBound == old(nextBound)
      ensures !thrown ==> inputs == InputsFrom(KeyParse(ToHash(m)), inputs.mode, toLocale)
      ensures !thrown ==> (groups.version <==> inputs.mode == "delta")
      ensures !thrown ==> (groups.users <==> inputs.mode != "delta") && (groups.range <==> inputs.mode != "delta")
      ensures thrown ==> renderFailure == None
      ensures !thrown ==> descrText == Description(m) && nextBound && renderFailure == renderError(m)
      ensures !thrown ==> rendered == if renderError(m).None? then Some(m) else None
    {
      var h := ToHash(m);
      queryText := h;
      var obj := KeyParse(h);
      var kind := Get(obj, "show");
      if kind.Some? {
        inputs := inputs.(mode := kind.value);
      }
      thrown := UpdateFilters();
      if thrown {
        renderFailure := None;
        return;
      }
      SetInputs(obj);
      SetDescription(m);
      rendered := None;
      nextBound := true;
      renderFailure := renderError(m);
      if renderFailure.None? {
        rendered := Some(m);
      }
    }

    /**
     * showCurrentHash: a missing or one-character hash is replaced by
     * show=daily and nothing is rendered; otherwise the hash without its '#'
     * is parsed. A parse error is reported with the page left as it was;
     * otherwise the mode is shown, and an error its render throws is
     * reported after the output was emptied.
     */
    method ShowCurrentHash()
      modifies this`hash, this`queryText, this`inputs, this`groups, this`descrText, this`rendered,
               this`nextBound, this`error
      ensures |old(hash)| < 2 ==> hash == "#show=daily"
      ensures |old(hash)| < 2 || Parse(old(hash)[1..]).Err? ==>
        queryText == old(queryText) && inputs == old(inputs) && groups == old(groups)
        && descrText == old(descrText) && rendered == old(rendered) && nextBound == old(nextBound)
      ensures |old(hash)| < 2 ==> error == old(error)
      ensures |old(hash)| >= 2 ==> hash == old(hash)
      ensures |old(hash)| >= 2 && Parse(old(hash)[1..]).Err? ==> error == Some(Parse(old(hash)[1..]).error)
      ensures |old(hash)| >= 2 && Parse(old(hash)[1..]).Ok? ==>
        var m := Parse(old(hash)[1..]).value;
        queryText == ToHash(m) && inputs == InputsOf(m, toLocale) && descrText == Description(m) && nextBound
        && (if renderError(m).None? then rendered == Some(m) && error == old(error)
            else rendered == None && error == renderError(m))
        && (groups.version <==> m.ShowDelta?) && (groups.users <==> !m.ShowDelta?) && (groups.range <==> !m.ShowDelta?)
    {
      var h := hash;
      if |h| < 2 {
        SetHash("show=daily");
        return;
      }
      var x := h[1..];
      var r := Parse(x);
      if r.Err? {
        error := Some(r.error);
        return;
      }
      var m := r.value;
      ParsedModeWellFormed(x);
      HashKeys(m);
      KindListed(m);
      InputsOfHash(m, toLocale);
      var thrown, renderFailure := ShowInternal(m);
      if renderFailure.Some? {
        error := renderFailure;
      }
    }

    /**
     * A button of a report calls Next, that is show(m), and the hash change
     * it causes runs showCurrentHash: a well-formed mode is then rendered,
     * unless its render throws, which is reported.
     */
    method FollowLink(m: Mode)
      requires WellFormedMode(m)
      modifies this`hash, this`queryText, this`inputs, this`groups, this`descrText, this`rendered,
               this`nextBound, this`error
      ensures hash == "#" + ToHash(m) && queryText == ToHash(m) && inputs == InputsOf(m, toLocale)
      ensures renderError(m).None? ==> rendered == Some(m) && error == old(error)
      ensures renderError(m).Some? ==> rendered == None && error == renderError(m)
    {
      Show(m);
      ParseToHash(m);
      assert ("#" + ToHash(m))[1..] == ToHash(m);
      ShowCurrentHash();
    }
  }

  /** The hash a missing one is replaced by names the daily report without a filter. */
  lemma DefaultHashParses(h: string)
    requires h == "#show=daily"
    ensures Parse(h[1..]) == Ok(ShowDailyReport(NoFilter))
  {
    var x := h[1..];
    assert x == Pair("show", "daily");
    KeyParseSingle("show", "daily");
    var obj := map["show" := "daily"];
    assert KeyParse(x) == obj;
    assert FilterFromKeys(obj) == NoFilter;
  }
}
