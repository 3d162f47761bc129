// The session list report: one table row per cluster of each user, with the
// gap in time and distance since that user's previous cluster, followed by a
// "Total" row that sums the voters, households, distance and minutes.
module Sessions {
  import opened Wrappers
  import opened Keys
  import opened Modes
  import opened Dates
  import opened Activity
  import opened Table

  /** SessionRow, one per cluster. */
  datatype SessionRow = SessionRow(
    user: string,
    voterCount: nat,
    verStart: int,                  // the start as getTime(); its button opens `target`
    target: Mode,
    dayNumber: int,
    day: string,
    startTime: string,
    endTime: string,
    totalMinutes: int,
    totalDuration: string,
    distance: real,
    householdCount: nat,
    gapDistanceKm: Option<real>,    // None is NaN
    gapTimeMinutes: Option<int>)    // None is NaN

  /** The VerStart button: the normalised deltas of this user during this cluster. */
  function ClusterTarget(user: string, c: Cluster, fmt: Formats): Mode
  {
    ShowNDeltaRange(SetTimeRange(SetUser(NoFilter, user), fmt.iso(c.start), fmt.iso(c.end)))
  }

  /** The gap since the previous cluster: distance and rounded minutes, None standing for NaN. */
  datatype Gap = Gap(distanceKm: Option<real>, minutes: Option<int>)

  /** The gap of cluster c after the same user's previous cluster (None for the first). */
  function GapAfter(prev: Option<Cluster>, c: Cluster, fmt: Formats): Gap
  {
    Gap(if prev.Some? && prev.value.geoEnd.Some? then Some(fmt.distanceKm(prev.value.geoEnd.value, c.geoStart)) else None,
        if prev.Some? then Some(RoundMinutes(DurationMs(prev.value.end, c.start))) else None)
  }

  /** The row of cluster c, given its gap. */
  function MakeRow(user: string, c: Cluster, gap: Gap, fmt: Formats): SessionRow
  {
    var trStart := fmt.roundToDay(c.start);
    SessionRow(
      user, c.uniqueCount, EpochMs(c.start), ClusterTarget(user, c, fmt),
      SortableDay(trStart), fmt.dateString(trStart), fmt.timeString(c.start), fmt.timeString(c.end),
      RoundMinutes(DurationOf(c)), fmt.prettySeconds(DurationOf(c) as real / 1000.0),
      c.totalDist, c.householdCount, gap.distanceKm, gap.minutes)
  }

  /** The rows of one user's clusters, each given its predecessor in the same list. */
  function UserRows(user: string, cs: seq<Cluster>, fmt: Formats): seq<SessionRow>
  {
    if cs == [] then []
    else
      var init := cs[..|cs| - 1];
      UserRows(user, init, fmt) + [MakeRow(user, cs[|cs| - 1], GapAfter(PrevOf(cs, |cs| - 1), cs[|cs| - 1], fmt), fmt)]
  }

  /** The cluster before cluster i of the same user, if any. */
  function PrevOf(cs: seq<Cluster>, i: int): Option<Cluster>
    requires 0 <= i < |cs|
  {
    if i == 0 then None else Some(cs[i - 1])
  }

  /** All users' rows, user after user. */
  function SessionRows(blocks: seq<UserClusters>, fmt: Formats): seq<SessionRow>
  {
    if blocks == [] then []
    else
      var last := blocks[|blocks| - 1];
      SessionRows(blocks[..|blocks| - 1], fmt) + UserRows(last.user, last.clusters, fmt)
  }

  /** The four running sums of the totals row. */
  datatype Totals = Totals(voterCount: int, householdCount: int, distance: real, totalMinutes: int)

  const NoTotals := Totals(0, 0, 0.0, 0)

  function AddRow(t: Totals, r: SessionRow): Totals
  {
    Totals(t.voterCount + r.voterCount, t.householdCount + r.householdCount,
           t.distance + r.distance, t.totalMinutes + r.totalMinutes)
  }

  /** The totals after adding each row in turn. */
  function AddAll(t: Totals, rows: seq<SessionRow>): Totals
  {
    if rows == [] then t else AddRow(AddAll(t, rows[..|rows| - 1]), rows[|rows| - 1])
  }

  /** The same sums taken straight from the clusters, without building rows. */
  function ClusterSums(ps: seq<(string, Cluster)>): Totals
  {
    if ps == [] then NoTotals
    else
      var t := ClusterSums(ps[..|ps| - 1]);
      var c := ps[|ps| - 1].1;
      Totals(t.voterCount + c.uniqueCount, t.householdCount + c.householdCount,
             t.distance + c.totalDist, t.totalMinutes + RoundMinutes(DurationOf(c)))
  }

  function NumOf(x: int): Value
  {
    Num(x as real)
  }

  function GapValue<T>(g: Option<T>, f: T -> real): Value
  {
    match g
    case None => NaN
    case Some(x) => Num(f(x))
  }

  /** The row object, its properties in the order the loop assigns them. */
  function ToRow(r: SessionRow): Row
  {
    [ Field("User", Str(r.user)),
      Field("VoterCount", NumOf(r.voterCount)),
      Field("VerStart", Click(NumOf(r.verStart), r.target)),
      Field("DayNumber", NumOf(r.dayNumber)),
      Field("Day", Str(r.day)),
      Field("StartTime", Str(r.startTime)),
      Field("EndTime", Str(r.endTime)),
      Field("TotalMinutes", NumOf(r.totalMinutes)),
      Field("TotalDuration", Str(r.totalDuration)),
      Field("Distance", Num(r.distance)),
      Field("HouseholdCount", NumOf(r.householdCount)),
      Field("GapDistanceKM", GapValue(r.gapDistanceKm, (x: real) => x)),
      Field("GapTimeMinutes", GapValue(r.gapTimeMinutes, (x: int) => x as real)) ]
  }

  function ToRows(rs: seq<SessionRow>): seq<Row>
  {
    seq(|rs|, i requires 0 <= i < |rs| => ToRow(rs[i]))
  }

  /** The "Total" row object: only the properties the totals code assigns. */
  function TotalsRow(t: Totals, fmt: Formats): Row
  {
    [ Field("User", Str("Total")),
      Field("VoterCount", NumOf(t.voterCount)),
      Field("HouseholdCount", NumOf(t.householdCount)),
      Field("Distance", Num(t.distance)),
      Field("TotalMinutes", NumOf(t.totalMinutes)),
      Field("TotalDuration", Str(fmt.prettySeconds((t.totalMinutes * 60) as real))) ]
  }

  const SessionColumns: seq<string> := ["User", "VoterCount", "VerStart", "DayNumber", "Day", "StartTime",
    "EndTime", "TotalMinutes", "TotalDuration", "Distance", "HouseholdCount", "GapDistanceKM", "GapTimeMinutes"]

  const TotalsColumns: seq<string> := ["User", "VoterCount", "HouseholdCount", "Distance", "TotalMinutes", "TotalDuration"]

  /**
   * Row i of a user is the row of cluster i given cluster i - 1: the gap
   * state starts empty for every user and then follows the previous cluster.
   */
  lemma {:induction false} UserRowsByIndex(user: string, cs: seq<Cluster>, fmt: Formats)
    ensures |UserRows(user, cs, fmt)| == |cs|
    ensures forall i {:trigger UserRows(user, cs, fmt)[i]} :: 0 <= i < |cs| ==>
      UserRows(user, cs, fmt)[i] == MakeRow(user, cs[i], GapAfter(PrevOf(cs, i), cs[i], fmt), fmt)
  {
    if cs != [] {
      var init := cs[..|cs| - 1];
      UserRowsByIndex(user, init, fmt);
      forall i | 0 <= i < |cs|
        ensures UserRows(user, cs, fmt)[i] == MakeRow(user, cs[i], GapAfter(PrevOf(cs, i), cs[i], fmt), fmt)
      {
        if i < |init| {
          assert UserRows(user, cs, fmt)[i] == UserRows(user, init, fmt)[i];
          assert init[i] == cs[i] && PrevOf(init, i) == PrevOf(cs, i);
        }
      }
    }
  }

  /**
   * The gap columns: a user's first cluster has no gap (NaN); every later one
   * has the rounded minutes since the previous cluster's end, and a distance
   * exactly when the previous cluster has an end location.
   */
  lemma SessionGaps(user: string, cs: seq<Cluster>, fmt: Formats, i: int)
    requires 0 <= i < |cs|
    ensures |UserRows(user, cs, fmt)| == |cs|
    ensures UserRows(user, cs, fmt)[i].gapTimeMinutes.None? <==> i == 0
    ensures i > 0 ==> UserRows(user, cs, fmt)[i].gapTimeMinutes == Some(RoundMinutes(EpochMs(cs[i].start) - EpochMs(cs[i - 1].end)))
    ensures UserRows(user, cs, fmt)[i].gapDistanceKm.Some? <==> i > 0 && cs[i - 1].geoEnd.Some?
    ensures UserRows(user, cs, fmt)[i].totalMinutes == RoundMinutes(EpochMs(cs[i].end) - EpochMs(cs[i].start))
    ensures UserRows(user, cs, fmt)[i].user == user
  {
    UserRowsByIndex(user, cs, fmt);
  }

  lemma {:induction false} AddAllAppend(t: Totals, a: seq<SessionRow>, b: seq<SessionRow>)
    ensures AddAll(t, a + b) == AddAll(AddAll(t, a), b)
    decreases |b|
  {
    if b == [] {
      assert a + b == a;
    } else {
      assert (a + b)[..|a + b| - 1] == a + b[..|b| - 1];
      AddAllAppend(t, a, b[..|b| - 1]);
    }
  }

  lemma {:induction false} UserSums(t: Totals, user: string, cs: seq<Cluster>, fmt: Formats, ps: seq<(string, Cluster)>)
    requires t == ClusterSums(ps)
    ensures AddAll(t, UserRows(user, cs, fmt)) == ClusterSums(ps + Tagged(user, cs))
  {
    if cs == [] {
      assert ps + Tagged(user, cs) == ps;
    } else {
      UserSums(t, user, cs[..|cs| - 1], fmt, ps);
      UserSumsStep(t, user, cs, fmt, ps);
    }
  }

  /** Adding the last cluster's row to the totals adds that cluster's sums. */
  lemma UserSumsStep(t: Totals, user: string, cs: seq<Cluster>, fmt: Formats, ps: seq<(string, Cluster)>)
    requires cs != []
    requires AddAll(t, UserRows(user, cs[..|cs| - 1], fmt)) == ClusterSums(ps + Tagged(user, cs[..|cs| - 1]))
    ensures AddAll(t, UserRows(user, cs, fmt)) == ClusterSums(ps + Tagged(user, cs))
  {
    var init := cs[..|cs| - 1];
    var c := cs[|cs| - 1];
    var row := MakeRow(user, c, GapAfter(PrevOf(cs, |cs| - 1), c, fmt), fmt);
    UserRowsSnoc(user, cs, |cs| - 1, fmt);
    assert cs[..|cs|] == cs;
    AddAllSnoc(t, UserRows(user, init, fmt), row);
    TaggedSnoc(user, cs);
    ClusterSumsSnoc(ps + Tagged(user, init), (user, c));
    assert ps + Tagged(user, cs) == (ps + Tagged(user, init)) + [(user, c)];
  }

  lemma ClusterSumsSnoc(ps: seq<(string, Cluster)>, p: (string, Cluster))
    ensures var t := ClusterSums(ps);
      ClusterSums(ps + [p]) == Totals(t.voterCount + p.1.uniqueCount, t.householdCount + p.1.householdCount,
                                      t.distance + p.1.totalDist, t.totalMinutes + RoundMinutes(DurationOf(p.1)))
  {
    assert (ps + [p])[..|ps|] == ps;
  }

  /**
   * The "Total" row sums the voters, households, distance and rounded minutes
   * of every cluster of every user.
   */
  lemma {:induction false} TotalsOfAllClusters(blocks: seq<UserClusters>, fmt: Formats)
    ensures AddAll(NoTotals, SessionRows(blocks, fmt)) == ClusterSums(Visits(blocks))
  {
    if blocks != [] {
      var init := blocks[..|blocks| - 1];
      var last := blocks[|blocks| - 1];
      TotalsOfAllClusters(init, fmt);
      assert SessionRows(blocks, fmt) == SessionRows(init, fmt) + UserRows(last.user, last.clusters, fmt);
      assert Visits(blocks) == Visits(init) + Tagged(last.user, last.clusters);
      AddAllAppend(NoTotals, SessionRows(init, fmt), UserRows(last.user, last.clusters, fmt));
      UserSums(ClusterSums(Visits(init)), last.user, last.clusters, fmt, Visits(init));
    }
  }

  lemma AddAllSnoc(t: Totals, rows: seq<SessionRow>, row: SessionRow)
    ensures AddAll(t, rows + [row]) == AddRow(AddAll(t, rows), row)
  {
    assert (rows + [row])[..|rows|] == rows;
  }

  lemma ToRowsAppend(a: seq<SessionRow>, b: seq<SessionRow>)
    ensures ToRows(a + b) == ToRows(a) + ToRows(b)
  {
  }

  /**
   * The columns are the first row's properties: the thirteen session fields,
   * or, when no user has a cluster, the six properties of the totals row.
   */
  lemma SessionTableColumns(rs: seq<SessionRow>, t: Totals, fmt: Formats)
    ensures Schema(None, ToRows(rs) + [TotalsRow(t, fmt)]) == Some(if rs == [] then TotalsColumns else SessionColumns)
  {
    var rows := ToRows(rs) + [TotalsRow(t, fmt)];
    if rs == [] {
      assert rows[0] == TotalsRow(t, fmt);
      assert Names(rows[0]) == TotalsColumns;
    } else {
      assert rows[0] == ToRow(rs[0]);
      assert Names(rows[0]) == SessionColumns;
    }
  }

  lemma UserRowsSnoc(user: string, cs: seq<Cluster>, i: int, fmt: Formats)
    requires 0 <= i < |cs|
    ensures UserRows(user, cs[..i + 1], fmt) == UserRows(user, cs[..i], fmt) + [MakeRow(user, cs[i], GapAfter(PrevOf(cs, i), cs[i], fmt), fmt)]
  {
    assert cs[..i + 1][..i] == cs[..i];
    assert PrevOf(cs[..i + 1], i) == PrevOf(cs, i);
  }

  /** One more cluster of a user: one more row, one more table row, one more addition to the totals. */
  lemma UserStep(user: string, cs: seq<Cluster>, i: int, fmt: Formats, t0: Totals)
    requires 0 <= i < |cs|
    ensures var row := MakeRow(user, cs[i], GapAfter(PrevOf(cs, i), cs[i], fmt), fmt);
      ToRows(UserRows(user, cs[..i + 1], fmt)) == ToRows(UserRows(user, cs[..i], fmt)) + [ToRow(row)]
      && AddAll(t0, UserRows(user, cs[..i + 1], fmt)) == AddRow(AddAll(t0, UserRows(user, cs[..i], fmt)), row)
  {
    var row := MakeRow(user, cs[i], GapAfter(PrevOf(cs, i), cs[i], fmt), fmt);
    var done := UserRows(user, cs[..i], fmt);
    UserRowsSnoc(user, cs, i, fmt);
    AddAllSnoc(t0, done, row);
    ToRowsAppend(done, [row]);
  }

  /** The row of one cluster, built field by field as the loop body does. */
  method BuildRow(user: string, c: Cluster, lastLoc: Option<Geo>, lastTime: Option<Instant>, fmt: Formats,
                  ghost prev: Option<Cluster>)
    returns (row: SessionRow)
    requires lastTime == if prev.None? then None else Some(prev.value.end)
    requires lastLoc == if prev.None? then None else prev.value.geoEnd
    ensures row == MakeRow(user, c, GapAfter(prev, c, fmt), fmt)
  {
    var trStart := fmt.roundToDay(c.start);
    var gapDistance: Option<real> := None;
    if lastLoc.Some? {
      gapDistance := Some(fmt.distanceKm(lastLoc.value, c.geoStart));
    }
    var gapTime: Option<int> := None;
    if lastTime.Some? {
      gapTime := Some(RoundMinutes(DurationMs(lastTime.value, c.start)));
    }
    row := SessionRow(
      user, c.uniqueCount, EpochMs(c.start), ClusterTarget(user, c, fmt),
      SortableDay(trStart), fmt.dateString(trStart), fmt.timeString(c.start), fmt.timeString(c.end),
      RoundMinutes(DurationOf(c)), fmt.prettySeconds(DurationOf(c) as real / 1000.0),
      c.totalDist, c.householdCount, gapDistance, gapTime);
  }

  /** The body of the inner forEach: the row of cluster i written and added to the totals. */
  method WriteCluster(tw: TableWriter, user: string, cs: seq<Cluster>, i: int, fmt: Formats, t0: Totals,
                      t: Totals, lastLoc: Option<Geo>, lastTime: Option<Instant>, ghost w0: seq<Row>)
    returns (t': Totals, lastLoc': Option<Geo>, lastTime': Option<Instant>)
    requires 0 <= i < |cs| && tw.Valid()
    requires tw.written == w0 + ToRows(UserRows(user, cs[..i], fmt))
    requires t == AddAll(t0, UserRows(user, cs[..i], fmt))
    requires lastTime == if i == 0 then None else Some(cs[i - 1].end)
    requires lastLoc == if i == 0 then None else cs[i - 1].geoEnd
    modifies tw
    ensures tw.Valid()
    ensures tw.written == w0 + ToRows(UserRows(user, cs[..i + 1], fmt))
    ensures t' == AddAll(t0, UserRows(user, cs[..i + 1], fmt))
    ensures lastTime' == Some(cs[i].end) && lastLoc' == cs[i].geoEnd
  {
    var c := cs[i];
    var row := BuildRow(user, c, lastLoc, lastTime, fmt, PrevOf(cs, i));
    UserStep(user, cs, i, fmt, t0);
    lastTime' := Some(c.end);
    lastLoc' := c.geoEnd;
    t' := AddRow(t, row);
    tw.WriteRow(ToRow(row));
  }

  /** The inner forEach: one user's clusters, with the gap state fresh for this user. */
  method WriteUser(tw: TableWriter, user: string, cs: seq<Cluster>, fmt: Formats, t0: Totals)
    returns (t: Totals)
    requires tw.Valid()
    modifies tw
    ensures tw.Valid()
    ensures tw.written == old(tw.written) + ToRows(UserRows(user, cs, fmt))
    ensures t == AddAll(t0, UserRows(user, cs, fmt))
  {
    var lastLoc: Option<Geo> := None;
    var lastTime: Option<Instant> := None;
    t := t0;
    var i := 0;
    while i < |cs|
      invariant 0 <= i <= |cs|
      invariant tw.Valid()
      invariant tw.written == old(tw.written) + ToRows(UserRows(user, cs[..i], fmt))
      invariant t == AddAll(t0, UserRows(user, cs[..i], fmt))
      invariant lastTime == if i == 0 then None else Some(cs[i - 1].end)
      invariant lastLoc == if i == 0 then None else cs[i - 1].geoEnd
    {
      t, lastLoc, lastTime := WriteCluster(tw, user, cs, i, fmt, t0, t, lastLoc, lastTime, old(tw.written));
      i := i + 1;
    }
    assert cs[..i] == cs;
  }

  /**
   * ShowSessionList.render: every user's rows, then the "Total" row; the
   * columns are those of the first row written.
   */
  method RenderSessionList(blocks: seq<UserClusters>, fmt: Formats) returns (tw: TableWriter, totals: Totals)
    ensures fresh(tw) && tw.Valid() && tw.explicit == None
    ensures totals == AddAll(NoTotals, SessionRows(blocks, fmt))
    ensures tw.written == ToRows(SessionRows(blocks, fmt)) + [TotalsRow(totals, fmt)]
  {
    tw := new TableWriter(None);
    totals := NoTotals;
    var b := 0;
    while b < |blocks|
      invariant 0 <= b <= |blocks|
      invariant fresh(tw) && tw.Valid() && tw.explicit == None
      invariant tw.written == ToRows(SessionRows(blocks[..b], fmt))
      invariant totals == AddAll(NoTotals, SessionRows(blocks[..b], fmt))
    {
      var blk := blocks[b];
      var before := SessionRows(blocks[..b], fmt);
      totals := WriteUser(tw, blk.user, blk.clusters, fmt, totals);
      assert blocks[..b + 1][..b] == blocks[..b];
      assert SessionRows(blocks[..b + 1], fmt) == before + UserRows(blk.user, blk.clusters, fmt);
      ToRowsAppend(before, UserRows(blk.user, blk.clusters, fmt));
      AddAllAppend(NoTotals, before, UserRows(blk.user, blk.clusters, fmt));
      b := b + 1;
    }
    assert blocks[..b] == blocks;
    tw.WriteRow(TotalsRow(totals, fmt));
  }
}
