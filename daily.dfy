// The daily report: every cluster's duration is added to the cell of its user
// and its local start day; the table has a column per day (sorted), a row per
// user with that user's total, and a TOTAL row with each day's total and the
// grand total. Each non-empty cell is a button that opens the session list of
// that user on that day.
module Daily {
  import opened Wrappers
  import opened JsText
  import opened Keys
  import opened Modes
  import opened Dates
  import opened Activity
  import opened Table
  import opened Sums

  /** A cell of the report: the user and the day as YYYYMMDD. */
  type DayKey = (string, int)

  /** The cell a cluster belongs to: its user and the day key of its local start day. */
  function KeyOf(user: string, c: Cluster): DayKey
  {
    (user, SortableDay(LocalStartDay(c.start)))
  }

  /** Every visited cluster as the key of its cell and its duration in milliseconds. */
  function Durations(ps: seq<(string, Cluster)>): (ds: seq<(DayKey, int)>)
    ensures |ds| == |ps|
    ensures forall i :: 0 <= i < |ps| ==> ds[i] == (KeyOf(ps[i].0, ps[i].1), DurationOf(ps[i].1))
  {
    seq(|ps|, i requires 0 <= i < |ps| => (KeyOf(ps[i].0, ps[i].1), DurationOf(ps[i].1)))
  }

  /** What a DailyX holds: its accumulated milliseconds and the start of its day. */
  datatype DayCell = DayCell(ms: int, start: Instant)

  /**
   * The cells after visiting ps: the first cluster of a key creates its cell
   * on that cluster's local start day; every cluster adds its duration.
   */
  function DailyCells(ps: seq<(string, Cluster)>): map<DayKey, DayCell>
  {
    if ps == [] then map[]
    else
      var m := DailyCells(ps[..|ps| - 1]);
      var p := ps[|ps| - 1];
      var k := KeyOf(p.0, p.1);
      if k in m then m[k := m[k].(ms := m[k].ms + DurationOf(p.1))]
      else m[k := DayCell(DurationOf(p.1), LocalStartDay(p.1.start))]
  }

  /** The milliseconds of each cell. */
  function MsOf(cells: map<DayKey, DayCell>): map<DayKey, int>
  {
    map k | k in cells :: cells[k].ms
  }

  /** The minutes each cell shows: its milliseconds rounded to the nearest minute. */
  function MinutesOf(cells: map<DayKey, DayCell>): map<DayKey, int>
  {
    map k | k in cells :: RoundMinutes(cells[k].ms)
  }

  lemma DailyCellsSnoc(ps: seq<(string, Cluster)>, user: string, c: Cluster)
    ensures var m := DailyCells(ps);
      var k := KeyOf(user, c);
      DailyCells(ps + [(user, c)])
        == if k in m then m[k := m[k].(ms := m[k].ms + DurationOf(c))]
           else m[k := DayCell(DurationOf(c), LocalStartDay(c.start))]
  {
    assert (ps + [(user, c)])[..|ps|] == ps;
  }

  /** The milliseconds of the cells are the tally of the durations by key. */
  lemma {:induction false} DailyCellsTally(ps: seq<(string, Cluster)>)
    ensures MsOf(DailyCells(ps)) == Tally(Durations(ps))
  {
    if ps != [] {
      var init := ps[..|ps| - 1];
      DailyCellsTally(init);
      assert Durations(ps)[..|ps| - 1] == Durations(init);
    }
  }

  /** A cell's day starts at local midnight of the day in its key. */
  lemma {:induction false} DailyCellsStart(ps: seq<(string, Cluster)>)
    ensures forall k :: k in DailyCells(ps) ==>
      SortableDay(DailyCells(ps)[k].start) == k.1 && DailyCells(ps)[k].start.msOfDay == 0
  {
    if ps != [] {
      DailyCellsStart(ps[..|ps| - 1]);
    }
  }

  /** The keys of one user's row, day by day. */
  function RowKeys(user: string, days: seq<int>): (ks: seq<DayKey>)
    ensures |ks| == |days|
    ensures forall j :: 0 <= j < |days| ==> ks[j] == (user, days[j])
  {
    seq(|days|, j requires 0 <= j < |days| => (user, days[j]))
  }

  /** The keys of one day's column, user by user. */
  function ColKeys(users: seq<string>, day: int): (ks: seq<DayKey>)
    ensures |ks| == |users|
    ensures forall i :: 0 <= i < |users| ==> ks[i] == (users[i], day)
  {
    seq(|users|, i requires 0 <= i < |users| => (users[i], day))
  }

  /** Every (user, day) key, row after row. */
  function Grid(users: seq<string>, days: seq<int>): seq<DayKey>
  {
    if users == [] then [] else RowKeys(users[0], days) + Grid(users[1..], days)
  }

  /** The sum of the row sums. */
  function GridSum(m: map<DayKey, int>, users: seq<string>, days: seq<int>): int
  {
    if users == [] then 0 else SumOver(m, RowKeys(users[0], days)) + GridSum(m, users[1..], days)
  }

  /** The sum of the column sums. */
  function ColumnsSum(m: map<DayKey, int>, users: seq<string>, days: seq<int>): int
  {
    if days == [] then 0 else SumOver(m, ColKeys(users, days[0])) + ColumnsSum(m, users, days[1..])
  }

  lemma {:induction false} GridSumIsSumOver(m: map<DayKey, int>, users: seq<string>, days: seq<int>)
    ensures GridSum(m, users, days) == SumOver(m, Grid(users, days))
  {
    if users != [] {
      GridSumIsSumOver(m, users[1..], days);
      SumOverAppend(m, RowKeys(users[0], days), Grid(users[1..], days));
    }
  }

  /** The grid of distinct users and distinct days lists every key once. */
  lemma {:induction false} GridDistinct(users: seq<string>, days: seq<int>)
    requires Distinct(users) && Distinct(days)
    ensures Distinct(Grid(users, days))
    ensures forall k :: k in Grid(users, days) <==> k.0 in users && k.1 in days
  {
    if users != [] {
      var tail := users[1..];
      assert Distinct(tail) by {
        forall i, j | 0 <= i < j < |tail| ensures tail[i] != tail[j] {
          assert tail[i] == users[i + 1] && tail[j] == users[j + 1];
        }
      }
      GridDistinct(tail, days);
      var row := RowKeys(users[0], days);
      var rest := Grid(tail, days);
      assert users[0] !in tail by {
        forall i | 0 <= i < |tail| ensures tail[i] != users[0] {
          assert tail[i] == users[i + 1];
        }
      }
      assert Grid(users, days) == row + rest;
      forall i, j | 0 <= i < j < |row + rest| ensures (row + rest)[i] != (row + rest)[j] {
        if j < |row| {
          assert row[i] == (users[0], days[i]) && row[j] == (users[0], days[j]);
        } else if i < |row| {
          assert (row + rest)[j] == rest[j - |row|];
          assert rest[j - |row|] in rest;
        } else {
          assert (row + rest)[i] == rest[i - |row|] && (row + rest)[j] == rest[j - |row|];
        }
      }
      forall k ensures k in row + rest <==> k.0 in users && k.1 in days {
        if k.0 in users && k.1 in days {
          if k.0 == users[0] {
            var j :| 0 <= j < |days| && days[j] == k.1;
            assert row[j] == k;
          } else {
            var i :| 0 <= i < |users| && users[i] == k.0;
            assert tail[i - 1] == k.0;
            assert k in rest;
          }
        }
        if k in row {
          var j :| 0 <= j < |row| && row[j] == k;
          assert k.0 == users[0] && k.1 == days[j];
        }
      }
    }
  }

  /**
   * The sum of a user's row sums equals the sum of the day's column sums:
   * the grand total can be read either way.
   */
  lemma {:induction false} RowsEqualColumns(m: map<DayKey, int>, users: seq<string>, days: seq<int>)
    ensures GridSum(m, users, days) == ColumnsSum(m, users, days)
  {
    if users == [] {
      ColumnsOfNoUsers(m, days);
    } else {
      RowsEqualColumns(m, users[1..], days);
      PeelFirstUser(m, users, days);
    }
  }

  lemma {:induction false} ColumnsOfNoUsers(m: map<DayKey, int>, days: seq<int>)
    ensures ColumnsSum(m, [], days) == 0
  {
    if days != [] {
      ColumnsOfNoUsers(m, days[1..]);
    }
  }

  /** Each column sum splits into the first user's cell and the other users' column sum. */
  lemma {:induction false} PeelFirstUser(m: map<DayKey, int>, users: seq<string>, days: seq<int>)
    requires users != []
    ensures ColumnsSum(m, users, days) == SumOver(m, RowKeys(users[0], days)) + ColumnsSum(m, users[1..], days)
  {
    if days != [] {
      PeelFirstUser(m, users, days[1..]);
      assert ColKeys(users, days[0]) == [(users[0], days[0])] + ColKeys(users[1..], days[0]);
      assert RowKeys(users[0], days)[1..] == RowKeys(users[0], days[1..]);
    }
  }

  /**
   * Conservation: over the user and day lists of the report, the cells'
   * milliseconds add up to the durations of all visited clusters.
   */
  lemma DailyConservation(ps: seq<(string, Cluster)>, users: seq<string>, days: seq<int>)
    requires Distinct(users) && Distinct(days)
    requires forall k :: k in DailyCells(ps) ==> k.0 in users && k.1 in days
    ensures GridSum(MsOf(DailyCells(ps)), users, days) == Total(Durations(ps))
  {
    DailyCellsTally(ps);
    GridSumIsSumOver(MsOf(DailyCells(ps)), users, days);
    GridDistinct(users, days);
    TallyKeys(Durations(ps));
    forall k | k in KeysOf(Durations(ps)) ensures k in Grid(users, days) {
      assert k in Tally(Durations(ps)).Keys;
    }
    TallySum(Durations(ps), Grid(users, days));
  }

  predicate Increasing(s: seq<int>)
  {
    forall i, j :: 0 <= i < j < |s| ==> s[i] < s[j]
  }

  function InsertDay(x: int, s: seq<int>): (r: seq<int>)
    requires Increasing(s) && x !in s
    ensures Increasing(r) && |r| == |s| + 1
    ensures forall y :: y in r <==> y == x || y in s
  {
    if s == [] then [x]
    else if x < s[0] then [x] + s
    else
      var t := InsertDay(x, s[1..]);
      assert forall y :: y in s[1..] ==> s[0] < y by {
        forall y | y in s[1..] ensures s[0] < y {
          var j :| 0 <= j < |s[1..]| && s[1..][j] == y;
          assert s[j + 1] == y;
        }
      }
      var r := [s[0]] + t;
      forall i, j | 0 <= i < j < |r| ensures r[i] < r[j] {
        assert r[j] == t[j - 1] && r[j] in t;
        if i > 0 {
          assert r[i] == t[i - 1];
        }
      }
      r
  }

  /** days.sort(): the distinct day keys in increasing order. */
  function SortDays(xs: seq<int>): (r: seq<int>)
    requires Distinct(xs)
    ensures Increasing(r) && |r| == |xs|
    ensures forall y :: y in r <==> y in xs
  {
    if xs == [] then []
    else
      var init := xs[..|xs| - 1];
      assert Distinct(init) by {
        forall i, j | 0 <= i < j < |init| ensures init[i] != init[j] {
          assert init[i] == xs[i] && init[j] == xs[j];
        }
      }
      assert xs[|xs| - 1] !in init;
      assert forall y :: y in xs <==> y in init || y == xs[|xs| - 1] by {
        assert xs == init + [xs[|xs| - 1]];
      }
      InsertDay(xs[|xs| - 1], SortDays(init))
  }

  /** The mode behind a cell: the sessions of that user from the start to the last millisecond of the day. */
  function CellMode(user: string, start: Instant, fmt: Formats): Mode
  {
    ShowSessionList(SetTimeRange(SetUser(NoFilter, user), fmt.iso(start), fmt.iso(LastMsOfDay(start))))
  }

  /** One cell of the report: a DailyX. */
  class DailyX {
    const user: string
    const rangeStart: Instant
    const rangeEnd: Instant
    var ms: int

    constructor(user: string, day: Instant)
      ensures this.user == user && rangeStart == LocalStartDay(day) && rangeEnd == LastMsOfDay(rangeStart)
      ensures ms == 0
    {
      this.user := user;
      var start := LocalStartDay(day);
      rangeStart := start;
      rangeEnd := LastMsOfDay(start);
      ms := 0;
    }

    /** build: adds the cluster's duration. */
    method Build(c: Cluster)
      modifies this
      ensures ms == old(ms) + DurationOf(c)
    {
      ms := ms + DurationOf(c);
    }

    /** getMinutes */
    function Minutes(): int
      reads this
    {
      RoundMinutes(ms)
    }

    /** toString: the rounded minutes as decimal text. */
    function ToString(): string
      reads this
    {
      IntToString(Minutes())
    }

    /** getMode */
    function GetMode(fmt: Formats): Mode
      reads this
    {
      ShowSessionList(SetTimeRange(SetUser(NoFilter, user), fmt.iso(rangeStart), fmt.iso(rangeEnd)))
    }
  }

  /** Each DailyX sits under its own user and day, over the day of its cell. */
  predicate Keyed(d: map<DayKey, DailyX>, cells: map<DayKey, DayCell>)
  {
    d.Keys == cells.Keys
    && forall k :: k in d ==>
      d[k].user == k.0 && SortableDay(d[k].rangeStart) == k.1
      && d[k].rangeStart == cells[k].start && d[k].rangeEnd == LastMsOfDay(cells[k].start)
  }

  /** Each DailyX holds the milliseconds of its cell. */
  ghost predicate Holds(d: map<DayKey, DailyX>, cells: map<DayKey, DayCell>)
    requires d.Keys == cells.Keys
    reads set k | k in d :: d[k]
  {
    forall k :: k in d ==> d[k].ms == cells[k].ms
  }

  /** The DailyX objects hold exactly the cells, each under its own key. */
  ghost predicate Mirrors(d: map<DayKey, DailyX>, cells: map<DayKey, DayCell>)
    reads set k | k in d :: d[k]
  {
    Keyed(d, cells) && Holds(d, cells)
  }

  function KeyUsers(keys: set<DayKey>): set<string>
  {
    set k | k in keys :: k.0
  }

  function KeyDays(keys: set<DayKey>): set<int>
  {
    set k | k in keys :: k.1
  }

  /** Adds an element to a list of distinct elements unless it is already there. */
  method AddNew<T(==)>(xs: seq<T>, x: T) returns (r: seq<T>)
    requires Distinct(xs)
    ensures Distinct(r) && forall y :: y in r <==> y in xs || y == x
  {
    r := xs;
    if x !in xs {
      r := xs + [x];
    }
  }

  /** The bucketing step for one cluster: find or create its DailyX and add the duration. */
  method Visit(d: map<DayKey, DailyX>, user: string, c: Cluster, ghost ps: seq<(string, Cluster)>)
    returns (d': map<DayKey, DailyX>)
    requires Mirrors(d, DailyCells(ps))
    modifies set k | k in d :: d[k]
    ensures Mirrors(d', DailyCells(ps + [(user, c)]))
    ensures d'.Keys == d.Keys + {KeyOf(user, c)}
    ensures forall k :: k in d' ==> (k in d && d'[k] == d[k]) || fresh(d'[k])
  {
    if KeyOf(user, c) in d {
      VisitExisting(d, user, c, ps);
      d' := d;
    } else {
      d' := VisitNew(d, user, c, ps);
    }
  }

  /** A cluster on a day the user already has: its DailyX adds the duration. */
  method VisitExisting(d: map<DayKey, DailyX>, user: string, c: Cluster, ghost ps: seq<(string, Cluster)>)
    requires Mirrors(d, DailyCells(ps)) && KeyOf(user, c) in d
    modifies set k | k in d :: d[k]
    ensures Mirrors(d, DailyCells(ps + [(user, c)]))
  {
    var trStart := LocalStartDay(c.start);
    var key := (user, SortableDay(trStart));
    ghost var cells := DailyCells(ps);
    ghost var cells' := DailyCells(ps + [(user, c)]);
    DailyCellsSnoc(ps, user, c);
    assert forall k :: k in d ==> d[k].ms == cells[k].ms;
    var status := d[key];
    assert cells' == cells[key := cells[key].(ms := cells[key].ms + DurationOf(c))];
    status.Build(c);
    forall k | k in d ensures d[k].ms == cells'[k].ms {
      if k != key {
        assert d[k] != status;
      }
    }
    assert Keyed(d, cells');
    assert Holds(d, cells');
  }

  /** A cluster on a new day of the user: a fresh DailyX over that day holds its duration. */
  method VisitNew(d: map<DayKey, DailyX>, user: string, c: Cluster, ghost ps: seq<(string, Cluster)>)
    returns (d': map<DayKey, DailyX>)
    requires Mirrors(d, DailyCells(ps)) && KeyOf(user, c) !in d
    ensures Mirrors(d', DailyCells(ps + [(user, c)]))
    ensures d'.Keys == d.Keys + {KeyOf(user, c)}
    ensures forall k :: k in d' ==> (k in d && d'[k] == d[k]) || fresh(d'[k])
  {
    var trStart := LocalStartDay(c.start);
    var key := (user, SortableDay(trStart));
    LocalStartDayIdempotent(c.start);
    DailyCellsSnoc(ps, user, c);
    var status := new DailyX(user, trStart);
    status.Build(c);
    d' := d[key := status];
    MirrorsInsert(d, DailyCells(ps), key, status, DayCell(DurationOf(c), LocalStartDay(c.start)));
  }

  /** A new key, with a DailyX that matches its new cell, keeps the objects mirroring the cells. */
  lemma MirrorsInsert(d: map<DayKey, DailyX>, cells: map<DayKey, DayCell>, key: DayKey, x: DailyX, cell: DayCell)
    requires Mirrors(d, cells) && key !in d
    requires x.user == key.0 && SortableDay(x.rangeStart) == key.1
    requires x.rangeStart == cell.start && x.rangeEnd == LastMsOfDay(cell.start) && x.ms == cell.ms
    ensures Mirrors(d[key := x], cells[key := cell])
  {
    var d', cells' := d[key := x], cells[key := cell];
    assert forall k :: k in d ==> d[k].ms == cells[k].ms;
    forall k | k in d' ensures d'[k].ms == cells'[k].ms {
      if k != key {
        assert d'[k] == d[k] && cells'[k] == cells[k];
      }
    }
    assert Keyed(d', cells');
    assert Holds(d', cells');
  }

  /** The users and the days of the keys, each listed once. */
  ghost predicate Listed(keys: set<DayKey>, users: seq<string>, found: seq<int>)
  {
    Distinct(users) && (forall u :: u in users <==> u in KeyUsers(keys))
    && Distinct(found) && (forall n :: n in found <==> n in KeyDays(keys))
  }

  /** The inner loop of the bucketing: one user's clusters, in order. */
  method BucketUser(d: map<DayKey, DailyX>, users: seq<string>, found: seq<int>,
                    user: string, cs: seq<Cluster>, ghost before: seq<(string, Cluster)>)
    returns (d': map<DayKey, DailyX>, users': seq<string>, found': seq<int>)
    requires Mirrors(d, DailyCells(before))
    requires Listed(d.Keys, users, found)
    modifies set k | k in d :: d[k]
    ensures Mirrors(d', DailyCells(before + Tagged(user, cs)))
    ensures Listed(d'.Keys, users', found')
    ensures forall k :: k in d' ==> (k in d && d'[k] == d[k]) || fresh(d'[k])
  {
    d', users', found' := d, users, found;
    assert before + Tagged(user, cs[..0]) == before;
    var i := 0;
    while i < |cs|
      invariant 0 <= i <= |cs|
      invariant forall k :: k in d' ==> (k in d && d'[k] == d[k]) || fresh(d'[k])
      invariant Mirrors(d', DailyCells(before + Tagged(user, cs[..i])))
      invariant Listed(d'.Keys, users', found')
    {
      ghost var ps := before + Tagged(user, cs[..i]);
      var c := cs[i];
      d' := Visit(d', user, c, ps);
      var key := KeyOf(user, c);
      users' := AddNew(users', user);
      found' := AddNew(found', key.1);
      KeysGrow(d'.Keys, key);
      TaggedStep(before, user, cs, i);
      i := i + 1;
    }
    assert cs[..i] == cs;
  }

  /**
   * The bucketing loops of ShowDailyReport.render: a DailyX per (user, day)
   * key, created on first use; the users and days are the keys in the order
   * they first occur, the days then sorted.
   */
  method BucketClusters(blocks: seq<UserClusters>)
    returns (d: map<DayKey, DailyX>, users: seq<string>, days: seq<int>)
    ensures forall k :: k in d ==> fresh(d[k])
    ensures Mirrors(d, DailyCells(Visits(blocks)))
    ensures Distinct(users) && forall u :: u in users <==> u in KeyUsers(d.Keys)
    ensures Increasing(days) && forall n :: n in days <==> n in KeyDays(d.Keys)
  {
    d := map[];
    users := [];
    var found: seq<int> := [];
    var b := 0;
    while b < |blocks|
      invariant 0 <= b <= |blocks|
      invariant forall k :: k in d ==> fresh(d[k])
      invariant Mirrors(d, DailyCells(Visits(blocks[..b])))
      invariant Listed(d.Keys, users, found)
    {
      ghost var before := Visits(blocks[..b]);
      d, users, found := BucketUser(d, users, found, blocks[b].user, blocks[b].clusters, before);
      assert blocks[..b + 1][..b] == blocks[..b];
      assert Visits(blocks[..b + 1]) == before + Tagged(blocks[b].user, blocks[b].clusters);
      b := b + 1;
    }
    assert blocks[..b] == blocks;
    days := SortDays(found);
  }

  /** The column names: User, each day key in order, Total. */
  function DailyColumns(days: seq<int>): (cols: seq<string>)
    ensures |cols| == |days| + 2
    ensures cols[0] == "User" && cols[|cols| - 1] == "Total"
    ensures forall j :: 0 <= j < |days| ==> cols[j + 1] == IntToString(days[j])
  {
    ["User"] + seq(|days|, j requires 0 <= j < |days| => IntToString(days[j])) + ["Total"]
  }

  /** The value of a user's cell for one day: "" without activity, else the rounded minutes as a button. */
  function CellValue(cells: map<DayKey, DayCell>, user: string, day: int, fmt: Formats): Value
  {
    if (user, day) in cells then
      var cell := cells[(user, day)];
      Click(Str(IntToString(RoundMinutes(cell.ms))), CellMode(user, cell.start, fmt))
    else Str("")
  }

  /** A user's total: the sum of the user's rounded cell minutes. */
  function UserTotal(cells: map<DayKey, DayCell>, user: string, days: seq<int>): int
  {
    SumOver(MinutesOf(cells), RowKeys(user, days))
  }

  /** A day's total: the sum of the day's rounded cell minutes over the users. */
  function DayTotal(cells: map<DayKey, DayCell>, users: seq<string>, day: int): int
  {
    SumOver(MinutesOf(cells), ColKeys(users, day))
  }

  function DayFields(cells: map<DayKey, DayCell>, user: string, days: seq<int>, fmt: Formats): (fs: Row)
    ensures |fs| == |days|
    ensures forall j :: 0 <= j < |days| ==> fs[j] == Field(IntToString(days[j]), CellValue(cells, user, days[j], fmt))
  {
    seq(|days|, j requires 0 <= j < |days| => Field(IntToString(days[j]), CellValue(cells, user, days[j], fmt)))
  }

  /** The row of one user: the user, a cell per day, the user's total. */
  function UserRow(cells: map<DayKey, DayCell>, user: string, days: seq<int>, fmt: Formats): Row
  {
    [Field("User", Str(user))] + DayFields(cells, user, days, fmt)
    + [Field("Total", Num(UserTotal(cells, user, days) as real))]
  }

  function TotalFields(cells: map<DayKey, DayCell>, users: seq<string>, days: seq<int>): (fs: Row)
    ensures |fs| == |days|
    ensures forall j :: 0 <= j < |days| ==> fs[j] == Field(IntToString(days[j]), Num(DayTotal(cells, users, days[j]) as real))
  {
    seq(|days|, j requires 0 <= j < |days| => Field(IntToString(days[j]), Num(DayTotal(cells, users, days[j]) as real)))
  }

  /** The TOTAL row: each day's total and the grand total. */
  function TotalRow(cells: map<DayKey, DayCell>, users: seq<string>, days: seq<int>): Row
  {
    [Field("User", Str("TOTAL"))] + TotalFields(cells, users, days)
    + [Field("Total", Num(GridSum(MinutesOf(cells), users, days) as real))]
  }

  function DailyRows(cells: map<DayKey, DayCell>, users: seq<string>, days: seq<int>, fmt: Formats): (rows: seq<Row>)
    ensures |rows| == |users|
    ensures forall i :: 0 <= i < |users| ==> rows[i] == UserRow(cells, users[i], days, fmt)
  {
    seq(|users|, i requires 0 <= i < |users| => UserRow(cells, users[i], days, fmt))
  }

  /** A day column's name is neither "User" nor "Total", and different days have different names. */
  lemma DayNames(a: int, b: int)
    ensures IntToString(a) != "User" && IntToString(a) != "Total"
    ensures IntToString(a) == IntToString(b) <==> a == b
  {
    var s := IntToString(a);
    assert IsDigit(s[0]) || s[0] == '-';
    assert "User"[0] == 'U' && "Total"[0] == 'T';
    if IntToString(a) == IntToString(b) {
      ParseIntOfIntToString(a);
      ParseIntOfIntToString(b);
    }
  }

  /**
   * Reading a row of the form User, one field per day, Total by column name
   * gives the value stored for that column.
   */
  lemma ReadRow(first: Value, fs: Row, last: Value, days: seq<int>)
    requires Distinct(days) && |fs| == |days|
    requires forall j :: 0 <= j < |days| ==> fs[j].name == IntToString(days[j])
    ensures var row := [Field("User", first)] + fs + [Field("Total", last)];
      Property(row, "User") == first && Property(row, "Total") == last
      && forall j :: 0 <= j < |days| ==> Property(row, IntToString(days[j])) == fs[j].value
  {
    var row := [Field("User", first)] + fs + [Field("Total", last)];
    forall j | 0 <= j < |days| ensures Property(row, IntToString(days[j])) == fs[j].value {
      DayNames(days[j], days[j]);
      forall i | 0 <= i < j + 1 ensures row[i].name != IntToString(days[j]) {
        if i > 0 {
          DayNames(days[i - 1], days[j]);
        }
      }
      assert row[j + 1] == fs[j];
    }
    forall i | 0 <= i < |row| - 1 ensures row[i].name != "Total" {
      if i > 0 {
        DayNames(days[i - 1], 0);
      }
    }
    assert row[|row| - 1] == Field("Total", last);
  }

  /** What the table shows in a user's row: the user, each day's cell, and the user's total. */
  lemma UserLineShows(cells: map<DayKey, DayCell>, user: string, days: seq<int>, fmt: Formats)
    requires Distinct(days)
    ensures var line := RowCells(DailyColumns(days), UserRow(cells, user, days, fmt));
      |line| == |days| + 2
      && line[0] == CellOf(Str(user))
      && line[|days| + 1] == CellOf(Num(UserTotal(cells, user, days) as real))
      && forall j :: 0 <= j < |days| ==> line[j + 1] == CellOf(CellValue(cells, user, days[j], fmt))
  {
    ReadRow(Str(user), DayFields(cells, user, days, fmt), Num(UserTotal(cells, user, days) as real), days);
  }

  /** What the table shows in the TOTAL row: each day's total and the grand total. */
  lemma TotalLineShows(cells: map<DayKey, DayCell>, users: seq<string>, days: seq<int>)
    requires Distinct(days)
    ensures var line := RowCells(DailyColumns(days), TotalRow(cells, users, days));
      |line| == |days| + 2
      && line[0] == Text(Str("TOTAL"))
      && line[|days| + 1] == CellOf(Num(GridSum(MinutesOf(cells), users, days) as real))
      && forall j :: 0 <= j < |days| ==> line[j + 1] == CellOf(Num(DayTotal(cells, users, days[j]) as real))
  {
    ReadRow(Str("TOTAL"), TotalFields(cells, users, days), Num(GridSum(MinutesOf(cells), users, days) as real), days);
  }

  /**
   * The grand total of the TOTAL row is both the sum of the users' totals and
   * the sum of the days' totals.
   */
  lemma GrandTotalAgrees(cells: map<DayKey, DayCell>, users: seq<string>, days: seq<int>)
    ensures GridSum(MinutesOf(cells), users, days) == SumOfUserTotals(cells, users, days)
    ensures GridSum(MinutesOf(cells), users, days) == SumOfDayTotals(cells, users, days)
  {
    RowsEqualColumns(MinutesOf(cells), users, days);
    UserTotalsSum(cells, users, days);
    DayTotalsSum(cells, users, days);
  }

  function SumOfUserTotals(cells: map<DayKey, DayCell>, users: seq<string>, days: seq<int>): int
  {
    if users == [] then 0 else UserTotal(cells, users[0], days) + SumOfUserTotals(cells, users[1..], days)
  }

  function SumOfDayTotals(cells: map<DayKey, DayCell>, users: seq<string>, days: seq<int>): int
  {
    if days == [] then 0 else DayTotal(cells, users, days[0]) + SumOfDayTotals(cells, users, days[1..])
  }

  lemma {:induction false} UserTotalsSum(cells: map<DayKey, DayCell>, users: seq<string>, days: seq<int>)
    ensures SumOfUserTotals(cells, users, days) == GridSum(MinutesOf(cells), users, days)
  {
    if users != [] {
      UserTotalsSum(cells, users[1..], days);
    }
  }

  lemma {:induction false} DayTotalsSum(cells: map<DayKey, DayCell>, users: seq<string>, days: seq<int>)
    ensures SumOfDayTotals(cells, users, days) == ColumnsSum(MinutesOf(cells), users, days)
  {
    if days != [] {
      DayTotalsSum(cells, users, days[1..]);
    }
  }

  lemma SumOverSnoc<K>(m: map<K, int>, ks: seq<K>, k: K)
    ensures SumOver(m, ks + [k]) == SumOver(m, ks) + Get0(m, k)
  {
    SumOverAppend(m, ks, [k]);
    assert [k][1..] == [];
  }

  lemma {:induction false} GridSumSnoc(m: map<DayKey, int>, users: seq<string>, user: string, days: seq<int>)
    ensures GridSum(m, users + [user], days) == GridSum(m, users, days) + SumOver(m, RowKeys(user, days))
  {
    if users != [] {
      assert (users + [user])[1..] == users[1..] + [user];
      GridSumSnoc(m, users[1..], user, days);
    } else {
      assert [user][1..] == [];
    }
  }

  /** One cell of a user's row: its minutes (0 without activity) and its value. */
  method DayValue(d: map<DayKey, DailyX>, user: string, day: int, fmt: Formats, ghost cells: map<DayKey, DayCell>)
    returns (min: int, value: Value)
    requires Mirrors(d, cells)
    ensures min == Get0(MinutesOf(cells), (user, day))
    ensures value == CellValue(cells, user, day, fmt)
  {
    min := 0;
    var key := (user, day);
    if key in d {
      var cell := d[key];
      min := cell.Minutes();
      value := Click(Str(cell.ToString()), cell.GetMode(fmt));
    } else {
      value := Str("");
    }
  }

  lemma UserLineStep(cells: map<DayKey, DayCell>, user: string, days: seq<int>, j: nat, fmt: Formats)
    requires j < |days|
    ensures DayFields(cells, user, days[..j + 1], fmt)
      == DayFields(cells, user, days[..j], fmt) + [Field(IntToString(days[j]), CellValue(cells, user, days[j], fmt))]
    ensures UserTotal(cells, user, days[..j + 1]) == UserTotal(cells, user, days[..j]) + Get0(MinutesOf(cells), (user, days[j]))
  {
    SumOverSnoc(MinutesOf(cells), RowKeys(user, days[..j]), (user, days[j]));
    assert RowKeys(user, days[..j + 1]) == RowKeys(user, days[..j]) + [(user, days[j])];
  }

  /**
   * The inner loop of the rendering for one user: the row's day cells, the
   * user's total, and each day's running total.
   */
  method UserLine(d: map<DayKey, DailyX>, user: string, days: seq<int>, fmt: Formats,
                  totalsPerDay: map<int, int>, grandTotal: int,
                  ghost cells: map<DayKey, DayCell>, ghost before: seq<string>)
    returns (row: Row, totalPerUser: int, totalsPerDay': map<int, int>, grandTotal': int)
    requires Mirrors(d, cells) && Distinct(days)
    requires forall j :: 0 <= j < |days| ==> days[j] in totalsPerDay && totalsPerDay[days[j]] == DayTotal(cells, before, days[j])
    ensures row == UserRow(cells, user, days, fmt)
    ensures totalPerUser == UserTotal(cells, user, days)
    ensures grandTotal' == grandTotal + totalPerUser
    ensures forall j :: 0 <= j < |days| ==>
      days[j] in totalsPerDay' && totalsPerDay'[days[j]] == DayTotal(cells, before + [user], days[j])
  {
    row := [Field("User", Str(user))];
    totalPerUser := 0;
    totalsPerDay' := totalsPerDay;
    grandTotal' := grandTotal;
    var j := 0;
    while j < |days|
      invariant 0 <= j <= |days|
      invariant row == [Field("User", Str(user))] + DayFields(cells, user, days[..j], fmt)
      invariant totalPerUser == UserTotal(cells, user, days[..j])
      invariant grandTotal' == grandTotal + totalPerUser
      invariant forall jj :: 0 <= jj < |days| ==>
        days[jj] in totalsPerDay'
        && totalsPerDay'[days[jj]] == DayTotal(cells, before, days[jj]) + (if jj < j then Get0(MinutesOf(cells), (user, days[jj])) else 0)
    {
      var day := days[j];
      var min, value := DayValue(d, user, day, fmt, cells);
      row := row + [Field(IntToString(day), value)];
      UserLineStep(cells, user, days, j, fmt);
      totalPerUser := totalPerUser + min;
      grandTotal' := grandTotal' + min;
      var t := totalsPerDay'[day];
      t := t + min;
      totalsPerDay' := totalsPerDay'[day := t];
      forall jj | 0 <= jj < |days| && jj != j ensures days[jj] != day {
      }
      j := j + 1;
    }
    assert days[..j] == days;
    row := row + [Field("Total", Num(totalPerUser as real))];
    forall jj | 0 <= jj < |days| ensures DayTotal(cells, before + [user], days[jj]) == DayTotal(cells, before, days[jj]) + Get0(MinutesOf(cells), (user, days[jj])) {
      assert ColKeys(before + [user], days[jj]) == ColKeys(before, days[jj]) + [(user, days[jj])];
      SumOverSnoc(MinutesOf(cells), ColKeys(before, days[jj]), (user, days[jj]));
    }
  }

  /** totalsPerDay before the users are visited: 0 for each day. */
  method ZeroTotals(days: seq<int>) returns (totalsPerDay: map<int, int>)
    ensures forall j :: 0 <= j < |days| ==> days[j] in totalsPerDay && totalsPerDay[days[j]] == 0
  {
    totalsPerDay := map[];
    var j := 0;
    while j < |days|
      invariant 0 <= j <= |days|
      invariant forall jj :: 0 <= jj < j ==> days[jj] in totalsPerDay && totalsPerDay[days[jj]] == 0
    {
      totalsPerDay := totalsPerDay[days[j] := 0];
      j := j + 1;
    }
  }

  /** The TOTAL row from the running totals. */
  method TotalLine(users: seq<string>, days: seq<int>, totalsPerDay: map<int, int>, grandTotal: int,
                   ghost cells: map<DayKey, DayCell>)
    returns (totals: Row)
    requires forall j :: 0 <= j < |days| ==> days[j] in totalsPerDay && totalsPerDay[days[j]] == DayTotal(cells, users, days[j])
    requires grandTotal == GridSum(MinutesOf(cells), users, days)
    ensures totals == TotalRow(cells, users, days)
  {
    totals := [Field("User", Str("TOTAL"))];
    var j := 0;
    while j < |days|
      invariant 0 <= j <= |days|
      invariant totals == [Field("User", Str("TOTAL"))] + TotalFields(cells, users, days[..j])
    {
      var t := totalsPerDay[days[j]];
      totals := totals + [Field(IntToString(days[j]), Num(t as real))];
      assert TotalFields(cells, users, days[..j + 1]) == TotalFields(cells, users, days[..j]) + [Field(IntToString(days[j]), Num(t as real))];
      j := j + 1;
    }
    assert days[..j] == days;
    totals := totals + [Field("Total", Num(grandTotal as real))];
  }

  lemma RenderStep(cells: map<DayKey, DayCell>, users: seq<string>, days: seq<int>, i: nat, fmt: Formats)
    requires i < |users|
    ensures users[..i + 1] == users[..i] + [users[i]]
    ensures GridSum(MinutesOf(cells), users[..i + 1], days) == GridSum(MinutesOf(cells), users[..i], days) + UserTotal(cells, users[i], days)
    ensures DailyRows(cells, users[..i + 1], days, fmt) == DailyRows(cells, users[..i], days, fmt) + [UserRow(cells, users[i], days, fmt)]
  {
    assert users[..i + 1] == users[..i] + [users[i]];
    GridSumSnoc(MinutesOf(cells), users[..i], users[i], days);
  }

  /**
   * The table of ShowDailyReport.render: a row per user and the TOTAL row,
   * under the columns User, the days, Total.
   */
  method RenderDaily(d: map<DayKey, DailyX>, users: seq<string>, days: seq<int>, fmt: Formats,
                     ghost cells: map<DayKey, DayCell>)
    returns (tw: TableWriter, grandTotal: int)
    requires Mirrors(d, cells) && Distinct(days)
    ensures fresh(tw) && tw.Valid()
    ensures tw.explicit == Some(DailyColumns(days))
    ensures tw.written == DailyRows(cells, users, days, fmt) + [TotalRow(cells, users, days)]
    ensures grandTotal == GridSum(MinutesOf(cells), users, days)
  {
    var columnNames := ["User"] + seq(|days|, j requires 0 <= j < |days| => IntToString(days[j]));
    columnNames := columnNames + ["Total"];
    tw := new TableWriter(Some(columnNames));
    grandTotal := 0;
    var totalsPerDay := ZeroTotals(days);
    forall jj | 0 <= jj < |days| ensures totalsPerDay[days[jj]] == DayTotal(cells, [], days[jj]) {
      assert ColKeys([], days[jj]) == [];
    }
    var i := 0;
    while i < |users|
      invariant 0 <= i <= |users|
      invariant fresh(tw) && tw.Valid() && tw.explicit == Some(DailyColumns(days))
      invariant tw.written == DailyRows(cells, users[..i], days, fmt)
      invariant grandTotal == GridSum(MinutesOf(cells), users[..i], days)
      invariant forall jj :: 0 <= jj < |days| ==> days[jj] in totalsPerDay && totalsPerDay[days[jj]] == DayTotal(cells, users[..i], days[jj])
    {
      var row, totalPerUser;
      row, totalPerUser, totalsPerDay, grandTotal := UserLine(d, users[i], days, fmt, totalsPerDay, grandTotal, cells, users[..i]);
      tw.WriteRow(row);
      RenderStep(cells, users, days, i, fmt);
      i := i + 1;
    }
    assert users[..i] == users;
    var totals := TotalLine(users, days, totalsPerDay, grandTotal, cells);
    tw.WriteRow(totals);
  }

  /**
   * ShowDailyReport.render: bucket the clusters into DailyX cells, then write
   * the table. The users are exactly those with activity, the days exactly
   * the days with activity, sorted.
   */
  method RenderDailyReport(blocks: seq<UserClusters>, fmt: Formats)
    returns (tw: TableWriter, users: seq<string>, days: seq<int>)
    ensures fresh(tw) && tw.Valid()
    ensures tw.explicit == Some(DailyColumns(days))
    ensures tw.written == DailyRows(DailyCells(Visits(blocks)), users, days, fmt)
                          + [TotalRow(DailyCells(Visits(blocks)), users, days)]
    ensures Distinct(users) && forall u :: u in users <==> u in KeyUsers(DailyCells(Visits(blocks)).Keys)
    ensures Increasing(days) && forall n :: n in days <==> n in KeyDays(DailyCells(Visits(blocks)).Keys)
  {
    var d;
    d, users, days := BucketClusters(blocks);
    var grandTotal;
    tw, grandTotal := RenderDaily(d, users, days, fmt, DailyCells(Visits(blocks)));
  }

  /**
   * Every cell with activity lies in the table, and over the table the
   * cells' milliseconds add up to the durations of all visited clusters.
   */
  lemma DailyCovers(blocks: seq<UserClusters>, users: seq<string>, days: seq<int>)
    requires Distinct(users) && forall u :: u in users <==> u in KeyUsers(DailyCells(Visits(blocks)).Keys)
    requires Increasing(days) && forall n :: n in days <==> n in KeyDays(DailyCells(Visits(blocks)).Keys)
    ensures forall k :: k in DailyCells(Visits(blocks)) ==> k.0 in users && k.1 in days
    ensures GridSum(MsOf(DailyCells(Visits(blocks))), users, days) == Total(Durations(Visits(blocks)))
  {
    KeysListed(DailyCells(Visits(blocks)).Keys, users, days);
    DailyConservation(Visits(blocks), users, days);
  }

  /**
   * The button of a cell leads to a hash that parses back to the same session
   * list, provided the user and the two ISO strings contain no ';'.
   */
  lemma CellLinkRoundTrip(user: string, start: Instant, fmt: Formats)
    requires ';' !in user && ';' !in fmt.iso(start) && ';' !in fmt.iso(LastMsOfDay(start))
    ensures Parse(ToHash(CellMode(user, start, fmt))) == Ok(CellMode(user, start, fmt))
  {
    ParseToHash(CellMode(user, start, fmt));
  }

  lemma {:induction false} GridLength(users: seq<string>, days: seq<int>)
    ensures |Grid(users, days)| == |users| * |days|
  {
    if users != [] {
      GridLength(users[1..], days);
    }
  }

  /** Rounding each cell moves a sum of cells by at most half a minute per cell. */
  lemma {:induction false} RoundingBound(cells: map<DayKey, DayCell>, ks: seq<DayKey>)
    ensures SumOver(MinutesOf(cells), ks) * MsPerMinute - 30000 * |ks| <= SumOver(MsOf(cells), ks)
    ensures SumOver(MsOf(cells), ks) <= SumOver(MinutesOf(cells), ks) * MsPerMinute + 30000 * |ks|
  {
    if ks != [] {
      RoundingBound(cells, ks[1..]);
      if ks[0] in cells {
        var r := RoundMinutes(cells[ks[0]].ms);
        assert r * MsPerMinute - 30000 <= cells[ks[0]].ms < r * MsPerMinute + 30000;
      }
    }
  }

  /**
   * The grand total, in minutes, is the active time of all visited clusters
   * up to half a minute per cell of the table.
   */
  lemma GrandTotalNearActiveTime(blocks: seq<UserClusters>, users: seq<string>, days: seq<int>)
    requires Distinct(users) && forall u :: u in users <==> u in KeyUsers(DailyCells(Visits(blocks)).Keys)
    requires Increasing(days) && forall n :: n in days <==> n in KeyDays(DailyCells(Visits(blocks)).Keys)
    ensures var g := GridSum(MinutesOf(DailyCells(Visits(blocks))), users, days);
      var total := Total(Durations(Visits(blocks)));
      g * MsPerMinute - 30000 * (|users| * |days|) <= total <= g * MsPerMinute + 30000 * (|users| * |days|)
  {
    var cells := DailyCells(Visits(blocks));
    DailyCovers(blocks, users, days);
    GridSumIsSumOver(MsOf(cells), users, days);
    GridSumIsSumOver(MinutesOf(cells), users, days);
    GridLength(users, days);
    RoundingBound(cells, Grid(users, days));
  }

  lemma TaggedStep(before: seq<(string, Cluster)>, user: string, cs: seq<Cluster>, i: nat)
    requires i < |cs|
    ensures before + Tagged(user, cs[..i + 1]) == before + Tagged(user, cs[..i]) + [(user, cs[i])]
  {
    assert cs[..i + 1][..i] == cs[..i];
    TaggedSnoc(user, cs[..i + 1]);
  }

  lemma KeysListed(keys: set<DayKey>, users: seq<string>, days: seq<int>)
    requires forall u :: u in users <==> u in KeyUsers(keys)
    requires forall n :: n in days <==> n in KeyDays(keys)
    ensures forall k :: k in keys ==> k.0 in users && k.1 in days
  {
    forall k | k in keys ensures k.0 in users && k.1 in days {
      KeysGrow(keys, k);
      var day := k.1;
      assert day in KeyDays(keys);
    }
  }

  lemma KeysGrow(keys: set<DayKey>, key: DayKey)
    requires key in keys
    ensures key.0 in KeyUsers(keys) && key.1 in KeyDays(keys)
  {
  }
}
