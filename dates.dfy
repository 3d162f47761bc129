// Local calendar days: the `YYYYMMDD` day key of a Date, the start of its
// local day, the last millisecond of that day, and the rounding of a duration
// to whole minutes. A Date is represented by what its local-time getters return.
module Dates {

  /** A Date as getFullYear, getMonth (0-based), getDate (1-based) and the milliseconds into the day. */
  datatype Instant = Instant(year: int, month0: int, date: int, msOfDay: int)

  const MsPerDay: int := 86400000
  const MsPerMinute: int := 60000

  predicate IsLeapYear(y: int)
  {
    y % 4 == 0 && (y % 100 != 0 || y % 400 == 0)
  }

  function DaysInMonth(y: int, month0: int): int
  {
    if month0 == 1 then (if IsLeapYear(y) then 29 else 28)
    else if month0 == 3 || month0 == 5 || month0 == 8 || month0 == 10 then 30
    else 31
  }

  /** The getters of a real Date return values in these ranges. */
  predicate Valid(x: Instant)
  {
    0 <= x.month0 < 12 && 1 <= x.date <= DaysInMonth(x.year, x.month0) && 0 <= x.msOfDay < MsPerDay
  }

  /** sortableDay: the day as the number YYYYMMDD. */
  function SortableDay(x: Instant): int
  {
    x.year * 10000 + (x.month0 + 1) * 100 + x.date
  }

  /** Reads a YYYYMMDD number back into (year, 0-based month, day of month). */
  function DayOfSortable(n: int): (int, int, int)
  {
    (n / 10000, (n % 10000) / 100 - 1, n % 100)
  }

  /** Lexicographic order on (year, month, day): the calendar order of two days. */
  predicate DayBefore(a: Instant, b: Instant)
  {
    a.year < b.year
    || (a.year == b.year && a.month0 < b.month0)
    || (a.year == b.year && a.month0 == b.month0 && a.date < b.date)
  }

  predicate SameDay(a: Instant, b: Instant)
  {
    a.year == b.year && a.month0 == b.month0 && a.date == b.date
  }

  /** The day key can be read back: it loses nothing but the time of day. */
  lemma SortableDayDecodes(x: Instant)
    requires Valid(x)
    ensures DayOfSortable(SortableDay(x)) == (x.year, x.month0, x.date)
  {
    var r := (x.month0 + 1) * 100 + x.date;
    assert 101 <= r <= 1231;
    assert SortableDay(x) == x.year * 10000 + r;
    assert SortableDay(x) / 10000 == x.year;
    assert SortableDay(x) % 10000 == r;
    assert r / 100 == x.month0 + 1;
    assert SortableDay(x) % 100 == x.date;
  }

  /** Two valid dates have the same day key exactly when they fall on the same day. */
  lemma SortableDayInjective(a: Instant, b: Instant)
    requires Valid(a) && Valid(b)
    ensures SortableDay(a) == SortableDay(b) <==> SameDay(a, b)
  {
    SortableDayDecodes(a);
    SortableDayDecodes(b);
  }

  /** The day key orders valid dates as the calendar does. */
  lemma SortableDayOrder(a: Instant, b: Instant)
    requires Valid(a) && Valid(b)
    ensures SortableDay(a) < SortableDay(b) <==> DayBefore(a, b)
  {
    var ra := (a.month0 + 1) * 100 + a.date;
    var rb := (b.month0 + 1) * 100 + b.date;
    assert 101 <= ra <= 1231 && 101 <= rb <= 1231;
    if a.year < b.year {
      assert SortableDay(a) <= a.year * 10000 + 1231 < (a.year + 1) * 10000 + 101 <= SortableDay(b);
    } else if a.year > b.year {
      assert SortableDay(b) <= b.year * 10000 + 1231 < (b.year + 1) * 10000 + 101 <= SortableDay(a);
    }
  }

  /** rountToLocalStartDay: midnight, local time, of the same day. */
  function LocalStartDay(x: Instant): (r: Instant)
    ensures Valid(x) ==> Valid(r)
    ensures SameDay(r, x) && r.msOfDay == 0
  {
    Instant(x.year, x.month0, x.date, 0)
  }

  lemma LocalStartDayIdempotent(x: Instant)
    ensures LocalStartDay(LocalStartDay(x)) == LocalStartDay(x)
    ensures SortableDay(LocalStartDay(x)) == SortableDay(x)
  {
  }

  function YearLength(y: int): int
  {
    if IsLeapYear(y) then 366 else 365
  }

  /** Days from 1970-01-01 to the first of January of year y. */
  function DaysBeforeYear(y: int): int
    decreases if y < 1970 then 1970 - y else y - 1970
  {
    if y == 1970 then 0
    else if y > 1970 then DaysBeforeYear(y - 1) + YearLength(y - 1)
    else DaysBeforeYear(y + 1) - YearLength(y)
  }

  /** Days from the first of January to the first of month month0 of year y. */
  function DaysBeforeMonth(y: int, month0: int): int
  {
    if month0 <= 0 then 0 else DaysBeforeMonth(y, month0 - 1) + DaysInMonth(y, month0 - 1)
  }

  /** Days from 1970-01-01 to the given day of the (proleptic Gregorian) calendar. */
  function DaysFromCivil(y: int, month0: int, d: int): int
  {
    DaysBeforeYear(y) + DaysBeforeMonth(y, month0) + d - 1
  }

  /** getTime(): milliseconds since the epoch of the local wall-clock reading. */
  function EpochMs(x: Instant): int
  {
    DaysFromCivil(x.year, x.month0, x.date) * MsPerDay + x.msOfDay
  }

  /** The Date of `start.getTime() + 86400000 - 1`: the last millisecond of the local day. */
  function LastMsOfDay(x: Instant): (r: Instant)
    ensures Valid(x) ==> Valid(r)
    ensures SameDay(r, x)
    ensures EpochMs(r) == EpochMs(LocalStartDay(x)) + MsPerDay - 1
  {
    Instant(x.year, x.month0, x.date, MsPerDay - 1)
  }

  /** The milliseconds from a to b: getTime() of b minus getTime() of a. */
  function DurationMs(a: Instant, b: Instant): int
  {
    EpochMs(b) - EpochMs(a)
  }

  /**
   * Math.round(ms / 60000): the whole number of minutes nearest to the
   * duration, a tie going up (toward positive infinity).
   */
  function RoundMinutes(ms: int): (r: int)
    ensures r * MsPerMinute - MsPerMinute / 2 <= ms < r * MsPerMinute + MsPerMinute / 2
    ensures (r as real) <= (ms as real) / (MsPerMinute as real) + 0.5 < (r as real) + 1.0
  {
    (ms + 30000) / 60000
  }
}
