/**
 * Local calendar time as the pages see it through `Date`: a civil date and a
 * time of day, compared as instants. Daylight-saving shifts are not modelled,
 * so the instant order is the lexicographic order of (year, month, day, time).
 */
module Calendar {

  const MsPerDay: int := 86_400_000

  /** A local instant: `month` is 1-based (JavaScript's `getMonth() + 1`), `ms` the time of day. */
  datatype DateTime = DateTime(year: int, month: int, day: int, ms: int)

  /** A calendar day, the key the chart groups by. */
  datatype Day = Day(year: int, month: int, day: int)

  predicate IsLeapYear(y: int) {
    y % 4 == 0 && (y % 100 != 0 || y % 400 == 0)
  }

  function DaysInMonth(y: int, m: int): (n: int)
    requires 1 <= m <= 12
    ensures 28 <= n <= 31
  {
    if m == 2 then (if IsLeapYear(y) then 29 else 28)
    else if m == 4 || m == 6 || m == 9 || m == 11 then 30
    else 31
  }

  predicate ValidDay(d: Day) {
    1 <= d.month <= 12 && 1 <= d.day <= DaysInMonth(d.year, d.month)
  }

  predicate Valid(t: DateTime) {
    ValidDay(DayOf(t)) && 0 <= t.ms < MsPerDay
  }

  /** The calendar day of an instant. */
  function DayOf(t: DateTime): Day {
    Day(t.year, t.month, t.day)
  }

  /** Months counted from year 0, so that consecutive months differ by one. */
  function MonthIndex(y: int, m: int): int {
    y * 12 + (m - 1)
  }

  /** Position of a day on a line that orders valid days chronologically. */
  function DayRank(d: Day): int {
    MonthIndex(d.year, d.month) * 31 + (d.day - 1)
  }

  /** Position of an instant on a line that orders valid instants chronologically. */
  function Rank(t: DateTime): int {
    DayRank(DayOf(t)) * MsPerDay + t.ms
  }

  /** `new Date(y, m - 1, 1)`: midnight on the first of a month. */
  function FirstOfMonth(y: int, m: int): DateTime {
    DateTime(y, m, 1, 0)
  }

  /** The month before (y, m); January rolls back to December of the year before. */
  function PreviousMonth(y: int, m: int): (r: (int, int))
    requires 1 <= m <= 12
    ensures 1 <= r.1 <= 12
    ensures MonthIndex(r.0, r.1) + 1 == MonthIndex(y, m)
  {
    if m == 1 then (y - 1, 12) else (y, m - 1)
  }

  /** The month after (y, m). */
  function NextMonth(y: int, m: int): (r: (int, int))
    requires 1 <= m <= 12
    ensures 1 <= r.1 <= 12
    ensures MonthIndex(y, m) + 1 == MonthIndex(r.0, r.1)
  {
    if m == 12 then (y + 1, 1) else (y, m + 1)
  }

  /** Month indices determine the month. */
  lemma MonthIndexInjective(y1: int, m1: int, y2: int, m2: int)
    requires 1 <= m1 <= 12 && 1 <= m2 <= 12
    requires MonthIndex(y1, m1) == MonthIndex(y2, m2)
    ensures y1 == y2 && m1 == m2
  {
  }

  lemma DayRankInjective(a: Day, b: Day)
    requires ValidDay(a) && ValidDay(b)
    requires DayRank(a) == DayRank(b)
    ensures a == b
  {
    MonthIndexInjective(a.year, a.month, b.year, b.month);
  }

  /** A valid instant lies between the start of its month and the start of the next one. */
  lemma RankWithinMonth(t: DateTime)
    requires Valid(t)
    ensures Rank(FirstOfMonth(t.year, t.month)) <= Rank(t)
    ensures Rank(t) < MonthIndex(t.year, t.month) * 31 * MsPerDay + 31 * MsPerDay
  {
    var i := MonthIndex(t.year, t.month);
    assert Rank(FirstOfMonth(t.year, t.month)) == i * 31 * MsPerDay;
    assert DayRank(DayOf(t)) <= i * 31 + 30;
    assert DayRank(DayOf(t)) * MsPerDay <= (i * 31 + 30) * MsPerDay;
  }

  /** Earlier months start at lower ranks. */
  lemma FirstOfMonthOrdered(y1: int, m1: int, y2: int, m2: int)
    requires MonthIndex(y1, m1) < MonthIndex(y2, m2)
    ensures Rank(FirstOfMonth(y1, m1)) + 31 * MsPerDay <= Rank(FirstOfMonth(y2, m2))
  {
    var i1, i2 := MonthIndex(y1, m1), MonthIndex(y2, m2);
    assert (i1 + 1) * 31 <= i2 * 31;
    assert (i1 + 1) * 31 * MsPerDay <= i2 * 31 * MsPerDay;
  }

  /**
   * The half-open range [first of the previous month, first of this month)
   * that the dashboard filters with.
   */
  predicate InPreviousMonth(t: DateTime, now: DateTime)
    requires 1 <= now.month <= 12
  {
    var (py, pm) := PreviousMonth(now.year, now.month);
    Rank(FirstOfMonth(py, pm)) <= Rank(t) < Rank(FirstOfMonth(now.year, now.month))
  }

  /**
   * The instant range holds exactly the instants of the previous calendar
   * month; in January that is December of the year before.
   */
  lemma InPreviousMonthIff(t: DateTime, now: DateTime)
    requires Valid(t) && 1 <= now.month <= 12
    ensures InPreviousMonth(t, now) <==> (t.year, t.month) == PreviousMonth(now.year, now.month)
  {
    var (py, pm) := PreviousMonth(now.year, now.month);
    var it, ip := MonthIndex(t.year, t.month), MonthIndex(py, pm);
    RankWithinMonth(t);
    if it < ip {
      FirstOfMonthOrdered(t.year, t.month, py, pm);
    } else if it > ip {
      assert it >= ip + 1 == MonthIndex(now.year, now.month);
      if it > ip + 1 {
        FirstOfMonthOrdered(now.year, now.month, t.year, t.month);
      }
    } else {
      MonthIndexInjective(t.year, t.month, py, pm);
      FirstOfMonthOrdered(py, pm, now.year, now.month);
    }
  }

  /** `new Date(now.getTime() - 7 * 24 * 60 * 60 * 1000)`, on the civil calendar. */
  function WeekBefore(t: DateTime): (r: DateTime)
    requires Valid(t)
    ensures Valid(r)
  {
    if t.day > 7 then t.(day := t.day - 7)
    else
      var (py, pm) := PreviousMonth(t.year, t.month);
      DateTime(py, pm, DaysInMonth(py, pm) + t.day - 7, t.ms)
  }

  /** Seven days later, on the civil calendar. */
  function WeekAfter(t: DateTime): (r: DateTime)
    requires Valid(t)
    ensures Valid(r)
  {
    var dim := DaysInMonth(t.year, t.month);
    if t.day + 7 <= dim then t.(day := t.day + 7)
    else
      var (ny, nm) := NextMonth(t.year, t.month);
      DateTime(ny, nm, t.day + 7 - dim, t.ms)
  }

  /** Going back a week and forward a week returns to the same instant, which is later. */
  lemma WeekBeforeRoundTrip(t: DateTime)
    requires Valid(t)
    ensures WeekAfter(WeekBefore(t)) == t
    ensures Rank(WeekBefore(t)) < Rank(t)
  {
    var w := WeekBefore(t);
    if t.day <= 7 {
      var (py, pm) := PreviousMonth(t.year, t.month);
      assert NextMonth(py, pm) == (t.year, t.month);
      assert DayRank(DayOf(w)) < DayRank(DayOf(t)) by {
        assert MonthIndex(py, pm) * 31 + 31 <= MonthIndex(t.year, t.month) * 31;
      }
    }
    assert DayRank(DayOf(w)) + 1 <= DayRank(DayOf(t));
    assert DayRank(DayOf(w)) * MsPerDay + MsPerDay <= DayRank(DayOf(t)) * MsPerDay;
  }
}
