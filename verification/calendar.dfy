/** Civil dates and instants, as the pages read them through JavaScript `Date`:
    `getFullYear`, `getMonth` (0-11), `getDate`, `getDay`, midnight, and the first
    instant of the week, month and year. Time zones and daylight saving are not modelled:
    every instant is local milliseconds since 1970-01-01 00:00. */
module Calendar {

  /** Milliseconds in a day. */
  const DayMs: int := 86_400_000

  /** A point in time as the document store hands it back: a civil date and the
      milliseconds elapsed since its midnight. `month` counts from 0, as `getMonth` does. */
  datatype DateTime = DateTime(year: int, month: int, day: int, msOfDay: int)

  /** Gregorian leap years. */
  predicate IsLeapYear(y: int) {
    y % 4 == 0 && (y % 100 != 0 || y % 400 == 0)
  }

  /** Days in the months of year `y` before month `m` (months counted from 0; `m` clamped to 0..12). */
  function DaysBeforeMonth(y: int, m: int): (n: int)
    ensures 0 <= n <= 366
  {
    var k := if m < 0 then 0 else if m > 12 then 12 else m;
    var table := [0, 31, 59, 90, 120, 151, 181, 212, 243, 273, 304, 334, 365];
    table[k] + (if k >= 2 && IsLeapYear(y) then 1 else 0)
  }

  /** The length of month `m` (0-11) of year `y`. */
  function MonthLength(y: int, m: int): (n: int)
    requires 0 <= m < 12
    ensures 28 <= n <= 31
    ensures m == 1 ==> (n == 29 <==> IsLeapYear(y))
  {
    DaysBeforeMonth(y, m + 1) - DaysBeforeMonth(y, m)
  }

  /** Leap years among 1 .. y-1 (for y <= 0 the proleptic count, negative). */
  function LeapYearsBefore(y: int): int {
    (y - 1) / 4 - (y - 1) / 100 + (y - 1) / 400
  }

  /** Days from 1970-01-01 to January 1 of year `y`. */
  function DaysBeforeYear(y: int): int {
    365 * (y - 1970) + LeapYearsBefore(y) - LeapYearsBefore(1970)
  }

  /** The day count of a civil date: 0 for 1970-01-01. */
  function DayNumber(y: int, m: int, d: int): int {
    DaysBeforeYear(y) + DaysBeforeMonth(y, m) + d - 1
  }

  /** A date the calendar can hold, with a time of day inside that date. */
  predicate Valid(t: DateTime) {
    0 <= t.month < 12 && 1 <= t.day <= MonthLength(t.year, t.month) && 0 <= t.msOfDay < DayMs
  }

  /** Milliseconds since the epoch. */
  function Instant(t: DateTime): int {
    DayNumber(t.year, t.month, t.day) * DayMs + t.msOfDay
  }

  /** The day of the week, 0 for Sunday; 1970-01-01 was a Thursday. */
  function Weekday(t: DateTime): (w: int)
    ensures 0 <= w < 7
  {
    (DayNumber(t.year, t.month, t.day) + 4) % 7
  }

  /** Midnight of the day of `t`. */
  function StartOfDay(t: DateTime): int {
    DayNumber(t.year, t.month, t.day) * DayMs
  }

  /** Midnight of the most recent Sunday, `t`'s own day included. */
  function StartOfWeek(t: DateTime): int {
    StartOfDay(t) - Weekday(t) * DayMs
  }

  /** The day of the week moves on by one, Saturday wrapping to Sunday, from each day to
      the next; with `Epoch` this fixes the weekday of every date. */
  lemma WeekdayNextDay(a: DateTime, b: DateTime)
    requires DayNumber(b.year, b.month, b.day) == DayNumber(a.year, a.month, a.day) + 1
    ensures Weekday(b) == (Weekday(a) + 1) % 7
  {
  }

  /** The week starts at a midnight that falls on a Sunday, at most six days before the
      day of `t`. */
  lemma StartOfWeekIsSunday(t: DateTime)
    ensures StartOfWeek(t) % DayMs == 0
    ensures (StartOfWeek(t) / DayMs + 4) % 7 == 0
    ensures StartOfWeek(t) / DayMs <= DayNumber(t.year, t.month, t.day) < StartOfWeek(t) / DayMs + 7
  {
    var n := DayNumber(t.year, t.month, t.day);
    var w := Weekday(t);
    assert StartOfWeek(t) == (n - w) * DayMs;
    assert (n - w) * DayMs / DayMs == n - w;
    assert n + 4 == 7 * ((n + 4) / 7) + w;
  }

  /** Midnight of the first day of the month of `t`. */
  function StartOfMonth(t: DateTime): int {
    DayNumber(t.year, t.month, 1) * DayMs
  }

  /** Midnight of January 1 of the year of `t`. */
  function StartOfYear(t: DateTime): int {
    DayNumber(t.year, 0, 1) * DayMs
  }

  /** The last millisecond of the month of `t` (`endOfMonth`). */
  function EndOfMonth(t: DateTime): int
    requires 0 <= t.month < 12
  {
    DayNumber(t.year, t.month, MonthLength(t.year, t.month)) * DayMs + DayMs - 1
  }

  /** The boundaries the date filters use are ordered around any valid `now`. */
  lemma BoundariesOrdered(t: DateTime)
    requires Valid(t)
    ensures StartOfYear(t) <= StartOfMonth(t) <= StartOfDay(t) <= Instant(t) <= EndOfMonth(t)
    ensures StartOfWeek(t) <= StartOfDay(t) && StartOfDay(t) - StartOfWeek(t) < 7 * DayMs
  {
  }

  /** The year has 365 days, 366 in a leap year. */
  lemma YearLength(y: int)
    ensures DaysBeforeYear(y + 1) - DaysBeforeYear(y) == if IsLeapYear(y) then 366 else 365
    ensures DaysBeforeMonth(y, 12) == DaysBeforeYear(y + 1) - DaysBeforeYear(y)
  {
    var a, b, c := y / 4 - (y - 1) / 4, y / 100 - (y - 1) / 100, y / 400 - (y - 1) / 400;
    assert a == (if y % 4 == 0 then 1 else 0);
    assert b == (if y % 100 == 0 then 1 else 0);
    assert c == (if y % 400 == 0 then 1 else 0);
  }

  /** Day numbers run on without a gap from December 31 into January 1. */
  lemma NewYearFollowsNewYearsEve(y: int)
    ensures DayNumber(y + 1, 0, 1) == DayNumber(y, 11, 31) + 1
  {
    YearLength(y);
  }

  /** The epoch is day 0 and a Thursday. */
  lemma Epoch()
    ensures Instant(DateTime(1970, 0, 1, 0)) == 0
    ensures Weekday(DateTime(1970, 0, 1, 0)) == 4
  {
  }

  /** Earlier months never start later: the cumulative day table is increasing. */
  lemma DaysBeforeMonthMonotone(y: int, a: int, b: int)
    requires 0 <= a <= b <= 12
    ensures DaysBeforeMonth(y, a) <= DaysBeforeMonth(y, b)
  {
  }

  /** Later years start later. */
  lemma {:induction false} DaysBeforeYearMonotone(a: int, b: int)
    requires a <= b
    ensures DaysBeforeYear(a) <= DaysBeforeYear(b)
    decreases b - a
  {
    if a < b {
      DaysBeforeYearMonotone(a, b - 1);
      YearLength(b - 1);
    }
  }

  /** The last day of a month comes before the first day of any later month. */
  lemma EarlierMonthEndsBefore(y: int, m: int, y2: int, m2: int)
    requires 0 <= m < 12 && 0 <= m2 < 12
    requires y < y2 || (y == y2 && m < m2)
    ensures DayNumber(y, m, MonthLength(y, m)) < DayNumber(y2, m2, 1)
  {
    if y == y2 {
      DaysBeforeMonthMonotone(y, m + 1, m2);
    } else {
      DaysBeforeMonthMonotone(y, m + 1, 12);
      YearLength(y);
      DaysBeforeYearMonotone(y + 1, y2);
    }
  }

  /** The window from `startOfMonth(now)` to `endOfMonth(now)` holds exactly the instants
      of the calendar month of `now`. */
  lemma InMonthIff(d: DateTime, now: DateTime)
    requires Valid(d) && Valid(now)
    ensures StartOfMonth(now) <= Instant(d) <= EndOfMonth(now) <==> d.year == now.year && d.month == now.month
  {
    if d.year < now.year || (d.year == now.year && d.month < now.month) {
      EarlierMonthEndsBefore(d.year, d.month, now.year, now.month);
    } else if now.year < d.year || (d.year == now.year && now.month < d.month) {
      EarlierMonthEndsBefore(now.year, now.month, d.year, d.month);
    }
  }
}
