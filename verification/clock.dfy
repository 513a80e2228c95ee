/**
 UTC calendar time as the server reads it from `DateTime.UtcNow`. The clock
 itself is never consulted: every operation that needs the time receives it as
 a parameter. Sub-second ticks are not represented.
 */
module Clock {

  /** A UTC date and time of day, to the second. */
  datatype DateTime = DateTime(year: int, month: int, day: int, hour: int, minute: int, second: int)

  const SecondsPerDay: int := 86400

  predicate IsLeapYear(y: int) {
    y % 4 == 0 && (y % 100 != 0 || y % 400 == 0)
  }

  /** Days of a common year that precede the first of month `m + 1`. */
  const CumulativeDays: seq<int> := [0, 31, 59, 90, 120, 151, 181, 212, 243, 273, 304, 334, 365]

  /** Days of year `y` that precede the first of month `m`; month 13 stands
      for the first day of the next year. */
  function DaysBeforeMonth(y: int, m: int): int
    requires 1 <= m <= 13
  {
    CumulativeDays[m - 1] + (if m > 2 && IsLeapYear(y) then 1 else 0)
  }

  function DaysInMonth(y: int, m: int): (n: int)
    requires 1 <= m <= 12
    ensures 28 <= n <= 31
    ensures m == 2 ==> (n == 29 <==> IsLeapYear(y))
  {
    DaysBeforeMonth(y, m + 1) - DaysBeforeMonth(y, m)
  }

  /** The range of `System.DateTime`: years 1 to 9999 of the proleptic
      Gregorian calendar. */
  predicate Valid(t: DateTime) {
    && 1 <= t.year <= 9999
    && 1 <= t.month <= 12
    && 1 <= t.day <= DaysInMonth(t.year, t.month)
    && 0 <= t.hour < 24
    && 0 <= t.minute < 60
    && 0 <= t.second < 60
  }

  /** A `DateTime` value the runtime can actually hold. */
  type Instant = t: DateTime | Valid(t) witness DateTime(1, 1, 1, 0, 0, 0)

  /** Days from 0001-01-01 to the first of January of year `y`. */
  function DaysBeforeYear(y: int): int
    requires y >= 1
  {
    var p := y - 1;
    365 * p + p / 4 - p / 100 + p / 400
  }

  /** Days from 0001-01-01 to the date of `t`. */
  function DayNumber(t: DateTime): int
    requires Valid(t)
  {
    DaysBeforeYear(t.year) + DaysBeforeMonth(t.year, t.month) + t.day - 1
  }

  function SecondOfDay(t: DateTime): (s: int)
    requires Valid(t)
    ensures 0 <= s < SecondsPerDay
  {
    t.hour * 3600 + t.minute * 60 + t.second
  }

  /** Seconds from 0001-01-01T00:00:00 to `t`: the order in which the sale
      store compares `CreatedAt` values. */
  function Ordinal(t: DateTime): int
    requires Valid(t)
  {
    DayNumber(t) * SecondsPerDay + SecondOfDay(t)
  }

  /** `t.Date`: midnight at the start of the same day. */
  function StartOfDay(t: DateTime): (r: DateTime)
    requires Valid(t)
    ensures Valid(r) && SecondOfDay(r) == 0
    ensures DayNumber(r) == DayNumber(t)
    ensures Ordinal(r) <= Ordinal(t) < Ordinal(r) + SecondsPerDay
  {
    DateTime(t.year, t.month, t.day, 0, 0, 0)
  }

  predicate SameDate(t: DateTime, u: DateTime) {
    t.year == u.year && t.month == u.month && t.day == u.day
  }

  /** A year holds 365 days, 366 in a leap year. */
  lemma YearLength(y: int)
    requires y >= 1
    ensures DaysBeforeYear(y + 1) - DaysBeforeYear(y) == DaysBeforeMonth(y, 13)
  {
    var p := y - 1;
    assert (p + 1) / 4 - p / 4 == (if y % 4 == 0 then 1 else 0);
    assert (p + 1) / 100 - p / 100 == (if y % 100 == 0 then 1 else 0);
    assert (p + 1) / 400 - p / 400 == (if y % 400 == 0 then 1 else 0);
  }

  lemma {:induction false} DaysBeforeYearMonotone(y: int, z: int)
    requires 1 <= y < z
    ensures DaysBeforeYear(y) + DaysBeforeMonth(y, 13) <= DaysBeforeYear(z)
    decreases z - y
  {
    YearLength(y);
    if y + 1 < z {
      DaysBeforeYearMonotone(y + 1, z);
    }
  }

  /** Day numbers follow the calendar order of dates. */
  lemma DayNumberOrdered(t: DateTime, u: DateTime)
    requires Valid(t) && Valid(u)
    requires t.year < u.year
          || (t.year == u.year && t.month < u.month)
          || (t.year == u.year && t.month == u.month && t.day < u.day)
    ensures DayNumber(t) < DayNumber(u)
  {
    assert DaysBeforeMonth(t.year, t.month) + t.day - 1 < DaysBeforeMonth(t.year, t.month + 1);
    if t.year < u.year {
      DaysBeforeYearMonotone(t.year, u.year);
    }
  }

  /** Two valid date-times share a day number exactly when they fall on the
      same calendar date. */
  lemma DayNumberInjective(t: DateTime, u: DateTime)
    requires Valid(t) && Valid(u)
    ensures DayNumber(t) == DayNumber(u) <==> SameDate(t, u)
  {
    if t.year < u.year || (t.year == u.year && t.month < u.month)
       || (t.year == u.year && t.month == u.month && t.day < u.day) {
      DayNumberOrdered(t, u);
    } else if !SameDate(t, u) {
      DayNumberOrdered(u, t);
    }
  }

  /** `[now.Date, now.Date.AddDays(1))` holds exactly the instants of
      `now`'s calendar day. */
  lemma TodayWindowIsSameDate(now: DateTime, t: DateTime)
    requires Valid(now) && Valid(t)
    ensures Ordinal(StartOfDay(now)) <= Ordinal(t) < Ordinal(StartOfDay(now)) + SecondsPerDay
            <==> SameDate(t, now)
  {
    DayNumberInjective(t, now);
  }
}
