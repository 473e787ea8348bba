/**
 * UTC calendar arithmetic as JavaScript's `Date` performs it: time values in
 * milliseconds since the epoch, `Date.UTC` (with its month and day roll-over
 * and its two-digit-year rule), `setUTCHours`, and the calendar month a time
 * value falls in. The calendar is the proleptic Gregorian one.
 */
module UtcDates {

  /** A JavaScript time value: milliseconds since 1970-01-01T00:00:00.000Z. */
  type Instant = int

  const MsPerDay: int := 86_400_000

  /** A closed interval of time values, the `{ $gte: lo, $lte: hi }` of a Mongo query. */
  datatype Range = Range(lo: Instant, hi: Instant)

  predicate InRange(t: Instant, r: Range) {
    r.lo <= t <= r.hi
  }

  // ---------------------------------------------------------------- years and months

  predicate IsLeapYear(y: int) {
    y % 4 == 0 && (y % 100 != 0 || y % 400 == 0)
  }

  function DaysInYear(y: int): int {
    if IsLeapYear(y) then 366 else 365
  }

  /** Number of days of month `m` (0 = January) of year `y`. */
  function DaysInMonth(y: int, m: int): int
    requires 0 <= m < 12
  {
    if m == 1 then (if IsLeapYear(y) then 29 else 28)
    else if m == 3 || m == 5 || m == 8 || m == 10 then 30
    else 31
  }

  /** Leap years among 1..x (negative for x < 0), counted with floor division. */
  function LeapYearsThrough(x: int): int {
    x / 4 - x / 100 + x / 400
  }

  /** Day number (days since 1970-01-01) of January 1st of year `y`. */
  function DaysBeforeYear(y: int): int {
    365 * (y - 1970) + LeapYearsThrough(y - 1) - LeapYearsThrough(1969)
  }

  /** Days of year `y` before the first of month `m`; `m == 12` gives the whole year. */
  function DaysBeforeMonth(y: int, m: int): int
    requires 0 <= m <= 12
  {
    [0, 31, 59, 90, 120, 151, 181, 212, 243, 273, 304, 334, 365][m]
      + (if m >= 2 && IsLeapYear(y) then 1 else 0)
  }

  /** Day number of day `d` (1-based, any integer) of month `m` of year `y`. */
  function DayNumber(y: int, m: int, d: int): int
    requires 0 <= m < 12
  {
    DaysBeforeYear(y) + DaysBeforeMonth(y, m) + (d - 1)
  }

  /** Consecutive years are `DaysInYear` apart. */
  lemma YearLength(y: int)
    ensures DaysBeforeYear(y + 1) == DaysBeforeYear(y) + DaysInYear(y)
  {
    FloorStep(y, 4);
    FloorStep(y, 100);
    FloorStep(y, 400);
    DivisorsOfLeapCentury(y);
  }

  /** `x / d` grows by one exactly where `d` divides `x`, for the divisors of the leap-year rule. */
  lemma FloorStep(x: int, d: int)
    requires d == 4 || d == 100 || d == 400
    ensures x / d - (x - 1) / d == if x % d == 0 then 1 else 0
  {
    if d == 4 {
      assert x / 4 - (x - 1) / 4 == if x % 4 == 0 then 1 else 0;
    } else if d == 100 {
      assert x / 100 - (x - 1) / 100 == if x % 100 == 0 then 1 else 0;
    } else {
      assert x / 400 - (x - 1) / 400 == if x % 400 == 0 then 1 else 0;
    }
  }

  lemma DivisorsOfLeapCentury(y: int)
    ensures y % 400 == 0 ==> y % 100 == 0
    ensures y % 100 == 0 ==> y % 4 == 0
  {
    if y % 400 == 0 {
      var k := y / 400;
      assert y == 100 * (4 * k);
    }
    if y % 100 == 0 {
      var k := y / 100;
      assert y == 4 * (25 * k);
    }
  }

  /** Consecutive months are `DaysInMonth` apart: the two tables agree. */
  lemma MonthLength(y: int, m: int)
    requires 0 <= m < 12
    ensures DaysBeforeMonth(y, m + 1) == DaysBeforeMonth(y, m) + DaysInMonth(y, m)
    ensures DaysBeforeMonth(y, 12) == DaysInYear(y)
  {
  }

  lemma {:induction false} YearsIncrease(a: int, b: int)
    requires a <= b
    ensures DaysBeforeYear(a) <= DaysBeforeYear(b)
    decreases b - a
  {
    if a < b {
      YearLength(a);
      YearsIncrease(a + 1, b);
    }
  }

  lemma MonthsIncrease(y: int, a: int, b: int)
    requires 0 <= a <= b <= 12
    ensures DaysBeforeMonth(y, a) <= DaysBeforeMonth(y, b)
    ensures a < b ==> DaysBeforeMonth(y, a) < DaysBeforeMonth(y, b)
  {
  }

  // ---------------------------------------------------------------- JavaScript Date.UTC

  /** `Date.UTC` reads a year argument in 0..99 as 1900..1999. */
  function FullYear(y: int): int {
    if 0 <= y <= 99 then 1900 + y else y
  }

  /**
   * `Date.UTC(y, m, d, h, min, s, ms)` on integer arguments: a month outside
   * 0..11 rolls into a neighbouring year (floor division), and a day outside
   * the month into a neighbouring month. The ±8.64e15 ms validity bound is not modelled.
   */
  function DateUtc(y: int, m: int, d: int, h: int, min: int, s: int, ms: int): Instant {
    var yr := FullYear(y) + m / 12;
    DayNumber(yr, m % 12, d) * MsPerDay + h * 3_600_000 + min * 60_000 + s * 1000 + ms
  }

  /**
   * The range `[Date.UTC(y, m, 1), Date.UTC(y, m + 1, 0, 23, 59, 59, 999)]` the
   * entry queries build for a month: its first and its last millisecond.
   */
  function MonthRange(y: int, m: int): Range {
    Range(DateUtc(y, m, 1, 0, 0, 0, 0), DateUtc(y, m + 1, 0, 23, 59, 59, 999))
  }

  /**
   * `Date.UTC(y, m + 1, 0)` is the last day of month `m`: the range runs from
   * the first millisecond of day 1 to the last of day `DaysInMonth`, leap
   * Februaries included, for the month `m` denotes after roll-over.
   */
  lemma MonthRangeIsWholeMonth(y: int, m: int)
    ensures var yr, mo := FullYear(y) + m / 12, m % 12;
            && MonthRange(y, m).lo == DayNumber(yr, mo, 1) * MsPerDay
            && MonthRange(y, m).hi == (DayNumber(yr, mo, DaysInMonth(yr, mo)) + 1) * MsPerDay - 1
  {
    var yr, mo := FullYear(y) + m / 12, m % 12;
    MonthLength(yr, mo);
    if mo == 11 {
      assert (m + 1) / 12 == m / 12 + 1 && (m + 1) % 12 == 0;
      YearLength(yr);
    } else {
      assert (m + 1) / 12 == m / 12 && (m + 1) % 12 == mo + 1;
    }
  }

  /** `new Date(t).setUTCHours(23, 59, 59, 999)`: the last millisecond of `t`'s UTC day. */
  function EndOfDay(t: Instant): Instant {
    DayOf(t) * MsPerDay + 23 * 3_600_000 + 59 * 60_000 + 59 * 1000 + 999
  }

  /** A time is at or before the end of `t`'s day exactly when its day is not later. */
  lemma EndOfDayBound(t: Instant, u: Instant)
    ensures DayOf(EndOfDay(t)) == DayOf(t) && t <= EndOfDay(t)
    ensures u <= EndOfDay(t) <==> DayOf(u) <= DayOf(t)
  {
    DayBounds(t);
    DayBounds(u);
    DayBounds(EndOfDay(t));
  }

  // ---------------------------------------------------------------- the calendar month of a time value

  /** The UTC day number of a time value (floor division). */
  function DayOf(t: Instant): int {
    t / MsPerDay
  }

  lemma DayBounds(t: Instant)
    ensures DayOf(t) * MsPerDay <= t < (DayOf(t) + 1) * MsPerDay
  {
  }

  function YearUp(y: int, day: int): (r: int)
    requires DaysBeforeYear(y) <= day
    ensures DaysBeforeYear(r) <= day < DaysBeforeYear(r + 1)
    decreases day - DaysBeforeYear(y)
  {
    YearLength(y);
    if day < DaysBeforeYear(y + 1) then y else YearUp(y + 1, day)
  }

  function YearDown(y: int, day: int): (r: int)
    requires day < DaysBeforeYear(y + 1)
    ensures DaysBeforeYear(r) <= day < DaysBeforeYear(r + 1)
    decreases DaysBeforeYear(y + 1) - day
  {
    YearLength(y);
    if DaysBeforeYear(y) <= day then y else YearDown(y - 1, day)
  }

  /** The year a day number falls in. */
  function YearOfDay(day: int): (y: int)
    ensures DaysBeforeYear(y) <= day < DaysBeforeYear(y + 1)
  {
    if day >= 0 then YearUp(1970, day) else YearDown(1969, day)
  }

  function MonthFrom(y: int, doy: int, m: int): (r: int)
    requires 0 <= m < 12 && DaysBeforeMonth(y, m) <= doy < DaysBeforeMonth(y, 12)
    ensures m <= r < 12 && DaysBeforeMonth(y, r) <= doy < DaysBeforeMonth(y, r + 1)
    decreases 12 - m
  {
    if doy < DaysBeforeMonth(y, m + 1) then m else MonthFrom(y, doy, m + 1)
  }

  /** The month (0 = January) a day number falls in. */
  function MonthOfDay(day: int): (m: int)
    ensures 0 <= m < 12
    ensures var y := YearOfDay(day);
            DaysBeforeYear(y) + DaysBeforeMonth(y, m) <= day < DaysBeforeYear(y) + DaysBeforeMonth(y, m + 1)
  {
    var y := YearOfDay(day);
    YearLength(y);
    MonthFrom(y, day - DaysBeforeYear(y), 0)
  }

  /** `getUTCFullYear()`. */
  function UtcYear(t: Instant): int {
    YearOfDay(DayOf(t))
  }

  /** `getUTCMonth()`. */
  function UtcMonth(t: Instant): (m: int)
    ensures 0 <= m < 12
  {
    MonthOfDay(DayOf(t))
  }

  lemma YearOfDayUnique(day: int, y: int)
    requires DaysBeforeYear(y) <= day < DaysBeforeYear(y + 1)
    ensures YearOfDay(day) == y
  {
    var r := YearOfDay(day);
    if r < y {
      YearsIncrease(r + 1, y);
    } else if r > y {
      YearsIncrease(y + 1, r);
    }
  }

  lemma MonthOfDayUnique(day: int, y: int, m: int)
    requires 0 <= m < 12
    requires DaysBeforeYear(y) + DaysBeforeMonth(y, m) <= day < DaysBeforeYear(y) + DaysBeforeMonth(y, m + 1)
    ensures YearOfDay(day) == y && MonthOfDay(day) == m
  {
    YearLength(y);
    MonthsIncrease(y, m + 1, 12);
    YearOfDayUnique(day, y);
    var r := MonthOfDay(day);
    if r < m {
      MonthsIncrease(y, r + 1, m);
    } else if r > m {
      MonthsIncrease(y, m + 1, r);
    }
  }

  /**
   * The month range of `(y, m)` holds exactly the time values whose UTC year
   * and month are the ones `(y, m)` denotes: month ranges never overlap, and
   * together they leave no gap.
   */
  lemma {:induction false} MonthRangeMembership(y: int, m: int, t: Instant)
    ensures InRange(t, MonthRange(y, m)) <==> UtcYear(t) == FullYear(y) + m / 12 && UtcMonth(t) == m % 12
  {
    var yr, mo := FullYear(y) + m / 12, m % 12;
    MonthRangeIsWholeMonth(y, m);
    DayWindow(DayNumber(yr, mo, 1), DayNumber(yr, mo, DaysInMonth(yr, mo)), t);
    DayInMonth(DayOf(t), yr, mo);
  }

  /** A time value lies in the whole days `first..last` exactly when its day does. */
  lemma DayWindow(first: int, last: int, t: Instant)
    ensures first * MsPerDay <= t <= (last + 1) * MsPerDay - 1 <==> first <= DayOf(t) <= last
  {
    var day := DayOf(t);
    DayBounds(t);
    assert first * MsPerDay <= t <==> first <= day by {
      if first <= day {
        assert first * MsPerDay <= day * MsPerDay;
      } else {
        assert first * MsPerDay >= (day + 1) * MsPerDay;
      }
    }
    assert t <= (last + 1) * MsPerDay - 1 <==> day <= last by {
      if day <= last {
        assert (day + 1) * MsPerDay <= (last + 1) * MsPerDay;
      } else {
        assert day * MsPerDay >= (last + 1) * MsPerDay;
      }
    }
  }

  /** A day falls in month `mo` of year `yr` exactly when it lies between that month's first and last day. */
  lemma DayInMonth(day: int, yr: int, mo: int)
    requires 0 <= mo < 12
    ensures DayNumber(yr, mo, 1) <= day <= DayNumber(yr, mo, DaysInMonth(yr, mo)) <==>
            YearOfDay(day) == yr && MonthOfDay(day) == mo
  {
    MonthLength(yr, mo);
    if DayNumber(yr, mo, 1) <= day <= DayNumber(yr, mo, DaysInMonth(yr, mo)) {
      MonthOfDayUnique(day, yr, mo);
    }
  }

  // ---------------------------------------------------------------- reference points

  /** February 2025 runs from 2025-02-01T00:00:00.000Z to 2025-02-28T23:59:59.999Z. */
  lemma February2025()
    ensures MonthRange(2025, 1) == Range(1_738_368_000_000, 1_740_787_199_999)
  {
    assert DaysBeforeYear(2025) == 20089;
    assert DaysBeforeMonth(2025, 1) == 31 && DaysBeforeMonth(2025, 2) == 59;
  }

  /** The leap February 2024 ends on the 29th, 2024-02-29T23:59:59.999Z. */
  lemma February2024()
    ensures MonthRange(2024, 1) == Range(1_706_745_600_000, 1_709_251_199_999)
  {
    assert DaysBeforeYear(2024) == 19723;
    assert DaysBeforeMonth(2024, 1) == 31 && DaysBeforeMonth(2024, 2) == 60;
  }

  /** Month 12 of 2025 rolls over to January 2026; year 25 means 1925. */
  lemma RollOverAndTwoDigitYears()
    ensures MonthRange(2025, 12) == Range(1_767_225_600_000, 1_769_903_999_999)
    ensures MonthRange(25, 1).lo == -1_417_392_000_000
  {
    assert DaysBeforeYear(2026) == 20454 && DaysBeforeMonth(2026, 0) == 0 && DaysBeforeMonth(2026, 1) == 31;
    assert DaysBeforeYear(1925) == -16436 && DaysBeforeMonth(1925, 1) == 31;
  }
}
