/**
 * Dates and naive date-times in the proleptic Gregorian calendar, as Python's
 * `date` and `datetime` objects, and the Modified Julian Date of a timestamp
 * computed by `datetime_to_mjd` in ftch_dta.py.
 */
module Calendar {

  datatype Date = Date(year: int, month: int, day: int)

  /** A naive wall-clock instant (no time zone), as a Python `datetime`. */
  datatype DateTime = DateTime(date: Date, hour: int, minute: int, second: int, microsecond: int)

  predicate IsLeapYear(y: int) {
    y % 4 == 0 && (y % 100 != 0 || y % 400 == 0)
  }

  function DaysInMonth(y: int, m: int): (n: int)
    requires 1 <= m <= 12
    ensures 28 <= n <= 31
    ensures m == 2 ==> (n == 29 <==> IsLeapYear(y))
  {
    if m == 2 then (if IsLeapYear(y) then 29 else 28)
    else if m == 4 || m == 6 || m == 9 || m == 11 then 30
    else 31
  }

  /** The range Python's `date` accepts. */
  predicate ValidDate(d: Date) {
    1 <= d.year <= 9999 && 1 <= d.month <= 12 && 1 <= d.day <= DaysInMonth(d.year, d.month)
  }

  predicate ValidDateTime(t: DateTime) {
    && ValidDate(t.date)
    && 0 <= t.hour < 24 && 0 <= t.minute < 60 && 0 <= t.second < 60
    && 0 <= t.microsecond < 1000000
  }

  /** Days of year y before the first of month m (m == 13 gives the length of the year). */
  function DaysBeforeMonth(y: int, m: int): (n: int)
    requires 1 <= m <= 13
    ensures 0 <= n <= 366
  {
    var common :=
      if m == 1 then 0 else if m == 2 then 31 else if m == 3 then 59
      else if m == 4 then 90 else if m == 5 then 120 else if m == 6 then 151
      else if m == 7 then 181 else if m == 8 then 212 else if m == 9 then 243
      else if m == 10 then 273 else if m == 11 then 304 else if m == 12 then 334
      else 365;
    if m > 2 && IsLeapYear(y) then common + 1 else common
  }

  /** Days in the years before year y, counting from year 1. */
  function DaysBeforeYear(y: int): int
    requires y >= 1
  {
    var k := y - 1;
    365 * k + k / 4 - k / 100 + k / 400
  }

  /** Day number of a date, 0001-01-01 being day 1 (Python's `date.toordinal`). */
  function Ordinal(d: Date): int
    requires ValidDate(d)
  {
    DaysBeforeYear(d.year) + DaysBeforeMonth(d.year, d.month) + d.day
  }

  /** Strict chronological order of dates. */
  predicate DateBefore(a: Date, b: Date) {
    || a.year < b.year
    || (a.year == b.year && a.month < b.month)
    || (a.year == b.year && a.month == b.month && a.day < b.day)
  }

  /** Strict chronological order of timestamps, down to the microsecond. */
  predicate Before(a: DateTime, b: DateTime) {
    || DateBefore(a.date, b.date)
    || (a.date == b.date && WithinDayBefore(a, b))
  }

  predicate WithinDayBefore(a: DateTime, b: DateTime) {
    || a.hour < b.hour
    || (a.hour == b.hour && a.minute < b.minute)
    || (a.hour == b.hour && a.minute == b.minute && a.second < b.second)
    || (a.hour == b.hour && a.minute == b.minute && a.second == b.second && a.microsecond < b.microsecond)
  }

  /** Two timestamps fall in the same whole second (they differ at most in microseconds). */
  predicate SameSecond(a: DateTime, b: DateTime) {
    a.date == b.date && a.hour == b.hour && a.minute == b.minute && a.second == b.second
  }

  function SecondOfDay(t: DateTime): int {
    t.hour * 3600 + t.minute * 60 + t.second
  }

  /** The reference instant of the Modified Julian Date, 1858-11-17 00:00:00. */
  const MjdEpoch: DateTime := DateTime(Date(1858, 11, 17), 0, 0, 0, 0)

  /**
   * Whole seconds from the reference instant to t. Python's `dt - mjd_start`
   * normalises to (days, seconds, microseconds) with 0 <= seconds < 86400; since
   * the reference instant has no microseconds, days and seconds are the Euclidean
   * quotient and remainder of this count by 86400.
   */
  function SecondsSinceMjdEpoch(t: DateTime): int
    requires ValidDateTime(t)
  {
    (Ordinal(t.date) - Ordinal(MjdEpoch.date)) * 86400 + SecondOfDay(t)
  }

  /**
   * `datetime_to_mjd`: `delta.days + delta.seconds / 86400`. Microseconds are
   * dropped, and the result is whole seconds since the reference instant
   * divided by 86400, computed exactly.
   */
  function DatetimeToMjd(t: DateTime): (mjd: real)
    requires ValidDateTime(t)
    ensures mjd == SecondsSinceMjdEpoch(t) as real / 86400.0
  {
    var s := SecondsSinceMjdEpoch(t);
    var days := s / 86400;
    var seconds := s % 86400;
    assert s == days * 86400 + seconds;
    days as real + seconds as real / 86400.0
  }

  // ---------------------------------------------------------------------------
  // Lemmas about the day count

  /** The first of the next month is one month-length later. */
  lemma DaysBeforeNextMonth(y: int, m: int)
    requires 1 <= m <= 12
    ensures DaysBeforeMonth(y, m + 1) == DaysBeforeMonth(y, m) + DaysInMonth(y, m)
  {
  }

  lemma YearLength(y: int)
    ensures DaysBeforeMonth(y, 13) == if IsLeapYear(y) then 366 else 365
  {
  }

  /** y / c grows by one from y - 1 exactly when y is a multiple of c, for the leap-year divisors c. */
  lemma DivSteps(y: int)
    requires y >= 1
    ensures y / 4 == (y - 1) / 4 + (if y % 4 == 0 then 1 else 0)
    ensures y / 100 == (y - 1) / 100 + (if y % 100 == 0 then 1 else 0)
    ensures y / 400 == (y - 1) / 400 + (if y % 400 == 0 then 1 else 0)
  {
    assert y - 1 == 4 * ((y - 1) / 4) + (y - 1) % 4;
    assert y - 1 == 100 * ((y - 1) / 100) + (y - 1) % 100;
    assert y - 1 == 400 * ((y - 1) / 400) + (y - 1) % 400;
  }

  /** Every multiple of 400 is one of 100, and every multiple of 100 one of 4. */
  lemma DivisorChain(y: int)
    ensures y % 400 == 0 ==> y % 100 == 0
    ensures y % 100 == 0 ==> y % 4 == 0
  {
    var q4, q100, q400 := y / 4, y / 100, y / 400;
    assert y == 4 * q4 + y % 4 && 0 <= y % 4 < 4;
    assert y == 100 * q100 + y % 100 && 0 <= y % 100 < 100;
    assert y == 400 * q400 + y % 400;
    if y % 400 == 0 {
      // y = 100 * (4 * q400) + 0, and the remainder by 100 is unique
      assert y - 100 * (4 * q400) == 0;
      assert 100 * (q100 - 4 * q400) == -(y % 100);
    }
    if y % 100 == 0 {
      assert 4 * (q4 - 25 * q100) == -(y % 4);
    }
  }

  /** The year after y starts one year-length later. */
  lemma DaysBeforeNextYear(y: int)
    requires y >= 1
    ensures DaysBeforeYear(y + 1) == DaysBeforeYear(y) + DaysBeforeMonth(y, 13)
  {
    DivSteps(y);
    DivisorChain(y);
    YearLength(y);
    var leaps := (if y % 4 == 0 then 1 else 0) - (if y % 100 == 0 then 1 else 0) + (if y % 400 == 0 then 1 else 0);
    assert leaps == if IsLeapYear(y) then 1 else 0;
    assert DaysBeforeYear(y + 1) == DaysBeforeYear(y) + 365 + leaps;
  }

  lemma {:induction false} DaysBeforeYearMonotone(a: int, b: int)
    requires 1 <= a <= b
    ensures DaysBeforeYear(a) + 365 * (b - a) <= DaysBeforeYear(b)
    decreases b - a
  {
    if a < b {
      DaysBeforeYearMonotone(a, b - 1);
      DaysBeforeNextYear(b - 1);
    }
  }

  lemma {:induction false} DaysBeforeMonthMonotone(y: int, a: int, b: int)
    requires 1 <= a <= b <= 13
    ensures DaysBeforeMonth(y, a) + 28 * (b - a) <= DaysBeforeMonth(y, b)
    decreases b - a
  {
    if a < b {
      DaysBeforeMonthMonotone(y, a, b - 1);
      DaysBeforeNextMonth(y, b - 1);
    }
  }

  /** A date's day number lies within its year's. */
  lemma OrdinalWithinYear(d: Date)
    requires ValidDate(d)
    ensures DaysBeforeYear(d.year) < Ordinal(d) <= DaysBeforeYear(d.year + 1)
  {
    DaysBeforeMonthMonotone(d.year, d.month + 1, 13);
    DaysBeforeNextMonth(d.year, d.month);
    DaysBeforeNextYear(d.year);
  }

  /** Later dates have larger day numbers, so `Ordinal` is injective on valid dates. */
  lemma OrdinalIncreasing(a: Date, b: Date)
    requires ValidDate(a) && ValidDate(b) && DateBefore(a, b)
    ensures Ordinal(a) < Ordinal(b)
  {
    if a.year < b.year {
      OrdinalWithinYear(a);
      OrdinalWithinYear(b);
      DaysBeforeYearMonotone(a.year + 1, b.year);
    } else if a.month < b.month {
      DaysBeforeNextMonth(a.year, a.month);
      DaysBeforeMonthMonotone(a.year, a.month + 1, b.month);
    }
  }

  /** Dates are totally ordered: two different dates are related one way or the other. */
  lemma DateTrichotomy(a: Date, b: Date)
    ensures a == b || DateBefore(a, b) || DateBefore(b, a)
  {
  }

  // ---------------------------------------------------------------------------
  // Lemmas about the Modified Julian Date

  /** Whole-second counts are strictly increasing across different whole seconds. */
  lemma SecondsIncreasing(a: DateTime, b: DateTime)
    requires ValidDateTime(a) && ValidDateTime(b) && Before(a, b) && !SameSecond(a, b)
    ensures SecondsSinceMjdEpoch(a) < SecondsSinceMjdEpoch(b)
  {
    assert 0 <= SecondOfDay(a) < 86400 && 0 <= SecondOfDay(b) < 86400;
    if DateBefore(a.date, b.date) {
      OrdinalIncreasing(a.date, b.date);
    }
  }

  /** At midnight the Modified Julian Date is the whole number of days since the reference day. */
  lemma MjdOfMidnight(t: DateTime)
    requires ValidDateTime(t) && t.hour == 0 && t.minute == 0 && t.second == 0
    ensures DatetimeToMjd(t) == (Ordinal(t.date) - Ordinal(MjdEpoch.date)) as real
  {
    var k := Ordinal(t.date) - Ordinal(MjdEpoch.date);
    assert SecondsSinceMjdEpoch(t) == k * 86400;
    assert (k * 86400) as real == k as real * 86400.0;
  }

  /** The reference instant itself has Modified Julian Date 0. */
  lemma MjdOfEpoch()
    ensures DatetimeToMjd(MjdEpoch) == 0.0
  {
    MjdOfMidnight(MjdEpoch);
  }

  /** Only whole seconds matter: the microseconds of a timestamp are dropped. */
  lemma MjdDropsMicroseconds(t: DateTime, us: int)
    requires ValidDateTime(t) && 0 <= us < 1000000
    ensures DatetimeToMjd(t.(microsecond := us)) == DatetimeToMjd(t)
  {
  }

  /** `datetime_to_mjd` is non-decreasing in the timestamp. */
  lemma MjdMonotone(a: DateTime, b: DateTime)
    requires ValidDateTime(a) && ValidDateTime(b)
    requires a == b || Before(a, b)
    ensures DatetimeToMjd(a) <= DatetimeToMjd(b)
  {
    if a != b && !SameSecond(a, b) {
      SecondsIncreasing(a, b);
    }
  }

  /**
   * Of two timestamps in order, the later has the strictly larger Modified Julian
   * Date exactly when they fall in different whole seconds.
   */
  lemma MjdStrictIffDifferentSecond(a: DateTime, b: DateTime)
    requires ValidDateTime(a) && ValidDateTime(b) && Before(a, b)
    ensures DatetimeToMjd(a) < DatetimeToMjd(b) <==> !SameSecond(a, b)
  {
    if !SameSecond(a, b) {
      SecondsIncreasing(a, b);
    }
  }

  /** Two timestamps have the same Modified Julian Date exactly when they share their whole second. */
  lemma MjdEqualIffSameSecond(a: DateTime, b: DateTime)
    requires ValidDateTime(a) && ValidDateTime(b)
    ensures DatetimeToMjd(a) == DatetimeToMjd(b) <==> SameSecond(a, b)
  {
    if !SameSecond(a, b) {
      DateTrichotomy(a.date, b.date);
      if Before(a, b) {
        SecondsIncreasing(a, b);
      } else {
        assert Before(b, a);
        SecondsIncreasing(b, a);
      }
    }
  }

  /** Day numbers of the two reference instants, as Python's `toordinal` gives them. */
  lemma ReferenceOrdinals()
    ensures Ordinal(MjdEpoch.date) == 678576
    ensures Ordinal(Date(1970, 1, 1)) == 719163
  {
    assert DaysBeforeYear(1858) == 678255;
    assert DaysBeforeYear(1970) == 719162;
  }

  /** Day 40587 of the Modified Julian Date is 1970-01-01, the Unix epoch. */
  lemma MjdOfUnixEpoch()
    ensures DatetimeToMjd(DateTime(Date(1970, 1, 1), 0, 0, 0, 0)) == 40587.0
  {
    MjdOfMidnight(DateTime(Date(1970, 1, 1), 0, 0, 0, 0));
    ReferenceOrdinals();
  }
}
