/** Local calendar dates and millisecond instants, as the JavaScript Date
    methods used by the source see them (getFullYear, getMonth, getDate,
    getDay, setDate, setHours), without time zones or daylight saving. */
module Calendar {

  /** A calendar date. `month` runs 1..12; the source's getMonth() is
      `month - 1`, which does not change any difference of months. */
  datatype Date = Date(year: int, month: int, day: int)

  predicate IsLeapYear(y: int) {
    y % 4 == 0 && (y % 100 != 0 || y % 400 == 0)
  }

  function DaysInMonth(y: int, m: int): (n: int)
    requires 1 <= m <= 12
    ensures 28 <= n <= 31
    ensures m == 2 ==> (n == 29 <==> IsLeapYear(y))
  {
    if m == 2 then (if IsLeapYear(y) then 29 else 28)
    else if m == 4 || m == 6 || m == 9 || m == 11 then 30
    else 31
  }

  predicate ValidDate(d: Date) {
    1 <= d.month <= 12 && 1 <= d.day <= DaysInMonth(d.year, d.month)
  }

  /** Days in the months of year `y` before month `m` (m = 13 gives the year's length). */
  function DaysBeforeMonth(y: int, m: int): (n: int)
    requires 1 <= m <= 13
    ensures n >= 0
    ensures m > 1 ==> n == DaysBeforeMonth(y, m - 1) + DaysInMonth(y, m - 1)
  {
    var common :=
      if m <= 4 then (if m == 1 then 0 else if m == 2 then 31 else if m == 3 then 59 else 90)
      else if m <= 8 then (if m == 5 then 120 else if m == 6 then 151 else if m == 7 then 181 else 212)
      else if m <= 12 then (if m == 9 then 243 else if m == 10 then 273 else if m == 11 then 304 else 334)
      else 365;
    if m > 2 && IsLeapYear(y) then common + 1 else common
  }

  /** Number of leap years among the years before `y`, up to a constant. */
  function LeapYearsBefore(y: int): int {
    (y - 1) / 4 - (y - 1) / 100 + (y - 1) / 400
  }

  /** Days from 1970-01-01 to the first of January of `y`. */
  function DaysBeforeYear(y: int): int {
    365 * (y - 1970) + LeapYearsBefore(y) - LeapYearsBefore(1970)
  }

  /** Days from 1970-01-01 to day `d` of month `m` of year `y`. A day outside the
      month rolls over into the neighbouring months, as Date.setDate does. */
  function DayNumber(y: int, m: int, d: int): int
    requires 1 <= m <= 12
  {
    DaysBeforeYear(y) + DaysBeforeMonth(y, m) + d - 1
  }

  function DayNumberOf(date: Date): int
    requires 1 <= date.month <= 12
  {
    DayNumber(date.year, date.month, date.day)
  }

  /** Date.getDay(): 0 is Sunday, 1 Monday, ..., 6 Saturday. 1970-01-01 was a Thursday. */
  function DayOfWeek(n: int): (w: int)
    ensures 0 <= w < 7
  {
    (n + 4) % 7
  }

  const Monday := 1
  const MsPerDay := 86400000

  /** setHours(0, 0, 0, 0) on the given day. */
  function StartOfDay(n: int): int {
    n * MsPerDay
  }

  /** setHours(23, 59, 59, 999) on the given day. */
  function EndOfDay(n: int): int {
    n * MsPerDay + MsPerDay - 1
  }

  /** Stepping back one year lowers the quotient by a divisor exactly when the
      year is a multiple of it. */
  lemma {:induction false} QuotientByFour(y: int)
    ensures (y - 1) / 4 == if y % 4 == 0 then y / 4 - 1 else y / 4
  {
    assert y == 4 * (y / 4) + y % 4;
  }

  lemma {:induction false} QuotientByHundred(y: int)
    ensures (y - 1) / 100 == if y % 100 == 0 then y / 100 - 1 else y / 100
  {
    assert y == 100 * (y / 100) + y % 100;
  }

  lemma {:induction false} QuotientByFourHundred(y: int)
    ensures (y - 1) / 400 == if y % 400 == 0 then y / 400 - 1 else y / 400
  {
    assert y == 400 * (y / 400) + y % 400;
  }

  /** A multiple of 400 is a multiple of 100, and a multiple of 100 one of 4. */
  lemma {:induction false} HundredsDivideFourHundreds(y: int)
    requires y % 400 == 0
    ensures y % 100 == 0
  {
    var k := y / 400;
    assert y == 400 * k;
    assert y / 100 == 4 * k;
  }

  lemma {:induction false} FoursDivideHundreds(y: int)
    requires y % 100 == 0
    ensures y % 4 == 0
  {
    var k := y / 100;
    assert y == 100 * k;
    assert y / 4 == 25 * k;
  }

  /** Consecutive years are joined without a gap: a year has 365 days, or 366
      when it is a leap year. */
  lemma {:induction false} YearLength(y: int)
    ensures DaysBeforeYear(y + 1) - DaysBeforeYear(y) == DaysBeforeMonth(y, 13)
    ensures DaysBeforeMonth(y, 13) == if IsLeapYear(y) then 366 else 365
  {
    QuotientByFour(y + 1 - 1);
    QuotientByHundred(y + 1 - 1);
    QuotientByFourHundred(y + 1 - 1);
    if y % 400 == 0 {
      HundredsDivideFourHundreds(y);
    }
    if y % 100 == 0 {
      FoursDivideHundreds(y);
    }
  }

  /** The last day of a month is followed by the first day of the next. */
  lemma MonthsAreContiguous(y: int, m: int)
    requires 1 <= m <= 12
    ensures DayNumber(y, m, DaysInMonth(y, m) + 1) ==
            if m < 12 then DayNumber(y, m + 1, 1) else DayNumber(y + 1, 1, 1)
  {
    if m == 12 {
      YearLength(y);
    }
  }

  lemma InstantDay(n: int)
    ensures StartOfDay(n) <= EndOfDay(n) < StartOfDay(n + 1)
    ensures StartOfDay(n) / MsPerDay == n && StartOfDay(n) % MsPerDay == 0
    ensures EndOfDay(n) / MsPerDay == n && EndOfDay(n) % MsPerDay == MsPerDay - 1
  {
  }

  lemma KnownWeekdays()
    ensures DayOfWeek(DayNumber(1970, 1, 1)) == 4
    ensures DayOfWeek(DayNumber(2000, 2, 29)) == 2
    ensures DayOfWeek(DayNumber(2024, 1, 1)) == Monday
  {
    assert LeapYearsBefore(1970) == 477;
    assert DaysBeforeYear(2000) == 10957 by {
      assert LeapYearsBefore(2000) == 484;
    }
    assert DaysBeforeYear(2024) == 19723 by {
      assert LeapYearsBefore(2024) == 490;
    }
  }
}
