/**
 * The proleptic Gregorian calendar as Python's `datetime.date` and `calendar`
 * modules use it: leap years, month lengths, the ordering of dates, the day
 * ordinal counted from 1 January of year 1, and the weekday.
 */
module Dates {

  /** The range of years a `date` accepts. */
  const MinYear := 1
  const MaxYear := 9999

  /** Length of each month in a common year, January first. */
  const CommonMonthDays: seq<nat> := [31, 28, 31, 30, 31, 30, 31, 31, 30, 31, 30, 31]

  /** Days before the first of each month in a common year, January first. */
  const CommonDaysBeforeMonth: seq<nat> := [0, 31, 59, 90, 120, 151, 181, 212, 243, 273, 304, 334]

  /** Gregorian leap years: divisible by 4, and not by 100 unless by 400. */
  predicate IsLeapYear(year: int) {
    year % 4 == 0 && (year % 100 != 0 || year % 400 == 0)
  }

  /** The number of days in a month, the second value of `calendar.monthrange`. */
  function DaysInMonth(year: int, month: int): (n: nat)
    requires 1 <= month <= 12
    ensures n == 31 <==> month in {1, 3, 5, 7, 8, 10, 12}
    ensures n == 30 <==> month in {4, 6, 9, 11}
    ensures n == 29 <==> month == 2 && IsLeapYear(year)
    ensures n == 28 <==> month == 2 && !IsLeapYear(year)
  {
    CommonMonthDays[month - 1] + (if month == 2 && IsLeapYear(year) then 1 else 0)
  }

  /** The number of days in a year. */
  function DaysInYear(year: int): nat {
    if IsLeapYear(year) then 366 else 365
  }

  datatype Date = Date(year: int, month: int, day: int)

  /** The dates `datetime.date(year, month, day)` accepts without raising. */
  predicate ValidDate(d: Date) {
    MinYear <= d.year <= MaxYear && 1 <= d.month <= 12 && 1 <= d.day <= DaysInMonth(d.year, d.month)
  }

  /** `a < b` on dates: lexicographic on (year, month, day). */
  predicate Before(a: Date, b: Date) {
    a.year < b.year || (a.year == b.year && (a.month < b.month || (a.month == b.month && a.day < b.day)))
  }

  /** Days in the years before `year`, counted from year 1. */
  function DaysBeforeYear(year: int): int
    requires year >= 1
  {
    var y := year - 1;
    y * 365 + y / 4 - y / 100 + y / 400
  }

  /** Days in the months of `year` before `month`. */
  function DaysBeforeMonth(year: int, month: int): nat
    requires 1 <= month <= 12
  {
    CommonDaysBeforeMonth[month - 1] + (if month > 2 && IsLeapYear(year) then 1 else 0)
  }

  /** The day ordinal: 1 January of year 1 is day 1 (`date.toordinal`). */
  function Ordinal(d: Date): int
    requires d.year >= 1 && 1 <= d.month <= 12
  {
    DaysBeforeYear(d.year) + DaysBeforeMonth(d.year, d.month) + d.day
  }

  /** The weekday with Monday 0 and Sunday 6 (`date.weekday`). */
  function Weekday(d: Date): (w: int)
    requires d.year >= 1 && 1 <= d.month <= 12
    ensures 0 <= w < 7
  {
    (Ordinal(d) + 6) % 7
  }

  /** The days before a month are the lengths of the months before it. */
  lemma DaysBeforeNextMonth(year: int, month: int)
    requires 1 <= month < 12
    ensures DaysBeforeMonth(year, month + 1) == DaysBeforeMonth(year, month) + DaysInMonth(year, month)
  {
  }

  /** The months of a year add up to the year's length. */
  lemma MonthsFillYear(year: int)
    ensures DaysBeforeMonth(year, 12) + DaysInMonth(year, 12) == DaysInYear(year)
  {
  }

  /** Consecutive years start `DaysInYear` days apart. */
  lemma DaysBeforeNextYear(year: int)
    requires year >= 1
    ensures DaysBeforeYear(year + 1) == DaysBeforeYear(year) + DaysInYear(year)
  {
    var y := year - 1;
    var step4 := QuotientStep(y, 4);
    var step100 := QuotientStep(y, 100);
    var step400 := QuotientStep(y, 400);
    assert year * 365 == y * 365 + 365;
    assert DaysBeforeYear(year + 1) == DaysBeforeYear(year) + 365 + step4 - step100 + step400;
    if year % 400 == 0 {
      assert year % 100 == 0 && year % 4 == 0;
    } else if year % 100 == 0 {
      assert year % 4 == 0;
    }
    assert DaysInYear(year) == 365 + step4 - step100 + step400;
  }

  /**
   * How much `y / k` grows from `y` to `y + 1`: one when `k` divides `y + 1`,
   * nothing otherwise.
   */
  lemma QuotientStep(y: int, k: int) returns (step: int)
    requires k == 4 || k == 100 || k == 400
    ensures step == (if (y + 1) % k == 0 then 1 else 0)
    ensures (y + 1) / k == y / k + step
  {
    step := if (y + 1) % k == 0 then 1 else 0;
    if k == 4 {
    } else if k == 100 {
    } else {
    }
  }

  /** The first of the following month, as the dashboard builds it. */
  function FirstOfNextMonth(year: int, month: int): (d: Date)
    requires 1 <= month <= 12
    ensures d.day == 1 && 1 <= d.month <= 12
    ensures d.year * 12 + d.month == year * 12 + month + 1
  {
    Date(year + (if month == 12 then 1 else 0), if month == 12 then 1 else month + 1, 1)
  }

  /**
   * The half-open range [first of the month, first of the next month) spans
   * exactly as many days as the month has.
   */
  lemma MonthSpan(year: int, month: int)
    requires year >= 1 && 1 <= month <= 12
    ensures Ordinal(FirstOfNextMonth(year, month)) - Ordinal(Date(year, month, 1)) == DaysInMonth(year, month)
  {
    if month == 12 {
      DaysBeforeNextYear(year);
      MonthsFillYear(year);
    } else {
      DaysBeforeNextMonth(year, month);
    }
  }

  /**
   * A valid date falls in [first of the month, first of the next month) exactly
   * when its year and month are those of the month.
   */
  lemma InMonthRange(d: Date, year: int, month: int)
    requires ValidDate(d) && 1 <= month <= 12
    ensures (!Before(d, Date(year, month, 1)) && Before(d, FirstOfNextMonth(year, month)))
            <==> (d.year == year && d.month == month)
  {
  }

  /** Within a month, the ordinal advances by one per day. */
  lemma OrdinalWithinMonth(year: int, month: int, day: int)
    requires year >= 1 && 1 <= month <= 12
    ensures Ordinal(Date(year, month, day)) == Ordinal(Date(year, month, 1)) + day - 1
  {
  }

  /** 1 January of year 1 is a Monday, and so is 1 September 2025. */
  lemma KnownWeekdays()
    ensures Weekday(Date(1, 1, 1)) == 0
    ensures Weekday(Date(2025, 9, 1)) == 0
  {
  }
}
