/**
 * Choosing the month the dashboard shows, its bounds and the months the
 * previous/next links point to.
 */
module MonthNav {
  import opened Wrappers
  import opened Dates

  datatype YearMonth = YearMonth(year: int, month: int)

  /** Months counted from month 1 of year 0: the position of a month on the time line. */
  function MonthIndex(ym: YearMonth): int {
    ym.year * 12 + ym.month - 1
  }

  /**
   * The month the dashboard shows. A query parameter that is absent, not an
   * integer (both `None`) or zero falls back to today's year or month.
   */
  function ResolveMonth(y: Option<int>, m: Option<int>, today: Date): (ym: YearMonth)
    ensures (y == None || y == Some(0)) ==> ym.year == today.year
    ensures (y.Some? && y.value != 0) ==> ym.year == y.value
    ensures (m == None || m == Some(0)) ==> ym.month == today.month
    ensures (m.Some? && m.value != 0) ==> ym.month == m.value
  {
    YearMonth(if y.Some? && y.value != 0 then y.value else today.year,
              if m.Some? && m.value != 0 then m.value else today.month)
  }

  /** The month before: January rolls back to December of the previous year. */
  function PrevMonth(ym: YearMonth): (p: YearMonth)
    requires 1 <= ym.month <= 12
    ensures 1 <= p.month <= 12
    ensures MonthIndex(p) == MonthIndex(ym) - 1
  {
    if ym.month == 1 then YearMonth(ym.year - 1, 12) else YearMonth(ym.year, ym.month - 1)
  }

  /** The month after: December rolls over to January of the next year. */
  function NextMonth(ym: YearMonth): (n: YearMonth)
    requires 1 <= ym.month <= 12
    ensures 1 <= n.month <= 12
    ensures MonthIndex(n) == MonthIndex(ym) + 1
  {
    if ym.month == 12 then YearMonth(ym.year + 1, 1) else YearMonth(ym.year, ym.month + 1)
  }

  /** Previous and next are inverse to each other. */
  lemma {:induction false} PrevNextInverse(ym: YearMonth)
    requires 1 <= ym.month <= 12
    ensures NextMonth(PrevMonth(ym)) == ym
    ensures PrevMonth(NextMonth(ym)) == ym
  {
    MonthIndexDetermines(NextMonth(PrevMonth(ym)), ym);
    MonthIndexDetermines(PrevMonth(NextMonth(ym)), ym);
  }

  /** Two months in range with the same index are the same month. */
  lemma MonthIndexDetermines(a: YearMonth, b: YearMonth)
    requires 1 <= a.month <= 12 && 1 <= b.month <= 12
    requires MonthIndex(a) == MonthIndex(b)
    ensures a == b
  {
  }

  /** Rollover at the ends of the year. */
  lemma Rollover(year: int)
    ensures PrevMonth(YearMonth(year, 1)) == YearMonth(year - 1, 12)
    ensures NextMonth(YearMonth(year, 12)) == YearMonth(year + 1, 1)
    ensures NextMonth(YearMonth(2025, 12)) == YearMonth(2026, 1)
    ensures PrevMonth(YearMonth(2025, 1)) == YearMonth(2024, 12)
  {
  }

  /** Why building the dashboard's dates failed: the date that `date(...)` rejected. */
  datatype DateError = DateOutOfRange(year: int, month: int, day: int)

  /** The dates and neighbouring months of the month shown. */
  datatype MonthBounds = MonthBounds(
    monthStart: Date,
    lastDay: nat,
    nextMonthStart: Date,
    prev: YearMonth,
    next: YearMonth)

  /**
   * The first day of the month, its length, the first day of the next month
   * and the navigation targets. `date(year, month, 1)` raises for a month
   * outside 1..12 or a year outside 1..9999, and `date(year + 1, 1, 1)` raises
   * for December 9999.
   */
  function ComputeMonthBounds(year: int, month: int): (r: Result<MonthBounds, DateError>)
    ensures r.Success? <==> 1 <= month <= 12 && MinYear <= year <= MaxYear && !(year == MaxYear && month == 12)
    ensures !(1 <= month <= 12 && MinYear <= year <= MaxYear) ==> r == Failure(DateOutOfRange(year, month, 1))
    ensures year == MaxYear && month == 12 ==> r == Failure(DateOutOfRange(MaxYear + 1, 1, 1))
    ensures r.Success? ==>
      var b := r.value;
      && ValidDate(b.monthStart) && ValidDate(b.nextMonthStart)
      && b.monthStart == Date(year, month, 1)
      && b.nextMonthStart.day == 1
      && b.nextMonthStart.year == b.next.year && b.nextMonthStart.month == b.next.month
      && b.lastDay == DaysInMonth(year, month)
      && Ordinal(b.nextMonthStart) - Ordinal(b.monthStart) == b.lastDay
      && MonthIndex(b.prev) == MonthIndex(YearMonth(year, month)) - 1 && 1 <= b.prev.month <= 12
      && MonthIndex(b.next) == MonthIndex(YearMonth(year, month)) + 1 && 1 <= b.next.month <= 12
  {
    if !(1 <= month <= 12 && MinYear <= year <= MaxYear) then
      Failure(DateOutOfRange(year, month, 1))
    else
      var next := FirstOfNextMonth(year, month);
      if next.year > MaxYear then
        Failure(DateOutOfRange(next.year, next.month, 1))
      else
        MonthSpan(year, month);
        Success(MonthBounds(
          Date(year, month, 1),
          DaysInMonth(year, month),
          next,
          PrevMonth(YearMonth(year, month)),
          NextMonth(YearMonth(year, month))))
  }

  /**
   * With a valid `today`, a query whose parts are absent, zero or in range
   * resolves to a month whose dates can be built, unless that month is
   * December 9999, whose next month lies past the last representable year.
   */
  lemma ResolveDefaults(y: Option<int>, m: Option<int>, today: Date)
    requires ValidDate(today)
    requires m == None || m == Some(0) || (m.Some? && 1 <= m.value <= 12)
    requires y == None || y == Some(0) || (y.Some? && MinYear <= y.value <= MaxYear)
    requires ResolveMonth(y, m, today) != YearMonth(MaxYear, 12)
    ensures ComputeMonthBounds(ResolveMonth(y, m, today).year, ResolveMonth(y, m, today).month).Success?
  {
  }

  /** Examples: month lengths from the Gregorian rules. */
  lemma MonthLengthExamples()
    ensures ComputeMonthBounds(2024, 2).value.lastDay == 29
    ensures ComputeMonthBounds(2023, 2).value.lastDay == 28
    ensures ComputeMonthBounds(2024, 4).value.lastDay == 30
    ensures ComputeMonthBounds(9999, 12).Failure?
    ensures ComputeMonthBounds(2025, 13) == Failure(DateOutOfRange(2025, 13, 1))
  {
  }
}
