/**
 * The monthly dashboard: the month is resolved from the query, the user's
 * transactions are narrowed to that month, and the totals, the category
 * ranking, the daily series and the calendar matrix are built from them.
 */
module Dashboard {
  import opened Wrappers
  import opened Dates
  import opened MonthNav
  import opened Ledger
  import opened Categories
  import opened Daily
  import opened MonthCalendar

  /** The transactions dated in the half-open range [start, end), in their order. */
  function InRange(txs: seq<Transaction>, start: Date, end: Date): (r: seq<Transaction>)
    ensures forall t :: t in r <==> t in txs && !Before(t.date, start) && Before(t.date, end)
    ensures forall t :: multiset(r)[t] == if !Before(t.date, start) && Before(t.date, end) then multiset(txs)[t] else 0
  {
    if txs == [] then []
    else
      var front, t := txs[..|txs| - 1], txs[|txs| - 1];
      assert txs == front + [t];
      InRange(front, start, end) + (if !Before(t.date, start) && Before(t.date, end) then [t] else [])
  }

  /** Everything the dashboard page shows for one month. */
  datatype Report = Report(
    year: int,
    month: int,
    bounds: MonthBounds,
    totals: Totals,
    catRows: seq<CategoryRow>,
    catLabels: seq<string>,
    catValues: seq<nat>,
    dailyIncome: seq<int>,
    dailyExpense: seq<int>,
    dailyBalance: seq<int>,
    weeks: seq<seq<nat>>)

  /** The transactions of the month are dated on its days. */
  lemma MonthTransactionsWithin(stored: seq<Transaction>, year: int, month: int)
    requires forall t :: t in stored ==> ValidDate(t.date)
    requires 1 <= month <= 12
    ensures DaysWithin(InRange(stored, Date(year, month, 1), FirstOfNextMonth(year, month)), DaysInMonth(year, month))
  {
    forall t | t in InRange(stored, Date(year, month, 1), FirstOfNextMonth(year, month))
      ensures 1 <= t.date.day <= DaysInMonth(year, month)
    {
      InMonthRange(t.date, year, month);
    }
  }

  /** The date-range query keeps the stored transactions of the month, each as often as it is stored. */
  lemma MonthFilter(stored: seq<Transaction>, year: int, month: int)
    requires forall t :: t in stored ==> ValidDate(t.date)
    requires 1 <= month <= 12
    ensures var txs := InRange(stored, Date(year, month, 1), FirstOfNextMonth(year, month));
      && (forall t :: t in txs <==> t in stored && t.date.year == year && t.date.month == month)
      && (forall t :: multiset(txs)[t] == if t.date.year == year && t.date.month == month then multiset(stored)[t] else 0)
  {
    forall t | t in stored {
      InMonthRange(t.date, year, month);
    }
  }

  /**
   * The dashboard for the query parameters `y` and `m`, today's date and the
   * user's stored transactions: it fails exactly when the month's dates cannot
   * be built, and otherwise reports on the transactions of that month.
   */
  method BuildDashboard(y: Option<int>, m: Option<int>, today: Date, stored: seq<Transaction>)
    returns (r: Result<Report, DateError>)
    requires forall t :: t in stored ==> ValidDate(t.date)
    ensures
      var ym := ResolveMonth(y, m, today);
      var bounds := ComputeMonthBounds(ym.year, ym.month);
      && (r.Success? <==> bounds.Success?)
      && (r.Failure? ==> r.error == bounds.error)
      && (r.Success? ==>
        var rep := r.value;
        var b := bounds.value;
        var txs := InRange(stored, b.monthStart, b.nextMonthStart);
        && rep.year == ym.year && rep.month == ym.month && rep.bounds == b
        && (forall t :: t in txs <==> t in stored && t.date.year == ym.year && t.date.month == ym.month)
        && (forall t :: multiset(txs)[t] ==
              if t.date.year == ym.year && t.date.month == ym.month then multiset(stored)[t] else 0)
        && rep.totals == MonthTotals(txs)
        && rep.catRows == SortByTotalDesc(Grouped(txs))
        && Descending(rep.catRows) && DistinctNames(rep.catRows)
        && multiset(rep.catRows) == multiset(Grouped(txs))
        && |rep.catLabels| == |rep.catRows| == |rep.catValues|
        && (forall i :: 0 <= i < |rep.catRows| ==>
              rep.catLabels[i] == rep.catRows[i].name && rep.catValues[i] == rep.catRows[i].total)
        && |rep.dailyIncome| == b.lastDay && |rep.dailyExpense| == b.lastDay && |rep.dailyBalance| == b.lastDay
        && (forall d :: 0 <= d < b.lastDay ==>
              && rep.dailyIncome[d] == DaySum(txs, d + 1, Income)
              && rep.dailyExpense[d] == DaySum(txs, d + 1, Expense)
              && rep.dailyBalance[d] == rep.dailyIncome[d] - rep.dailyExpense[d])
        && SeqSum(rep.dailyIncome) == rep.totals.income
        && SeqSum(rep.dailyExpense) == rep.totals.expense
        && rep.weeks == MonthMatrix(ym.year, ym.month, Sunday))
  {
    var ym := ResolveMonth(y, m, today);
    var bounds := ComputeMonthBounds(ym.year, ym.month);
    if bounds.Failure? {
      return Failure(bounds.error);
    }
    var b := bounds.value;
    var txs := InRange(stored, b.monthStart, b.nextMonthStart);
    MonthFilter(stored, ym.year, ym.month);
    var totals := MonthTotals(txs);
    var rows, labels, values := CategoryBreakdown(txs);
    MonthTransactionsWithin(stored, ym.year, ym.month);
    var income, expense, balance := DailySeries(txs, b.lastDay);
    SeriesSums(income[..], expense[..], txs);
    var weeks := MonthMatrix(ym.year, ym.month, Sunday);
    r := Success(Report(ym.year, ym.month, b, totals, rows, labels, values,
                        income[..], expense[..], balance[..], weeks));
  }
}
