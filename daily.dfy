/**
 * The per-day income, expense and balance series of the month, filled in
 * place by one pass over the transactions.
 */
module Daily {
  import opened Ledger

  /** The amounts of one kind dated on day `day` of the month. */
  function DaySum(txs: seq<Transaction>, day: int, kind: Kind): nat {
    if txs == [] then 0
    else
      var t := txs[|txs| - 1];
      DaySum(txs[..|txs| - 1], day, kind) + (if t.date.day == day && t.kind == kind then t.amount else 0)
  }

  /** The amounts of one kind summed over days 1..n. */
  function DaysSum(txs: seq<Transaction>, kind: Kind, n: nat): nat {
    if n == 0 then 0 else DaysSum(txs, kind, n - 1) + DaySum(txs, n, kind)
  }

  function SeqSum(s: seq<int>): int {
    if s == [] then 0 else SeqSum(s[..|s| - 1]) + s[|s| - 1]
  }

  /** Every transaction is dated on a day of a month of `lastDay` days. */
  predicate DaysWithin(txs: seq<Transaction>, lastDay: nat) {
    forall t :: t in txs ==> 1 <= t.date.day <= lastDay
  }

  lemma DaySumSnoc(s: seq<Transaction>, t: Transaction, day: int, kind: Kind)
    ensures DaySum(s + [t], day, kind) == DaySum(s, day, kind) + (if t.date.day == day && t.kind == kind then t.amount else 0)
  {
    assert (s + [t])[..|s|] == s;
  }

  /** A day no transaction is dated on has nothing in it. */
  lemma {:induction false} DaySumAbsent(txs: seq<Transaction>, day: int, kind: Kind)
    requires forall t :: t in txs ==> t.date.day != day
    ensures DaySum(txs, day, kind) == 0
  {
    if txs != [] {
      DaySumAbsent(txs[..|txs| - 1], day, kind);
    }
  }

  lemma {:induction false} DaysSumSnoc(s: seq<Transaction>, t: Transaction, kind: Kind, n: nat)
    ensures DaysSum(s + [t], kind, n) ==
      DaysSum(s, kind, n) + (if t.kind == kind && 1 <= t.date.day <= n then t.amount else 0)
  {
    if n > 0 {
      DaysSumSnoc(s, t, kind, n - 1);
      DaySumSnoc(s, t, n, kind);
    }
  }

  /** Summed over the days of the month, the days give back the monthly total. */
  lemma {:induction false} DaysSumTotal(txs: seq<Transaction>, kind: Kind, n: nat)
    requires DaysWithin(txs, n)
    ensures DaysSum(txs, kind, n) == SumOfKind(txs, kind)
  {
    if txs == [] {
      if n > 0 {
        DaysSumTotal(txs, kind, n - 1);
      }
    } else {
      var s := txs[..|txs| - 1];
      var t := txs[|txs| - 1];
      assert txs == s + [t];
      DaysSumTotal(s, kind, n);
      DaysSumSnoc(s, t, kind, n);
    }
  }

  lemma {:induction false} SeqSumOfDays(a: seq<int>, txs: seq<Transaction>, kind: Kind)
    requires forall d :: 0 <= d < |a| ==> a[d] == DaySum(txs, d + 1, kind)
    ensures SeqSum(a) == DaysSum(txs, kind, |a|)
  {
    if a != [] {
      SeqSumOfDays(a[..|a| - 1], txs, kind);
    }
  }

  /**
   * Series that hold the per-day sums of the transactions add up to the
   * monthly totals, and a day without transactions holds zeros.
   */
  lemma SeriesSums(income: seq<int>, expense: seq<int>, txs: seq<Transaction>)
    requires |income| == |expense|
    requires DaysWithin(txs, |income|)
    requires forall d :: 0 <= d < |income| ==> income[d] == DaySum(txs, d + 1, Income)
    requires forall d :: 0 <= d < |expense| ==> expense[d] == DaySum(txs, d + 1, Expense)
    ensures SeqSum(income) == SumOfKind(txs, Income)
    ensures SeqSum(expense) == SumOfKind(txs, Expense)
    ensures forall d :: 0 <= d < |income| && (forall t :: t in txs ==> t.date.day != d + 1) ==>
      income[d] == 0 && expense[d] == 0
  {
    forall d | 0 <= d < |income| && (forall t :: t in txs ==> t.date.day != d + 1)
      ensures income[d] == 0 && expense[d] == 0
    {
      DaySumAbsent(txs, d + 1, Income);
      DaySumAbsent(txs, d + 1, Expense);
    }
    SeqSumOfDays(income, txs, Income);
    SeqSumOfDays(expense, txs, Expense);
    DaysSumTotal(txs, Income, |income|);
    DaysSumTotal(txs, Expense, |expense|);
  }

  /** Slot `d` of `s` holds the day-`d + 1` sum of `kind` over `txs`. */
  ghost predicate Tracks(s: seq<int>, txs: seq<Transaction>, kind: Kind) {
    forall d :: 0 <= d < |s| ==> s[d] == DaySum(txs, d + 1, kind)
  }

  /** Adding one transaction to its day's slot keeps the slots tracking the sums. */
  lemma TracksStep(s: seq<int>, txs: seq<Transaction>, t: Transaction, kind: Kind)
    requires Tracks(s, txs, kind)
    requires 1 <= t.date.day <= |s|
    ensures t.kind == kind ==> Tracks(s[t.date.day - 1 := s[t.date.day - 1] + t.amount], txs + [t], kind)
    ensures t.kind != kind ==> Tracks(s, txs + [t], kind)
  {
    forall day | 1 <= day <= |s|
      ensures DaySum(txs + [t], day, kind) == DaySum(txs, day, kind) + (if t.date.day == day && t.kind == kind then t.amount else 0)
    {
      DaySumSnoc(txs, t, day, kind);
    }
  }

  /** Each slot of `balance` is the income slot minus the expense slot. */
  ghost predicate Difference(balance: seq<int>, income: seq<int>, expense: seq<int>) {
    |balance| == |income| == |expense| &&
    forall d :: 0 <= d < |balance| ==> balance[d] == income[d] - expense[d]
  }

  /** Changing one day's income or expense and resetting that day's balance keeps the differences. */
  lemma DifferenceStep(balance: seq<int>, income: seq<int>, expense: seq<int>, income': seq<int>, expense': seq<int>, j: int)
    requires Difference(balance, income, expense)
    requires 0 <= j < |balance| && |income'| == |income| && |expense'| == |expense|
    requires forall d :: 0 <= d < |income| && d != j ==> income'[d] == income[d] && expense'[d] == expense[d]
    ensures Difference(balance[j := income'[j] - expense'[j]], income', expense')
  {
  }

  /**
   * One pass of the loop over the month's transactions: the amount goes to
   * the income slot of its day if it is income and to the expense slot
   * otherwise, and that day's balance slot is set to income minus expense.
   */
  method AddToDay(income: array<int>, expense: array<int>, balance: array<int>, t: Transaction, ghost done: seq<Transaction>)
    requires income != expense && income != balance && expense != balance
    requires income.Length == expense.Length == balance.Length
    requires 1 <= t.date.day <= income.Length
    requires Tracks(income[..], done, Income) && Tracks(expense[..], done, Expense)
    requires Difference(balance[..], income[..], expense[..])
    modifies income, expense, balance
    ensures Tracks(income[..], done + [t], Income) && Tracks(expense[..], done + [t], Expense)
    ensures Difference(balance[..], income[..], expense[..])
  {
    var day := t.date.day;
    TracksStep(income[..], done, t, Income);
    TracksStep(expense[..], done, t, Expense);
    ghost var income0, expense0, balance0 := income[..], expense[..], balance[..];
    if t.kind == Income {
      income[day - 1] := income[day - 1] + t.amount;
      assert income[..] == income0[day - 1 := income0[day - 1] + t.amount];
      assert expense[..] == expense0;
    } else {
      expense[day - 1] := expense[day - 1] + t.amount;
      assert income[..] == income0;
      assert expense[..] == expense0[day - 1 := expense0[day - 1] + t.amount];
    }
    balance[day - 1] := income[day - 1] - expense[day - 1];
    assert balance[..] == balance0[day - 1 := income[day - 1] - expense[day - 1]];
    DifferenceStep(balance0, income0, expense0, income[..], expense[..], day - 1);
  }

  /**
   * `daily_income`, `daily_expense` and `daily_balance`: one slot per day of
   * the month; each transaction adds its amount to the income slot of its day
   * if it is income and to the expense slot otherwise, and the balance slot of
   * that day is set to income minus expense. A day no transaction touches
   * keeps its zeros, and the series add up to the monthly totals (SeriesSums).
   */
  method DailySeries(txs: seq<Transaction>, lastDay: nat) returns (income: array<int>, expense: array<int>, balance: array<int>)
    requires DaysWithin(txs, lastDay)
    ensures income.Length == lastDay && expense.Length == lastDay && balance.Length == lastDay
    ensures forall d :: 0 <= d < lastDay ==> income[d] == DaySum(txs, d + 1, Income)
    ensures forall d :: 0 <= d < lastDay ==> expense[d] == DaySum(txs, d + 1, Expense)
    ensures forall d :: 0 <= d < lastDay ==> balance[d] == income[d] - expense[d]
  {
    income := new int[lastDay](_ => 0);
    expense := new int[lastDay](_ => 0);
    balance := new int[lastDay](_ => 0);
    for i := 0 to |txs|
      invariant Tracks(income[..], txs[..i], Income)
      invariant Tracks(expense[..], txs[..i], Expense)
      invariant Difference(balance[..], income[..], expense[..])
    {
      assert txs[..i + 1] == txs[..i] + [txs[i]];
      assert txs[i] in txs;
      AddToDay(income, expense, balance, txs[i], txs[..i]);
    }
    assert txs[..|txs|] == txs;
  }
}
