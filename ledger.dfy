/**
 * Transactions as the dashboard reads them, and the monthly income, expense
 * and balance totals.
 */
module Ledger {
  import opened Wrappers
  import opened Dates

  /** The two kinds the database's check constraint allows. */
  datatype Kind = Expense | Income

  /**
   * One transaction: its date, a non-negative amount in the smallest currency
   * unit, its kind and the name of its category, if one is set.
   */
  datatype Transaction = Transaction(date: Date, amount: nat, kind: Kind, category: Option<string>)

  /** The name shown for expenses without a category ("uncategorised"). */
  const Uncategorized: string := "\U{672A}\U{5206}\U{985E}"

  /** The category name an expense is grouped under. */
  function CategoryName(t: Transaction): (name: string)
    ensures t.category.Some? ==> name == t.category.value
    ensures t.category.None? ==> name == Uncategorized
  {
    match t.category
    case Some(n) => n
    case None => Uncategorized
  }

  /** The sum of the amounts of the transactions of one kind. */
  function SumOfKind(txs: seq<Transaction>, kind: Kind): nat {
    if txs == [] then 0
    else SumOfKind(txs[..|txs| - 1], kind) + (if txs[|txs| - 1].kind == kind then txs[|txs| - 1].amount else 0)
  }

  /** The sum of all amounts, whatever their kind. */
  function SumAll(txs: seq<Transaction>): nat {
    if txs == [] then 0 else SumAll(txs[..|txs| - 1]) + txs[|txs| - 1].amount
  }

  datatype Totals = Totals(income: nat, expense: nat, balance: int)

  /** The month's income, expense and balance. */
  function MonthTotals(txs: seq<Transaction>): (t: Totals)
    ensures t.income == SumOfKind(txs, Income)
    ensures t.expense == SumOfKind(txs, Expense)
    ensures t.balance == t.income - t.expense
    ensures t.income + t.expense == SumAll(txs)
    ensures txs == [] ==> t == Totals(0, 0, 0)
  {
    IncomePlusExpense(txs);
    var income := SumOfKind(txs, Income);
    var expense := SumOfKind(txs, Expense);
    Totals(income, expense, income - expense)
  }

  /** Every amount is either income or expense. */
  lemma {:induction false} IncomePlusExpense(txs: seq<Transaction>)
    ensures SumOfKind(txs, Income) + SumOfKind(txs, Expense) == SumAll(txs)
  {
    if txs != [] {
      IncomePlusExpense(txs[..|txs| - 1]);
    }
  }

  /** Sums over a concatenation add up. */
  lemma {:induction false} SumOfKindAppend(a: seq<Transaction>, b: seq<Transaction>, kind: Kind)
    ensures SumOfKind(a + b, kind) == SumOfKind(a, kind) + SumOfKind(b, kind)
  {
    if b == [] {
      assert a + b == a;
    } else {
      assert (a + b)[..|a + b| - 1] == a + b[..|b| - 1];
      SumOfKindAppend(a, b[..|b| - 1], kind);
    }
  }

  lemma MultisetRemove(b: seq<Transaction>, j: nat)
    requires j < |b|
    ensures multiset(b[..j] + b[j + 1..]) == multiset(b) - multiset{b[j]}
  {
    assert b == b[..j] + [b[j]] + b[j + 1..];
    assert multiset(b) == multiset(b[..j]) + multiset{b[j]} + multiset(b[j + 1..]);
  }

  /** Taking one transaction out of a sequence takes its amount out of its kind's sum. */
  lemma SumOfKindRemove(b: seq<Transaction>, j: nat, kind: Kind)
    requires j < |b|
    ensures SumOfKind(b, kind) == SumOfKind(b[..j] + b[j + 1..], kind) + (if b[j].kind == kind then b[j].amount else 0)
  {
    assert b == b[..j] + [b[j]] + b[j + 1..];
    SumOfKindAppend(b[..j], [b[j]], kind);
    SumOfKindAppend(b[..j] + [b[j]], b[j + 1..], kind);
    SumOfKindAppend(b[..j], b[j + 1..], kind);
    assert SumOfKind([b[j]], kind) == (if b[j].kind == kind then b[j].amount else 0) by {
      assert [b[j]][..0] == [];
    }
  }

  /**
   * The totals do not depend on the order in which the query returns the
   * transactions.
   */
  lemma {:induction false} SumOfKindPermutation(a: seq<Transaction>, b: seq<Transaction>, kind: Kind)
    requires multiset(a) == multiset(b)
    ensures SumOfKind(a, kind) == SumOfKind(b, kind)
    decreases |a|
  {
    if a != [] {
      var last := a[|a| - 1];
      assert a == a[..|a| - 1] + [last];
      assert last in multiset(b);
      var j :| 0 <= j < |b| && b[j] == last;
      var rest := b[..j] + b[j + 1..];
      MultisetRemove(b, j);
      MultisetRemove(a, |a| - 1);
      assert a[..|a| - 1] + a[|a|..] == a[..|a| - 1];
      SumOfKindPermutation(a[..|a| - 1], rest, kind);
      SumOfKindRemove(b, j, kind);
    }
  }

  /** The worked example: two expenses of one category and an income. */
  lemma TotalsExample()
    ensures
      var food := Some("Food");
      var txs := [Transaction(Date(2024, 4, 1), 100, Expense, food),
                  Transaction(Date(2024, 4, 1), 500, Income, None),
                  Transaction(Date(2024, 4, 2), 50, Expense, food)];
      MonthTotals(txs) == Totals(500, 150, 350)
  {
    var food := Some("Food");
    var t0 := Transaction(Date(2024, 4, 1), 100, Expense, food);
    var t1 := Transaction(Date(2024, 4, 1), 500, Income, None);
    var t2 := Transaction(Date(2024, 4, 2), 50, Expense, food);
    var txs := [t0, t1, t2];
    assert txs[..2] == [t0, t1];
    assert [t0, t1][..1] == [t0];
    assert [t0][..0] == [];
    assert SumOfKind([t0], Income) == 0;
    assert SumOfKind([t0], Expense) == SumOfKind([], Expense) + 100;
    assert SumOfKind([t0, t1], Income) == 500 && SumOfKind([t0, t1], Expense) == 100;
  }
}
