/**
 * The expense breakdown by category: expenses grouped by category name in the
 * order the names are first met (an insertion-ordered dictionary), then ranked
 * by total, largest first, ties kept in that order (a stable sort).
 */
module Categories {
  import opened Ledger

  datatype CategoryRow = CategoryRow(name: string, total: nat)

  // ---- Reference definition of the grouping ----

  /** The category names of the expense transactions, in order, repeats included. */
  function ExpenseNames(txs: seq<Transaction>): seq<string> {
    if txs == [] then []
    else
      var t := txs[|txs| - 1];
      ExpenseNames(txs[..|txs| - 1]) + (if t.kind == Expense then [CategoryName(t)] else [])
  }

  /** The distinct elements of `s`, in the order each is first met. */
  function FirstOccurrences(s: seq<string>): seq<string> {
    if s == [] then []
    else
      var prefix := FirstOccurrences(s[..|s| - 1]);
      if s[|s| - 1] in s[..|s| - 1] then prefix else prefix + [s[|s| - 1]]
  }

  /** The amount spent under one category name. */
  function CategorySum(txs: seq<Transaction>, name: string): nat {
    if txs == [] then 0
    else
      var t := txs[|txs| - 1];
      CategorySum(txs[..|txs| - 1], name) + (if t.kind == Expense && CategoryName(t) == name then t.amount else 0)
  }

  /** One row per name, with that name's expense total. */
  function RowsFor(names: seq<string>, txs: seq<Transaction>): (rows: seq<CategoryRow>)
    ensures |rows| == |names|
  {
    seq(|names|, i requires 0 <= i < |names| => CategoryRow(names[i], CategorySum(txs, names[i])))
  }

  /** The grouped expenses: one row per category name, in first-encounter order. */
  function Grouped(txs: seq<Transaction>): seq<CategoryRow> {
    RowsFor(FirstOccurrences(ExpenseNames(txs)), txs)
  }

  /** The sum of the totals of some rows. */
  function TotalOf(rows: seq<CategoryRow>): nat {
    if rows == [] then 0 else TotalOf(rows[..|rows| - 1]) + rows[|rows| - 1].total
  }

  /** No two rows share a name. */
  predicate DistinctNames(rows: seq<CategoryRow>) {
    Distinct(Names(rows))
  }

  predicate Distinct(s: seq<string>) {
    forall i, j :: 0 <= i < j < |s| ==> s[i] != s[j]
  }

  /** Index of the first occurrence of `x` in `s`. */
  function FirstIndex(s: seq<string>, x: string): (k: nat)
    requires x in s
    ensures k < |s| && s[k] == x && x !in s[..k]
  {
    if x in s[..|s| - 1] then FirstIndex(s[..|s| - 1], x) else |s| - 1
  }

  lemma ExpenseNamesSnoc(s: seq<Transaction>, t: Transaction)
    ensures ExpenseNames(s + [t]) == ExpenseNames(s) + (if t.kind == Expense then [CategoryName(t)] else [])
  {
    assert (s + [t])[..|s|] == s;
  }

  lemma CategorySumSnoc(s: seq<Transaction>, t: Transaction, name: string)
    ensures CategorySum(s + [t], name) ==
      CategorySum(s, name) + (if t.kind == Expense && CategoryName(t) == name then t.amount else 0)
  {
    assert (s + [t])[..|s|] == s;
  }

  lemma FirstOccurrencesSnoc(s: seq<string>, x: string)
    ensures FirstOccurrences(s + [x]) == if x in s then FirstOccurrences(s) else FirstOccurrences(s) + [x]
  {
    assert (s + [x])[..|s|] == s;
  }

  // ---- The grouping loop ----

  /**
   * The dictionary (`keys` in insertion order, `byCat` the amounts) holds the
   * expenses of `done`: a key per name, in first-encounter order, with the sum
   * spent under it.
   */
  ghost predicate Tallies(keys: seq<string>, byCat: map<string, nat>, done: seq<Transaction>) {
    && keys == FirstOccurrences(ExpenseNames(done))
    && (forall k :: k in byCat <==> k in keys)
    && (forall k :: k in byCat ==> byCat[k] == CategorySum(done, k))
  }

  lemma TallyIncome(keys: seq<string>, byCat: map<string, nat>, done: seq<Transaction>, t: Transaction)
    requires Tallies(keys, byCat, done) && t.kind == Income
    ensures Tallies(keys, byCat, done + [t])
  {
    ExpenseNamesSnoc(done, t);
    assert ExpenseNames(done + [t]) == ExpenseNames(done);
    forall k ensures CategorySum(done + [t], k) == CategorySum(done, k) {
      CategorySumSnoc(done, t, k);
    }
  }

  lemma TallyExpense(keys: seq<string>, byCat: map<string, nat>, done: seq<Transaction>, t: Transaction)
    requires Tallies(keys, byCat, done) && t.kind == Expense
    ensures CategoryName(t) in byCat ==>
      Tallies(keys, byCat[CategoryName(t) := byCat[CategoryName(t)] + t.amount], done + [t])
    ensures CategoryName(t) !in byCat ==>
      Tallies(keys + [CategoryName(t)], byCat[CategoryName(t) := t.amount], done + [t])
  {
    var name := CategoryName(t);
    ExpenseNamesSnoc(done, t);
    FirstOccurrencesMembers(ExpenseNames(done));
    FirstOccurrencesSnoc(ExpenseNames(done), name);
    forall k ensures CategorySum(done + [t], k) == CategorySum(done, k) + (if k == name then t.amount else 0) {
      CategorySumSnoc(done, t, k);
    }
    if name !in byCat {
      AbsentNameSumsToZero(done, name);
    }
  }

  /** The dictionary's items, in insertion order. */
  function Items(keys: seq<string>, byCat: map<string, nat>): seq<CategoryRow>
    requires forall k :: k in keys ==> k in byCat
  {
    seq(|keys|, j requires 0 <= j < |keys| => CategoryRow(keys[j], byCat[keys[j]]))
  }

  lemma TalliesItems(keys: seq<string>, byCat: map<string, nat>, txs: seq<Transaction>)
    requires Tallies(keys, byCat, txs)
    ensures Items(keys, byCat) == Grouped(txs)
  {
  }

  /**
   * The `defaultdict` loop: each expense adds its amount under its category
   * name, a name being inserted on first use; the rows are the dictionary's
   * items in insertion order.
   */
  method GroupByCategory(txs: seq<Transaction>) returns (rows: seq<CategoryRow>)
    ensures rows == Grouped(txs)
  {
    var keys: seq<string> := [];
    var byCat: map<string, nat> := map[];
    for i := 0 to |txs|
      invariant Tallies(keys, byCat, txs[..i])
    {
      var t := txs[i];
      assert txs[..i + 1] == txs[..i] + [t];
      if t.kind == Expense {
        var name := CategoryName(t);
        TallyExpense(keys, byCat, txs[..i], t);
        if name !in byCat {
          keys := keys + [name];
          byCat := byCat[name := 0];
        }
        byCat := byCat[name := byCat[name] + t.amount];
      } else {
        TallyIncome(keys, byCat, txs[..i], t);
      }
    }
    assert txs[..|txs|] == txs;
    TalliesItems(keys, byCat, txs);
    rows := Items(keys, byCat);
  }

  // ---- Properties of the grouping ----

  /** First occurrences keep exactly the elements of the sequence. */
  lemma {:induction false} FirstOccurrencesMembers(s: seq<string>)
    ensures forall x :: x in FirstOccurrences(s) <==> x in s
  {
    if s != [] {
      FirstOccurrencesMembers(s[..|s| - 1]);
      assert s == s[..|s| - 1] + [s[|s| - 1]];
    }
  }

  /** First occurrences are distinct. */
  lemma {:induction false} FirstOccurrencesDistinct(s: seq<string>)
    ensures Distinct(FirstOccurrences(s))
  {
    if s != [] {
      FirstOccurrencesDistinct(s[..|s| - 1]);
      FirstOccurrencesMembers(s[..|s| - 1]);
    }
  }

  /** First occurrences are listed in the order they are first met. */
  lemma {:induction false} FirstOccurrencesOrder(s: seq<string>)
    ensures forall x :: x in FirstOccurrences(s) ==> x in s
    ensures forall i, j :: 0 <= i < j < |FirstOccurrences(s)| ==>
      FirstIndex(s, FirstOccurrences(s)[i]) < FirstIndex(s, FirstOccurrences(s)[j])
  {
    FirstOccurrencesMembers(s);
    if s != [] {
      var p := s[..|s| - 1];
      FirstOccurrencesOrder(p);
      FirstOccurrencesMembers(p);
      var fo := FirstOccurrences(s);
      forall i, j | 0 <= i < j < |fo|
        ensures FirstIndex(s, fo[i]) < FirstIndex(s, fo[j])
      {
        assert fo[i] in FirstOccurrences(p);
        if j < |FirstOccurrences(p)| {
          assert fo[j] in FirstOccurrences(p);
        }
      }
    }
  }

  /** An expense name occurs in `ExpenseNames` exactly when some expense carries it. */
  lemma {:induction false} ExpenseNamesMembers(txs: seq<Transaction>)
    ensures forall n :: n in ExpenseNames(txs) <==> exists t :: t in txs && t.kind == Expense && CategoryName(t) == n
  {
    if txs != [] {
      var p := txs[..|txs| - 1];
      ExpenseNamesMembers(p);
      assert txs == p + [txs[|txs| - 1]];
    }
  }

  /** A name no expense carries has nothing spent under it. */
  lemma {:induction false} AbsentNameSumsToZero(txs: seq<Transaction>, name: string)
    requires name !in ExpenseNames(txs)
    ensures CategorySum(txs, name) == 0
  {
    if txs != [] {
      AbsentNameSumsToZero(txs[..|txs| - 1], name);
    }
  }

  lemma RowsForPrefix(names: seq<string>, txs: seq<Transaction>, k: nat)
    requires k <= |names|
    ensures RowsFor(names, txs)[..k] == RowsFor(names[..k], txs)
  {
  }

  /** Adding one transaction raises the total over distinct names by its amount, if it is counted under one of them. */
  lemma {:induction false} TotalOfRowsForSnoc(names: seq<string>, s: seq<Transaction>, t: Transaction)
    requires Distinct(names)
    ensures TotalOf(RowsFor(names, s + [t])) ==
      TotalOf(RowsFor(names, s)) + (if t.kind == Expense && CategoryName(t) in names then t.amount else 0)
  {
    if names != [] {
      var p := names[..|names| - 1];
      assert (s + [t])[..|s + [t]| - 1] == s;
      RowsForPrefix(names, s + [t], |names| - 1);
      RowsForPrefix(names, s, |names| - 1);
      TotalOfRowsForSnoc(p, s, t);
      assert names == p + [names[|names| - 1]];
    }
  }

  lemma TotalOfSnoc(rows: seq<CategoryRow>, r: CategoryRow)
    ensures TotalOf(rows + [r]) == TotalOf(rows) + r.total
  {
    assert (rows + [r])[..|rows|] == rows;
  }

  /** A name met for the first time adds a row holding the new expense's amount. */
  lemma NewNameTotal(names: seq<string>, s: seq<Transaction>, t: Transaction)
    requires t.kind == Expense && CategoryName(t) !in ExpenseNames(s)
    ensures TotalOf(RowsFor(names + [CategoryName(t)], s + [t])) == TotalOf(RowsFor(names, s + [t])) + t.amount
  {
    var n := CategoryName(t);
    assert RowsFor(names + [n], s + [t]) == RowsFor(names, s + [t]) + [CategoryRow(n, CategorySum(s + [t], n))];
    TotalOfSnoc(RowsFor(names, s + [t]), CategoryRow(n, CategorySum(s + [t], n)));
    CategorySumSnoc(s, t, n);
    AbsentNameSumsToZero(s, n);
  }

  /** The category totals add up to the month's expense total. */
  lemma {:induction false} GroupedTotal(txs: seq<Transaction>)
    ensures TotalOf(Grouped(txs)) == SumOfKind(txs, Expense)
  {
    if txs != [] {
      var s := txs[..|txs| - 1];
      var t := txs[|txs| - 1];
      assert txs == s + [t];
      GroupedTotal(s);
      var e := ExpenseNames(s);
      var names := FirstOccurrences(e);
      ExpenseNamesSnoc(s, t);
      FirstOccurrencesDistinct(e);
      FirstOccurrencesMembers(e);
      TotalOfRowsForSnoc(names, s, t);
      if t.kind == Expense {
        var n := CategoryName(t);
        FirstOccurrencesSnoc(e, n);
        if n !in e {
          NewNameTotal(names, s, t);
        }
      } else {
        assert ExpenseNames(txs) == e + [] == e;
      }
    }
  }

  /** The names of some rows, in order. */
  function Names(rows: seq<CategoryRow>): (names: seq<string>)
    ensures |names| == |rows| && forall i :: 0 <= i < |rows| ==> names[i] == rows[i].name
  {
    seq(|rows|, i requires 0 <= i < |rows| => rows[i].name)
  }

  /**
   * The grouped rows: each name an expense carries appears once, and no other
   * name; the names come in first-encounter order; each row holds the sum spent
   * under its name; and the rows add up to the expense total.
   */
  lemma GroupedSpec(txs: seq<Transaction>)
    ensures DistinctNames(Grouped(txs))
    ensures forall n :: n in Names(Grouped(txs)) <==> exists t :: t in txs && t.kind == Expense && CategoryName(t) == n
    ensures forall i :: 0 <= i < |Grouped(txs)| ==> Grouped(txs)[i].total == CategorySum(txs, Grouped(txs)[i].name)
    ensures forall i, j :: 0 <= i < j < |Grouped(txs)| ==>
      && Grouped(txs)[i].name in ExpenseNames(txs) && Grouped(txs)[j].name in ExpenseNames(txs)
      && FirstIndex(ExpenseNames(txs), Grouped(txs)[i].name) < FirstIndex(ExpenseNames(txs), Grouped(txs)[j].name)
    ensures TotalOf(Grouped(txs)) == SumOfKind(txs, Expense)
  {
    var e := ExpenseNames(txs);
    var names := FirstOccurrences(e);
    FirstOccurrencesDistinct(e);
    FirstOccurrencesMembers(e);
    FirstOccurrencesOrder(e);
    ExpenseNamesMembers(txs);
    GroupedTotal(txs);
    assert Names(Grouped(txs)) == names;
  }

  // ---- The stable descending sort ----

  /** `x` placed after every row whose total is at least its own. */
  function InsertByTotal(sorted: seq<CategoryRow>, x: CategoryRow): (r: seq<CategoryRow>)
    ensures |r| == |sorted| + 1
  {
    if sorted == [] then [x]
    else if sorted[0].total < x.total then [x] + sorted
    else [sorted[0]] + InsertByTotal(sorted[1..], x)
  }

  /** `sorted(rows, key=total, reverse=True)`: a stable sort, largest total first. */
  function SortByTotalDesc(rows: seq<CategoryRow>): (sorted: seq<CategoryRow>)
    ensures |sorted| == |rows|
  {
    if rows == [] then []
    else InsertByTotal(SortByTotalDesc(rows[..|rows| - 1]), rows[|rows| - 1])
  }

  predicate Descending(rows: seq<CategoryRow>) {
    forall i, j :: 0 <= i < j < |rows| ==> rows[i].total >= rows[j].total
  }

  /** The rows with a given total, in their order. */
  function WithTotal(rows: seq<CategoryRow>, v: nat): seq<CategoryRow> {
    if rows == [] then []
    else (if rows[0].total == v then [rows[0]] else []) + WithTotal(rows[1..], v)
  }

  lemma {:induction false} WithTotalAppend(a: seq<CategoryRow>, b: seq<CategoryRow>, v: nat)
    ensures WithTotal(a + b, v) == WithTotal(a, v) + WithTotal(b, v)
  {
    if a == [] {
      assert a + b == b;
    } else {
      var head := if a[0].total == v then [a[0]] else [];
      assert (a + b)[0] == a[0];
      assert (a + b)[1..] == a[1..] + b;
      assert WithTotal(a + b, v) == head + WithTotal(a[1..] + b, v);
      assert WithTotal(a, v) == head + WithTotal(a[1..], v);
      WithTotalAppend(a[1..], b, v);
    }
  }

  lemma {:induction false} WithTotalNone(rows: seq<CategoryRow>, v: nat)
    requires forall i :: 0 <= i < |rows| ==> rows[i].total < v
    ensures WithTotal(rows, v) == []
  {
    if rows != [] {
      WithTotalNone(rows[1..], v);
    }
  }

  lemma {:induction false} InsertByTotalMultiset(sorted: seq<CategoryRow>, x: CategoryRow)
    ensures multiset(InsertByTotal(sorted, x)) == multiset(sorted) + multiset{x}
  {
    if sorted != [] && sorted[0].total >= x.total {
      var rest := sorted[1..];
      InsertByTotalMultiset(rest, x);
      assert sorted == [sorted[0]] + rest;
      assert multiset(sorted) == multiset{sorted[0]} + multiset(rest);
      assert InsertByTotal(sorted, x) == [sorted[0]] + InsertByTotal(rest, x);
    }
  }

  lemma InsertByTotalMembers(sorted: seq<CategoryRow>, x: CategoryRow)
    ensures forall k :: 0 <= k < |InsertByTotal(sorted, x)| ==>
      InsertByTotal(sorted, x)[k] == x || InsertByTotal(sorted, x)[k] in sorted
  {
    InsertByTotalMultiset(sorted, x);
    forall k | 0 <= k < |InsertByTotal(sorted, x)|
      ensures InsertByTotal(sorted, x)[k] == x || InsertByTotal(sorted, x)[k] in sorted
    {
      assert InsertByTotal(sorted, x)[k] in multiset(InsertByTotal(sorted, x));
    }
  }

  lemma {:induction false} InsertByTotalDescending(sorted: seq<CategoryRow>, x: CategoryRow)
    requires Descending(sorted)
    ensures Descending(InsertByTotal(sorted, x))
  {
    if sorted != [] && sorted[0].total >= x.total {
      var rest := sorted[1..];
      InsertByTotalDescending(rest, x);
      InsertByTotalMembers(rest, x);
      var r' := InsertByTotal(rest, x);
      forall k | 0 <= k < |r'| ensures sorted[0].total >= r'[k].total {
        if r'[k] != x {
          var m :| 0 <= m < |rest| && rest[m] == r'[k];
          assert sorted[m + 1] == rest[m];
        }
      }
    }
  }

  lemma {:induction false} InsertByTotalWithTotal(sorted: seq<CategoryRow>, x: CategoryRow, v: nat)
    requires Descending(sorted)
    ensures WithTotal(InsertByTotal(sorted, x), v) == WithTotal(sorted, v) + WithTotal([x], v)
  {
    assert [x][1..] == [];
    if sorted == [] {
    } else if sorted[0].total < x.total {
      WithTotalAppend([x], sorted, v);
      if x.total == v {
        WithTotalNone(sorted, v);
      }
    } else {
      var rest := sorted[1..];
      InsertByTotalWithTotal(rest, x, v);
      assert sorted == [sorted[0]] + rest;
      WithTotalAppend([sorted[0]], InsertByTotal(rest, x), v);
      WithTotalAppend([sorted[0]], rest, v);
    }
  }

  lemma {:induction false} InsertByTotalDistinct(sorted: seq<CategoryRow>, x: CategoryRow)
    requires DistinctNames(sorted)
    requires forall i :: 0 <= i < |sorted| ==> sorted[i].name != x.name
    ensures DistinctNames(InsertByTotal(sorted, x))
  {
    if sorted != [] && sorted[0].total >= x.total {
      var rest := sorted[1..];
      InsertByTotalDistinct(rest, x);
      InsertByTotalMembers(rest, x);
      var r' := InsertByTotal(rest, x);
      forall k | 0 <= k < |r'| ensures sorted[0].name != r'[k].name {
        if r'[k] != x {
          var m :| 0 <= m < |rest| && rest[m] == r'[k];
          assert sorted[m + 1] == rest[m];
        }
      }
    }
  }

  /** The sort is a permutation, descending, and keeps rows with equal totals in their order. */
  lemma {:induction false} SortByTotalDescSpec(rows: seq<CategoryRow>)
    ensures multiset(SortByTotalDesc(rows)) == multiset(rows)
    ensures Descending(SortByTotalDesc(rows))
    ensures forall v :: WithTotal(SortByTotalDesc(rows), v) == WithTotal(rows, v)
    ensures DistinctNames(rows) ==> DistinctNames(SortByTotalDesc(rows))
  {
    if rows != [] {
      var p := rows[..|rows| - 1];
      var x := rows[|rows| - 1];
      assert rows == p + [x];
      SortByTotalDescSpec(p);
      var sp := SortByTotalDesc(p);
      InsertByTotalMultiset(sp, x);
      InsertByTotalDescending(sp, x);
      forall v ensures WithTotal(SortByTotalDesc(rows), v) == WithTotal(rows, v) {
        InsertByTotalWithTotal(sp, x, v);
        WithTotalAppend(p, [x], v);
      }
      if DistinctNames(rows) {
        forall i | 0 <= i < |sp| ensures sp[i].name != x.name {
          assert sp[i] in multiset(p);
          var k :| 0 <= k < |p| && p[k] == sp[i];
          assert rows[k] == p[k];
        }
        InsertByTotalDistinct(sp, x);
      }
    }
  }

  // ---- The breakdown the dashboard shows ----

  /**
   * `cat_rows`, `cat_labels` and `cat_values`: the grouped expenses ranked by
   * total, largest first, ties in first-encounter order, and the two
   * projections of the ranking.
   */
  method CategoryBreakdown(txs: seq<Transaction>) returns (rows: seq<CategoryRow>, labels: seq<string>, values: seq<nat>)
    ensures rows == SortByTotalDesc(Grouped(txs))
    ensures multiset(rows) == multiset(Grouped(txs))
    ensures Descending(rows) && DistinctNames(rows)
    ensures forall v :: WithTotal(rows, v) == WithTotal(Grouped(txs), v)
    ensures TotalOf(Grouped(txs)) == SumOfKind(txs, Expense)
    ensures |labels| == |rows| && |values| == |rows|
    ensures forall i :: 0 <= i < |rows| ==> labels[i] == rows[i].name && values[i] == rows[i].total
  {
    var grouped := GroupByCategory(txs);
    GroupedSpec(txs);
    SortByTotalDescSpec(grouped);
    rows := SortByTotalDesc(grouped);
    labels := seq(|rows|, i requires 0 <= i < |rows| => rows[i].name);
    values := seq(|rows|, i requires 0 <= i < |rows| => rows[i].total);
  }
}
