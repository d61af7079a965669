/** The computations inside the tracker's charts and metrics, without the
    drawing: each is a total function of the loaded table. */
module Visualizer {
  import opened Results
  import opened Order
  import opened Dates
  import opened Transactions

  /** `plot_total_by_type`: `df.groupby('type')['amount'].sum()`, one bar per
      type present, holding the summed amount of that type's rows. */
  function TotalsByType(rows: seq<Row>): (r: seq<Total>)
    ensures KeysAscending(r)
    ensures forall t :: t in r ==>
              Select(rows, TypeCol, t.key) != [] && t.total == SumOf(Select(rows, TypeCol, t.key))
    ensures forall x :: x in rows ==> Total(x.kind, SumOf(Select(rows, TypeCol, x.kind))) in r
    ensures r == [] <==> rows == []
  {
    GroupTotals(rows, TypeCol)
  }

  predicate NonIncreasing(ts: seq<Total>) {
    forall i, j :: 0 <= i < j < |ts| ==> ts[i].total >= ts[j].total
  }

  predicate KeysDistinct(ts: seq<Total>) {
    forall i, j :: 0 <= i < j < |ts| ==> ts[i].key != ts[j].key
  }

  lemma AscendingIsDistinct(ts: seq<Total>)
    requires KeysAscending(ts)
    ensures KeysDistinct(ts)
  {
    forall i, j | 0 <= i < j < |ts| ensures ts[i].key != ts[j].key {
      LessAsymmetric(ts[i].key, ts[j].key);
    }
  }

  /** A list whose head is at least every later total, and whose tail is
      ordered, is ordered. */
  lemma NonIncreasingCons(x: Total, s: seq<Total>)
    requires NonIncreasing(s)
    requires forall u :: u in s ==> x.total >= u.total
    ensures NonIncreasing([x] + s)
  {
    var r := [x] + s;
    forall i, j | 0 <= i < j < |r| ensures r[i].total >= r[j].total {
      assert r[j] == s[j - 1];
      if i > 0 {
        assert r[i] == s[i - 1];
      }
    }
  }

  /** Places `t` before the first entry whose total is smaller than its own. */
  function InsertByTotal(t: Total, ts: seq<Total>): (r: seq<Total>)
    ensures multiset(r) == multiset(ts) + multiset{t}
  {
    if ts == [] || t.total >= ts[0].total then
      [t] + ts
    else
      assert ts == [ts[0]] + ts[1..];
      [ts[0]] + InsertByTotal(t, ts[1..])
  }

  lemma {:induction false} InsertByTotalOrdered(t: Total, ts: seq<Total>)
    requires NonIncreasing(ts)
    ensures NonIncreasing(InsertByTotal(t, ts))
  {
    if ts == [] || t.total >= ts[0].total {
      forall u | u in ts ensures t.total >= u.total {
        var j :| 0 <= j < |ts| && ts[j] == u;
        assert ts[0].total >= ts[j].total;
      }
      NonIncreasingCons(t, ts);
    } else {
      var tail := ts[1..];
      assert NonIncreasing(tail) by {
        forall i, j | 0 <= i < j < |tail| ensures tail[i].total >= tail[j].total {
          assert tail[i] == ts[i + 1] && tail[j] == ts[j + 1];
        }
      }
      InsertByTotalOrdered(t, tail);
      var rest := InsertByTotal(t, tail);
      forall u | u in rest ensures ts[0].total >= u.total {
        assert u in multiset(rest);
        if u != t {
          assert u in multiset(tail);
          var j :| 0 <= j < |tail| && tail[j] == u;
          assert ts[j + 1] == u;
        }
      }
      NonIncreasingCons(ts[0], rest);
    }
  }

  /** Insertion sort by decreasing total. */
  function SortByTotal(ts: seq<Total>): (r: seq<Total>)
    ensures multiset(r) == multiset(ts)
  {
    if ts == [] then []
    else
      assert ts == [ts[0]] + ts[1..];
      InsertByTotal(ts[0], SortByTotal(ts[1..]))
  }

  lemma {:induction false} SortByTotalOrdered(ts: seq<Total>)
    ensures NonIncreasing(SortByTotal(ts))
  {
    if ts != [] {
      SortByTotalOrdered(ts[1..]);
      InsertByTotalOrdered(ts[0], SortByTotal(ts[1..]));
    }
  }

  /** Two lists with the same entries, the first with distinct keys, the
      second too. */
  lemma PermutationKeysDistinct(a: seq<Total>, b: seq<Total>)
    requires multiset(a) == multiset(b)
    requires KeysDistinct(a)
    ensures KeysDistinct(b)
  {
    forall i, j | 0 <= i < j < |b| ensures b[i].key != b[j].key {
      assert b[i] in multiset(a) && b[j] in multiset(a);
      var p :| 0 <= p < |a| && a[p] == b[i];
      var q :| 0 <= q < |a| && a[q] == b[j];
      if p == q {
        AtLeastTwice(b, i, j);
        OnlyOnce(a, p);
        assert false;
      }
    }
  }

  /** An entry found at two positions occurs at least twice. */
  lemma AtLeastTwice(b: seq<Total>, i: nat, j: nat)
    requires i < j < |b| && b[i] == b[j]
    ensures multiset(b)[b[i]] >= 2
  {
    assert b == b[..i] + [b[i]] + b[i + 1..j] + [b[j]] + b[j + 1..];
  }

  /** In a list with distinct keys, an entry occurs once. */
  lemma OnlyOnce(a: seq<Total>, p: nat)
    requires KeysDistinct(a) && p < |a|
    ensures multiset(a)[a[p]] == 1
  {
    var x := a[p];
    var front, back := a[..p], a[p + 1..];
    assert a == front + [x] + back;
    assert x !in front by {
      forall k | 0 <= k < |front| ensures front[k] != x { assert front[k] == a[k]; }
    }
    assert x !in back by {
      forall k | 0 <= k < |back| ensures back[k] != x { assert back[k] == a[p + 1 + k]; }
    }
    assert multiset(a) == multiset(front) + multiset{x} + multiset(back);
  }

  /** `plot_by_category`: the category totals in non-increasing order, one
      entry per category present; empty (and the chart skipped) exactly when
      the table has no rows. */
  function CategoryTotalsDescending(rows: seq<Row>): (r: seq<Total>)
    ensures NonIncreasing(r)
    ensures multiset(r) == multiset(GroupTotals(rows, CategoryCol))
    ensures KeysDistinct(r)
    ensures forall t :: t in r ==>
              Select(rows, CategoryCol, t.key) != [] && t.total == SumOf(Select(rows, CategoryCol, t.key))
    ensures forall x :: x in rows ==> Total(x.category, SumOf(Select(rows, CategoryCol, x.category))) in r
    ensures r == [] <==> rows == []
  {
    var ts := GroupTotals(rows, CategoryCol);
    AscendingIsDistinct(ts);
    var r := SortByTotal(ts);
    SortByTotalOrdered(ts);
    PermutationKeysDistinct(ts, r);
    assert forall t :: t in r <==> t in ts by {
      forall t ensures t in r <==> t in ts {
        assert t in r <==> t in multiset(r);
        assert t in ts <==> t in multiset(ts);
      }
    }
    assert r == [] <==> ts == [] by {
      assert |r| == |multiset(r)| == |multiset(ts)| == |ts|;
    }
    r
  }

  /** One line of `groupby(['Month', 'type'])['amount'].sum().reset_index()`. */
  datatype MonthTotal = MonthTotal(month: string, kind: string, total: real)

  /** The rows of month `m` whose type is `k`. */
  function PairRows(rows: seq<Row>, m: string, k: string): seq<Row> {
    Select(Select(rows, MonthCol, m), TypeCol, k)
  }

  /** Ascending by month, then by type, with no pair repeated. */
  predicate PairLess(a: MonthTotal, b: MonthTotal) {
    Less(a.month, b.month) || (a.month == b.month && Less(a.kind, b.kind))
  }

  predicate PairsAscending(es: seq<MonthTotal>) {
    forall i, j :: 0 <= i < j < |es| ==> PairLess(es[i], es[j])
  }

  function SumMonthTotals(es: seq<MonthTotal>): real {
    if es == [] then 0.0 else es[0].total + SumMonthTotals(es[1..])
  }

  lemma {:induction false} SumMonthTotalsConcat(a: seq<MonthTotal>, b: seq<MonthTotal>)
    ensures SumMonthTotals(a + b) == SumMonthTotals(a) + SumMonthTotals(b)
  {
    if a == [] {
      assert a + b == b;
    } else {
      assert (a + b)[1..] == a[1..] + b;
      SumMonthTotalsConcat(a[1..], b);
    }
  }

  /** The per-type totals of one month, labelled with that month. */
  function Tag(m: string, ts: seq<Total>): (es: seq<MonthTotal>)
    ensures |es| == |ts|
    ensures forall i :: 0 <= i < |ts| ==> es[i] == MonthTotal(m, ts[i].key, ts[i].total)
    ensures SumMonthTotals(es) == SumTotals(ts)
  {
    if ts == [] then [] else [MonthTotal(m, ts[0].key, ts[0].total)] + Tag(m, ts[1..])
  }

  lemma TagMembers(m: string, ts: seq<Total>)
    ensures forall e :: e in Tag(m, ts) ==> e.month == m && Total(e.kind, e.total) in ts
    ensures forall t :: t in ts ==> MonthTotal(m, t.key, t.total) in Tag(m, ts)
    ensures KeysAscending(ts) ==> PairsAscending(Tag(m, ts))
  {
    var es := Tag(m, ts);
    forall e | e in es ensures e.month == m && Total(e.kind, e.total) in ts {
      var i :| 0 <= i < |es| && es[i] == e;
      assert ts[i] == Total(e.kind, e.total);
    }
    forall t | t in ts ensures MonthTotal(m, t.key, t.total) in es {
      var i :| 0 <= i < |ts| && ts[i] == t;
      assert es[i] == MonthTotal(m, t.key, t.total);
    }
  }

  /** The lines of one month: one per type present in that month, in
      ascending type order, each holding the sum of that month's rows of
      that type; together they add up to the month's rows. */
  function MonthBlock(rows: seq<Row>, m: string): (es: seq<MonthTotal>)
    ensures forall e :: e in es ==> e.month == m
    ensures PairsAscending(es)
    ensures SumMonthTotals(es) == SumOf(Select(rows, MonthCol, m))
  {
    var ts := GroupTotals(Select(rows, MonthCol, m), TypeCol);
    TagMembers(m, ts);
    Tag(m, ts)
  }

  lemma MonthBlockSound(rows: seq<Row>, m: string, e: MonthTotal)
    requires e in MonthBlock(rows, m)
    ensures PairRows(rows, e.month, e.kind) != [] && e.total == SumOf(PairRows(rows, e.month, e.kind))
  {
    TagMembers(m, GroupTotals(Select(rows, MonthCol, m), TypeCol));
  }

  lemma MonthBlockComplete(rows: seq<Row>, m: string, x: Row)
    requires x in rows && MonthKey(x.date) == m
    ensures MonthTotal(m, x.kind, SumOf(PairRows(rows, m, x.kind))) in MonthBlock(rows, m)
  {
    var sel := Select(rows, MonthCol, m);
    var ts := GroupTotals(sel, TypeCol);
    TagMembers(m, ts);
    assert x in sel;
    assert Total(x.kind, SumOf(Select(sel, TypeCol, x.kind))) in ts;
  }

  /** The blocks of the months `ms`, one after the other. */
  function MonthBlocks(rows: seq<Row>, ms: seq<string>): (es: seq<MonthTotal>)
    requires Sorted(ms)
    ensures forall e :: e in es ==> e.month in ms
    ensures PairsAscending(es)
    ensures SumMonthTotals(es) == SumTotals(TotalsFor(rows, MonthCol, ms))
  {
    if ms == [] then []
    else
      SortedTail(ms);
      var head := MonthBlock(rows, ms[0]);
      var tail := MonthBlocks(rows, ms[1..]);
      TotalsForFirst(rows, MonthCol, ms);
      PairsAscendingConcat(head, tail, ms[0]);
      SumMonthTotalsConcat(head, tail);
      assert forall e :: e in head + tail ==> e in head || e in tail;
      head + tail
  }

  lemma {:induction false} MonthBlocksSound(rows: seq<Row>, ms: seq<string>, e: MonthTotal)
    requires Sorted(ms) && e in MonthBlocks(rows, ms)
    ensures PairRows(rows, e.month, e.kind) != [] && e.total == SumOf(PairRows(rows, e.month, e.kind))
  {
    var head := MonthBlock(rows, ms[0]);
    if e in head {
      MonthBlockSound(rows, ms[0], e);
    } else {
      assert e in MonthBlocks(rows, ms[1..]);
      MonthBlocksSound(rows, ms[1..], e);
    }
  }

  lemma {:induction false} MonthBlocksComplete(rows: seq<Row>, ms: seq<string>, x: Row)
    requires Sorted(ms) && x in rows && MonthKey(x.date) in ms
    ensures MonthTotal(MonthKey(x.date), x.kind, SumOf(PairRows(rows, MonthKey(x.date), x.kind))) in MonthBlocks(rows, ms)
  {
    if MonthKey(x.date) == ms[0] {
      MonthBlockComplete(rows, ms[0], x);
    } else {
      MonthBlocksComplete(rows, ms[1..], x);
    }
  }

  lemma PairsAscendingConcat(a: seq<MonthTotal>, b: seq<MonthTotal>, m: string)
    requires PairsAscending(a) && PairsAscending(b)
    requires forall e :: e in a ==> e.month == m
    requires forall e :: e in b ==> Less(m, e.month)
    ensures PairsAscending(a + b)
  {
    var r := a + b;
    forall i, j | 0 <= i < j < |r| ensures PairLess(r[i], r[j]) {
      if j < |a| {
        assert r[i] == a[i] && r[j] == a[j];
      } else if i >= |a| {
        assert r[i] == b[i - |a|] && r[j] == b[j - |a|];
      } else {
        assert r[i] == a[i] && r[j] == b[j - |a|];
        assert r[i] in a && r[j] in b;
      }
    }
  }

  /** `plot_monthly_summary`: one line per (month, type) pair present, in
      ascending (month, type) order, each holding the summed amount of that
      pair's rows; the lines add up to the whole table. */
  function MonthlySummary(rows: seq<Row>): (es: seq<MonthTotal>)
    ensures PairsAscending(es)
    ensures forall e :: e in es ==>
              PairRows(rows, e.month, e.kind) != [] && e.total == SumOf(PairRows(rows, e.month, e.kind))
    ensures forall x :: x in rows ==>
              MonthTotal(MonthKey(x.date), x.kind, SumOf(PairRows(rows, MonthKey(x.date), x.kind))) in es
    ensures SumMonthTotals(es) == SumOf(rows)
  {
    var ms := GroupKeys(rows, MonthCol);
    SortedIsDistinct(ms);
    var es := MonthBlocks(rows, ms);
    assert forall x :: x in rows ==> KeyOf(x, MonthCol) in ms by {
      forall x | x in rows ensures KeyOf(x, MonthCol) in ms {
        assert x in Select(rows, MonthCol, KeyOf(x, MonthCol));
      }
    }
    TotalsForCover(rows, MonthCol, ms);
    forall e | e in es
      ensures PairRows(rows, e.month, e.kind) != [] && e.total == SumOf(PairRows(rows, e.month, e.kind))
    {
      MonthBlocksSound(rows, ms, e);
    }
    forall x | x in rows
      ensures MonthTotal(MonthKey(x.date), x.kind, SumOf(PairRows(rows, MonthKey(x.date), x.kind))) in es
    {
      MonthBlocksComplete(rows, ms, x);
    }
    es
  }

  /** `unstack().fillna(0)`: the monthly sums laid out with one line per
      month and one column per type, both in ascending order. */
  datatype Grid = Grid(months: seq<string>, kinds: seq<string>, cells: seq<seq<real>>)

  function SumReals(xs: seq<real>): real {
    if xs == [] then 0.0 else xs[0] + SumReals(xs[1..])
  }

  function Amounts(ts: seq<Total>): (xs: seq<real>)
    ensures |xs| == |ts|
    ensures forall i :: 0 <= i < |ts| ==> xs[i] == ts[i].total
    ensures SumReals(xs) == SumTotals(ts)
  {
    if ts == [] then [] else [ts[0].total] + Amounts(ts[1..])
  }

  /** `plot_monthly_income_vs_expenses`: every month present by every type
      present, each cell the summed amount of that month's rows of that type,
      0 where the month has none. */
  function MonthlyGrid(rows: seq<Row>): (g: Grid)
    ensures Sorted(g.months) && forall m :: m in g.months <==> Select(rows, MonthCol, m) != []
    ensures Sorted(g.kinds) && forall k :: k in g.kinds <==> Select(rows, TypeCol, k) != []
    ensures |g.cells| == |g.months|
    ensures forall i :: 0 <= i < |g.months| ==> |g.cells[i]| == |g.kinds|
    ensures forall i, j :: 0 <= i < |g.months| && 0 <= j < |g.kinds| ==>
              g.cells[i][j] == SumOf(PairRows(rows, g.months[i], g.kinds[j]))
  {
    var ms := GroupKeys(rows, MonthCol);
    var ks := GroupKeys(rows, TypeCol);
    Grid(ms, ks, seq(|ms|, i requires 0 <= i < |ms| => Amounts(TotalsFor(Select(rows, MonthCol, ms[i]), TypeCol, ks))))
  }

  /** A month's line of the grid adds up to that month's rows: the zero
      fill adds nothing and no row is counted under two types. */
  lemma GridRowSum(rows: seq<Row>, i: nat)
    requires i < |MonthlyGrid(rows).months|
    ensures SumReals(MonthlyGrid(rows).cells[i]) == SumOf(Select(rows, MonthCol, MonthlyGrid(rows).months[i]))
  {
    var g := MonthlyGrid(rows);
    var sel := Select(rows, MonthCol, g.months[i]);
    SortedIsDistinct(g.kinds);
    assert forall x :: x in sel ==> KeyOf(x, TypeCol) in g.kinds by {
      forall x | x in sel ensures KeyOf(x, TypeCol) in g.kinds {
        assert x in Select(rows, TypeCol, x.kind);
      }
    }
    TotalsForCover(sel, TypeCol, g.kinds);
  }

  /** The grid and the monthly summary agree: each summary line is a cell of
      the grid. */
  lemma SummaryLineInGrid(rows: seq<Row>, e: MonthTotal)
    requires e in MonthlySummary(rows)
    ensures e.month in MonthlyGrid(rows).months && e.kind in MonthlyGrid(rows).kinds
    ensures forall i, j ::
              0 <= i < |MonthlyGrid(rows).months| && 0 <= j < |MonthlyGrid(rows).kinds| &&
              MonthlyGrid(rows).months[i] == e.month && MonthlyGrid(rows).kinds[j] == e.kind ==>
                MonthlyGrid(rows).cells[i][j] == e.total
  {
    var pair := PairRows(rows, e.month, e.kind);
    assert pair != [] && e.total == SumOf(pair);
    var x := pair[0];
    assert x in pair;
    assert x in Select(rows, MonthCol, e.month) && x.kind == e.kind;
    assert x in rows && MonthKey(x.date) == e.month;
    assert x in Select(rows, TypeCol, e.kind);
    var g := MonthlyGrid(rows);
    forall i, j | 0 <= i < |g.months| && 0 <= j < |g.kinds| && g.months[i] == e.month && g.kinds[j] == e.kind
      ensures g.cells[i][j] == e.total
    {
      assert g.cells[i][j] == SumOf(PairRows(rows, g.months[i], g.kinds[j]));
    }
  }

  /** ... and each cell of a (month, type) pair that has rows is a summary
      line; the other cells are the zero fill. */
  lemma GridCellInSummary(rows: seq<Row>, i: nat, j: nat)
    requires i < |MonthlyGrid(rows).months| && j < |MonthlyGrid(rows).kinds|
    ensures var g := MonthlyGrid(rows);
            if PairRows(rows, g.months[i], g.kinds[j]) != [] then
              MonthTotal(g.months[i], g.kinds[j], g.cells[i][j]) in MonthlySummary(rows)
            else
              g.cells[i][j] == 0.0
  {
    var g := MonthlyGrid(rows);
    var m, k := g.months[i], g.kinds[j];
    var pair := PairRows(rows, m, k);
    assert g.cells[i][j] == SumOf(pair);
    if pair != [] {
      var x := pair[0];
      assert x in pair;
      assert x in Select(rows, MonthCol, m) && x.kind == k;
      assert x in rows && MonthKey(x.date) == m;
      var es := MonthlySummary(rows);
      assert MonthTotal(MonthKey(x.date), x.kind, SumOf(PairRows(rows, MonthKey(x.date), x.kind))) in es;
    }
  }

  /** The position of the first largest total (`idxmax`). */
  function ArgMax(ts: seq<Total>): (i: nat)
    requires ts != []
    ensures i < |ts|
    ensures forall j :: 0 <= j < |ts| ==> ts[j].total <= ts[i].total
    ensures forall j :: 0 <= j < i ==> ts[j].total < ts[i].total
  {
    if |ts| == 1 then 0
    else
      var k := ArgMax(ts[..|ts| - 1]);
      assert forall j :: 0 <= j < |ts| - 1 ==> ts[..|ts| - 1][j] == ts[j];
      if ts[|ts| - 1].total > ts[k].total then |ts| - 1 else k
  }

  /** The expense rows of category `c`, summed. */
  function ExpenseSum(rows: seq<Row>, c: string): (r: real)
    ensures r == SumOf(Select(Select(rows, CategoryCol, c), TypeCol, EXPENSE))
  {
    SelectCommute(rows, TypeCol, EXPENSE, CategoryCol, c);
    SumOf(Select(Select(rows, TypeCol, EXPENSE), CategoryCol, c))
  }

  /** The category with the largest summed amount among `es`, the first in
      key order when several share it. */
  function TopCategory(es: seq<Row>): (r: Option<Total>)
    ensures r.None? <==> es == []
    ensures r.Some? ==>
              Select(es, CategoryCol, r.value.key) != [] && r.value.total == SumOf(Select(es, CategoryCol, r.value.key))
    ensures r.Some? ==> forall x :: x in es ==> SumOf(Select(es, CategoryCol, x.category)) <= r.value.total
    ensures r.Some? ==> forall x :: x in es && SumOf(Select(es, CategoryCol, x.category)) == r.value.total ==>
              x.category == r.value.key || Less(r.value.key, x.category)
  {
    if es == [] then None
    else
      assert es[0] in es;
      var ts := GroupTotals(es, CategoryCol);
      var i := ArgMax(ts);
      assert ts[i] in ts;
      forall x | x in es
        ensures SumOf(Select(es, CategoryCol, x.category)) <= ts[i].total
        ensures SumOf(Select(es, CategoryCol, x.category)) == ts[i].total ==>
                  x.category == ts[i].key || Less(ts[i].key, x.category)
      {
        var t := Total(x.category, SumOf(Select(es, CategoryCol, x.category)));
        assert t in ts;
        FirstMaximum(ts, t);
      }
      Some(ts[i])
  }

  /** Over keys in ascending order, the first largest total is at least every
      total, and the one of smallest key among those equal to it. */
  lemma FirstMaximum(ts: seq<Total>, t: Total)
    requires KeysAscending(ts) && t in ts
    ensures t.total <= ts[ArgMax(ts)].total
    ensures t.total == ts[ArgMax(ts)].total ==> t.key == ts[ArgMax(ts)].key || Less(ts[ArgMax(ts)].key, t.key)
  {
    var i := ArgMax(ts);
    var j :| 0 <= j < |ts| && ts[j] == t;
    if j > i {
      assert Less(ts[i].key, ts[j].key);
    }
  }

  /** `get_top_expense_category`: nothing when there is no expense row;
      otherwise the expense category with the largest summed amount, with
      that sum. Of several categories sharing the largest sum, the smallest
      in key order is reported, because `idxmax` takes the first. */
  function TopExpenseCategory(rows: seq<Row>): (r: Option<Total>)
    ensures r.None? <==> forall x :: x in rows ==> x.kind != EXPENSE
    ensures r.Some? ==>
              Select(Select(rows, TypeCol, EXPENSE), CategoryCol, r.value.key) != [] &&
              r.value.total == ExpenseSum(rows, r.value.key)
    ensures r.Some? ==> forall x :: x in rows && x.kind == EXPENSE ==> ExpenseSum(rows, x.category) <= r.value.total
    ensures r.Some? ==> forall x :: x in rows && x.kind == EXPENSE && ExpenseSum(rows, x.category) == r.value.total ==>
              x.category == r.value.key || Less(r.value.key, x.category)
  {
    var expenses := Select(rows, TypeCol, EXPENSE);
    assert expenses != [] ==> expenses[0] in expenses;
    assert forall x :: x in rows && x.kind == EXPENSE ==> x in expenses;
    TopCategory(expenses)
  }

  /** Selecting a type from a table with one row of another type removed
      gives the same rows. */
  lemma SelectSkipsOtherType(a: seq<Row>, x: Row, b: seq<Row>, k: string)
    requires x.kind != k
    ensures Select(a + [x] + b, TypeCol, k) == Select(a + b, TypeCol, k)
  {
    SelectConcat(a + [x], b, TypeCol, k);
    SelectConcat(a, [x], TypeCol, k);
    SelectConcat(a, b, TypeCol, k);
    assert Select([x], TypeCol, k) == [];
  }

  /** A row of another type does not affect the top expense category. */
  lemma TopExpenseIgnoresOtherTypes(a: seq<Row>, x: Row, b: seq<Row>)
    requires x.kind != EXPENSE
    ensures TopExpenseCategory(a + [x] + b) == TopExpenseCategory(a + b)
  {
    SelectSkipsOtherType(a, x, b, EXPENSE);
  }

  /** On a table of expenses only, the top expense category is the top
      category of the whole table. */
  lemma AllExpensesTop(rows: seq<Row>)
    requires forall x :: x in rows ==> x.kind == EXPENSE
    ensures TopExpenseCategory(rows) == TopCategory(rows)
  {
    SelectAll(rows, TypeCol, EXPENSE);
  }

  /** The three figures of `display_total_income_expense`. */
  datatype Balance = Balance(income: real, expense: real, net: real)

  function IncomeExpense(rows: seq<Row>): (b: Balance)
    ensures b.net == b.income - b.expense
  {
    var income := SumOf(Select(rows, TypeCol, INCOME));
    var expense := SumOf(Select(rows, TypeCol, EXPENSE));
    Balance(income, expense, income - expense)
  }

  /** The income and expense figures are the bars of the same name in the
      total-by-type chart, or zero when that bar is absent. */
  lemma IncomeExpenseMatchesChart(rows: seq<Row>)
    ensures forall t :: t in TotalsByType(rows) && t.key == INCOME ==> t.total == IncomeExpense(rows).income
    ensures forall t :: t in TotalsByType(rows) && t.key == EXPENSE ==> t.total == IncomeExpense(rows).expense
    ensures (forall t :: t in TotalsByType(rows) ==> t.key != INCOME) ==> IncomeExpense(rows).income == 0.0
    ensures (forall t :: t in TotalsByType(rows) ==> t.key != EXPENSE) ==> IncomeExpense(rows).expense == 0.0
  {
    var ts := TotalsByType(rows);
    var inc := Select(rows, TypeCol, INCOME);
    var exp := Select(rows, TypeCol, EXPENSE);
    if inc != [] {
      assert inc[0] in inc;
      assert Total(INCOME, SumOf(inc)) in ts;
    }
    if exp != [] {
      assert exp[0] in exp;
      assert Total(EXPENSE, SumOf(exp)) in ts;
    }
  }

  /** When every row is an income or an expense, the two figures add up to
      the whole table. */
  lemma IncomeExpenseCover(rows: seq<Row>)
    requires forall x :: x in rows ==> x.kind == INCOME || x.kind == EXPENSE
    ensures IncomeExpense(rows).income + IncomeExpense(rows).expense == SumOf(rows)
  {
    var ks := [INCOME, EXPENSE];
    assert Distinct(ks);
    TotalsForCover(rows, TypeCol, ks);
    var ts := TotalsFor(rows, TypeCol, ks);
    var tail := ts[1..];
    assert tail[0] == ts[1] && tail[1..] == [];
    assert SumTotals(tail) == ts[1].total + SumTotals([]);
    assert SumTotals(ts) == ts[0].total + SumTotals(tail);
  }

  /** Appending one record moves exactly the figure of its type. */
  lemma {:induction false} IncomeExpenseAppend(rows: seq<Row>, x: Row)
    ensures var b, b' := IncomeExpense(rows), IncomeExpense(rows + [x]);
            && b'.income == b.income + (if x.kind == INCOME then x.amount else 0.0)
            && b'.expense == b.expense + (if x.kind == EXPENSE then x.amount else 0.0)
  {
    SelectConcat(rows, [x], TypeCol, INCOME);
    SelectConcat(rows, [x], TypeCol, EXPENSE);
    SumOfConcat(Select(rows, TypeCol, INCOME), Select([x], TypeCol, INCOME));
    SumOfConcat(Select(rows, TypeCol, EXPENSE), Select([x], TypeCol, EXPENSE));
  }

  /** A row that is neither an income nor an expense moves none of the
      three figures. */
  lemma IncomeExpenseIgnoresOtherTypes(a: seq<Row>, x: Row, b: seq<Row>)
    requires x.kind != INCOME && x.kind != EXPENSE
    ensures IncomeExpense(a + [x] + b) == IncomeExpense(a + b)
  {
    SelectSkipsOtherType(a, x, b, INCOME);
    SelectSkipsOtherType(a, x, b, EXPENSE);
  }

  /** `display_total_income_expense_ratio`: expense as a percentage of
      income, shown only when the income is positive. */
  function ExpenseRatio(rows: seq<Row>): (r: Option<real>)
    ensures r.Some? <==> IncomeExpense(rows).income > 0.0
    ensures r.Some? ==> r.value * IncomeExpense(rows).income == IncomeExpense(rows).expense * 100.0
  {
    var b := IncomeExpense(rows);
    if b.income > 0.0 then
      Percent(b.expense, b.income);
      Some((b.expense / b.income) * 100.0)
    else None
  }

  /** With non-negative amounts the ratio is never negative, and it is at
      most 100 exactly when expenses do not exceed income. */
  lemma RatioBounds(rows: seq<Row>)
    requires forall x :: x in rows ==> x.amount >= 0.0
    ensures ExpenseRatio(rows).Some? ==> ExpenseRatio(rows).value >= 0.0
    ensures ExpenseRatio(rows).Some? ==>
              (ExpenseRatio(rows).value <= 100.0 <==> IncomeExpense(rows).expense <= IncomeExpense(rows).income)
  {
    var es := Select(rows, TypeCol, EXPENSE);
    assert NonNegative(es) by {
      forall i | 0 <= i < |es| ensures es[i].amount >= 0.0 {
        assert es[i] in es;
      }
    }
    var b := IncomeExpense(rows);
    if b.income > 0.0 {
      Percent(b.expense, b.income);
    }
  }

  /** `e / i * 100` on reals: the percentage of `e` in `i`. */
  lemma Percent(e: real, i: real)
    requires i > 0.0
    ensures ((e / i) * 100.0) * i == e * 100.0
    ensures e >= 0.0 ==> (e / i) * 100.0 >= 0.0
    ensures (e / i) * 100.0 <= 100.0 <==> e <= i
  {
    var q := e / i;
    assert q * i == e;
    assert (q * 100.0) * i == (q * i) * 100.0;
    if q <= 1.0 {
      assert q * i <= 1.0 * i;
    } else {
      assert q * i > 1.0 * i;
    }
    if e >= 0.0 {
      assert q >= 0.0;
    }
  }
}
