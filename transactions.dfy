/** The transaction table and the group-by-and-sum that every aggregation of
    the tracker is built from (`df.groupby(column)["amount"].sum()`). */
module Transactions {
  import opened Order
  import opened Dates

  /** The two transaction types the tracker writes. */
  const INCOME: string := "Income"
  const EXPENSE: string := "Expense"

  /** One line of the table: the columns `date, category, amount, type`.
      The type is kept as text, since a table read back from disk may hold
      any value there. */
  datatype Row = Row(date: Date, category: string, amount: real, kind: string)

  /** The columns the tracker groups by; the month is derived from the date. */
  datatype Column = CategoryCol | TypeCol | MonthCol

  function KeyOf(x: Row, c: Column): string {
    match c
    case CategoryCol => x.category
    case TypeCol => x.kind
    case MonthCol => MonthKey(x.date)
  }

  /** `df["amount"].sum()`: zero on an empty table. */
  /** No row carries a negative amount. */
  predicate NonNegative(rows: seq<Row>) {
    forall i :: 0 <= i < |rows| ==> rows[i].amount >= 0.0
  }

  /** `["amount"].sum()`: zero for no rows, never negative when no amount is. */
  function SumOf(rows: seq<Row>): (r: real)
    ensures rows == [] ==> r == 0.0
    ensures NonNegative(rows) ==> r >= 0.0
  {
    if rows == [] then 0.0
    else
      assert NonNegative(rows) ==> NonNegative(rows[1..]);
      rows[0].amount + SumOf(rows[1..])
  }

  lemma {:induction false} SumOfConcat(a: seq<Row>, b: seq<Row>)
    ensures SumOf(a + b) == SumOf(a) + SumOf(b)
  {
    if a == [] {
      assert a + b == b;
    } else {
      assert (a + b)[1..] == a[1..] + b;
      SumOfConcat(a[1..], b);
    }
  }

  /** `df[df[column] == k]`: the rows whose value in `c` is `k`, in their
      original order. */
  function Select(rows: seq<Row>, c: Column, k: string): (r: seq<Row>)
    ensures forall x :: x in r <==> x in rows && KeyOf(x, c) == k
    ensures |r| <= |rows|
  {
    if rows == [] then []
    else (if KeyOf(rows[0], c) == k then [rows[0]] else []) + Select(rows[1..], c, k)
  }

  lemma {:induction false} SelectConcat(a: seq<Row>, b: seq<Row>, c: Column, k: string)
    ensures Select(a + b, c, k) == Select(a, c, k) + Select(b, c, k)
  {
    if a == [] {
      assert a + b == b;
    } else {
      assert (a + b)[1..] == a[1..] + b;
      SelectConcat(a[1..], b, c, k);
    }
  }

  /** Selecting rows that all carry the key already changes nothing. */
  lemma {:induction false} SelectAll(rows: seq<Row>, c: Column, k: string)
    requires forall x :: x in rows ==> KeyOf(x, c) == k
    ensures Select(rows, c, k) == rows
  {
    if rows != [] {
      SelectAll(rows[1..], c, k);
    }
  }

  /** Two selections on different keys may be taken in either order. */
  lemma {:induction false} SelectCommute(rows: seq<Row>, c: Column, k: string, d: Column, m: string)
    ensures Select(Select(rows, c, k), d, m) == Select(Select(rows, d, m), c, k)
  {
    if rows != [] {
      var x, rest := rows[0], rows[1..];
      assert rows == [x] + rest;
      SelectConcat([x], rest, c, k);
      SelectConcat([x], rest, d, m);
      SelectConcat(Select([x], c, k), Select(rest, c, k), d, m);
      SelectConcat(Select([x], d, m), Select(rest, d, m), c, k);
      SelectCommute(rest, c, k, d, m);
    }
  }

  /** The group keys pandas produces: every value present in `c`, once,
      in ascending order. */
  function GroupKeys(rows: seq<Row>, c: Column): (ks: seq<string>)
    ensures Sorted(ks)
    ensures forall k :: k in ks <==> Select(rows, c, k) != []
  {
    if rows == [] then [] else Insert(KeyOf(rows[0], c), GroupKeys(rows[1..], c))
  }

  /** One line of a grouped sum: a key and the summed amount. */
  datatype Total = Total(key: string, total: real)

  predicate KeysAscending(ts: seq<Total>) {
    forall i, j :: 0 <= i < j < |ts| ==> Less(ts[i].key, ts[j].key)
  }

  function SumTotals(ts: seq<Total>): real {
    if ts == [] then 0.0 else ts[0].total + SumTotals(ts[1..])
  }

  /** The summed amount of the rows under each key of `ks`, in the order of `ks`. */
  function TotalsFor(rows: seq<Row>, c: Column, ks: seq<string>): (ts: seq<Total>)
    ensures |ts| == |ks|
    ensures forall i :: 0 <= i < |ks| ==> ts[i] == Total(ks[i], SumOf(Select(rows, c, ks[i])))
  {
    if ks == [] then []
    else [Total(ks[0], SumOf(Select(rows, c, ks[0])))] + TotalsFor(rows, c, ks[1..])
  }

  /** The sums over `ks` are the sum under the first key plus those over the rest. */
  lemma TotalsForFirst(rows: seq<Row>, c: Column, ks: seq<string>)
    requires ks != []
    ensures SumTotals(TotalsFor(rows, c, ks)) == SumOf(Select(rows, c, ks[0])) + SumTotals(TotalsFor(rows, c, ks[1..]))
  {
    var ts := TotalsFor(rows, c, ks);
    assert ts[1..] == TotalsFor(rows, c, ks[1..]);
  }

  lemma {:induction false} TotalsForNoRows(c: Column, ks: seq<string>)
    ensures SumTotals(TotalsFor([], c, ks)) == 0.0
  {
    if ks != [] {
      TotalsForNoRows(c, ks[1..]);
    }
  }

  /** One more row adds its amount to the sums over `ks` exactly once when
      its key is among them, and not at all otherwise. */
  lemma {:induction false} TotalsForCons(x: Row, rest: seq<Row>, c: Column, ks: seq<string>)
    requires Distinct(ks)
    ensures SumTotals(TotalsFor([x] + rest, c, ks))
            == SumTotals(TotalsFor(rest, c, ks)) + (if KeyOf(x, c) in ks then x.amount else 0.0)
  {
    if ks != [] {
      var rows := [x] + rest;
      assert rows[0] == x && rows[1..] == rest;
      var sel := Select(rest, c, ks[0]);
      if KeyOf(x, c) == ks[0] {
        assert Select(rows, c, ks[0]) == [x] + sel;
        assert ([x] + sel)[1..] == sel;
      } else {
        assert Select(rows, c, ks[0]) == sel;
      }
      assert Distinct(ks[1..]);
      TotalsForCons(x, rest, c, ks[1..]);
      assert KeyOf(x, c) == ks[0] ==> KeyOf(x, c) !in ks[1..];
    }
  }

  /** Partition: when the keys are distinct and cover every row, the sums
      per key add up to the sum of the whole table. */
  lemma {:induction false} TotalsForCover(rows: seq<Row>, c: Column, ks: seq<string>)
    requires Distinct(ks)
    requires forall x :: x in rows ==> KeyOf(x, c) in ks
    ensures SumTotals(TotalsFor(rows, c, ks)) == SumOf(rows)
  {
    if rows == [] {
      TotalsForNoRows(c, ks);
    } else {
      assert rows == [rows[0]] + rows[1..];
      TotalsForCons(rows[0], rows[1..], c, ks);
      TotalsForCover(rows[1..], c, ks);
    }
  }

  /** `df.groupby(column)["amount"].sum()`: one line per value present in the
      column, in ascending key order, each holding the sum of the amounts of
      the rows with that value; the lines add up to the whole table's sum. */
  function GroupTotals(rows: seq<Row>, c: Column): (ts: seq<Total>)
    ensures KeysAscending(ts)
    ensures forall t :: t in ts ==> Select(rows, c, t.key) != [] && t.total == SumOf(Select(rows, c, t.key))
    ensures forall x :: x in rows ==> Total(KeyOf(x, c), SumOf(Select(rows, c, KeyOf(x, c)))) in ts
    ensures SumTotals(ts) == SumOf(rows)
    ensures ts == [] <==> rows == []
  {
    var ks := GroupKeys(rows, c);
    SortedIsDistinct(ks);
    TotalsForCover(rows, c, ks);
    var ts := TotalsFor(rows, c, ks);
    assert forall x :: x in rows ==> Total(KeyOf(x, c), SumOf(Select(rows, c, KeyOf(x, c)))) in ts by {
      forall x | x in rows ensures Total(KeyOf(x, c), SumOf(Select(rows, c, KeyOf(x, c)))) in ts {
        assert x in Select(rows, c, KeyOf(x, c));
        var i :| 0 <= i < |ks| && ks[i] == KeyOf(x, c);
        assert ts[i] == Total(KeyOf(x, c), SumOf(Select(rows, c, KeyOf(x, c))));
      }
    }
    assert rows != [] ==> rows[0] in rows;
    ts
  }
}
