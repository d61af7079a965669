/** The page logic of the tracker outside the widgets: the clean-up applied
    to the loaded table, the gate in front of `add_record`, and the
    date-range filter. */
module App {
  import opened Results
  import opened Text
  import opened Dates
  import opened Transactions
  import opened DataHandler

  /** `str.strip().str.lower()` on one column name: the trimmed name with
      its letters in lower case. */
  function NormalizeName(c: string): (r: string)
    ensures NoSurroundingSpace(r) && IsLowerCase(r)
    ensures EqualIgnoringCase(Strip(c), r)
    ensures r == [] <==> AllSpace(c)
    ensures |r| <= |c|
  {
    StripEmptyIff(c);
    var s := Strip(c);
    var r := Lower(s);
    assert r != [] ==> (IsSpace(r[0]) <==> IsSpace(s[0])) && (IsSpace(r[|r| - 1]) <==> IsSpace(s[|s| - 1]));
    r
  }

  /** A name that is already trimmed and lower-case is left as it is. */
  lemma NormalizeNameFixes(c: string)
    requires NoSurroundingSpace(c) && IsLowerCase(c)
    ensures NormalizeName(c) == c
  {
    StripFixpoint(c);
  }

  lemma {:induction false} NormalizeNameIdempotent(c: string)
    ensures NormalizeName(NormalizeName(c)) == NormalizeName(c)
  {
    NormalizeNameFixes(NormalizeName(c));
  }

  /** A name that is, once trimmed, a lower-case name `n` up to case is
      normalised to exactly `n`. */
  lemma NormalizeNameMatches(c: string, n: string)
    requires IsLowerCase(n) && EqualIgnoringCase(Strip(c), n)
    ensures NormalizeName(c) == n
  {
    LowerMatches(Strip(c), n);
  }

  /** The two header spellings, trimmed. */
  lemma DateHeadersStripped()
    ensures Strip(" Date ") == "Date" && Strip("DATE") == "DATE"
  {
    var a, b := " Date ", "DATE";
    assert SkipSpace(a, 0) == 1 && SkipSpaceBack(a, 1, 6) == 5;
    assert a[1..5] == "Date";
    assert SkipSpace(b, 0) == 0 && SkipSpaceBack(b, 0, 4) == 4;
    assert b[0..4] == b;
  }

  /** ... and equal to "date" up to case. */
  lemma DateHeadersMatch()
    ensures EqualIgnoringCase("Date", "date") && EqualIgnoringCase("DATE", "date")
  {
    LetterPairs();
    assert UPPER[3] == 'D' && LOWER[3] == 'd';
    assert UPPER[0] == 'A' && LOWER[0] == 'a';
    assert UPPER[19] == 'T' && LOWER[19] == 't';
    assert UPPER[4] == 'E' && LOWER[4] == 'e';
  }

  /** For instance, a header cell " Date " or "DATE" becomes "date". */
  lemma NormalizeDateHeader()
    ensures NormalizeName(" Date ") == "date"
    ensures NormalizeName("DATE") == "date"
  {
    DateHeadersStripped();
    DateHeadersMatch();
    NormalizeNameMatches(" Date ", "date");
    NormalizeNameMatches("DATE", "date");
  }

  function NormalizedNames(cols: seq<string>): (r: seq<string>)
    ensures |r| == |cols|
    ensures forall i :: 0 <= i < |cols| ==> r[i] == NormalizeName(cols[i])
  {
    seq(|cols|, i requires 0 <= i < |cols| => NormalizeName(cols[i]))
  }

  /** The header the store writes survives the normalisation unchanged, and
      normalising twice is normalising once. */
  lemma NormalizedNamesProperties(cols: seq<string>)
    ensures NormalizedNames(COLUMNS) == COLUMNS
    ensures NormalizedNames(NormalizedNames(cols)) == NormalizedNames(cols)
  {
    forall i | 0 <= i < |COLUMNS| ensures NormalizeName(COLUMNS[i]) == COLUMNS[i] {
      NormalizeNameFixes(COLUMNS[i]);
    }
    forall i | 0 <= i < |cols| ensures NormalizeName(NormalizeName(cols[i])) == NormalizeName(cols[i]) {
      NormalizeNameIdempotent(cols[i]);
    }
  }

  /** A header holding a name that is "date" up to case and surrounding
      whitespace has a `date` column after normalisation, which is what the
      coercion looks for. */
  lemma DateColumnFound(cols: seq<string>, i: nat)
    requires i < |cols| && EqualIgnoringCase(Strip(cols[i]), "date")
    ensures "date" in NormalizedNames(cols)
  {
    NormalizeNameMatches(cols[i], "date");
    assert NormalizedNames(cols)[i] == "date";
  }

  /** `pd.to_datetime(..., errors="coerce")` on a date already split into a
      triple: a triple that names no calendar day becomes NaT. */
  function Coerce(d: Date): (r: Date)
    ensures r.On? ==> r == d && ValidDay(r.day)
    ensures d.On? && ValidDay(d.day) ==> r == d
  {
    if d.On? && ValidDay(d.day) then d else NaT
  }

  function CoerceAll(rows: seq<Row>): (r: seq<Row>)
    ensures |r| == |rows|
    ensures forall i :: 0 <= i < |rows| ==> r[i] == rows[i].(date := Coerce(rows[i].date))
  {
    seq(|rows|, i requires 0 <= i < |rows| => rows[i].(date := Coerce(rows[i].date)))
  }

  /** After coercion every date is NaT or a real day, nothing but the dates
      changes, and coercing again changes nothing. */
  lemma CoerceAllProperties(rows: seq<Row>)
    ensures forall x :: x in CoerceAll(rows) ==> x.date.NaT? || ValidDay(x.date.day)
    ensures forall i :: 0 <= i < |rows| ==>
              var y := CoerceAll(rows)[i];
              y.category == rows[i].category && y.amount == rows[i].amount && y.kind == rows[i].kind
    ensures CoerceAll(CoerceAll(rows)) == CoerceAll(rows)
  {
  }

  /** The page's working copy of the loaded table. */
  class Frame {
    var columns: seq<string>
    var rows: seq<Row>

    constructor (t: Table)
      ensures columns == t.columns && rows == t.rows
    {
      columns, rows := t.columns, t.rows;
    }

    /** `df.columns = df.columns.str.strip().str.lower()`. */
    method NormalizeColumns()
      modifies this
      ensures columns == NormalizedNames(old(columns))
      ensures rows == old(rows)
    {
      columns := NormalizedNames(columns);
    }

    /** The date coercion, applied only to a non-empty table that has a
        `date` column. */
    method CoerceDates()
      modifies this
      ensures columns == old(columns)
      ensures rows == if old(rows) != [] && "date" in old(columns) then CoerceAll(old(rows)) else old(rows)
    {
      if rows != [] && "date" in columns {
        rows := CoerceAll(rows);
      }
    }
  }

  /** The page's preparation of the table `load_data` returned: a frame with
      normalised column names and, when it has rows and a `date` column,
      coerced dates. A table in the store's own header always has its dates
      coerced. */
  method PrepareFrame(t: Table) returns (f: Frame)
    ensures fresh(f)
    ensures f.columns == NormalizedNames(t.columns)
    ensures f.rows == if t.rows != [] && "date" in NormalizedNames(t.columns) then CoerceAll(t.rows) else t.rows
    ensures t.columns == COLUMNS ==> f.columns == COLUMNS && f.rows == CoerceAll(t.rows)
  {
    f := new Frame(t);
    f.NormalizeColumns();
    f.CoerceDates();
    NormalizedNamesProperties(t.columns);
    assert "date" == COLUMNS[0];
    if t.rows == [] {
      assert CoerceAll(t.rows) == [];
    }
  }

  /** The checks the form makes before calling `add_record`, in order: a
      category that is empty or only whitespace, then an amount that is not
      positive; otherwise the trimmed category is passed on. */
  function SubmitGate(category: string, amount: real): (r: Result<string, Rejection>)
    ensures r == Err(EmptyCategory) <==> AllSpace(category)
    ensures r == Err(NonPositiveAmount) <==> !AllSpace(category) && amount <= 0.0
    ensures r.Ok? ==> r.value == Strip(category) && r.value != [] && amount > 0.0
  {
    StripEmptyIff(category);
    if category == [] || Strip(category) == [] then Err(EmptyCategory)
    else if amount <= 0.0 then Err(NonPositiveAmount)
    else Ok(Strip(category))
  }

  /** The form's gate and `add_record`'s own validation agree: the form
      rejects what `add_record` would reject, for the same reason, and what
      it passes on `add_record` accepts without changing the category
      again. */
  lemma GateMatchesAddRecord(date: Date, category: string, amount: real, kind: string)
    requires kind == INCOME || kind == EXPENSE
    ensures SubmitGate(category, amount).Err? ==>
              NewRecord(date, category, amount, kind) == Err(SubmitGate(category, amount).error)
    ensures SubmitGate(category, amount).Ok? ==>
              NewRecord(date, SubmitGate(category, amount).value, amount, kind) == Ok(Row(date, Strip(category), amount, kind))
  {
    var g := SubmitGate(category, amount);
    if g.Ok? {
      StripIdempotent(category);
      StripEmptyIff(Strip(category));
    }
  }

  /** What the page reports after the form is submitted. */
  datatype Outcome = Added | Rejected(reason: Rejection) | Failed

  /** The form's submit branch. The type comes from a select box offering
      only the two types. */
  method SubmitForm(file: DataFile, date: Day, category: string, amount: real, kind: string) returns (o: Outcome)
    requires kind == INCOME || kind == EXPENSE
    modifies file
    ensures SubmitGate(category, amount).Err? ==> o == Rejected(SubmitGate(category, amount).error)
    ensures SubmitGate(category, amount).Ok? ==> (o == Added <==> file.writable) && (o == Failed <==> !file.writable)
    ensures o != Added ==> unchanged(file)
    ensures o == Added ==> file.Loaded() == Table(AddMissing(old(file.Loaded()).columns, COLUMNS),
                                                  old(file.Loaded()).rows + [Row(On(date), Strip(category), amount, kind)])
  {
    var gate := SubmitGate(category, amount);
    if gate.Err? {
      return Rejected(gate.error);
    }
    GateMatchesAddRecord(On(date), category, amount, kind);
    StripIdempotent(category);
    var ok := file.AddRecord(On(date), gate.value, amount, kind);
    o := if ok then Added else Failed;
  }

  /** The comparison `start <= date <= end` on a date column: NaT compares
      false, so a row without a date is never in range. */
  function Within(d: Date, start: Day, end: Day): (b: bool)
    ensures d.NaT? ==> !b
    ensures b ==> OnOrBefore(start, end)
    ensures OnOrBefore(start, end) && (d == On(start) || d == On(end)) ==> b
  {
    d.On? && OnOrBefore(start, d.day) && OnOrBefore(d.day, end)
  }

  /** The rows whose date lies in the range, in table order. */
  function SelectWithin(rows: seq<Row>, start: Day, end: Day): (r: seq<Row>)
    ensures forall x :: x in r ==> Within(x.date, start, end)
    ensures forall x :: multiset(r)[x] == if Within(x.date, start, end) then multiset(rows)[x] else 0
  {
    if rows == [] then []
    else
      assert rows == [rows[0]] + rows[1..];
      (if Within(rows[0].date, start, end) then [rows[0]] else []) + SelectWithin(rows[1..], start, end)
  }

  /** The filter keeps the table's order: selecting from two parts and
      joining is selecting from the joined table. */
  lemma {:induction false} SelectWithinConcat(a: seq<Row>, b: seq<Row>, start: Day, end: Day)
    ensures SelectWithin(a + b, start, end) == SelectWithin(a, start, end) + SelectWithin(b, start, end)
  {
    if a == [] {
      assert a + b == b;
    } else {
      assert (a + b)[1..] == a[1..] + b;
      SelectWithinConcat(a[1..], b, start, end);
    }
  }

  /** `r` is `rows` with some entries left out, the rest in their order. */
  predicate Subsequence(r: seq<Row>, rows: seq<Row>)
    decreases |rows|
  {
    if r == [] then true
    else if rows == [] then false
    else (r[0] == rows[0] && Subsequence(r[1..], rows[1..])) || Subsequence(r, rows[1..])
  }

  lemma {:induction false} SelectWithinSubsequence(rows: seq<Row>, start: Day, end: Day)
    ensures Subsequence(SelectWithin(rows, start, end), rows)
  {
    if rows != [] {
      SelectWithinSubsequence(rows[1..], start, end);
      var rest := SelectWithin(rows[1..], start, end);
      if Within(rows[0].date, start, end) {
        assert SelectWithin(rows, start, end) == [rows[0]] + rest;
        assert ([rows[0]] + rest)[1..] == rest;
      } else {
        assert SelectWithin(rows, start, end) == rest;
      }
    }
  }

  /** The filter section: an inverted range is refused; otherwise the rows
      from `start` through `end`, both included. */
  function FilterByDateRange(rows: seq<Row>, start: Day, end: Day): (r: Option<seq<Row>>)
    ensures r.None? <==> !OnOrBefore(start, end)
    ensures r.Some? ==> forall x :: x in r.value ==> x in rows && Within(x.date, start, end)
    ensures r.Some? ==> forall x :: x in rows && Within(x.date, start, end) ==> x in r.value
    ensures r.Some? ==> r.value == SelectWithin(rows, start, end)
  {
    if !OnOrBefore(start, end) then None
    else
      var s := SelectWithin(rows, start, end);
      assert forall x :: x in s <==> x in multiset(s);
      assert forall x :: x in rows <==> x in multiset(rows);
      Some(s)
  }

  /** With the range the page proposes, from the earliest to the latest date
      of the table, every row that has a date is kept and only rows with NaT
      are dropped. */
  lemma {:induction false} FullRangeKeepsDated(rows: seq<Row>, start: Day, end: Day)
    requires forall x :: x in rows && x.date.On? ==> OnOrBefore(start, x.date.day) && OnOrBefore(x.date.day, end)
    ensures SelectWithin(rows, start, end) == Dated(rows)
  {
    if rows != [] {
      assert rows[0] in rows;
      FullRangeKeepsDated(rows[1..], start, end);
    }
  }

  /** The rows with a date, in table order. */
  function Dated(rows: seq<Row>): (r: seq<Row>)
    ensures forall x :: x in r ==> x.date.On? && x in rows
  {
    if rows == [] then []
    else (if rows[0].date.On? then [rows[0]] else []) + Dated(rows[1..])
  }
}
