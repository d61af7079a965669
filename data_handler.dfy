/** The transaction store: one CSV file holding the table, created with its
    header when missing, read in full on every query and rewritten in full
    by every append. */
module DataHandler {
  import opened Results
  import opened Text
  import opened Dates
  import opened Transactions

  /** The header the store writes. */
  const COLUMNS: seq<string> := ["date", "category", "amount", "type"]

  /** What `load_data` hands back: the header and the rows of the file. */
  datatype Table = Table(columns: seq<string>, rows: seq<Row>)

  /** Why `add_record` refuses a record. */
  datatype Rejection = EmptyCategory | NonPositiveAmount | UnknownType

  /** A row as `add_record` writes it: a trimmed, non-empty category, a
      positive amount and one of the two types. */
  predicate WellFormed(x: Row) {
    && x.category != []
    && NoSurroundingSpace(x.category)
    && x.amount > 0.0
    && (x.kind == INCOME || x.kind == EXPENSE)
  }

  /** The validation of `add_record`, checks in the source's order, and the
      row it appends when all of them pass. */
  function NewRecord(date: Date, category: string, amount: real, kind: string): (r: Result<Row, Rejection>)
    ensures r == Err(EmptyCategory) <==> AllSpace(category)
    ensures r == Err(NonPositiveAmount) <==> !AllSpace(category) && amount <= 0.0
    ensures r == Err(UnknownType)
            <==> !AllSpace(category) && amount > 0.0 && kind != INCOME && kind != EXPENSE
    ensures r.Ok? ==> r.value == Row(date, Strip(category), amount, kind) && WellFormed(r.value)
  {
    StripEmptyIff(category);
    if Strip(category) == [] then Err(EmptyCategory)
    else if amount <= 0.0 then Err(NonPositiveAmount)
    else if kind != INCOME && kind != EXPENSE then Err(UnknownType)
    else Ok(Row(date, Strip(category), amount, kind))
  }

  /** The columns of `pd.concat([df, new_row])`: those of `df`, then each of
      `names` that `df` lacks, in order. */
  function AddMissing(cols: seq<string>, names: seq<string>): (r: seq<string>)
    ensures |r| >= |cols| && r[..|cols|] == cols
    ensures forall n :: n in r <==> n in cols || n in names
    decreases names
  {
    if names == [] then cols
    else
      var next := if names[0] in cols then cols else cols + [names[0]];
      var r := AddMissing(next, names[1..]);
      assert r[..|cols|] == r[..|next|][..|cols|];
      r
  }

  /** A table that already has every canonical column keeps its header. */
  lemma {:induction false} AddMissingPresent(cols: seq<string>, names: seq<string>)
    requires forall n :: n in names ==> n in cols
    ensures AddMissing(cols, names) == cols
    decreases names
  {
    if names != [] {
      AddMissingPresent(cols, names[1..]);
    }
  }

  /** `get_summary`: nothing on an empty table, otherwise one line per
      category, in category order, with the category's summed amount; the
      lines add up to the table's total. */
  function Summary(rows: seq<Row>): (s: seq<Total>)
    ensures s == [] <==> rows == []
    ensures KeysAscending(s)
    ensures forall t :: t in s ==>
              Select(rows, CategoryCol, t.key) != [] && t.total == SumOf(Select(rows, CategoryCol, t.key))
    ensures forall x :: x in rows ==> Total(x.category, SumOf(Select(rows, CategoryCol, x.category))) in s
    ensures SumTotals(s) == SumOf(rows)
  {
    if rows == [] then [] else GroupTotals(rows, CategoryCol)
  }

  /** Appending one record moves the summary line of its category by its
      amount and no other line. */
  lemma SummaryAppend(rows: seq<Row>, x: Row, k: string)
    ensures SumOf(Select(rows + [x], CategoryCol, k))
            == SumOf(Select(rows, CategoryCol, k)) + (if x.category == k then x.amount else 0.0)
  {
    SelectConcat(rows, [x], CategoryCol, k);
    SumOfConcat(Select(rows, CategoryCol, k), Select([x], CategoryCol, k));
  }

  /** The backing file. `present` is whether it is on disk; `readable` is
      whether `pd.read_csv` parses it (false for an empty or corrupt file);
      `header` and `rows` are what it holds when it parses. `writable` says
      whether the file system accepts writes; it does not change. */
  class DataFile {
    var present: bool
    var readable: bool
    var header: seq<string>
    var rows: seq<Row>
    const writable: bool

    constructor (present: bool, readable: bool, header: seq<string>, rows: seq<Row>, writable: bool)
      ensures this.present == present && this.readable == readable
      ensures this.header == header && this.rows == rows && this.writable == writable
    {
      this.present, this.readable, this.header, this.rows := present, readable, header, rows;
      this.writable := writable;
    }

    /** The table `load_data` returns for the file as it is now. */
    function Loaded(): (t: Table)
      reads this
      ensures present && readable ==> t == Table(header, rows)
      ensures !(present && readable) ==> t.columns == COLUMNS && t.rows == []
    {
      if present && readable then Table(header, rows) else Table(COLUMNS, [])
    }

    /** `initialize_data_file`: an existing file is never touched; a missing
        one becomes a header-only file. `ok` is false when that write fails
        (the source re-raises). */
    method InitializeDataFile() returns (ok: bool)
      modifies this
      ensures ok <==> old(present) || writable
      ensures old(present) || !writable ==> unchanged(this)
      ensures !old(present) && writable ==> present && readable && header == COLUMNS && rows == []
      ensures Loaded() == old(Loaded())
    {
      ok := true;
      if !present {
        if writable {
          present, readable, header, rows := true, true, COLUMNS, [];
        } else {
          ok := false;
        }
      }
    }

    /** Calling `initialize_data_file` twice has the effect of calling it once. */
    method InitializeTwice() returns (first: bool, second: bool)
      modifies this
      ensures first == second
      ensures first <==> old(present) || writable
      ensures old(present) || !writable ==> unchanged(this)
      ensures !old(present) && writable ==> present && readable && header == COLUMNS && rows == []
    {
      first := InitializeDataFile();
      second := InitializeDataFile();
    }

    /** `load_data`, which never fails: a missing, empty or unparsable file
        yields an empty table with the canonical header; a missing file is
        created when the file system allows. */
    method LoadData() returns (t: Table)
      modifies this
      ensures t == old(Loaded())
      ensures !old(present) || !old(readable) ==> t == Table(COLUMNS, [])
      ensures old(present) && old(readable) ==> t == Table(old(header), old(rows))
      ensures present <==> old(present) || writable
      ensures old(present) || !writable ==> unchanged(this)
      ensures Loaded() == old(Loaded())
    {
      var ok := InitializeDataFile();
      if !ok {
        return Table(COLUMNS, []);
      }
      if readable {
        t := Table(header, rows);
      } else {
        t := Table(COLUMNS, []);
      }
    }

    /** `add_record`: a rejected record, or a failed write, leaves the file
        as it was; otherwise the file holds the previously loaded table
        followed by exactly one new row, and rows written this way stay
        well formed. */
    method AddRecord(date: Date, category: string, amount: real, kind: string) returns (ok: bool)
      modifies this
      ensures ok <==> NewRecord(date, category, amount, kind).Ok? && writable
      ensures !ok ==> unchanged(this)
      ensures ok ==> present && readable
      ensures ok ==> Loaded() == Table(AddMissing(old(Loaded()).columns, COLUMNS),
                                       old(Loaded()).rows + [Row(date, Strip(category), amount, kind)])
      ensures ok && (forall x :: x in old(Loaded()).rows ==> WellFormed(x))
              ==> forall x :: x in Loaded().rows ==> WellFormed(x)
    {
      ghost var before := Loaded();
      var record := NewRecord(date, category, amount, kind);
      if record.Err? {
        return false;
      }
      var created := InitializeDataFile();
      if !created {
        return false;
      }
      var t := LoadData();
      assert t == before;
      if !writable {
        // `df.to_csv` raises, and the handler turns that into False
        return false;
      }
      Rewrite(Table(t.columns, t.rows + [record.value]));
      ok := true;
    }

    /** `to_csv` of a concatenated table onto an existing, writable file: the
        file then holds that table's rows under the header of `pd.concat`. */
    method Rewrite(t: Table)
      requires present && writable
      modifies this
      ensures present && readable
      ensures Loaded() == Table(AddMissing(t.columns, COLUMNS), t.rows)
    {
      header, rows, readable := AddMissing(t.columns, COLUMNS), t.rows, true;
    }

    /** `get_summary` on the file's current table. */
    method GetSummary() returns (s: seq<Total>)
      modifies this
      ensures s == Summary(old(Loaded()).rows)
      ensures old(present) || !writable ==> unchanged(this)
      ensures Loaded() == old(Loaded())
    {
      var t := LoadData();
      s := Summary(t.rows);
    }
  }
}
