# Personal Finance Tracker — a verified model of its core

The tracker keeps personal income and expense transactions in one CSV file
(`date, category, amount, type`), lets the user append validated records
through a form, and shows aggregations of the table: totals per type,
category totals in descending order, monthly sums per type (as lines and as
a zero-filled month-by-type grid), the top expense category, income, expense
and net, and the expense-to-income ratio. A date-range filter shows the rows
between two days.

This project models that core in Dafny and proves what it promises:

- `results.dfy`: `Option` and `Result`.
- `text.dfy`: Python's `str.strip()` over the full `str.isspace` set, and
  ASCII `lower()`.
- `order.dfy`: the order pandas sorts string group keys in (code-point
  lexicographic), and insertion into a sorted key list.
- `dates.dfy`: days, NaT, the chronological order and the `"YYYY-MM"` month
  key of `to_period("M").astype(str)`.
- `transactions.dfy`: the row, selection by a column value, and
  `groupby(column)["amount"].sum()` with its sorted keys.
- `data_handler.dfy`: the store. The file is a class (`DataFile`) whose
  methods create it, read it fail-soft, validate and append a record, and
  summarise it; validation and the summary are functions.
- `visualizer.dfy`: the computations inside every chart and metric, as pure
  functions with lemmas.
- `app.dfy`: the page's column-name normalisation and date coercion on its
  working copy of the table (class `Frame`), the submit gate in front of
  `add_record`, and the date-range filter.

The environment is a parameter: whether the file is present, whether
`read_csv` parses it, and whether writes succeed (`DataFile.writable`). The
clock, the widgets and the file system beyond that are not modelled.

## Model

| member | source | states |
|---|---|---|
| `Text.Strip` | utils/data_handler.py:82 | the result is a slice of the input, with only whitespace cut off either end, and has no whitespace at either end |
| `Text.StripEmptyIff` | utils/data_handler.py:66 | the trimmed text is empty exactly when the text is empty or only whitespace |
| `Text.StripIdempotent` | app.py:48 | trimming an already trimmed category changes nothing |
| `Text.Lower` | app.py:25 | same length, equal to the input up to ASCII letter case, no upper-case letter left, every character that is not an upper-case letter kept where it was, lower-case text unchanged |
| `Text.LowerMatches` | app.py:25 | a text that is a lower-case text up to letter case lowers to exactly that text |
| `Order.Insert` | utils/visualizer.py:25 | inserting a key into an ascending, repeat-free key list keeps it so and adds exactly that key |
| `Dates.MonthKey` | utils/visualizer.py:97 | a dated row's key is seven characters with a dash at position 4 |
| `Dates.MonthKeyIgnoresDay` | utils/visualizer.py:72 | two days of the same calendar month share a month key |
| `Dates.MonthKeyNotNaT` | utils/visualizer.py:72 | a dated row never lands in the month of the NaT rows |
| `Dates.MonthKeyOrder` | utils/visualizer.py:98 | for real days, keys are equal exactly when year and month are, and order as the months do |
| `Transactions.SumOf` | utils/data_handler.py:105 | the sum of no rows is zero, and a sum of non-negative amounts is not negative |
| `Transactions.Select` | utils/visualizer.py:122 | the selected rows are exactly the rows carrying the value, never more rows than the table |
| `Transactions.SelectConcat` | utils/visualizer.py:122 | selection keeps table order: selecting from two parts and joining is selecting from the joined table |
| `Transactions.SelectCommute` | utils/visualizer.py:122-124 | selecting by type and then by category is selecting by category and then by type |
| `Transactions.GroupKeys` | utils/visualizer.py:25 | group keys are strictly ascending and are exactly the values present |
| `Transactions.TotalsForCover` | utils/data_handler.py:105 | sums over distinct keys covering every row add up to the table's sum |
| `Transactions.GroupTotals` | utils/visualizer.py:25 | one line per value present, ascending by key, each the sum of that value's rows, all lines adding up to the table's sum; empty exactly on an empty table |
| `DataHandler.NewRecord` | utils/data_handler.py:66-85 | each rejection (empty category, non-positive amount, unknown type) happens exactly when its check is the first to fail; an accepted record is the row with the trimmed category and is well formed |
| `DataHandler.AddMissing` | utils/data_handler.py:86 | the concatenated header starts with the loaded header and holds exactly its names and the canonical ones |
| `DataHandler.AddMissingPresent` | utils/data_handler.py:86 | a header that already has all canonical names is kept as it is |
| `DataHandler.Summary` | utils/data_handler.py:103-105 | empty exactly on an empty table; otherwise one line per category, ascending, each the category's sum, all adding up to the table's sum |
| `DataHandler.SummaryAppend` | utils/data_handler.py:105 | appending a record moves its category's total by its amount and no other category's |
| `DataHandler.DataFile.Loaded` | utils/data_handler.py:41-49 | a file that parses reads as its header and rows; a missing, empty or corrupt one as the canonical header with no rows |
| `DataHandler.DataFile.InitializeDataFile` | utils/data_handler.py:17-29 | an existing file is untouched; a missing one becomes header-only with no rows, or the call fails when writes fail; the loaded table never changes |
| `DataHandler.DataFile.InitializeTwice` | utils/data_handler.py:23-25 | calling initialisation twice has the effect and result of calling it once |
| `DataHandler.DataFile.LoadData` | utils/data_handler.py:32-49 | returns the file's table, or the empty canonical table for a missing, empty or unparsable file; lets the file be created and changes nothing else |
| `DataHandler.DataFile.AddRecord` | utils/data_handler.py:52-92 | succeeds exactly when validation passes and writes succeed; on failure the file is unchanged; on success it holds the previously loaded rows followed by exactly the one new row, and well-formed rows stay well formed |
| `DataHandler.DataFile.Rewrite` | utils/data_handler.py:86-87 | after the rewrite the file parses and holds the given rows under the concatenated header |
| `DataHandler.DataFile.GetSummary` | utils/data_handler.py:95-108 | the result is the summary of the table loaded at the call |
| `Visualizer.TotalsByType` | utils/visualizer.py:25 | one bar per type present, each the sum of that type's rows, ascending; none exactly on an empty table |
| `Visualizer.InsertByTotal` | utils/visualizer.py:45 | inserting adds exactly that entry |
| `Visualizer.InsertByTotalOrdered` | utils/visualizer.py:45 | inserting into a list of non-increasing totals keeps it non-increasing |
| `Visualizer.SortByTotal` | utils/visualizer.py:45 | sorting is a permutation |
| `Visualizer.SortByTotalOrdered` | utils/visualizer.py:45 | the sorted totals are non-increasing |
| `Visualizer.PermutationKeysDistinct` | utils/visualizer.py:45 | a permutation of entries with distinct keys has distinct keys |
| `Visualizer.CategoryTotalsDescending` | utils/visualizer.py:45-49 | the category totals, non-increasing, a permutation of the grouped sums, one per category present, each its category's sum; empty (chart skipped) exactly on an empty table |
| `Visualizer.MonthBlock` | utils/visualizer.py:73 | one month's lines all carry that month, are ascending by type and add up to the month's rows |
| `Visualizer.MonthBlockSound` | utils/visualizer.py:73 | each line of a month is a pair with rows and holds their sum |
| `Visualizer.MonthBlockComplete` | utils/visualizer.py:73 | each row of the month has its pair's line in the block |
| `Visualizer.MonthBlocks` | utils/visualizer.py:73 | the blocks of ascending months are ascending by (month, type) and add up to the months' sums |
| `Visualizer.MonthBlocksSound` | utils/visualizer.py:73 | each line of the blocks is a pair with rows and holds their sum |
| `Visualizer.MonthBlocksComplete` | utils/visualizer.py:73 | each row of one of the months has its pair's line in the blocks |
| `Visualizer.MonthlySummary` | utils/visualizer.py:71-73 | one line per (month, type) pair present, strictly ascending by (month, type), each the pair's sum, together adding up to the table's sum |
| `Visualizer.MonthlyGrid` | utils/visualizer.py:96-98 | months and types present, each ascending and exactly those present; every cell is the sum of that month's rows of that type |
| `Visualizer.GridRowSum` | utils/visualizer.py:98 | a month's cells add up to the month's rows |
| `Visualizer.SummaryLineInGrid` | utils/visualizer.py:98 | every monthly-summary line is the grid cell of its month and type |
| `Visualizer.GridCellInSummary` | utils/visualizer.py:98 | a cell of a pair with rows is a monthly-summary line; any other cell is the zero fill |
| `Visualizer.ArgMax` | utils/visualizer.py:124 | the position of a largest total, before which every total is smaller |
| `Visualizer.FirstMaximum` | utils/visualizer.py:124-125 | over ascending keys, the first maximum is at least every total and has the smallest key among equal totals |
| `Visualizer.ExpenseSum` | utils/visualizer.py:122-124 | a category's expense total does not depend on whether the rows are narrowed to expenses or to the category first |
| `Visualizer.TopCategory` | utils/visualizer.py:124-125 | nothing exactly for no rows; otherwise a category present, with its sum, at least every category's sum, the smallest key among ties |
| `Visualizer.TopExpenseCategory` | utils/visualizer.py:122-128 | nothing exactly when no row is an expense; otherwise an expense category with its expense sum, at least every expense category's sum, the smallest key among ties |
| `Visualizer.AllExpensesTop` | utils/visualizer.py:122-125 | on a table of expenses only, the top expense category is the top category of the whole table |
| `Visualizer.SelectSkipsOtherType` | utils/visualizer.py:122 | removing a row of another type leaves the rows selected for a type as they were |
| `Visualizer.TopExpenseIgnoresOtherTypes` | utils/visualizer.py:122 | adding a non-expense row anywhere leaves the top expense category as it was |
| `Visualizer.IncomeExpense` | utils/visualizer.py:141-143 | net is income minus expense |
| `Visualizer.IncomeExpenseMatchesChart` | utils/visualizer.py:141-142 | income and expense are the bars of those types in the by-type totals, or zero when the bar is absent |
| `Visualizer.IncomeExpenseCover` | utils/visualizer.py:141-142 | when every row is an income or an expense, income plus expense is the table's sum |
| `Visualizer.IncomeExpenseAppend` | utils/visualizer.py:141-142 | appending a record moves exactly the figure of its type, by its amount |
| `Visualizer.IncomeExpenseIgnoresOtherTypes` | utils/visualizer.py:141-143 | a row of neither type moves none of the three figures |
| `Visualizer.ExpenseRatio` | utils/visualizer.py:164-171 | a ratio exactly when income is positive, and then ratio times income is expense times 100 |
| `Visualizer.RatioBounds` | utils/visualizer.py:167-168 | with non-negative amounts the ratio is not negative, and is at most 100 exactly when expense does not exceed income |
| `Visualizer.Percent` | utils/visualizer.py:168 | the percentage times the base is the part times 100, and it stays within 100 exactly when the part does not exceed the base |
| `App.NormalizeName` | app.py:25 | a normalised name is the trimmed name up to ASCII letter case, has no surrounding whitespace and no upper-case letter, is empty exactly for a blank name, and is never longer |
| `App.NormalizeNameMatches` | app.py:25 | a name that, once trimmed, equals a lower-case name up to case normalises to exactly that name |
| `App.NormalizeDateHeader` | app.py:25 | the headers " Date " and "DATE" both normalise to "date" |
| `App.NormalizedNames` | app.py:25 | one name per column, in place, each the normalised form of that column's name |
| `App.DateColumnFound` | app.py:25-28 | a header with a column named "date" up to case and surrounding whitespace has a `date` column once normalised |
| `App.NormalizeNameFixes` | app.py:25 | a trimmed lower-case name is left as it is |
| `App.NormalizeNameIdempotent` | app.py:25 | normalising twice is normalising once |
| `App.NormalizedNamesProperties` | app.py:25 | the store's header survives normalisation; normalising a header twice is normalising it once |
| `App.Frame.NormalizeColumns` | app.py:25 | the frame's names become their normalised forms and its rows do not change |
| `App.Coerce` | app.py:29 | a date that stays a date is a real day and unchanged; a real day always stays |
| `App.CoerceAll` | app.py:29 | one row per row, in place, each with only its date coerced |
| `App.CoerceAllProperties` | app.py:29 | after coercion every date is NaT or a real day, only dates changed, and coercing again changes nothing |
| `App.Frame.CoerceDates` | app.py:28-29 | dates are coerced exactly when the table has rows and a `date` column; names do not change |
| `App.PrepareFrame` | app.py:22-29 | the frame holds the normalised names and, under the store's header, always the coerced rows |
| `App.SubmitGate` | app.py:42-46 | the empty-category error exactly for a blank category, the amount error exactly for a non-blank category with an amount not above zero, otherwise the trimmed, non-empty category |
| `App.GateMatchesAddRecord` | app.py:42-48 | what the form rejects `add_record` rejects for the same reason; what it passes `add_record` accepts with the same trimmed category |
| `App.SubmitForm` | app.py:40-53 | a blank category or a non-positive amount never reaches the store; otherwise the record is added exactly when writes succeed, the file changes only then, and it then holds the old rows and the one new row |
| `App.Within` | app.py:79-80 | a NaT date is never in range; a date in range means the range is not inverted; both ends of a valid range are in it |
| `App.SelectWithin` | app.py:78-81 | every kept row is within the range, and each row in range is kept as often as it occurs while others are dropped |
| `App.SelectWithinConcat` | app.py:78-81 | the filter keeps table order |
| `App.SelectWithinSubsequence` | app.py:78-81 | the filtered rows are a subsequence of the table |
| `App.FilterByDateRange` | app.py:75-81 | nothing exactly when the start is after the end; otherwise exactly the table's rows dated from start to end inclusive, in table order with their repeats |
| `App.FullRangeKeepsDated` | app.py:72-81 | with a range spanning all dates, exactly the dated rows are kept, in order, and only NaT rows are dropped |

## Left out

- Streamlit widgets, messages, `st.rerun`, and the matplotlib and seaborn
  drawing: display only. Which chart or message appears is not modelled,
  except which branch a computation takes.
- CSV parsing and writing, and `os.path.exists`: the file is a class with
  `present`, `readable`, header and rows fields, and `writable` stands for
  whether the file system accepts a write.
- `pd.to_datetime` text parsing: a date is held as a (year, month, day)
  triple or NaT. `App.Coerce` turns a triple naming no calendar day into
  NaT. It does not model the narrower `Timestamp` range of pandas.
- Cells that are missing in a read-back file (NaN amounts, categories or
  types), and the NaN padding `pd.concat` gives the columns a file lacks.
  `DataHandler.AddMissing` models only the resulting header.
- Float arithmetic, rounding and the `:.2f` formatting: amounts are `real`.
- Unicode case mapping: `Text.Lower` lowers ASCII letters only.
- The order `sort_values` gives to equal totals. Its default sort is not
  stable, so `Visualizer.CategoryTotalsDescending` promises non-increasing
  totals and a permutation, and nothing about ties.
- The error handlers around each chart (`except Exception`). For example,
  `.dt` on a date column that was never coerced raises in the source. The
  model's functions are total and compute the value instead.
- `DataHandler.DataFile.InitializeDataFile`, `DataHandler.DataFile.AddRecord`:
  a failed write is modelled as all-or-nothing, so the file is unchanged.
  `to_csv` opens the file in `"w"` mode, which truncates it first, so a
  write that fails part-way (a full disk, say) can leave the file empty or
  partial, losing rows the model keeps.
- `DataHandler.DataFile.Rewrite`: the round trip through the CSV text is
  taken as exact. `pd.read_csv` reads the texts "NA", "N/A", "None",
  "null" and "nan" as missing values, so a category spelled that way comes
  back missing and `groupby` drops its rows. It also reads a number-like
  category back as a number.
- Logging, and concurrent `add_record` calls racing on the file.
- Widget limits (`max_chars`, `min_value`, `max_value`): the widget library
  enforces them. The select box's two types become the requirement that
  `App.SubmitForm` is given one of them.
- NaT dates in the monthly charts: they group under the key `"NaT"`, the
  text that `astype(str)` gives a missing period.
