# Expense tracker store and summaries, in Dafny

A model of the core of the expense-tracker command-line tool (`expense-tracker.py`). The tracker keeps an
ordered list of expense records `{id, date, description, amount}` in a JSON file. It loads that list,
applies one command, and writes the list back. This model covers the part that works on the loaded list:

- **ID assignment and `add`** (`Store.NextId`, `Store.Add`). The next ID is one more than the ID of the
  final record, or 1 for an empty store. The new record is appended, dated by the `%d-%m-%Y` formatter
  (`Dates.FormatDate`). The validation line looks up `args.desc` and `args.amt`. The parser defines neither:
  it stores the options under `description` and `amount`. Python's `or` reaches that lookup only when the
  value before it is falsy. So an absent or empty description fails on `desc`, and otherwise an absent or
  zero amount fails on `amt`. The "please provide" message is never printed, nothing is appended and the
  file is not written. The model returns `Err(AttributeMissing(name))` for this.
- **`delete`** (`Store.Remove`, `Store.Delete`). The loop scans from the front. At the first record with
  the ID it calls `list.remove` and stops. `list.remove` deletes the first record *equal* to the one found,
  and the model proves that this is the same record (`Sequences.ListRemove`). When no record has the ID,
  the store is written back unchanged and success is still reported.
- **`summary`** (`Summary.TotalExpenses`, `Summary.MonthlyTotal`). With no month, the result is the sum of all
  amounts. With a month, the loop converts `date[3:5]` with `int()` for every record and adds the amounts of
  the records that match. A field that does not convert makes the whole summary fail, whatever month was
  asked for (`Dates.MonthOf`, `Summary.MonthlySummary`).
- **One invocation** (`Commands.Run`) ties these together. It returns what is written back to the data
  file (only after a successful add or delete) and what is reported.

The store invariant `Expenses.Valid` has three parts: IDs strictly increase along the list, IDs are
positive, and every date carries a month from 1 to 12. Add and delete both preserve it. Increasing IDs
are unique IDs. Under the invariant, "last + 1" equals "largest + 1". The twelve monthly totals add up to
the grand total.

The help text calls each ID "its unique ID" (line 37). The model keeps that promise for the records
present at any one time. The code assigns "last + 1", not "largest ever + 1", so adding, deleting the
record just added and adding again hands out the same ID (`Store.AddDeleteAddReusesId`). A zero amount is
falsy in Python, so the code rejects it together with an empty description, through the failing attribute
lookup above.

Clock readings are a parameter: `today` is a `Dates.Date` with day 1..31, month 1..12 and year
1000..9999.

## Model

| member | source | states |
|---|---|---|
| `Store.NextId` | expense-tracker.py:91-94 | the ID an add assigns is greater than every ID of a store whose IDs increase, and it is at least 1 when all IDs are positive |
| `Store.NextIdIsMaxPlusOne` | expense-tracker.py:91-94 | on a non-empty store with increasing IDs, "last ID + 1" equals "largest ID + 1" |
| `Store.Add` | expense-tracker.py:86-100 | add succeeds exactly when the description is non-empty and the amount non-zero; on failure the error names the missing attribute (`desc` first, then `amt`) and no store is produced; on success the store grows by one record, earlier records are untouched, and the new record has the next ID, today's formatted date, the description and the amount, and its month reads back as today's month |
| `Store.AddPreservesValid` | expense-tracker.py:91-100 | a successful add keeps IDs increasing and positive and every date carrying a month |
| `Store.AddDeleteAddReusesId` | expense-tracker.py:91-94 | deleting the record just added restores the previous store exactly, so the next add assigns the deleted ID again |
| `Store.DeleteLastThenAddReusesAtMost` | expense-tracker.py:91-94 | after the final record of a valid store is deleted, the next ID is at most the deleted one, never "largest ever + 1" |
| `Store.AddsNumberFromOne` | expense-tracker.py:91-97 | successive adds to an empty store number the records 1, 2, 3, ... in order |
| `Expenses.IncreasingIdsAreUnique` | expense-tracker.py:37 | on a store whose IDs increase, two records with the same ID are the same record |
| `Store.Remove` | expense-tracker.py:111-114 | deleting an ID no record has leaves the store equal to the input; otherwise the store loses exactly one record and gains none |
| `Store.RemoveCutsFirstMatch` | expense-tracker.py:111-114 | delete cuts out exactly the first record with the ID; the records before and after it stay, in their order, later duplicates included |
| `Store.Delete` | expense-tracker.py:111-114 | the front-to-back scan that calls `list.remove` on the first match and breaks gives the same store as the first-match removal |
| `Sequences.ListRemove` | expense-tracker.py:113 | `list.remove(v)` shortens the list by one and cuts out the first element equal to `v`, keeping the rest in order |
| `Store.RemovePreservesValid` | expense-tracker.py:111-114 | delete keeps IDs increasing and positive and every date carrying a month |
| `Dates.Pad` | expense-tracker.py:96 | a zero-padded field has exactly the requested number of ASCII digits, and reading them back gives the number |
| `Dates.FormatDate` | expense-tracker.py:96 | a formatted date has ten characters: dashes at positions 2 and 5, digits everywhere else; the two digits before the first dash read as the day, the two between the dashes as the month, the four after the second dash as the year |
| `Dates.Slice` | expense-tracker.py:158 | a Python slice `s[lo:hi]` is empty when `s` ends at or before `lo`, runs to the end of `s` when `s` ends before `hi`, and otherwise has `hi - lo` characters; each character is the one at the same offset from `lo` in `s` |
| `Dates.ParseInt` | expense-tracker.py:158 | `int()` succeeds exactly on a non-empty run of ASCII digits, with a value below 10 to the power of its length |
| `Dates.ParseIntIsDecimal` | expense-tracker.py:158 | the value `int()` gives for a digit run is its decimal value: zero-padded back to the run's length, it gives the run again |
| `Dates.MonthOf` | expense-tracker.py:158 | the month read from `date[3:5]` is between 0 and 99, and exists only for dates long enough to have a digit at position 3 |
| `Dates.MonthOfFormattedDate` | expense-tracker.py:158 | reading the month back from a date the formatter wrote gives the month it was written from |
| `Summary.TotalExpenses` | expense-tracker.py:135-137 | the running-sum loop ends with the sum of all amounts (0 for an empty store) |
| `Summary.TotalOfConcat` | expense-tracker.py:135-137 | the total of two stores laid end to end is the sum of their totals |
| `Summary.InMonthSelectsExactly` | expense-tracker.py:157-159 | the records counted toward a month are those whose month field reads as that month, each as many times as the store holds it, and no other record |
| `Summary.MonthlyTotal` | expense-tracker.py:157-159 | the monthly summary succeeds exactly when every stored month field converts; then it is the total of the records of that month; otherwise the error carries the month field of the first record that does not convert |
| `Summary.MonthlySummary` | expense-tracker.py:157-159 | the monthly loop, which fails at the first field that does not convert, gives the same result as the monthly summary |
| `Summary.MonthlyStep` | expense-tracker.py:158-159 | scanning one more record adds its amount to the month it belongs to and to no other |
| `Summary.MonthlyTotalsSucceed` | expense-tracker.py:157-158 | when every date carries a month from 1 to 12, every monthly summary succeeds |
| `Summary.MonthsPartitionTotal` | expense-tracker.py:133-159 | when every date carries a month from 1 to 12, the totals for months 1 to 12 add up to the grand total |
| `Summary.MonthlySummariesAddUp` | expense-tracker.py:133-159 | when every date carries a month from 1 to 12, every monthly summary succeeds and the results of the summaries for months 1 to 12 add up to the grand total |
| `Summary.TotalAfterAdd` | expense-tracker.py:97-100 | a successful add raises the grand total by exactly the new amount |
| `Summary.TotalAfterRemove` | expense-tracker.py:111-114 | delete lowers the grand total by the amount of the first record with the ID, and leaves it alone when there is none |
| `Commands.Run` | expense-tracker.py:86-162 | the file is written exactly when an add or delete succeeds; add succeeds exactly on a non-empty description and non-zero amount, then reports the next ID and saves the store with the new record appended, and otherwise reports the attribute failure of `Store.Add`; delete without an ID reports the missing ID, otherwise it saves the store without the first record with that ID and reports that ID as deleted; summary without a month reports the grand total, with a month it reports the monthly total or fails as the monthly summary does |
| `Commands.RunPreservesValid` | expense-tracker.py:97-116 | whatever an invocation writes back is a valid store when the loaded store was valid |
| `Commands.DeleteMissingIdKeepsStore` | expense-tracker.py:111-117 | deleting an ID no record has writes back the loaded store unchanged and still reports success |
| `Commands.FirstAddScenario` | expense-tracker.py:91-100 | adding "Coffee" for 5 to an empty store saves one record with ID 1 and today's date, and the total becomes 5 |
| `Commands.MarchAprilScenario` | expense-tracker.py:157-159 | with two March records and one April record, the March summary is the sum of the March amounts and the April summary is the April amount |

## Left out

- Loading and saving (`load_expenses`, `save_expenses`, lines 65-82) and JSON encoding are not modelled. The
  loaded list is a parameter and the saved list a result. An absent or empty data file loads as the empty
  list. Invalid JSON and write failures are outside the model.
- Loaded records are typed `Expense` values. A data file holding, say, a string where an amount belongs is
  not modelled.
- `datetime.now()` is replaced by the `today` parameter.
- Dates.ValidDate: years before 1000 are excluded, because how `%Y` pads them depends on the platform. Day
  ranges are 1..31 for every month; calendar validity comes from the clock and is not checked.
- Argument parsing, the `help` check, "Invalid argument." and the exit codes are not modelled (lines 43-63
  and the `sys.exit` calls). `Commands.Command` starts from already parsed options.
- argparse's `choices` restriction of `--month` to 1..12 is not modelled. `Summary.MonthlyTotal` accepts
  any month; a month outside 1..12 matches no valid date.
- The `list` command and all printing are not modelled: the table layout, the success messages and the
  month-name map used only for display.
- Dates.ParseInt: treats a sign, surrounding whitespace, `_` separators and non-ASCII digits as
  unconvertible, although Python's `int()` accepts them. The month field of a date the formatter wrote never
  contains them.
