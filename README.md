# Fiscal-year batch merger, modelled in Dafny

`process_spending.py` is a batch job. It takes the USAspending contract
transaction extracts for fiscal years 2017 to 2025, one folder per year. It
reads the twelve columns it needs as text and renames them to a canonical
schema. It coerces the two dates and the amount, cuts the zip+4 field to a
five-character zip, and derives the federal fiscal year from the action date.
It then concatenates the partitions in folder order, exports the result, and
prints a per-fiscal-year row count with the list of expected years that no row
carries.

This project models that logic and proves its properties. It has six modules:

- `Wrappers` (`wrappers.dfy`): `Option` for nullable cells and `Result` for steps that raise.
- `Schema` (`schema.dfy`): `COLUMN_MAP`, `USE_COLS`, `FY_FOLDERS`, the reverse map and the facts about them.
- `FiscalYears` (`fiscal_year.dfy`): calendar dates and `compute_fiscal_year`.
- `Cleaning` (`cleaning.dfy`): the read with `usecols`, the rename, the lenient coercions, the zip cut and `process_fy`.
- `Summaries` (`summary.dfy`): `groupby("fiscal_year").size().sort_index()`, the total and the missing years.
- `Batch` (`batch.dfy`): `main`, with its loop over the folders, the concatenation and the summary.

Some things the job does through I/O or library calls become inputs to the model:

- The folder listing that `glob.glob` returns is a parameter `glob: string -> seq<SourceFile>`. It gives each folder's files in listing order.
- `pd.to_datetime(..., errors="coerce")` and `pd.to_numeric(..., errors="coerce")` are the two function fields of a `Parsers` value. Each maps a cell's text to `Option`, with `None` for a failed parse.
- A `SourceFile` is an extract that has already been tokenised: a header and its records. A record maps a column name to the cell's text, and a column absent from it is an empty or NA cell.
- The exported file is the `combined` table of the `Report` that `Run` returns.

The per-row cleaning is a chain of pure functions:
`ReadRow`, then `Rename`, then `CleanFrame` (which calls `ToDatetime`,
`ToNumeric`, `Zip5` and `ComputeFiscalYear`). `process_fy` rebinds `df` and
overwrites its columns one after another, and this chain follows those steps in
the same order. `main` is the imperative method `Batch.Run`. Its `while` loop
appends each found partition to `frames`. It is proved equal to the functional
specification `RunSpec`, and the lemmas about `RunSpec` state what the run
promises. Among them, `RunExportsFoundPartitions` and `CountYearConcat` relate
the export's per-year counts to those of the partitions.

The zip step keeps the first `min(5, len)` characters of the cell's text. It
neither pads nor rejects a shorter text, so such a text passes through
unchanged (`Zip5KeepsOrCuts`, `Zip5Examples`).

## Model

| member | source | states |
|---|---|---|
| `Schema.ColumnMapInjective` | process_spending.py:17-30 | no two canonical columns map to the same source column |
| `Schema.ReverseMap` | process_spending.py:61 | the reverse map is defined on exactly the source columns and sends each source column back to its canonical name |
| `Schema.ReverseMapInvertsColumnMap` | process_spending.py:17-30 | the reverse map's keys are the map's values and its values the map's keys; it undoes the map in both directions and is itself injective |
| `Schema.CanonicalColumnsAreTheKeys` | process_spending.py:17-30 | the twelve canonical names listed in order are exactly the keys of the map |
| `Schema.UseColsListTheValues` | process_spending.py:33 | `USE_COLS` is the list of the map's values in the map's order |
| `Schema.UseColsAreDistinct` | process_spending.py:33 | the twelve source columns are pairwise distinct |
| `Schema.UseColsAreTheValues` | process_spending.py:17-33 | a column is in `USE_COLS` exactly when it is a value of the map |
| `Schema.RenamingUseColsGivesCanonicalColumns` | process_spending.py:61-62 | renaming the twelve source columns gives the twelve canonical columns, position by position |
| `Schema.DescriptionIsRenamed` | process_spending.py:28 | `transaction_description` is renamed to `contract_description` |
| `Schema.ObligationIsRenamed` | process_spending.py:18 | `federal_action_obligation` is renamed to `award_amount` |
| `Schema.ZipColumnIsRenamed` | process_spending.py:27 | the zip+4 source column is renamed to the five-character zip column |
| `FiscalYears.FiscalYear` | process_spending.py:41-44 | the fiscal year is the calendar year or the next one, and it is the next one exactly when the month is October or later |
| `FiscalYears.ComputeFiscalYear` | process_spending.py:41-44 | a null date gives a null fiscal year; a present date gives its fiscal year |
| `FiscalYears.FiscalYearWindow` | process_spending.py:42-43 | a date lies in fiscal year `fy` exactly when it falls in the window from October 1 of `fy - 1` up to, but not including, October 1 of `fy` |
| `FiscalYears.FiscalYearMonotone` | process_spending.py:41-44 | a later date never has an earlier fiscal year |
| `FiscalYears.FiscalYearExamples` | process_spending.py:42-43 | Oct 1 2024 gives 2025, Sep 30 2025 gives 2025, Jan 15 2025 gives 2025, Jan 1 2017 gives 2017, Sep 30 2024 gives 2024 |
| `Cleaning.Cell` | process_spending.py:58 | a cell is present exactly when the record holds the column, and then it is the record's text |
| `Cleaning.ReadRow` | process_spending.py:58 | a row read with `usecols` has exactly the twelve source columns, each with the record's cell as text |
| `Cleaning.ReadUseCols` | process_spending.py:58 | the read fails exactly when a required column is missing from the header, and the error names exactly the missing columns; otherwise every record is read, in order |
| `Cleaning.Rename` | process_spending.py:61-62 | each source column's cell moves to its canonical name, and each renamed column holds the cell of the source column the map names for it |
| `Cleaning.ToDatetime` | process_spending.py:64-70 | a null cell stays null and a present cell gets the parser's result, `None` on failure; no error is possible |
| `Cleaning.ToNumeric` | process_spending.py:72-73 | a null cell stays null and a present cell gets the numeric parser's result, `None` on failure; no error is possible |
| `Cleaning.AsStr` | process_spending.py:78 | a null cell is rendered as the text "nan"; a present cell keeps its text |
| `Cleaning.Zip5` | process_spending.py:75-81 | a null cell gives null; a kept zip is a prefix of the cell's text with length `min(5, len)`; the result is null exactly when that prefix is "nan" |
| `Cleaning.Zip5NullExactlyForNan` | process_spending.py:77-80 | the zip is null exactly when the cell renders as "nan", whether it is a missing value or the literal text |
| `Cleaning.Zip5KeepsOrCuts` | process_spending.py:79 | a text of at most five characters other than "nan" passes through unchanged; a longer one is cut to its first five characters |
| `Cleaning.Zip5Examples` | process_spending.py:75-81 | "123456789" gives "12345", "20500-0001" gives "20500", "2050" stays "2050", "nan" and a null cell give null |
| `Cleaning.CleanFrame` | process_spending.py:64-84 | both dates are coerced, the amount is coerced, the zip is cut, the other text columns pass through, and the fiscal year is present exactly when the action date is, equal to that date's fiscal year |
| `Cleaning.RenameReadFrame` | process_spending.py:58-62 | after the read and the rename, a row has exactly the canonical columns, each holding its source column's cell |
| `Cleaning.CleanReadFrame` | process_spending.py:58-84 | a read row is cleaned from the source columns the map names: both dates are coerced, the amount is coerced, the zip is cut, the description and the seven other text columns pass through, and its fiscal year is derived from its action date |
| `Cleaning.CleanFrames` | process_spending.py:64-84 | the cleaned table has one row per read row, in order, each cleaned on its own |
| `Cleaning.ProcessFy` | process_spending.py:47-86 | an empty listing gives `None`; otherwise the first file is read; it fails exactly when that file lacks a required column; on success it has one cleaned row per record of that file |
| `Cleaning.OnlyFirstFileIsRead` | process_spending.py:55 | files after the first in a listing never change the result |
| `Cleaning.CleanedRowFromRecord` | process_spending.py:61-84 | in terms of the source record: the action date, period start date, amount, zip and description come from their source columns, and the fiscal year is null exactly when the action date cell is missing or fails to parse |
| `Cleaning.PassThroughFromRecord` | process_spending.py:17-33 | the seven text columns whose source and canonical names agree hold the record's cell unchanged |
| `Summaries.CountYear` | process_spending.py:122 | a year's count is at most the row count, and it is zero exactly when no row has that fiscal year |
| `Summaries.CountNull` | process_spending.py:122 | the null count is zero exactly when every row has a fiscal year |
| `Summaries.ObservedYears` | process_spending.py:131 | a year is observed exactly when some row has it as its non-null fiscal year |
| `Summaries.Insert` | process_spending.py:122 | inserting into a strictly ascending list keeps it strictly ascending and adds exactly the new year |
| `Summaries.SortedYears` | process_spending.py:122 | the group keys are strictly ascending and are exactly the observed non-null fiscal years |
| `Summaries.Range` | process_spending.py:130 | `range(lo, hi)` holds exactly the integers from `lo` up to but not including `hi` |
| `Summaries.ExpectedYears` | process_spending.py:130 | the expected years are exactly 2017 to 2025 |
| `Summaries.CountsFor` | process_spending.py:122 | one line per listed year, in order, with that year's row count |
| `Summaries.Summarise` | process_spending.py:122-132 | the counts are in strictly ascending year order, each equals that year's row count and is positive, the years listed are exactly the observed ones, the total is the row count, and a year is missing exactly when it is expected and no row has it |
| `Summaries.HitsOfDistinct` | process_spending.py:122 | a row falls in at most one group of a duplicate-free year list, and it falls in one exactly when its fiscal year is in the list |
| `Summaries.SumRowsCovering` | process_spending.py:122-127 | over year lists that cover all non-null years, the counts plus the null rows add up to the table's size |
| `Summaries.CountYearAppend` | process_spending.py:110-122 | a year's count over two tables placed one after the other is the sum of its counts over each |
| `Summaries.CountsAddUp` | process_spending.py:122-127 | the per-year counts add up to the total minus the null-year rows: at most the total, and equal to it exactly when no fiscal year is null |
| `Batch.CollectFrames` | process_spending.py:97-103 | the `frames` list has at most one table per folder, and the walk can only fail with a missing-column error |
| `Batch.Concat` | process_spending.py:110 | the combined table has as many rows as all the partitions together |
| `Batch.CountYearConcat` | process_spending.py:110-122 | a year's count over the combined table is the sum of its counts over the partitions |
| `Batch.ConcatKeepsRows` | process_spending.py:110 | row `j` of partition `i` sits right after the rows of the partitions before it, so each partition keeps its row order and the partitions keep theirs |
| `Batch.Found` | process_spending.py:100-103 | a folder contributes at most one table, only the one `process_fy` returned, and it contributes none exactly when `process_fy` failed or returned `None` |
| `Batch.ErrorStopsTheWalk` | process_spending.py:98-100 | an error in one folder ends the whole walk with that error |
| `Batch.FoundFramesSnoc` | process_spending.py:98-103 | walking one more folder appends exactly what that folder contributes |
| `Batch.CollectFramesIsFoundFrames` | process_spending.py:97-103 | with no failing read, `frames` is exactly the found partitions in folder order; otherwise the walk fails with the error of the first failing folder |
| `Batch.SkippedPartitionAddsNothing` | process_spending.py:50-53 | a folder with an empty listing contributes nothing, and the walk goes on to the later folders |
| `Batch.NoFramesIffNoFiles` | process_spending.py:50-53 | empty listings cannot fail; and with no failing read, no partition is found exactly when every listing is empty |
| `Batch.RunSpec` | process_spending.py:97-132 | an error of the walk ends the run with that error; an empty `frames` list fails with "no objects to concatenate"; otherwise the export has as many rows as the found partitions together and its summary's total is that row count |
| `Batch.RunFailsIffNoPartitionFound` | process_spending.py:97-110 | the run ends with "no objects to concatenate" exactly when no folder lists a file |
| `Batch.RunExportsFoundPartitions` | process_spending.py:97-122 | a run succeeds exactly when no read fails and some partition is found; then the export is the found partitions concatenated in folder order, its row count, overall and for each fiscal year, is the sum of theirs, and it carries their summary |
| `Batch.Run` | process_spending.py:89-137 | the loop over the folders, the concatenation and the summary compute exactly the run described by `RunSpec` |

## Left out

- Filesystem I/O: `os.makedirs`, `glob.glob`, `pd.read_csv` text tokenising and `to_parquet`. The listing and the tokenised extracts are inputs, and the export is the returned combined table. A failure to write has no counterpart in the model.
- The order in which `glob.glob` lists several matching files. The model takes the listing as given and uses its first element, as the code does.
- The default NA tokens `read_csv` recognises ("", "NA", "NULL", ...). A `SourceFile` record already leaves out every cell that the reader would turn into NaN.
- The parse rules of `pd.to_datetime` and `pd.to_numeric`. They are opaque parameters applied cell by cell. pandas can infer one date format for a whole column, which would make one cell's parse depend on the others; the model does not capture that.
- The numeric value of `award_amount`. It is a float in pandas; here it is an opaque `real` that nothing computes with.
- The range of pandas timestamps (years 1677 to 2262). Model dates are any valid calendar date.
- Column order within a frame. A cleaned row is a record with named fields.
- Every `print`. This includes the per-folder warnings, the row-count table text and the sorted listing of the missing years. The summary returns the counts and the missing years as values instead.
- `read_csv` failures other than a missing `usecols` column: an empty file (`EmptyDataError`), ragged rows and undecodable bytes. A `SourceFile` is already tokenised, so the only read error modelled is `MissingColumns`; an empty extract `SourceFile([], [])` gives `MissingColumns` of all twelve columns.
