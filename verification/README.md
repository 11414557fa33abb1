# A verified model of the z3-noodler evaluation pipeline

`z3_noodler_eval.py` reads one table per benchmark suite. A table has one row
per instance and, for each solver `t`, a result column `t-result` and a runtime
column `t-runtime`. The script files the tables into dictionaries by suite,
concatenates them, and produces a report for a main solver:

- unknown counts;
- runtime sums and timeout counts ("Table 1");
- pairwise win/loss counts ("Table 2");
- the parameters of the comparison scatter plots;
- the instances that one solver alone solves, or that none solves.

This project models the data side of that pipeline in Dafny and proves what
each step computes:

- `common.dfy` (module `Common`): `Option`, `Result` and the Python errors
  the script can raise. Also `Filter` and `Count` over sequences with their
  algebra, and the string functions the script relies on: `str.strip`,
  `str.rfind`, slicing with a negative bound, and suffix and substring
  tests.
- `frames.dfy` (module `Frames`): rows and tables. A cell is a map entry, and
  a missing key or a NaN is `None`. Also reading a cell (`ERR`, `TO`,
  `MISSING`, the empty field and pandas' other default NaN strings read as
  NaN), stripping result labels, and sanitising runtimes.
  The data frame that `gen_evaluation` changes in place is the class
  `Frame`, whose methods `StripAndCountUnknowns` and `SanitizeRuntimes`
  change its rows.
- `evaluation.dfy` (module `Evaluation`): the rest of `gen_evaluation`:
  - dropping the rows the main solver left unknown;
  - runtime summaries, Table 1 and the comparison pairs;
  - Table 2 (`WinTable`), `only_solves` and `none_solves`;
  - the method `Evaluate`, which ties them together with the error each
    missing column raises.
- `plots.dfy` (module `Plots`): the layout of `matrix_plot` and the plot
  parameter dictionaries: the x-axis name, the defaults and the default
  file name.
- `suites.dfy` (module `Suites`): `sanity_check` and `create_dfs`. This
  covers tagging each suite's table and copying the common solver columns.
  It also covers filing the tables into `dfs`, `dfs_normal` and
  `dfs_underapprox`, and concatenating them.

Constants follow the script: `TIMEOUT` = 120, `TIMEOUT_VAL` = 120 · 1.1 and
`TIME_MIN` = 0.01. The pair (`TIMEOUT_VAL`, `TIME_MIN`) is a parameter
`lim: Limits` with `0 < TIME_MIN < TIMEOUT_VAL`. `SourceLimits` is the
script's value of that pair, and `TimedOutLosesToFinished` uses it to show
that a timed-out run loses every comparison with a run that finished
within `TIMEOUT`.
`NOODLER` is "z3-noodler-69838f6".

Points of the script's behaviour that the model keeps:

- A timeout is a runtime cell that is NaN (line 159), and the runtime sum
  skips those cells (line 153).
- Runtimes are not masked by result label. The only masking is the reader's
  NaN strings (line 36).
- `sanity_check` can fail. If `name`, `z3-result`, `cvc5-result` or the
  noodler result column is missing, it raises one `KeyError` that names every
  missing column, and `create_dfs` passes it on (lines 128 and 348).
  Otherwise its selection is computed and then discarded.
- A suite's name is the name of its file's parent directory (line 330).
- Stripping can fail. `.str.strip()` raises `AttributeError` on a result
  column that pandas holds as floats rather than strings (line 144). That
  depends on the column's type, not on the rows in hand, so every table
  carries the set `text` of its columns that hold strings:
  - a file's result column holds strings when the file has no rows or the
    column has at least one label (`ReadText`);
  - selecting or dropping rows keeps a column's type;
  - `pd.concat` gives strings to a column that holds strings in one of
    the tables that have rows. A table without rows counts only when no
    table has rows (`ConcatText`);
  - the copied common columns take the type of their source.

  A column whose labels are all in rows that a selection removed therefore
  still holds strings and strips without error.
- `df[col].fillna(TIMEOUT_VAL, inplace=True)` on line 189 is a chained
  assignment. The model follows pandas without copy-on-write, where it
  fills the column of `df` itself, as the script intends.

## Model

| member | source | states |
|---|---|---|
| Common.Strip | z3_noodler_eval.py:144 | `str.strip()` leaves no whitespace at either end |
| Common.StripRemovesOnlySpace | z3_noodler_eval.py:144 | the stripped label is a contiguous piece of the original with only whitespace before and after it |
| Common.StripIdempotent | z3_noodler_eval.py:144 | stripping an already stripped label changes nothing |
| Common.StripPadding | z3_noodler_eval.py:144 | any whitespace `str.isspace()` accepts around a label (the ASCII separators U+001C-U+001F among it) leaves the stripped label unchanged |
| Common.RFind | z3_noodler_eval.py:236 | `rfind("-")` is the last index holding '-', or -1 exactly when there is none |
| Common.PrefixSlice | z3_noodler_eval.py:236 | `s[:k]` is a prefix of `s`, of length `k` for `0 <= k <= len(s)` and `len(s) + k` for `-len(s) <= k < 0` |
| Common.ContainsPrefix | z3_noodler_eval.py:291 | a column named after the engine with anything appended contains the engine name |
| Frames.RuntimeColumnIsRuntime | z3_noodler_eval.py:151 | the column `t + "-runtime"` matches `-runtime$` |
| Frames.OthersCount | z3_noodler_eval.py:195-198 | the tools other than `main_tool` are all of `all_tools` except `main_tool`, and there are as many as `all_tools` has entries different from it |
| Frames.AddColumn | z3_noodler_eval.py:332 | assigning a column keeps the existing columns in place and appends the name last when it is new; the names stay distinct |
| Frames.MissingCountsEveryNaToken | z3_noodler_eval.py:36 | a runtime column's NaN count is the number of cells it was read from that are `ERR`, `TO`, `MISSING`, empty or another of pandas' default NaN strings |
| Frames.UnknownCountsReadLabels | z3_noodler_eval.py:36 | after stripping, a result column's unknown count is the number of raw cells that are not NaN strings and read "unknown" up to padding |
| Frames.StripOtherColumn | z3_noodler_eval.py:141-145 | stripping one result column leaves every other column's unknown count unchanged |
| Frames.StripResultsAt | z3_noodler_eval.py:141-144 | after the loop, each result column holds the stripped labels and every other cell, name and benchmark is unchanged |
| Frames.SanitizeCell | z3_noodler_eval.py:189-190 | a sanitised runtime is defined and at least `TIME_MIN` |
| Frames.SanitizeCellCases | z3_noodler_eval.py:189-190 | NaN becomes `TIMEOUT_VAL`, a runtime below `TIME_MIN` becomes `TIME_MIN`, any other runtime is kept; sanitising twice is sanitising once |
| Frames.SanitizedAt | z3_noodler_eval.py:187-190 | after the loop, each runtime column holds the sanitised runtime in every row and every other cell is unchanged |
| Frames.SanitizedIsDefined | z3_noodler_eval.py:187-190 | every runtime column is defined and at least `TIME_MIN` in every row after sanitising |
| Frames.SanitizedIdempotent | z3_noodler_eval.py:187-190 | sanitising an already sanitised table changes nothing |
| Frames.ResultIsNotRuntime | z3_noodler_eval.py:142-151 | no column is both a tool's result column and a tool's runtime column |
| Frames.IsNaToken | z3_noodler_eval.py:36 | the strings read as NaN; their meaning is stated by `MissingCountsEveryNaToken` |
| Frames.ReadResultCell | z3_noodler_eval.py:36 | a result cell as read; its meaning is stated by `UnknownCountsReadLabels` |
| Frames.ReadRuntimeCell | z3_noodler_eval.py:36 | a runtime cell as read; its meaning is stated by `MissingCountsEveryNaToken` |
| Frames.CountUnknown | z3_noodler_eval.py:145 | the unknown count of a column; `UnknownCountsReadLabels` states what it counts in the file |
| Frames.CountMissing | z3_noodler_eval.py:159 | the timeout count of a column; `MissingCountsEveryNaToken` states what it counts in the file |
| Frames.StripColumn | z3_noodler_eval.py:144 | one column's labels stripped; `StripOtherColumn` and `StripResultsAt` state what it changes and keeps |
| Frames.StripResults | z3_noodler_eval.py:141-144 | every result column of a prefix of the columns stripped, row by row, as `StripResultsAt` states |
| Frames.SanitizeColumn | z3_noodler_eval.py:189-190 | one runtime column sanitised; `SanitizedAt` states its effect |
| Frames.Sanitized | z3_noodler_eval.py:187-190 | every runtime column sanitised, as `SanitizedAt`, `SanitizedIsDefined` and `SanitizedIdempotent` state |
| Frames.Frame.constructor | z3_noodler_eval.py:148 | the new frame holds exactly the given columns, rows and column types, and is well formed when the column names are distinct |
| Frames.StripReach | z3_noodler_eval.py:141-144 | the strip loop gets through every column before the first result column that does not hold strings, and stops at that one |
| Frames.ReadText | z3_noodler_eval.py:30-38 | the result columns a file gives strings; `ReadStripReach` states what follows for stripping |
| Frames.ReadStripReach | z3_noodler_eval.py:141-144 | on a table as read, stripping fails exactly when some result column has rows but no label, and stops at the first such column |
| Frames.Frame.StripAndCountUnknowns | z3_noodler_eval.py:140-145 | strips the result columns in place. A result column that does not hold strings raises `AttributeError`, and the columns before it stay stripped. Otherwise there is one unknown count per result column, equal to the number of rows whose stripped label is "unknown". The columns and their types are unchanged |
| Frames.Frame.SanitizeRuntimes | z3_noodler_eval.py:186-190 | replaces the rows with their sanitised form; the columns and their types are unchanged |
| Evaluation.DropUnknown | z3_noodler_eval.py:148 | the rows the main tool did not leave unknown; `DropUnknownExactly` states which |
| Evaluation.DropUnknownExactly | z3_noodler_eval.py:148 | the kept rows plus the unknown count make up all rows; no kept row is unknown for the main tool; every other row is kept; with no unknowns nothing is dropped |
| Evaluation.DropUnknownAppend | z3_noodler_eval.py:148 | dropping distributes over concatenation, so the kept rows stay in their order |
| Evaluation.DropUnknownMissing | z3_noodler_eval.py:148-159 | dropping rows never increases a column's timeout count |
| Evaluation.SumDefined | z3_noodler_eval.py:153 | the NaN-skipping sum; `SumDefinedAppend` states how it splits |
| Evaluation.SumDefinedAppend | z3_noodler_eval.py:153 | the NaN-skipping sum of a concatenation is the sum of the two sums |
| Evaluation.RuntimeSummaries | z3_noodler_eval.py:150-159 | one summary per runtime column, holding the NaN-skipping sum and the NaN count of the kept rows |
| Evaluation.MissingKey | z3_noodler_eval.py:166-168 | no key is missing exactly when every tool has both its runtime summary and its unknown count |
| Evaluation.InterestingTable | z3_noodler_eval.py:165-179 | `KeyError` names the first missing summary; otherwise one row per tool in order, with its name, sum, timeouts and unknowns |
| Evaluation.WinsAgainstTimeout | z3_noodler_eval.py:207-208 | the wins where `right` sits at `TIMEOUT_VAL` are the rows satisfying both tests, and there are no more of them than wins |
| Evaluation.Compare | z3_noodler_eval.py:207-213 | one Table 2 row; `CompareCounts`, `CompareTies` and `CompareByLengths` state its figures |
| Evaluation.CompareCounts | z3_noodler_eval.py:205-213 | the Table 2 row names `right`; wins and losses count the rows where the left or the right tool is faster; each timeout figure is at most the count it belongs to |
| Evaluation.CompareTies | z3_noodler_eval.py:207-213 | wins plus losses is at most the row count, with equality exactly when no row is a tie |
| Evaluation.TimedOutLosesToFinished | z3_noodler_eval.py:25-27 | with the script's constants, a timed-out run, sanitised to `TIMEOUT_VAL`, is slower than any run that finished within `TIMEOUT` |
| Evaluation.TiesAfterSanitising | z3_noodler_eval.py:187-210 | on sanitised rows a tie is exactly equal runtimes |
| Evaluation.CompareByLengths | z3_noodler_eval.py:207-213 | the four figures are the lengths of the four nested selections |
| Evaluation.CompareMethods | z3_noodler_eval.py:194-198 | one pair `(main-runtime, t-runtime)` per tool `t` other than the main tool, in `all_tools` order |
| Evaluation.WinTable | z3_noodler_eval.py:205-213 | one Table 2 row per pair, in order, each the comparison of that pair |
| Evaluation.OnlySolves | z3_noodler_eval.py:287-294 | the selection is exactly the rows where the engine finished and every non-exempt runtime column sits at `TIMEOUT_VAL`, in order |
| Evaluation.OnlySolvesStep | z3_noodler_eval.py:290-292 | narrowing by one more column is filtering by that column's test |
| Evaluation.NoneSolves | z3_noodler_eval.py:310-317 | the selection is exactly the rows where every runtime column sits at `TIMEOUT_VAL`, in order |
| Evaluation.NoneSolvesStep | z3_noodler_eval.py:313-315 | narrowing by one more runtime column is filtering by that column's test |
| Evaluation.OnlyAndNoneDisjoint | z3_noodler_eval.py:287-317 | no row solved only by an engine is unsolvable |
| Evaluation.LongerNamesExempt | z3_noodler_eval.py:291 | a column whose name starts with the engine name is never narrowed on, e.g. `z3-noodler-common-runtime` for `z3-noodler` |
| Evaluation.OnlySolvesIgnoresExempt | z3_noodler_eval.py:291 | an exempt column's value does not affect whether a row is selected |
| Evaluation.OnlySolvesNeedsOthersTimedOut | z3_noodler_eval.py:290-292 | a row where a non-exempt runtime column is not at `TIMEOUT_VAL` is not selected |
| Evaluation.EvaluationError | z3_noodler_eval.py:148-198 | the first error after stripping; `Derive` states that it is the one raised |
| Evaluation.EvaluateError | z3_noodler_eval.py:135-198 | the first error of `gen_evaluation`; `Evaluate` states that it is the one raised |
| Evaluation.Evaluate | z3_noodler_eval.py:135-319 | strips the caller's frame in place, up to a result column that does not hold strings. It fails with the error the script raises first, starting with that column's `AttributeError`. Otherwise every part of the report is what the model's definitions give |
| Evaluation.Derive | z3_noodler_eval.py:147-319 | from the stripped table and unknown counts: the same error or report as `Evaluate` |
| Evaluation.SameKeys | z3_noodler_eval.py:140-159 | the summary keys are the runtime columns and the unknown keys the result columns |
| Evaluation.Compared | z3_noodler_eval.py:186-319 | Table 2, the plot parameters and both selections, on the sanitised kept rows |
| Evaluation.OnlySolvesEach | z3_noodler_eval.py:302-303 | one `only_solves` selection per tool, in `all_tools` order |
| Plots.Chunks | z3_noodler_eval.py:106-116 | the grid of plots, row by row; `ChunksFlatten` and `ChunksShape` state its layout |
| Plots.ChunksFlatten | z3_noodler_eval.py:106-116 | reading the grid row by row gives back the plots in order |
| Plots.ChunksShape | z3_noodler_eval.py:106-116 | the grid has ceil(n/cols) rows, every row but the last is full, and the last is non-empty |
| Plots.ChunksSnoc | z3_noodler_eval.py:112-116 | finishing a row after full rows appends it as a new grid row |
| Plots.RowPosition | z3_noodler_eval.py:107-112 | within a row, `i % cols == 0` holds only at its first plot and `(i + 1) % cols == 0` only at a full row's last |
| Plots.MatrixPlot | z3_noodler_eval.py:99-118 | no plots or negative `cols` is `AssertionError`, `cols` = 0 is `ZeroDivisionError`, otherwise the grid of `cols` plots per row |
| Plots.BeforeLastDash | z3_noodler_eval.py:236 | `s[:s.rfind("-")]`; `BeforeLastDashCases` states what it keeps |
| Plots.BeforeLastDashCases | z3_noodler_eval.py:236 | `s[:s.rfind("-")]` ends just before the last '-'; with no '-' it drops the last character |
| Plots.NoodlerAxisName | z3_noodler_eval.py:236 | the x-axis name of every comparison is "z3-noodler" |
| Plots.DefaultFilename | z3_noodler_eval.py:257-262 | the default file name; `DefaultFilenameShape` and `DefaultFilenameInjective` state its form |
| Plots.DefaultFilenameShape | z3_noodler_eval.py:257-262 | the default name starts with `graphs/fig_`, names a truthy benchmark next, and ends with `x_vs_y.pdf` |
| Plots.DefaultFilenameInjective | z3_noodler_eval.py:257-262 | for one benchmark and x tool, different y tools get different default names |
| Plots.FillDefaults | z3_noodler_eval.py:248-262 | a default is added only for a missing key: `None`, `None`, `TIMEOUT_VAL`, 5 and the default file name; present keys keep their values |
| Plots.FinishedParams | z3_noodler_eval.py:235-262 | a comparison's parameters: x, y, xname (`NOODLER` up to its last '-'), yname, max `TIMEOUT_VAL`, tick count 3 and the default file name |
| Plots.ComparisonParams | z3_noodler_eval.py:235-237 | one entry of `to_cmp2`; `FinishedParams` and `ComparisonList` state its fields |
| Plots.ComparisonList | z3_noodler_eval.py:231-237 | one parameter dictionary per tool other than the main tool, in order |
| Plots.FillAll | z3_noodler_eval.py:248-262 | filling every dictionary of the list gives each its finished parameters |
| Plots.PlotParamsList | z3_noodler_eval.py:231-262 | the finished parameters of every comparison plot, in order |
| Suites.Put | z3_noodler_eval.py:336-346 | assigning a dictionary key replaces an existing entry in place or appends a new one last; keys stay distinct |
| Suites.Lookup | z3_noodler_eval.py:349 | `dfs["kaluza"]` finds the entry under that key, or there is none |
| Suites.PutTwice | z3_noodler_eval.py:336-345 | assigning the same key and value twice is assigning it once |
| Suites.Tag | z3_noodler_eval.py:332 | the `benchmark` column set to the suite name; `PrepareShape` and `PrepareAllTagged` state its effect |
| Suites.CopyCommon | z3_noodler_eval.py:333-345 | a missing source column is `KeyError`, the runtime column first |
| Suites.CopyCommonCopies | z3_noodler_eval.py:333-345 | the common columns are added after the others and hold the source tool's cells row by row, with its column types; no other column, cell or type changes |
| Suites.CopyCommonIdempotent | z3_noodler_eval.py:333-345 | copying again from the same tool changes nothing, so leetcode's second copy matches its first |
| Suites.Prepare | z3_noodler_eval.py:331-345 | a suite's table as filed; `PrepareShape` states what it holds |
| Suites.PrepareShape | z3_noodler_eval.py:332-345 | a filed table keeps the columns read first and adds only `benchmark` (holding strings) and the two common columns. It keeps the rows read, in order, each tagged with its suite. Its common columns hold the cells and type of the underapprox tool's columns for kaluza and of the noodler's otherwise, and every other cell is unchanged |
| Suites.PrepareAll | z3_noodler_eval.py:329-345 | every file prepared in order; `PrepareAllShape` and `PrepareErrorPersists` state it |
| Suites.FileOne | z3_noodler_eval.py:333-346 | one suite filed; `FileAllFiled` states what filing keeps |
| Suites.FileAll | z3_noodler_eval.py:329-346 | every prepared suite filed in order; `FileAllFiled`, `FileAllKeys` and `FileAllDistinct` state it |
| Suites.Route | z3_noodler_eval.py:329-346 | the dictionaries after the loop; `RouteFiled`, `RouteKeys` and `RouteDistinctNames` state them |
| Suites.PrepareAllShape | z3_noodler_eval.py:329-345 | every file is prepared in order under its suite name |
| Suites.PrepareErrorPersists | z3_noodler_eval.py:329-345 | once a file fails, the whole loop fails with that error |
| Suites.PrepareAllTagged | z3_noodler_eval.py:332 | every row of every prepared table carries its suite's name |
| Suites.FileAllFiled | z3_noodler_eval.py:333-346 | filing keeps `dfs_normal` and `dfs_underapprox` exactly the normal and underapprox suites of `dfs`, in order and with the same tables |
| Suites.FileAllKeys | z3_noodler_eval.py:346 | `dfs` has one key per suite name, in order of first appearance |
| Suites.FileAllDistinct | z3_noodler_eval.py:346 | with distinct suite names, `dfs` is the prepared suites in file order |
| Suites.RouteFiled | z3_noodler_eval.py:326-346 | after the loop, `dfs_normal` holds every suite but kaluza and `dfs_underapprox` holds leetcode and kaluza, agreeing with `dfs` |
| Suites.RouteDistinctNames | z3_noodler_eval.py:329-346 | with distinct suite names, `dfs` holds every file's prepared table in file order |
| Suites.RouteKeys | z3_noodler_eval.py:329-346 | the keys of `dfs` are the suite names without repeats, in order of first appearance |
| Suites.AddAll | z3_noodler_eval.py:347 | the concatenation's columns are the union of the tables' columns, the first table's in its order first |
| Suites.UnionColumns | z3_noodler_eval.py:347 | the columns of `pd.concat`; `ConcatColumns` states them |
| Suites.ConcatRows | z3_noodler_eval.py:347 | the rows of `pd.concat`; `ConcatRowCount` and `ConcatSnoc` state them |
| Suites.Concat | z3_noodler_eval.py:347 | `pd.concat` of a dictionary's frames; `ConcatColumns`, `ConcatRowCount` and `ConcatText` state it |
| Suites.ConcatTypes | z3_noodler_eval.py:347 | the column types of `pd.concat`, decided by the tables that have rows; `ConcatText` states them |
| Suites.UnionTextMembers | z3_noodler_eval.py:347 | a column holds strings in the union exactly when it does in one of the tables |
| Suites.ConcatText | z3_noodler_eval.py:347 | a column of the concatenation holds strings exactly when it does in one of the tables that have rows, or, when no table has rows, in one of the tables |
| Suites.ConcatColumns | z3_noodler_eval.py:347 | every column of every table is a column of the concatenation, and nothing else is |
| Suites.ConcatRowCount | z3_noodler_eval.py:347 | the concatenation has as many rows as all tables together |
| Suites.ConcatSnoc | z3_noodler_eval.py:349-350 | concatenating one more table appends its rows last |
| Suites.ConcatBySuite | z3_noodler_eval.py:332-347 | the concatenation's rows tagged with a suite are exactly that suite's rows, in order |
| Suites.MissingColumns | z3_noodler_eval.py:128 | the requested columns that are not there, each named, and none exactly when all are there |
| Suites.SanityCheck | z3_noodler_eval.py:126-131 | a missing `name`, z3, cvc5 or noodler result column is a `KeyError` naming exactly the missing ones; otherwise each selected row has answers from z3, cvc5 and the noodler, and z3 or cvc5 disagrees with the noodler |
| Suites.SanityCheckComplete | z3_noodler_eval.py:126-131 | every disagreeing row is selected, and nothing is selected when all agree |
| Suites.CreateError | z3_noodler_eval.py:329-349 | the first error of `create_dfs`; `CreateDfs` states that it is the one raised |
| Suites.CreateDfs | z3_noodler_eval.py:325-353 | fails with the first error the script raises; otherwise returns `dfs`, `df_all` (the normal suites then kaluza), `df_normal` and `df_underapprox` as concatenations of the filed suites |
| Suites.FileSuite | z3_noodler_eval.py:330-346 | one loop turn fails exactly when preparing the table fails, and otherwise files it into the dictionaries |
| Suites.Concatenate | z3_noodler_eval.py:347-353 | no normal suite is `ValueError`; then the sanity check's `KeyError`, naming every missing column; then a missing kaluza suite is `KeyError`; otherwise the three concatenations |
| Suites.KaluzaNotNormal | z3_noodler_eval.py:338-349 | kaluza is never a normal suite, so line 349 adds it last |
| Suites.PutNewValues | z3_noodler_eval.py:349 | adding a new key appends its table to the values |
| Suites.AllIsNormalThenKaluza | z3_noodler_eval.py:347-350 | `df_all`'s rows are `df_normal`'s then kaluza's, and its rows tagged with a normal suite are exactly that suite's rows |
| Suites.FiledNormalThenKaluza | z3_noodler_eval.py:347-350 | the same, for any well-filed dictionaries holding kaluza |
| Suites.NormalTagged | z3_noodler_eval.py:327-345 | every table of `dfs_normal` is tagged with its suite name |

## Left out

- Plotting. `scatter_plot` and saving the plots (lines 264-284) are not modelled. The plot parameters they would receive are modelled, and `matrix_plot` is modelled as the grid of plots it lays out, with `|` and `&` as placing a plot in a row and a row under the grid.
- Printing and tables as text. `tabulate`, the `print` calls and `table_to_file` have no effect on the data and are not modelled.
- The max, min, mean, median and standard deviation of Table 1 are floating-point statistics and are not modelled. Only the NaN-skipping sum and the timeout count are.
- CSV parsing. `read_file` is modelled only as the strings it reads as NaN (`ReadResultCell`, `ReadRuntimeCell`): `ERR`, `TO`, `MISSING` and pandas' default list. The number parsed from a runtime cell is a parameter.
- File paths. A file is given as its suite name (the parent directory's name, line 330) and its table. The list of files and the driver code below line 355 are not modelled.
- `z3_noodler_config.py` and `get_running_longer.py` are not part of this model.
- Floating point. Runtimes are `real` and sums are exact. The proofs rely only on `TIME_MIN < TIMEOUT < TIMEOUT_VAL`, which holds of the script's binary values as well.
- Pandas indices. The row index, the index `drop` works on and the suite level of the index that `pd.concat` of a dictionary adds are not modelled. Rows are kept as a sequence in order and carry their suite name in `benchmark`.
- Aliasing in `create_dfs`. The same data frame object is stored in several dictionaries. The model works on values, and `CopyCommonIdempotent` shows that the leetcode table, copied twice, is the same in both dictionaries.
- Regular expressions. `re.search(engine, col)` is modelled as a literal substring test, which is the same for engine names without regular-expression metacharacters. The column tests `-result$` and `-runtime$` are modelled as suffix tests.
- `Frames.ReadText`: a result column whose every label reads as a number would be read as numbers, so `.str` would raise `AttributeError` on it too. `ReadText` counts every label as text. The script's labels are words such as `sat`, `unsat` and `unknown`.
- `Suites.ConcatText`: pandas also leaves out of a column's type a part whose values in that column are all NaN. Only tables without rows are left out here. A string result column of a table read from a file that has rows holds a label (`ReadText`), and the copied common columns and `benchmark` inherit that, so the two rules agree on the tables `create_dfs` concatenates.
- `Suites.SanityCheck`: returns the selected rows whole rather than their four-column projection. It drops a row only for a missing answer from one of the three tools, because a row's name is never NaN. The `KeyError` holds the missing column names as a list rather than pandas' message text.
- `Suites.CreateDfs`: `pd.concat` of an empty `dfs_underapprox` would raise `ValueError`. This cannot happen once kaluza is present, which the `KeyError` of line 349 already demands, so the model needs no separate error for it.
- `Plots.FillDefaults`: the dictionary keys are an enumeration rather than strings.
- `Plots.MatrixPlot`: its `assert` statements are modelled as errors, not as checks Python may skip. Every plot object is taken to be truthy, so `if not matrix_plot` holds only before the first row is finished.
- `Evaluation.Evaluate`: the report holds the values the script computes and prints; the printed text itself is not modelled.
