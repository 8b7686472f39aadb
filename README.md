# Order-flow imbalance and cross-impact pipeline: a Dafny model

This project models the table transforms at the core of an order-flow-imbalance
(OFI) research pipeline. Each transform is stated in Dafny and proved against
its specification.

- **Order-flow calculator** (`calculate_order_flows`, module `OrderFlow`).
  It checks the `2 + 4*levels` ladder columns. It then groups the snapshots by
  instrument and sorts each group by event time. For every level it writes the
  four `_prev` columns and the two flow columns `of_{l}_b` / `of_{l}_a`, drops
  the `_prev` columns, and concatenates the groups.
- **Aggregator** (`aggregate_order_book_data`, module `Aggregation`).
  It reads the time column as seconds and writes the converted column into
  the caller's table. It builds the rule dictionary level by level: last price, summed size, and
  last `action`/`side`/`price`. It then cuts each instrument's snapshots into
  fixed-width buckets and reduces every bucket by those rules. Empty buckets
  between an instrument's first and last one are included.
- **Returns calculator** (`calculate_log_returns`, module `Returns`).
  It writes `mid_price` into the caller's table. Each row's return is taken
  against the previous row of the same instrument, in the existing row order.
  The first row of every instrument and every non-finite return are dropped,
  and the result is projected onto `(symbol, ts_event, log_return)`.
- **Preprocessor** (`preprocess_data`, module `CrossImpact`).
  A table with no repeated `(ts_event, symbol)` key passes through unchanged.
  Any other table is collapsed to the per-key means of `ofi_pca`,
  `log_return` and `mid_price`.
- **Cross-impact estimator** (`contemporaneous_cross_impact`, module `CrossImpact`).
  It makes two pivots, which fail on a repeated key. For each target it selects
  the observed returns and the OFI at those times, filling gaps with 0. It then
  standardises with the 1e-10 deviation floor, fits, and stores the
  coefficient row into a preallocated target-by-predictor table.

A table is `Table(columns, rows)`: an ordered list of column names, and rows
that map a column name to a cell. A cell is `Num(real)`, `Text(string)` or
`Null`. `Null` stands for NaN, NaT and None. As in numpy, comparisons with
`Null` are false and arithmetic on it gives `Null`. Exceptions are `Err`
values of a `Result`:

- `MissingColumns`: the explicit column checks.
- `KeyNotFound`: pandas column lookups.
- `NoGroups`: `pd.concat` of an empty list.
- `BadTimestamp`: a time `pd.to_datetime(..., unit="s")` rejects. That is a
  text that does not parse as a number, or a number of seconds outside the
  datetime64[ns] range.
- `DuplicateEntries`: a pivot over a repeated key.
- `FitFailed` and `LengthMismatch`: the regression and the row store.

Three modules are shared by all components:

- `Tables` defines groupby, stable sort, `shift(1)`, column assignment and
  column drop once.
- `Values` defines the order pandas sorts keys in: numbers, then texts, then
  missing values.
- `ColumnNames` builds the zero-padded ladder names and proves that they never
  collide.

Notes on the code's behaviour:

- The first row of each instrument is kept in the order-flow output. Only the
  `_prev` columns are dropped. Its missing predecessor makes both `>` and `==`
  false, so the row gets `-bid_sz` and `+ask_sz` (`FirstRowFlows`,
  `FirstRowOfGroup`).
- The "price fell" branch uses the current size, not the previous one.
- A missing column raises `ValueError` (here `MissingColumns`). The code only
  checks that the four returns columns are present, not that they are the only
  ones.
- The returns calculator emits at most N−1 rows for an instrument with N rows.
  It emits exactly N−1 when every mid-price is positive.

## Model

| member | source | states |
|---|---|---|
| `ColumnNames.RequiredColumns` | scripts/ofi_calculation.py:24-26 | the required schema has exactly `2 + 4*levels` names |
| `ColumnNames.RequiredColumnsPrefix` | scripts/ofi_calculation.py:24 | the schema starts with `symbol`, `ts_event` |
| `ColumnNames.RequiredColumnsAt` | scripts/ofi_calculation.py:25-26 | level `l`'s four ladder columns sit at positions `2+4l .. 5+4l`, in bid-px, ask-px, bid-sz, ask-sz order |
| `ColumnNames.Pad2Injective` | scripts/ofi_calculation.py:26 | the `:02d` rendering of a level is injective |
| `ColumnNames.LadderNamesDistinct` | scripts/ofi_calculation.py:26 | ladder columns of different kinds never coincide, and those of one kind differ between levels |
| `ColumnNames.OfNamesDistinct` | scripts/ofi_calculation.py:53-68 | bid and ask flow names never collide, and flow names differ between levels |
| `OrderFlow.RequiredColumnList` | scripts/ofi_calculation.py:24-26 | the loop builds exactly the required schema |
| `OrderFlow.FlowCases` | scripts/ofi_calculation.py:53-68 | with a numeric predecessor: bid flow is `bid_sz` if the bid rose, `bid_sz - prev_bid_sz` if it held, `-bid_sz` otherwise; ask flow is `-ask_sz`, the size change, `+ask_sz` |
| `OrderFlow.FirstRowFlows` | scripts/ofi_calculation.py:47-68 | with no predecessor, bid flow is `-bid_sz` and ask flow is `+ask_sz` |
| `OrderFlow.SchemaChecked` | scripts/ofi_calculation.py:28-29 | the call fails with the schema error iff some required column is absent, before any flow is computed |
| `OrderFlow.NoGroupsExactly` | scripts/ofi_calculation.py:35-87 | with the schema present, the concatenation fails iff no row has a symbol |
| `OrderFlow.LevelStep` | scripts/ofi_calculation.py:47-68 | one level's six column assignments take every row of a sorted group from stage `l` to stage `l+1` |
| `OrderFlow.StagedDropped` | scripts/ofi_calculation.py:70-81 | dropping the `_prev` columns from a fully staged row leaves the input row plus its flow columns |
| `OrderFlow.StageNamesFiltered` | scripts/ofi_calculation.py:70-81 | of the names written, only the flow names survive the drop, in creation order |
| `OrderFlow.ProcessGroup` | scripts/ofi_calculation.py:37-84 | per sorted group, the level loop plus the drop yields the input columns without `_prev` plus the flow columns, and each row's flows against its predecessor |
| `OrderFlow.ProcessGroups` | scripts/ofi_calculation.py:35-84 | the symbol loop appends one processed, time-sorted group per instrument, in instrument order |
| `OrderFlow.CalculateOrderFlows` | scripts/ofi_calculation.py:9-89 | the method returns exactly the specified result or error |
| `OrderFlow.FlowRowCells` | scripts/ofi_calculation.py:53-68 | each output row's `of_{l}_b`/`of_{l}_a` hold level `l`'s branch value |
| `OrderFlow.FlowRowNames` | scripts/ofi_calculation.py:47-81 | an output row has exactly the input's columns, without `_prev`, plus every flow column |
| `OrderFlow.FlowRowRaw` | scripts/ofi_calculation.py:47-68 | a cell whose name is non-empty, does not start with `o` and does not end with `v` (among them the symbol, time and ladder columns) passes through unchanged; `FlowRowOriginal` covers every other non-derived column |
| `OrderFlow.FlowRowOriginal` | scripts/ofi_calculation.py:47-87 | with the derived columns set aside, each output row equals its input row |
| `OrderFlow.OutputIsInputRearranged` | scripts/ofi_calculation.py:35-87 | apart from derived columns, the output is a permutation of the input rows that have a symbol |
| `OrderFlow.OutputRowCount` | scripts/ofi_calculation.py:35-87 | one output row per input row with a symbol, so as many rows as the input when every row has one |
| `OrderFlow.FlowColumnsNames` | scripts/ofi_calculation.py:70-87 | output columns are the input columns without `_prev` plus exactly the `2*levels` flow columns |
| `OrderFlow.GroupBlockSorted` | scripts/ofi_calculation.py:37 | within an instrument's block, event times ascend |
| `OrderFlow.FlowGroupsPrefix` | scripts/ofi_calculation.py:84-87 | the blocks of the first instruments are a prefix of the concatenation |
| `OrderFlow.FlowGroupsBlock` | scripts/ofi_calculation.py:84-87 | the `g`-th instrument's block starts right after the blocks of the instruments before it |
| `OrderFlow.OutputBlock` | scripts/ofi_calculation.py:35-37 | the `g`-th instrument's output block is computed from that instrument's own time-sorted rows only |
| `OrderFlow.FirstRowOfGroup` | scripts/ofi_calculation.py:47-68 | the first row of each instrument is kept, with `-bid_sz` and `+ask_sz` |
| `OrderFlow.LaterRowOfGroup` | scripts/ofi_calculation.py:47-68 | every later row's flows compare it with the row just before it in the instrument's time order |
| `Tables.Shift` | scripts/ofi_calculation.py:47-50 | a shifted column has the previous row's value, and missing for the first row |
| `Tables.DropColumns` | scripts/ofi_calculation.py:81 | the drop removes exactly the named columns from the column list and from every row |
| `Tables.SortBySorted` | scripts/ofi_calculation.py:37 | sorting by event time gives ascending times |
| `Tables.SortByPermutes` | scripts/ofi_calculation.py:37 | sorting rearranges a group and loses or duplicates nothing |
| `Tables.GroupsPartition` | scripts/ofi_calculation.py:35 | the groups of a groupby hold together exactly the rows whose key is complete |
| `Tables.GroupKeys` | scripts/ofi_calculation.py:35 | group keys are distinct, and are exactly the complete keys present |
| `Aggregation.BuildAggregationRules` | scripts/ofi_calculation.py:118-129 | the loop builds the rule dictionary level by level, then the three auxiliary rules |
| `Aggregation.AggregationRulesAt` | scripts/ofi_calculation.py:119-124 | level `l` gets last bid/ask price and summed bid/ask size |
| `Aggregation.AggregationRulesAux` | scripts/ofi_calculation.py:127-129 | `action`, `side`, `price` take the last value |
| `Aggregation.AggregationNamesUnique` | scripts/ofi_calculation.py:118-129 | no column gets two rules |
| `Aggregation.BucketBounds` | scripts/ofi_calculation.py:132-135 | a time lies in `[start, start + interval)` of its bucket, with the epoch-aligned start `floor(ts/interval)*interval` |
| `Aggregation.BucketUnique` | scripts/ofi_calculation.py:134 | that bucket is the only one whose window holds the time |
| `Aggregation.ReadSecondsCases` | scripts/ofi_calculation.py:111-112 | a cell reads as seconds: a missing value, an empty or NaT text as a missing time; a number, or a text that parses as one, as itself when the datetime64[ns] range holds it; anything else fails |
| `Aggregation.ToSecondsFails` | scripts/ofi_calculation.py:111-112 | converting the time column fails iff some row's time cannot be read |
| `Aggregation.ToSecondsRows` | scripts/ofi_calculation.py:111-112 | a converted row is the input row with its time read as seconds and every other cell unchanged |
| `Aggregation.ToSecondsKeeps` | scripts/ofi_calculation.py:111-112 | a column already holding in-range times or missing values converts to itself, as the datetime check skips it |
| `Aggregation.ToSecondsIdempotent` | scripts/ofi_calculation.py:111-112 | converting a converted column changes nothing |
| `Aggregation.AggregateOrderBookData` | scripts/ofi_calculation.py:107-140 | the method returns the specified aggregation or error; the caller's time column is overwritten with its converted form, unless the column is absent or unreadable |
| `Aggregation.AggregatedFails` | scripts/ofi_calculation.py:111-136 | it fails iff a column it reads is absent or some time cannot be read as seconds; the error names only absent, read columns; on success it resamples the converted rows |
| `Aggregation.ResampledColumns` | scripts/ofi_calculation.py:132-137 | the output columns are `symbol`, `ts_event`, then the rule columns in rule order, all distinct |
| `Aggregation.ResampledRow` | scripts/ofi_calculation.py:119-137 | every output row aggregates one bucket of one instrument's span: summed sizes, last-in-time prices and auxiliary fields |
| `Aggregation.ResampledCovers` | scripts/ofi_calculation.py:132-137 | every input row with a symbol and a time is counted in its instrument's bucket, and that bucket has its output row |
| `Aggregation.ResampledHasBucket` | scripts/ofi_calculation.py:134 | every bucket from an instrument's first to its last has an output row |
| `Aggregation.EmptyBucket` | scripts/ofi_calculation.py:134-135 | an empty bucket has size sums 0 and no prices, action, side or trade price |
| `Aggregation.ResampledDistinct` | scripts/ofi_calculation.py:132-137 | no two output rows share (symbol, bucket start) |
| `Aggregation.SymbolRowsStamps` | scripts/ofi_calculation.py:134-137 | an instrument's rows start at its first bucket and step one interval at a time |
| `Aggregation.SpanIsRange` | scripts/ofi_calculation.py:134 | the resampled range runs from the earliest to the latest bucket holding a row |
| `Aggregation.LastInIsLast` | scripts/ofi_calculation.py:121 | `last` is the last non-missing value, missing iff there is none |
| `Aggregation.LastIsLatest` | scripts/ofi_calculation.py:121-129 | over time-ordered rows, `last` is the value of the latest-stamped row that has one |
| `Aggregation.TwoQuotes` | scripts/ofi_calculation.py:121-123 | two quotes with in-range times in one bucket, with bid sizes 50 and 30, give one row with bid size 80 and the second quote's bid price |
| `Tables.SumInPermutes` | scripts/ofi_calculation.py:123-124 | the summed size does not depend on row order |
| `Returns.CalculateLogReturns` | scripts/returns.py:9-42 | the method returns the specified result; the caller's table gains `mid_price` whenever the four input columns are present, and is left alone otherwise |
| `Returns.ReturnsSchema` | scripts/returns.py:23-36 | it fails with the schema error iff one of `symbol`, `ts_event`, `bid_px_00`, `ask_px_00` is absent; otherwise it fails on the `log_return` lookup iff no row names an instrument and the input has no `log_return` column; with such a column and no instrument the result is empty; no other error occurs |
| `Returns.NoInstruments` | scripts/returns.py:31-33 | the grouping has no group iff no row names an instrument |
| `Returns.MidPriceWritten` | scripts/returns.py:28 | every row of the caller's table gets `(bid_px_00 + ask_px_00)/2`, and no other cell changes |
| `Returns.GroupReturnsFrom` | scripts/returns.py:31-39 | every return comes from a row with a predecessor in its instrument's row order, and is the finite log of their mid-price ratio |
| `Returns.GroupReturnsHas` | scripts/returns.py:31-39 | every non-first row with a finite return appears in the output |
| `Returns.GroupReturnsCount` | scripts/returns.py:31-39 | at most N−1 returns per instrument, exactly N−1 when every mid-price is positive |
| `Returns.ReturnsRows` | scripts/returns.py:31-42 | every output row has exactly the columns `symbol`, `ts_event`, `log_return`, a finite return, and a predecessor within its instrument |
| `Returns.ReturnsOfSymbol` | scripts/returns.py:31-39 | an instrument's output rows are its own returns, with the N−1 bounds |
| `CrossImpact.MeanInMeans` | scripts/cross_impact.py:84-88 | a mean is missing iff no cell holds a number, and otherwise mean × count = sum |
| `CrossImpact.CollapsedRows` | scripts/cross_impact.py:84-88 | each collapsed row holds its key, the three means over that key's rows, and no other column |
| `CrossImpact.CollapsedCovers` | scripts/cross_impact.py:84-88 | every complete key of the input has a collapsed row |
| `CrossImpact.CollapsedUnique` | scripts/cross_impact.py:84-88 | no key repeats after collapsing |
| `CrossImpact.PreprocessOutcome` | scripts/cross_impact.py:76-91 | without repeated keys the input is returned unchanged; with them, the collapse is returned and has no repeats |
| `CrossImpact.PreprocessIdempotent` | scripts/cross_impact.py:76-91 | preprocessing its own output returns that output |
| `CrossImpact.PivotOf` | scripts/cross_impact.py:25-28 | a pivot has one line per time and one entry per instrument |
| `CrossImpact.PivotPlacesRow` | scripts/cross_impact.py:25-28 | without repeated keys, each row's value sits at its (time, instrument) place |
| `CrossImpact.PivotCellFrom` | scripts/cross_impact.py:25-28 | a non-missing pivot cell comes from a row with that key |
| `CrossImpact.AxesDistinct` | scripts/cross_impact.py:25-31 | the pivot index and the columns list each time and each instrument once |
| `CrossImpact.ObservedBelow` | scripts/cross_impact.py:35 | `y`'s times are exactly those where the target has a return, ascending |
| `CrossImpact.Design` | scripts/cross_impact.py:36 | `X` has one row per selected time and one column per predictor |
| `CrossImpact.Aligned` | scripts/cross_impact.py:35-36 | response `r` is the target's return at the `r`-th observed time; design row `r` holds every instrument's OFI at that time, 0 when missing |
| `CrossImpact.Divisor` | scripts/cross_impact.py:42-43 | the divisor is never zero; it is the deviation itself unless that is exactly 0, in which case it is 1e-10 |
| `CrossImpact.FloorStd` | scripts/cross_impact.py:42-43 | the in-place floor turns every zero deviation into 1e-10 and leaves the others |
| `CrossImpact.Standardized` | scripts/cross_impact.py:39-46 | the standardised matrix keeps the shape of `X` |
| `CrossImpact.ConstantColumn` | scripts/cross_impact.py:39-46 | a constant predictor has deviation 0, divisor 1e-10, and standardises to zeros |
| `CrossImpact.StandardizedMean` | scripts/cross_impact.py:39-46 | every standardised column has mean 0 |
| `CrossImpact.StandardizedSqDev` | scripts/cross_impact.py:39-46 | standardising divides a column's sum of squared deviations by the square of its floored deviation |
| `CrossImpact.StandardizedVariance` | scripts/cross_impact.py:39-46 | with an exact square root, a non-constant column standardises to sample variance 1 |
| `CrossImpact.TargetFit` | scripts/cross_impact.py:34-53 | a target's coefficients have one entry per predictor; fewer than two observed returns, a failing fit or a wrong-length vector is an error |
| `CrossImpact.Fits` | scripts/cross_impact.py:34-53 | the loop succeeds iff every target fits, and row `k` is target `k`'s coefficients |
| `CrossImpact.FitTarget` | scripts/cross_impact.py:35-50 | the method (select, fill, mean, deviation, floor, standardise, fit) returns exactly the specified coefficients |
| `CrossImpact.StoreRow` | scripts/cross_impact.py:53 | storing writes row `k` with the coefficients and leaves every other row alone |
| `CrossImpact.FillCoefs` | scripts/cross_impact.py:31-53 | the preallocated table is filled one target row at a time; its result is the loop's table or its first error |
| `CrossImpact.ContemporaneousCrossImpact` | scripts/cross_impact.py:10-56 | the method returns exactly the specified coefficient table or error |
| `CrossImpact.FitsStops` | scripts/cross_impact.py:34-53 | once a target fails, the whole estimation fails with that error |
| `CrossImpact.FitsFirstError` | scripts/cross_impact.py:34-60 | a failing loop reports the error of its first failing target |
| `CrossImpact.CrossImpactOutcome` | scripts/cross_impact.py:24-60 | success iff the columns exist, no key repeats and every target fits; missing columns and repeated keys are reported before any fit |
| `CrossImpact.CrossImpactFirstError` | scripts/cross_impact.py:34-60 | a failing estimation carries the first failing target's error, in instrument order |
| `CrossImpact.CoefTable` | scripts/cross_impact.py:31-53 | the table has one row per target and one column per predictor, each instrument once; row `k` is target `k`'s fitted vector |
| `CrossImpact.FitsTable` | scripts/cross_impact.py:31-53 | each stored row has the predictor count of entries, and they are the fitted coefficients |

## Left out

- The regression itself (`LassoCV` with 5-fold cross-validation, 2000 iterations, tolerance 1e-4). It is a foreign, iterative floating-point fit. It is the parameter `fit`, which returns coefficients or none when the fit raises. This includes the fewer-than-five-samples case that 5-fold cross-validation rejects.
- Transcendental functions. `np.log` is the parameter `ln`; a ratio that is zero, negative or undefined is treated as non-finite and dropped. The square root inside the standard deviation is the parameter `sqrt`. With fewer than two observations the deviation is NaN, and the model reports the fit as failed.
- Floating point. Numbers are exact reals, so every `Num` is finite, and NaN, NaT and None are all `Null`. Rounding, overflow to infinity and the exact IEEE value of 1e-10 are not modelled.
- A text cell in a numeric column reads as missing in comparisons and arithmetic; pandas would raise `TypeError` there.
- `sort_values` uses an unstable sort in pandas. The model sorts stably, so the order of rows with equal event times within an instrument is fixed here and unspecified in the source.
- Aggregation.Bucket, Aggregation.BucketBounds: buckets are aligned to the epoch, starting at `floor(ts/interval)*interval`. Pandas' `resample` aligns them to midnight of the instrument's first day (its default `origin="start_day"`). The two agree whenever the interval divides 86400 seconds, as the default "1S" does. For other intervals the bucket edges differ: with a 7-second interval and a first time of 86400, pandas starts the first bucket at 86400 and the model at 86394.
- Aggregation.AggregateOrderBookData: the interval is a positive whole number of seconds; parsing duration strings such as "1S" is left out. Datetime values are represented by their seconds since the epoch, so a datetime column and the numeric column it came from are the same table here.
- Aggregation.ReadSeconds: `parse` stands for Python's `float` on text, and returns nothing where it raises or yields infinity or NaN; a NaN-valued text other than the NaT spellings is therefore read as an error. The datetime64[ns] range is checked on exact reals, without rounding to whole nanoseconds, and the one number equal to the NaT marker (-2^63 nanoseconds) lies outside the modelled range.
- Returns.LogReturns: the row order is that of pandas 2.x, where `groupby(...).apply` with the default `group_keys=True` concatenates the groups in key order. Pandas 1.x restored the input row order for such an `apply`; that order is not modelled.
- OrderFlow.CalculateOrderFlows, Aggregation.AggregateOrderBookData: the default arguments (`levels=5`, and `levels=6` with `interval="1S"`) are not modelled; every argument is a required parameter.
- The dimensionality reducer (scripts/pca_integration.py): a wrapper around PCA fitting. It is not part of this model.
- Plotting (scripts/visualization.py, scripts/ofi_visualizations.py, and the plotting function of scripts/returns.py), data download (scripts/data_preparation.py), process-wide logging setup, and the log-and-re-raise wrappers. The wrappers only propagate the errors, which are `Err` values here.
- Pivot rows whose time or instrument is missing. Pandas' handling of missing index values in a pivot is not modelled. Such rows take no place in the pivot's index or columns, while a repeated key with missing parts still counts as a duplicate.
