# Sales-return pipeline: cleaning and feature building

This project models two stages of a pipeline that predicts product return rates.

- **Cleaning** (`load_clean_data` in data_preprocessing.py) does three things:
  - it coerces the raw columns of two yearly extracts to dates, integers and floats;
  - it derives each row's `ReturnRate` with a three-way rule;
  - it keeps the rows whose transaction date lies in each year's fixed window.
- **Feature building** (`create_features` in feature_engineering.py) works in this order:
  - it re-parses `TranDate` and adds the weekday name;
  - it sorts the table by account, inventory code and date;
  - it adds the previous `ReturnRate` within the (account, inventory code) group. That column is backfilled over the whole column, so each missing cell takes the next present value below it, and then defaulted to 0;
  - it adds the trailing group mean over up to three rows;
  - finally, it fills the remaining missing cells with 0.

The Dafny modules are:

- `Wrappers`: the `Option` type.
- `Preprocessing`: the raw and cleaned row types and the coercions. It also holds the return-rate rule, the date windows and the row filter.
- `Ordering`: Python's string order, the sort key, and the grouping. It also proves that groups are contiguous in a sorted table.
- `Features`: the feature columns as functions of the sorted table, with the properties proved about them.
- `Sorting`: a generic in-place insertion sort on an array.
- `Sequences`: mapping over sequences. It proves that mapping preserves permutations.
- `FeatureBuilder`: `create_features` as the in-place pass it is. The table is an array of rows, and each step rewrites one column or sorts the rows. `CreateFeatures` is proved to leave the array equal to `Features.FeatureTable` of the sorted table.

Timestamps are whole seconds since 1970-01-01 00:00 UTC. The text grammars of `pd.to_datetime` and `pd.to_numeric` are parameters: each is a parser that yields a value or fails.

Two consequences of the code worth stating plainly:

- `ReturnRate` is negative exactly when the delivered quantity is positive and the returned quantity is negative (`Preprocessing.ReturnRate`).
- For a three-row group with rates 10, 20, 30, the filled lag is 10, 10, 20: the backfill gives the group's first row its own rate (`Features.ThreeRowGroupExample`).

## Model

| member | source | states |
|---|---|---|
| Preprocessing.CoerceDate | data_preprocessing.py:16-18 | A date cell is present exactly when the cell is non-empty and parses, and then it is the parsed instant. |
| Preprocessing.CoerceReal | data_preprocessing.py:28-30 | An empty or unparseable float cell becomes 0.0. Otherwise it is the parsed number. |
| Preprocessing.TruncToInt | data_preprocessing.py:25-26 | `astype("int64")` truncates toward zero. The result is within 1 of the input, on the zero side. |
| Preprocessing.CoerceInt | data_preprocessing.py:24-26 | An empty or unparseable int cell becomes 0. A parsed whole number is kept as it is. |
| Preprocessing.ReturnRate | data_preprocessing.py:33-39 | There are three cases: 1. With delivered > 0, rate × delivered = returned × 100. 2. With delivered = 0 and returned > 0, the rate is the returned count. 3. Otherwise it is 0. The rate is negative exactly when delivered > 0 and returned < 0. |
| Preprocessing.CleanRow | data_preprocessing.py:16-42 | A cleaned row keeps its account name. Its `ReturnRate` is the rule applied to its own coerced delivered and returned quantities. |
| Preprocessing.CleanRowDefaults | data_preprocessing.py:24-39 | Every numeric column whose raw cell is empty or unreadable is 0. A row with neither quantity readable has rate 0. |
| Preprocessing.CleanTable | data_preprocessing.py:41-42 | The rule is applied row by row: the same length, and row i is the cleaned raw row i. |
| Preprocessing.InWindow | data_preprocessing.py:48-49 | The row mask: a row is in a window only with a transaction date, and then exactly when that date lies between the two bounds inclusive. |
| Preprocessing.FilterWindow | data_preprocessing.py:48-49 | The filter never adds rows. Every row it keeps has a transaction date inside the window. |
| Preprocessing.KeptIndices | data_preprocessing.py:48-49 | The positions the boolean mask keeps: there are no more of them than rows, and each is a valid position whose row is inside the window. |
| Preprocessing.FilterWindowIsSubsequence | data_preprocessing.py:48-49 | The filtered table is the input at strictly increasing kept positions, so order and contents are preserved. |
| Preprocessing.FilterWindowKeepsExactly | data_preprocessing.py:48-49 | A position is kept if and only if its row's date is inside the window. A missing date (NaT) is never kept. |
| Preprocessing.LoadCleanData | data_preprocessing.py:7-56 | Both returned tables are no longer than their extracts. Every row lies in its own year's window. |
| Preprocessing.LoadCleanDataSelects | data_preprocessing.py:41-49 | Each returned table is its cleaned extract with exactly the in-window rows kept, in order. |
| Preprocessing.ReturnRateExamples | data_preprocessing.py:33-39 | Three cases: 2 returned of 10 delivered gives 20. 5 returned of 0 delivered gives 5. 0 of 0 gives 0. |
| Preprocessing.Window2024Examples | data_preprocessing.py:48 | Examples: 2023-12-31 is out and 2024-06-15 is in. Midnight of 2024-12-31 is in, but noon that day is out. NaT is out. |
| Ordering.StrLe | feature_engineering.py:13 | The order of `AcctName` strings: a holds before b exactly when a is a prefix of b or the first differing character of a is smaller. |
| Ordering.DateLe | feature_engineering.py:13 | The order of `TranDate` values: instants by value, with NaT after every instant. |
| Ordering.KeyLe | feature_engineering.py:13 | The sort key: rows with different account names are ordered by name. With equal names and different inventory codes, they are ordered by inventory code. Within one group, rows are ordered by date alone. |
| Ordering.SameGroup | feature_engineering.py:16 | The `groupby(["AcctName", "InventoryCD"])` key: two rows are in one group exactly when their (account name, inventory code) pairs are equal. |
| Ordering.Sorted | feature_engineering.py:13 | The order `sort_values` establishes: every row precedes every later row by the key. A table of at most one row is sorted, and in a sorted table each row follows its predecessor by the key. |
| Ordering.StrLeTotal | feature_engineering.py:13 | Any two account names are ordered one way or the other. |
| Ordering.StrLeAntisymmetric | feature_engineering.py:13 | Two names ordered both ways are equal. |
| Ordering.StrLeTransitive | feature_engineering.py:13 | The name order is transitive. |
| Ordering.KeyLeTotal | feature_engineering.py:13 | Any two rows are comparable by (AcctName, InventoryCD, TranDate) with NaT last. |
| Ordering.KeyLeTransitive | feature_engineering.py:13 | The key order is transitive. |
| Ordering.GroupBetween | feature_engineering.py:13-16 | A row whose key lies between two keys of one group belongs to that group. |
| Ordering.GroupContiguous | feature_engineering.py:13-16 | In a key-sorted table, each (AcctName, InventoryCD) group is one contiguous run of rows. |
| Features.DayOf | feature_engineering.py:10 | The day name of an instant is fixed by its UTC day number modulo 7, counted from Thursday 1970-01-01. |
| Features.WeekdayOf | feature_engineering.py:10 | The weekday is present exactly when the transaction date is. |
| Features.DayOfPeriodic | feature_engineering.py:10 | The day name repeats every 7 days and is constant within a UTC day. |
| Features.DayOfExamples | feature_engineering.py:10 | 1970-01-01 is a Thursday, 2024-06-15 a Saturday and 2024-12-31 a Tuesday. |
| Features.PrevMember | feature_engineering.py:16 | Returns the nearest earlier row of the same group, or none. No row strictly between it and the row is in the group. |
| Features.GroupShift | feature_engineering.py:16 | The grouped `shift(1)`: missing exactly when no earlier row is in the group, otherwise the rate of the nearest earlier group row. |
| Features.LagAt | feature_engineering.py:16 | The lag read off the row above. When present, it is the grouped shift. |
| Features.LagIsGroupShift | feature_engineering.py:13-16 | On a sorted table, the row-above lag equals the grouped `shift(1)`. It is missing exactly when no earlier row is in the group. |
| Features.Lags | feature_engineering.py:16 | The `Prev_ReturnRate` column right after the shift: one cell per row, missing on the first row and on every row that starts a new group. |
| Features.NextPresent | feature_engineering.py:19 | Finds the first present cell at or after a position. All cells before it are missing, and it is none only if all remaining cells are missing. |
| Features.BackFillAt | feature_engineering.py:19 | `bfill` of one cell: a present cell keeps its value, and past the end nothing is found. |
| Features.PrevFilled | feature_engineering.py:19 | `bfill` then `fillna(0)` of `Prev_ReturnRate`: a present lag is kept, and the last row with no lag gets 0. |
| Features.PrevFilledIsNextLag | feature_engineering.py:19 | After the fill, a present lag is kept. A missing lag takes the first present lag below it, of any group, or 0 if there is none. |
| Features.FirstOfGroupTakesOwnRate | feature_engineering.py:16-19 | The first row of a group with two or more rows gets its own `ReturnRate` as its filled lag. |
| Features.SingletonBorrowsFromNextGroup | feature_engineering.py:19 | A one-row group takes the filled lag of the next row, which belongs to another group. |
| Features.MeanBounds | feature_engineering.py:22-27 | A mean lies between any lower and upper bound on its values. |
| Features.WindowStart | feature_engineering.py:22-27 | The rolling window ends at the row, spans at most 3 rows, and holds only rows of the row's group. |
| Features.WindowIsGroupTail | feature_engineering.py:22-27 | On a sorted table, an earlier group row is left out of the window only when the window already holds 3 rows. |
| Features.RollingAt | feature_engineering.py:22-27 | The grouped `rolling(3, min_periods=1).mean()` of row i. A group's first row gets its own rate. |
| Features.RollingBounds | feature_engineering.py:22-27 | The rolling mean lies within any bounds on the window's `ReturnRate`s. |
| Features.RollingGroupStart | feature_engineering.py:22-27 | A group's first row gets its own rate (`min_periods=1`). Otherwise the value is the mean of the 2 or 3 window rates. |
| Features.FillTxn | feature_engineering.py:30 | All three dates become present. A missing date becomes instant 0. Every other field is unchanged. |
| Features.FeatureTable | feature_engineering.py:3-33 | The output table of a sorted table: one row per input row, in order. Each row holds the date-filled transaction and present lag and rolling cells, and a weekday exactly when the date is present. |
| Features.FeaturesComplete | feature_engineering.py:7-30 | When all transaction dates are present, no derived cell is missing. The rows keep their keys and quantities, and sortedness is kept. |
| Features.DerivedDependOnKeyAndRate | feature_engineering.py:16-27 | The filled lag and the rolling mean depend only on each row's group key and `ReturnRate`. |
| Features.FeatureTableIdempotent | feature_engineering.py:3-33 | Building the features of a built table reproduces that table. |
| Features.ThreeRowGroupExample | feature_engineering.py:16-27 | For rates 10, 20, 30 in one group, the filled lag is 10, 10, 20 and the rolling mean is 10, 15, 20. |
| Features.BorrowExample | feature_engineering.py:19 | A one-row account before an account with rates 10, 20 gets a filled lag of 10. |
| Sorting.InsertDown | feature_engineering.py:13 | One insertion step: the prefix stays sorted, the array is a permutation of itself, and the tail is unchanged. |
| Sorting.InsertionSort | feature_engineering.py:13 | The array ends up sorted under the preorder and is a permutation of the input. An already sorted array is unchanged. |
| FeatureBuilder.SortByKey | feature_engineering.py:13 | After `sort_values`, rows are in key order and are a permutation of the input. A key-sorted table is unchanged. |
| FeatureBuilder.AddWeekdays | feature_engineering.py:10 | Every row gets the weekday of its transaction date. Nothing else changes. |
| FeatureBuilder.SortRows | feature_engineering.py:13 | Returns the sorted `Txn` column, a permutation of the one before. Each row keeps the weekday of its own date. |
| FeatureBuilder.ShiftColumn | feature_engineering.py:16 | Computes the shifted column from the rows above, without changing the table. On a sorted table, every cell equals the grouped `shift(1)`. |
| FeatureBuilder.AssignPrev | feature_engineering.py:16 | Assigning the column sets each row's `Prev_ReturnRate` to its cell. Nothing else changes. |
| FeatureBuilder.AddLags | feature_engineering.py:16 | Every row gets the grouped lag `LagAt`. Nothing else changes. |
| FeatureBuilder.BackFillLags | feature_engineering.py:19 | A bottom-up pass sets each lag to its whole-column backfill, defaulting to 0. Nothing else changes. |
| FeatureBuilder.WindowMean | feature_engineering.py:22-27 | The mean of the row and of up to two rows above it in its group, equal to `RollingAt`. |
| FeatureBuilder.RollingColumn | feature_engineering.py:22-26 | Computes the rolling-mean column without changing the table. Cell k is `RollingAt` of row k. |
| FeatureBuilder.AssignRolling | feature_engineering.py:22-27 | Assigning the column sets each row's `Rolling_ReturnRate` to its cell. Nothing else changes. |
| FeatureBuilder.AddRolling | feature_engineering.py:22-27 | Every row gets its group rolling mean. Nothing else changes. |
| FeatureBuilder.FillMissing | feature_engineering.py:30 | Every row's missing dates become instant 0. Nothing else changes. |
| FeatureBuilder.CreateFeatures | feature_engineering.py:3-33 | The result is a sorted permutation of the input rows (unchanged if already sorted) with all features as `FeatureTable` defines them. |
| FeatureBuilder.CreateFeaturesOnBuilt | feature_engineering.py:3-33 | Running the pass on a table it has already built, from a sorted table whose dates are all present, leaves the array exactly as it was. |

## Left out

- File reading and writing (`read_csv`, `to_csv`) and the diagnostic prints are left out. The model takes and returns tables.
- The text grammars of `pd.to_datetime` and `pd.to_numeric` are parameters of the model, so the model holds for any parser.
- Preprocessing.CoerceDate: one per-cell parser, `Parsers.date`, serves all three date columns of both extracts. It stands for the format pandas infers for each column from that column's first non-empty cell. A cell in another format becomes NaT under that format. The model does not capture a different inferred format per column, or how the format is inferred.
- Floating-point arithmetic is modelled with exact reals. The model's parsers cannot yield inf or NaN. `pd.to_numeric` can, for a cell such as "inf" or "1e999". `astype("int64")` then raises at data_preprocessing.py:25-26, and the rate at line 35 can be inf or NaN. Neither is modelled.
- CoerceInt: does not model a parsed value outside the int64 range. `astype("int64")` on such a value wraps or fails, while the model's integers are unbounded.
- Time zones are left out. Every parsed instant is taken to be UTC.
- Sub-second parts of instants are not represented: an instant is whole seconds, while pandas keeps nanoseconds. An instant a fraction of a second after 2024-12-31 00:00 is outside the 2024 window in pandas, but it cannot be written in the model. Two dates that differ only below one second tie in the model's sort.
- The re-parse of `TranDate` at feature_engineering.py:7 is taken to change nothing, because the cleaned column already holds instants.
- Columns not listed in `RawRow`/`Txn` are left out. The cleaning stage passes them through unchanged. The final `fillna(0)` at feature_engineering.py:30 sets their missing cells to 0, which the model does not show.
- A missing `AcctName` is left out: `acctName` is always a string. Pandas' groupby would drop a missing key.
- FeatureBuilder.CreateFeatures: requires every `TranDate` to be present. A missing date would give a missing weekday, which the code later fills with 0. The model does not cover that mixed-type column.
- Dates: the final `fillna(0)` of a missing delivery or return date is modelled as instant 0, not pandas' mixed-type cell.
- The column-by-column loops of `load_clean_data` are modelled row by row. The numeric coercions act on one cell at a time. The date coercion also depends on the format inferred for the whole column, which the per-cell parser stands for (see the CoerceDate line above).
- FeatureBuilder.SortByKey: the order of rows with equal keys is the insertion sort's, not that of pandas' sort algorithm. Neither is claimed to be stable. The only claim about ties is that a key-sorted table is left as it is.
- The weekday is computed from the UTC day number, not from a calendar library.
- The pipeline's model training (train_model.py) is not part of this model.
