# Obesity / income / GDP dashboard: the data pipeline

The dashboard (`code.py`) loads three state-level tables (obesity
prevalence, median household income, GDP), trims the `State` key, merges
the tables on it, coerces the measures to numbers, and feeds two charts: a
bubble chart of the rows that pass two range sliders and an optional state
selection, and a choropleth map of the rows whose state has a postal code.
This project models that pipeline in Dafny and proves what it does.

Tables are sequences of fixed-schema rows. A measure cell is a `Cell`:
a number (`Num`, an exact real), raw text (`Raw`), or an empty cell
(`Missing`). The CSV reader types whole columns, so once one cell of a
column does not read as a number, every cell of that column stays text,
numeric-looking ones included. How `pd.to_numeric` reads
text is a parameter `parse: string -> Option<real>`, and the widget values
(selected states, the two slider ranges) are parameters of `Dashboard.Run`.

Modules, one per component:

- `Text`: `str.strip()` with Python's whitespace set.
- `Frames`: the pandas operations used, over sequences: the boolean mask
  (`Where`), the inner merge (`InnerJoin`), columns (`Project`) and
  subsequences.
- `Tables`: the row types, key normalisation and the two merges.
- `Coercion`: `pd.to_numeric(..., errors="coerce")`.
- `Filters`: the range and selection filter and the slider defaults.
- `Regions`: `state_abbrev`, the `code` column and `dropna`.
- `Dashboard`: one run of the script as a method with local tables, plus a
  worked example with Alabama and Vermont.

Modelling choices:

- Join policy. Duplicate keys are not rejected. The inner merge is modelled
  with full cross-product semantics: each left row, in order, is paired with
  every right row that has the same key, in their order. `JoinedOrder`
  states the case of one row per state.
- The state dictionary. `state_abbrev` is written once, as the 54 `Entry`
  pairs in the source's order. `StateAbbrev` is the dictionary built from
  them. A repeated key would keep its last value, like a Python dict
  literal. Names are shown distinct because the table lists them in
  alphabetical order. Codes are shown distinct by a reverse index
  (`CodeIndex`) over the codes read as numbers.
- Errors. When the prevalence or income column has no number,
  `int(df[col].min())` raises, which stops the script before either chart
  is drawn (the title, the state selector and possibly the prevalence
  slider are already on the page). `SliderLimits` returns `None` then, and
  `Run` returns `None`.
- Range test. `Within` fails on `Missing`, which is the NaN comparison made
  explicit. It also fails on `Raw`, but only coerced tables reach it.

- Income default. The default income bound is `int(min)`/`int(max)`; the
  slider's 5000 step does not round it.
- Map table. The map starts from the unified `df`: line 167 adds `code` to
  it after `filtered_df` was taken, and line 168 keeps the rows that have a
  code.

Source behaviour worth knowing about (proved, not changed): the slider's
top limit is `int(max)`. A fractional maximum that is not negative therefore
lies above every value the slider can take. When the prevalence maximum is fractional and
not negative, the row holding it is left out of the bubble chart under
every setting (`Filters.FractionalMaxExcluded`).

## Model

| member | source | states |
|---|---|---|
| `Text.IsSpace` | code.py:17-19 | the characters `str.strip()` removes: those Python's `str.isspace()` accepts |
| `Text.LeadingEnd` | code.py:17-19 | the position found is the end of the run of whitespace starting at the given position: everything before it is whitespace and the character there is not |
| `Text.TrailingStart` | code.py:17-19 | the position found starts the run of whitespace that ends at the given position: everything from it on is whitespace and the character before it is not |
| `Text.Strip` | code.py:17-19 | `str.strip()`: the result is an infix of the input; only whitespace is removed on either side; no whitespace is left at either end |
| `Text.StripFixesStripped` | code.py:17-19 | a key without surrounding whitespace is unchanged by stripping |
| `Text.StripIdempotent` | code.py:17-19 | stripping twice equals stripping once |
| `Tables.NormalizeKeys` | code.py:17-19 | same row count; each key is its stripped original and carries no surrounding whitespace; the measure column is untouched |
| `Tables.NormalizeKeysFixes` | code.py:17-19 | a table whose keys are already trimmed is returned unchanged |
| `Tables.NormalizeKeysIdempotent` | code.py:17-19 | normalising the keys twice equals normalising once |
| `Frames.Matches` | code.py:22-23 | the merged rows for one left row are exactly its merges with the right rows of the same key |
| `Frames.InnerJoin` | code.py:22-23 | every output row is the merge of a left and a right row with equal keys, and every such pair yields an output row |
| `Frames.JoinKeys` | code.py:22-23 | the keys of an inner merge are exactly the keys common to both inputs |
| `Frames.MatchesUnique` | code.py:22-23 | against a right table with unique keys a left row merges with one row if its key is there and with none otherwise |
| `Frames.JoinUniqueKeys` | code.py:22-23 | with unique right keys the merge has one row per matched left row, in left order |
| `Frames.WhereSameKeys` | code.py:22-23 | two tables with equal key columns filtered by the same key-only test keep equal key columns |
| `Tables.MergeHousehold` | code.py:22 | obesity ⋈ household: a state is in the result iff it is in both tables; rows are exactly the merges of same-state pairs |
| `Tables.MergeGdp` | code.py:23 | (obesity ⋈ household) ⋈ gdp: a state is in the result iff it is in both inputs; rows are exactly the merges of same-state pairs |
| `Tables.JoinedStates` | code.py:22-23 | a state is in the unified table iff obesity, household and GDP all have it, so a state missing from any one is absent |
| `Tables.JoinedOrder` | code.py:22-23 | with one row per state in household and GDP, the unified table lists exactly the obesity states found in both others, in obesity order |
| `Tables.JoinedUnique` | code.py:22-23 | with one row per state in each of the three inputs, the unified table has one row per state |
| `Coercion.Coerce` | code.py:26-28 | the result is never text; numbers are kept, empty stays missing, text becomes the parsed number or missing when it does not parse |
| `Coercion.CoerceNumeric` | code.py:171-173 | a cell that is already a number or missing is unchanged whatever the parser |
| `Coercion.CoerceColumn` | code.py:26-28 | no row dropped or moved; each cell of the coerced column is the coercion of its original (the parsed number, or missing); so it holds no text and keeps its numbers; the key and the other columns are unchanged |
| `Coercion.CoerceAll` | code.py:26-28 | after the three coercions the table has the same rows and keys, every measure cell is the coercion of its original, and none is text |
| `Coercion.CoerceAllMissing` | code.py:26-28 | a coerced cell is missing iff the source cell was empty or text that does not parse |
| `Coercion.RecoerceIsIdentity` | code.py:171-173 | coercing a column of an already numeric table again returns the same table |
| `Frames.Where` | code.py:55-60 | a row is in the selection iff it is in the table and passes the mask; a passing row occurs as often as in the table and a failing one not at all |
| `Frames.WhereSameMask` | code.py:55-64 | masks that agree on every row select the same rows |
| `Frames.Project` | code.py:22-23 | a column of a table has one entry per row, each read from its row |
| `Frames.WhereIsSubsequence` | code.py:55-64 | a selection keeps the order of the kept rows |
| `Frames.WhereAll` | code.py:55-64 | a mask every row passes selects the whole table |
| `Frames.WhereIdempotent` | code.py:55-64 | selecting twice with the same mask equals selecting once |
| `Frames.WhereWhere` | code.py:55-64 | selecting by one mask and then another is selecting by their conjunction |
| `Frames.WhereUnique` | code.py:55-64 | selection never repeats a key: a table with one row per key keeps that after any mask |
| `Filters.Within` | code.py:56-59 | one column's two comparisons: `low <= value <= high`, failing on a missing value |
| `Filters.InRanges` | code.py:55-60 | the mask of the range filter: both columns within their ranges |
| `Filters.Keeps` | code.py:55-64 | the whole filter on one row: both ranges, and the selection when it is not empty |
| `Filters.RangeFilter` | code.py:55-60 | a row is kept iff it is in the table, low ≤ Prevalence ≤ high and low ≤ income ≤ high; a missing value fails |
| `Filters.SelectStates` | code.py:63-64 | an empty selection returns the table unchanged; otherwise exactly the rows whose state is selected are kept |
| `Filters.Filtered` | code.py:55-64 | a row is in `filtered_df` iff it is in `df`, inside both ranges, and selected whenever the selection is non-empty |
| `Filters.FilteredIsWhere` | code.py:55-64 | `filtered_df` is one selection of `df` by the combined mask, so each kept row occurs as often as in `df` |
| `Filters.FilteredIsSubsequence` | code.py:55-64 | `filtered_df` is `df` with rows deleted and the rest in order |
| `Filters.FilteredIdempotent` | code.py:55-64 | filtering `filtered_df` again with the same widget values returns it unchanged |
| `Filters.EmptySelection` | code.py:63-64 | with no state selected the result is the range-filtered table |
| `Filters.RangeEndsInclusive` | code.py:55-60 | both range ends pass, one unit beyond either end fails, and a missing value fails |
| `Filters.Trunc` | code.py:40-42 | Python `int()`: truncation toward zero, within one unit of the value on the side of zero |
| `Filters.Present` | code.py:40-42 | the numbers that `min`/`max` see are exactly the present values of the column |
| `Filters.Min` | code.py:40-42 | pandas `.min()` of the present values: one of them, and no larger than any |
| `Filters.Max` | code.py:40-42 | pandas `.max()` of the present values: one of them, and no smaller than any |
| `Filters.SliderLimits` | code.py:38-52 | none exactly when the column has no number (where `int` raises); else exactly `(int(min), int(max))` of the present values, with low ≤ high |
| `Filters.DefaultRange` | code.py:40-51 | on non-negative data the default low end keeps every present value, and a present value is inside the default range iff it is at most `int(max)` |
| `Filters.FractionalMaxExcluded` | code.py:40-60 | a fractional non-negative maximum fails the range test for every high end the slider allows, its default included |
| `Regions.Entry` | code.py:110-165 | the 54 pairs of the `state_abbrev` literal, in the order written |
| `Regions.StateAbbrev` | code.py:110-165 | the dictionary the literal builds from those pairs |
| `Regions.NamesAscending` | code.py:110-165 | the table lists its names in alphabetical order |
| `Regions.ChainOrdered` | code.py:110-165 | a list whose neighbours are in strict order is in strict order throughout |
| `Regions.CodeIndexOfEntry` | code.py:110-165 | every listed code is two capital letters and is found at its own position |
| `Regions.NamesDistinct` | code.py:110-165 | no name is listed twice |
| `Regions.CodesDistinct` | code.py:110-165 | no code is listed twice |
| `Regions.TableMapProperties` | code.py:110-165 | a dictionary literal with distinct keys has one entry per pair, each key gives its own value, and every key comes from a pair |
| `Regions.StateAbbrevWellFormed` | code.py:110-165 | `state_abbrev` has 54 keys, every value is two capital letters, and no two keys share a code |
| `Regions.Lookup` | code.py:167 | a name has a code iff it is a key of `state_abbrev`, and the code is the one listed for it |
| `Regions.AddCodes` | code.py:167 | the code column is added with no row lost or changed, each row getting its state's code or missing |
| `Regions.DropMissingCodes` | code.py:168 | every kept row carries its present code, and the kept rows are the rows with a code, in order |
| `Regions.Resolve` | code.py:167-168 | every kept row's code is `state_abbrev[State]`, and the kept rows are exactly the rows of listed states, in order |
| `Regions.ResolvedCodes` | code.py:110-168 | every code in the choropleth table is two capital letters |
| `Regions.ResolvedMembership` | code.py:167-168 | a row is in the choropleth table iff it is in `df` and its state is a key of `state_abbrev` |
| `Regions.ResolvedOrder` | code.py:167-168 | the choropleth rows keep the order of `df` |
| `Regions.CoerceCodedColumn` | code.py:171-173 | the second coercion acts on the rows as the first does and keeps every row's code |
| `Regions.RecoerceCodedIsIdentity` | code.py:171-173 | on rows that went through the first coercion the second changes nothing |
| `Dashboard.Unified` | code.py:17-28 | `df` after the trims, merges and coercions; every measure cell is a number or missing |
| `Dashboard.UnifiedStates` | code.py:17-28 | every state of the unified table is trimmed and present in all three trimmed sources |
| `Dashboard.BubbleRows` | code.py:55-64 | `filtered_df` is `df` selected by the combined mask: the passing rows, each as often as in `df`, in order |
| `Dashboard.Choropleth` | code.py:167-173 | the map table: codes added, rows without one dropped, then the second coercion |
| `Dashboard.ChoroplethRows` | code.py:167-173 | on the numeric `df` the map table is the rows of listed states, in order and with their multiplicity, each with its two-letter code |
| `Dashboard.Run` | code.py:17-173 | the run stops iff a slider column has no number; otherwise the sliders get `SliderLimits`, i.e. `(int(min), int(max))`; the bubble table is `df` selected by the combined mask (the passing rows, each as often as in `df`, in order); and the map table is the rows of listed states, in order, each with its two-letter code |
| `Dashboard.ExampleKeys` | code.py:17-19 | the example tables are unchanged by trimming |
| `Dashboard.ExampleMergeHousehold` | code.py:22 | the example obesity ⋈ household has Alabama then Vermont with both measures |
| `Dashboard.ExampleMergeGdp` | code.py:23 | merging the example with GDP gives the two full rows |
| `Dashboard.ExampleUnified` | code.py:17-28 | the example's unified table is exactly the Alabama and Vermont rows |
| `Dashboard.ExampleFilter` | code.py:38-64 | the example's prevalence slider spans [28, 39] and its income slider [52000, 67000]; prevalence [35, 39] keeps only Alabama |

## Left out

- CSV reading (code.py:12-14, 104): file I/O. The loaded tables are inputs. A missing file or missing column would raise in the source; the fixed row schema assumes the columns exist.
- Columns other than `State` and the one measure of each file: the schema keeps only the columns the pipeline uses. Pandas column suffixes on name clashes are not modelled.
- The re-read and re-strip of `Obesity.csv` (code.py:104-107): dead code, since line 167 works on the merged `df`.
- Streamlit widgets, page layout, titles and markdown/HTML (code.py:6-9, 31-52 widget plumbing, 86-98, 215-251): UI. The widget values are inputs of `Dashboard.Run`. The selection is a set, since only its emptiness and membership matter. The slider's 5000 step and its own validation of limits are not modelled.
- Plotly figures and their layout (code.py:67-83, 176-212): a foreign charting library.
- `pd.to_numeric`'s parsing rules: `parse` is an arbitrary partial function from text to numbers.
- IEEE floating point: numbers are exact reals, and NaN is the explicit `Missing` cell. Float rounding in comparisons and in `int()` is not modelled.
- A missing `State` value (NaN key): keys are always strings in the model.
- Row order of pandas' inner merge when the left table repeats a key: the model pairs each left row with its matches in left order. Some pandas versions group the repeated key's rows together instead.
