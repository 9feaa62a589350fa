# Enumerator daily survey productivity: a verified model

The Streamlit script `app.py` reads a survey export and turns it into a daily workload sheet. The sheet has:

- one row per enumerator (and village, when a village column is chosen) and consent class;
- one column per field date, each cell counting the interviews done that day;
- a `Total` column.

This project models the aggregation at the heart of the script, `app.py` lines 53-210, as Dafny. The stages, in order:

- resolve duplicate column names;
- map the chosen columns to the roles `consent`, `enum`, `fielddate` and `village`, and validate the mapping;
- drop rows missing required cells and coerce the text cells;
- parse the field dates;
- classify consent as Yes or No;
- group, count, pivot and total;
- name the date columns, first with the internal key `d_DDMonYYYY`, then in the chosen header style.

Every `st.stop()` outside the `try`/`except` of lines 117-133 becomes an `Err` of `Survey.Error`. The two stops inside it (lines 125 and 133) have no counterpart; see the last line of "## Left out".

Modules, following the script's stages:

| file | module | stage |
|---|---|---|
| wrappers.dfy | Wrappers | `Option` and `Result` |
| text.dfy | Text | `str.strip()`, `str.lower()`, `str(int)` |
| calendar.dfy | Calendar | dates and the `%d%b%Y`, `%d %b %Y` and `%Y-%m-%d` formats with their parsers |
| order.dfy | Order | strict total orders, sorted insertion, lexicographic order |
| seqs.dfy | Seqs | filtering and sums |
| survey.dfy | Survey | the table, the column selection and the stop reasons |
| columns.dfy | Columns | duplicate-name resolution (lines 54-65) |
| roles.dfy | Roles | role mapping and validation (lines 71-99) |
| sanitize.dfy | Sanitize | filtering, `safe_to_string`, date parsing, `categorize_consent` (lines 101-149) |
| pivot.dfy | Pivot | groupby, pivot_table and Total (lines 151-178) |
| headers.dfy | Headers | internal date keys and header styles (lines 181-210) |
| pipeline.dfy | Pipeline | the whole run, as functions and as the stage-by-stage method |

The script's loops are methods, each proved equal to a specification function:

- `Columns.ResolveDuplicates` equals `Dedup`.
- `Headers.InternalNames` equals `InternalNaming`.
- `Headers.HeaderNames` equals `HeaderMap`.
- `Pipeline.Run` equals `Summarise`.

The whole-table expressions (groupby, pivot, the two string helpers) are functions. The properties are lemmas about those functions.

Where the code and its own description differ, the model follows the code:

- Line 14 promises "two rows per enumerator". For columns loaded as plain values, the pivot has a row only for each (enumerator, village, class) that occurs, so an enumerator with no refusals has one row (`Pivot.Reshape`). Value-labelled `.dta` columns behave differently; see `Pivot.Reshape` under "## Left out".
- Rows sort with `No` before `Yes`, because pandas sorts the index as strings (`Pivot.GroupOrderIsTupleOrder`).
- The renaming at lines 56-64 can still leave duplicate names (`Columns.DedupCanCollide`).
- Field dates keep their time of day. Line 136 does not truncate; only the naming at line 184 drops the time. So two interviews on the same day at different times give two columns that share one name (`Headers.SameDaySameKey`).
- Consent is a required role (line 77). Choosing one column for two roles is not reported as such: the dict keeps the later role. When no column is already called `consent`, the run then stops on the missing name (`Roles.SameColumnTwiceHalts`). When the upload already has an unselected column called `consent`, the run does not stop: that column silently takes the consent role (`Roles.SameColumnTwiceTakesConsent`).
- A numeric consent column with blank cells loads as floats, so a consent of 1 prints as `"1.0"`, which is not a yes-word: such a row is classified No (`Sanitize.ClassifyFloatOneNo`).
- With no village column chosen, the model's village is `""`. That value takes part in no output and in no ordering.

## Model

| member | source | states |
|---|---|---|
| Columns.ResolveDuplicates | app.py:56-64 | the loop over the names with its `seen` counter returns exactly `Dedup(columns)` |
| Columns.Dedup | app.py:56-64 | the renamed list has one name per input column |
| Columns.HasDuplicates | app.py:54 | `duplicated().any()`, some name with an earlier namesake, holds exactly when two positions carry the same name |
| Columns.DupNameKeepsName | app.py:59-63 | a column's new name starts with its old name, and differs from it exactly when there was an earlier namesake |
| Columns.FirstOccurrenceKept | app.py:59-63 | a column keeps its name exactly when no earlier column has that name |
| Columns.RepeatRenamed | app.py:59-61 | a column with k >= 1 earlier namesakes is renamed `name_dupk` |
| Columns.DedupKeepsDistinct | app.py:54-65 | a list without repeated names is unchanged, so the guard at line 54 does not change the result |
| Columns.DedupIdempotent | app.py:54-65 | resolving an already resolved, duplicate-free list changes nothing |
| Pipeline.NormalisedIdempotent | app.py:54-65 | applying the duplicate guard twice equals applying it once when no column already looks like another's `_dupk` form; `Columns.DedupCanCollide` shows it fails without that condition |
| Columns.SuffixSplit | app.py:61 | `name_dupk` determines both the name and the digits k |
| Columns.DedupIsDistinct | app.py:54-65 | when no name already looks like another's `_dupk` form, the result has no repeated names |
| Columns.DedupCanCollide | app.py:56-64 | counterexample: `["a","a","a_dup1"]` becomes `["a","a_dup1","a_dup1"]`, which still repeats a name |
| Columns.OccurrencesZero | app.py:59 | a name has no occurrences exactly when it is not in the list |
| Columns.OccurrencesGrow | app.py:59-60 | a later position has strictly more occurrences of the same name |
| Survey.IndexOf | app.py:118 | the first position holding the name, and the name is not in front of it |
| Roles.RenameDict | app.py:82-88 | the dict holds the consent, enumerator and field-date choices, and the village choice when made; the later role wins where two choices coincide |
| Roles.RenameDictKeys | app.py:82-88 | the dict's keys are exactly the chosen columns and its values are role names |
| Roles.RenameColumns | app.py:89 | `df.rename` keeps the number of columns |
| Roles.RenamedNames | app.py:89 | a name is present after the rename exactly when some renamed column maps to it, or an unrenamed column carries it |
| Roles.MissingVars | app.py:92-96 | a required name is reported exactly when it is absent |
| Roles.MapRoles | app.py:77-99 | only the three stop reasons occur; SelectionIncomplete exactly when consent, enumerator or field date is blank; VillageNotFound exactly when the choice is complete and a chosen village is absent after the rename; MissingRequired exactly when both earlier checks pass and some required name is absent, listing exactly the absent ones; success exactly when all three checks pass, with the rows unchanged and the columns renamed |
| Roles.SameColumnTwiceHalts | app.py:82-99 | one column chosen for consent and enumerator stops the run when no column is already called `consent` |
| Roles.SameColumnTwiceTakesConsent | app.py:82-99 | one column chosen for consent and enumerator passes validation when an unselected column is already called `consent`; that column carries the consent role and the chosen one the enumerator role |
| Roles.DistinctRenames | app.py:82-88 | distinct chosen columns are each mapped to their role name |
| Roles.DistinctSelectionsSucceed | app.py:77-99 | distinct, present, non-blank choices always pass validation, and each chosen column carries its role name afterwards |
| Sanitize.RoleRows | app.py:101-149 | one role row per frame row |
| Sanitize.DropMissing | app.py:102-105 | a row is kept exactly when its enumerator and field date, and the village when mapped, are present |
| Sanitize.DropMissingCons | app.py:105 | definition of dropna's order, one row at a time: the first row is kept exactly when it has its required cells, then the rest are filtered; `PreparedIsDirect` carries the order-and-repeats property |
| Sanitize.SafeToString | app.py:112-116 | the result is trimmed; for a present value it is a slice of the value with only whitespace cut on either side |
| Sanitize.ParseDates | app.py:136-137 | a row is kept, with its timestamp, exactly when its field date parses |
| Sanitize.ParseDatesAppend | app.py:136-137 | parsing and filtering a concatenation is the concatenation of the two results, so order and repeats are preserved |
| Sanitize.Classify | app.py:144-148 | a missing consent is No; a present one is Yes exactly when its lowered value is one of `1`, `yes`, `true`, `y` with only whitespace around it |
| Sanitize.ClassifyIgnoresPadding | app.py:145 | whitespace around a consent value never changes its class |
| Sanitize.ClassifyLowered | app.py:145-148 | a value whose lowered form has no surrounding whitespace is Yes exactly when that form is a yes-word |
| Sanitize.ClassifyCapitalYes | app.py:145-147 | `"Yes"` is Yes |
| Sanitize.ClassifyOneYes | app.py:146-147 | the integer 1, printed `"1"`, is Yes |
| Sanitize.ClassifyZeroNo | app.py:146-148 | the integer 0 is No |
| Sanitize.ClassifyFloatOneNo | app.py:146-148 | the float 1.0, printed `"1.0"`, is No |
| Sanitize.SanitiseAll | app.py:118-128 | definition of the two `.map(safe_to_string)` coercions, row by row and in order; `SanitiseAllAppend` and `PreparedIsDirect` carry the properties |
| Sanitize.Classified | app.py:149 | definition of `.apply(categorize_consent)`, row by row and in order; `ClassifiedAppend` and `PreparedIsDirect` carry the properties (for a consent column of plain values; see `Sanitize.Classified` under "## Left out") |
| Sanitize.NoneKept | app.py:102-109 | an empty dropna result means no row had its required cells |
| Sanitize.SurvivorParsed | app.py:102-137 | every surviving row reaches the date filter's output with its parsed timestamp |
| Sanitize.DatedTraces | app.py:102-137 | every row after the date filter comes from a surviving raw row |
| Sanitize.CanonSound | app.py:102-149 | every prepared row is what some surviving raw row becomes, with trimmed enumerator and village |
| Sanitize.CanonComplete | app.py:102-149 | every surviving raw row appears among the prepared rows |
| Sanitize.CanonTraces | app.py:102-149 | prepared rows are exactly the images of surviving raw rows |
| Sanitize.OneRowStages | app.py:118-149 | one kept row comes out of the coercion, date parse and classification as its canonical row when its date parses, and as nothing otherwise |
| Sanitize.PreparedIsDirect | app.py:101-149 | the staged pipeline yields exactly the one-pass list of surviving rows' canonical forms, in input order and with repeats |
| Sanitize.Prepare | app.py:101-149 | NoValidObservations exactly when no row has its required cells; NoValidDates exactly when some do but none survives the date parse; on success a non-empty list equal to the one-pass `Direct` list, so every prepared row comes from a surviving row, in order, once per surviving row |
| Sanitize.SurvivorsCounted | app.py:102-137 | the date filter's output has one row per raw row passing both filters |
| Sanitize.PrepareCount | app.py:101-149 | the prepared rows are exactly as many as the surviving raw rows |
| Pivot.GroupColumns | app.py:152-154 | the grouping columns are `enum`, then `village` exactly when mapped, then `Consent_Status` |
| Pivot.IndexCells | app.py:162-164 | a group's index cells put the enumerator first, the village second when mapped, and the class name last |
| Pivot.StatusBeforeIsNameOrder | app.py:156 | No sorts before Yes, as their names do |
| Pivot.GroupBeforeIsStrictTotal | app.py:156 | the group order is a strict total order |
| Pivot.GroupOrderIsTupleOrder | app.py:156-167 | groups sort exactly as pandas sorts their index tuples |
| Pivot.CountZero | app.py:155-159 | a group-day count is zero exactly when no row has that group on that day |
| Pivot.ObservedStep | app.py:155-159 | a group-day occurs in a list exactly when it occurs before the last row or is the last row's |
| Pivot.DailyCounts | app.py:155-159 | the size table has an entry exactly for each observed group and day, holding that count, at least 1 (for columns loaded as plain values; see `Pivot.Reshape` under "## Left out") |
| Pivot.SortedGroups | app.py:165-173 | the pivot's rows are each observed group once, sorted (for columns loaded as plain values; see `Pivot.Reshape` under "## Left out") |
| Pivot.SortedDates | app.py:165-173 | the pivot's columns are each observed timestamp once, in time order |
| Pivot.CellValue | app.py:166-171 | definition of a cell: the group-day count, or `fill_value=0`; `RowCellsCount` and `ReshapeCells` carry the properties |
| Pivot.DayCountsSum | app.py:176-178 | a group's counts over dates that cover its rows add up to the group's size |
| Pivot.GroupSizesSum | app.py:176-178 | group sizes over groups that cover all rows add up to the number of rows |
| Pivot.RowCellsCount | app.py:165-178 | each filled cell of a row is the group-day count, and the row totals the group's size |
| Pivot.WideRows | app.py:165-178 | definition of the pivot rows: group, filled counts and their sum as Total; `RowCellsCount` and `GrandTotal` carry the properties |
| Pivot.Reshape | app.py:161-178 | index is the grouping columns, the dates and groups are the sorted observed ones, and each row's cells are the group-day counts with Total the group's size (for columns loaded as plain values; see `Pivot.Reshape` under "## Left out") |
| Pivot.ReshapeCells | app.py:161-178 | dates in time order, each occurring date listed; groups sorted, each occurring group listed; every cell the count of its group and day, zero where none |
| Pivot.GrandTotal | app.py:176-178 | the Total column adds up to the number of rows that reached the grouping |
| Calendar.MonthNumber | app.py:196-206 | a month abbreviation parses only to the month that prints as it |
| Calendar.CompactText | app.py:184 | `%d%b%Y` is two day digits, the month's abbreviation, four year digits: 9 characters |
| Calendar.PrettyText | app.py:198 | `%d %b %Y` is two day digits, a space, the abbreviation, a space, four year digits: 11 characters |
| Calendar.IsoText | app.py:206 | `%Y-%m-%d` is four year digits, a dash, two month digits, a dash, two day digits: 10 characters |
| Calendar.ParseCompact | app.py:198-206 | strptime `%d%b%Y` succeeds only on text that is the `%d%b%Y` form of the date it returns |
| Calendar.MonthRoundTrip | app.py:184 | each month's `%b` abbreviation parses back to the month |
| Calendar.CompactRoundTrip | app.py:184-203 | `%d%b%Y` of a date parses back to the date |
| Calendar.PrettyRoundTrip | app.py:198 | `%d %b %Y` of a date parses back to the date |
| Calendar.IsoRoundTrip | app.py:206 | `%Y-%m-%d` of a date parses back to the date |
| Calendar.CompactInjective | app.py:184 | different dates get different `%d%b%Y` keys |
| Headers.ColumnLabels | app.py:165-178 | the pivot's columns are the index names, then one label per date, then `Total` |
| Headers.RenameLabels | app.py:187 | a label in the dict takes its new name, any other keeps its own name, and only named labels are left unrenamed |
| Headers.InternalKey | app.py:184-185 | a date's key is `d_` followed by its `%d%b%Y` form, 11 characters |
| Headers.InternalNaming | app.py:181-186 | the rename dict has an entry exactly for each date label |
| Headers.InternalNames | app.py:181-186 | the loop over the columns builds exactly `InternalNaming` |
| Headers.InternalColumnsLayout | app.py:181-187 | index columns and Total keep their names; the j-th date column is named by its date's key |
| Headers.SameDaySameKey | app.py:184 | two timestamps on one day are two columns with one name |
| Headers.UpTo | app.py:196 | `split('_')[1]` of a `d_` name is the prefix of the rest up to the next underscore |
| Headers.StyleTextReparses | app.py:197-207 | every style's header parses back to the date it names |
| Headers.CompactHasNoUnderscore | app.py:196 | `%d%b%Y` never contains an underscore |
| Headers.DisplayInternalKey | app.py:195-207 | an internal key renders in every style as that style's form of its date, and strptime never raises on it |
| Headers.SafeIsIdentity | app.py:200-201 | Safe keeps every name |
| Headers.OtherColumnsKept | app.py:208-209 | a name not starting with `d_` is kept in every style |
| Headers.DateColumnShown | app.py:195-207 | under Pretty, Compact or ISO a `d_` column fails exactly when its date part is not `%d%b%Y`, and otherwise becomes that date in the style's form |
| Headers.HeaderMap | app.py:193-209 | the rename dict exists exactly when no column makes strptime raise, and then maps every column to its display name |
| Headers.StyledColumnsShown | app.py:193-210 | the styled header row exists exactly when every column has a display name, and has one header per column |
| Headers.StyledColumnAt | app.py:210 | each styled header is its column's display name |
| Headers.HeaderNames | app.py:193-209 | the loop over the columns builds exactly `HeaderMap`, stopping where strptime raises |
| Headers.IndexNamesUndated | app.py:162-164 | no grouping column name and not `Total` starts with `d_` |
| Headers.ColumnDisplay | app.py:193-209 | each column of the pivot gets the header its position calls for |
| Headers.StyledLayout | app.py:181-210 | the final header row is the index names, the j-th date in the style's form, then `Total`, and it never fails |
| Pipeline.Normalised | app.py:53-65 | definition of the guard at line 54: rows untouched, names deduplicated only when some name repeats; `DedupKeepsDistinct` and `RepeatRenamed` carry the properties |
| Pipeline.Prepared | app.py:53-149 | a blank consent, enumerator or field-date choice stops the run |
| Pipeline.Summarise | app.py:53-210 | the run stops exactly when preparing the rows stops, with the same reason (in the model; where several columns share a role name the program fails instead, see `Sanitize.RoleRows` under "## Left out") |
| Pipeline.PrepareRows | app.py:53-149 | the stage-by-stage reassignment of the frame computes `Prepared` |
| Pipeline.NameColumns | app.py:181-210 | the two renaming loops compute the styled header row |
| Pipeline.Run | app.py:53-210 | the whole script, stage by stage, computes `Summarise` |
| Pipeline.IncompleteSelectionStops | app.py:77-79 | without consent, enumerator and field date the run stops with SelectionIncomplete |
| Pipeline.EmptyDataStops | app.py:102-141 | after a valid mapping, the run stops at the dropna or the date parse exactly when they leave nothing, and yields a sheet exactly when some row survives both (in the model; where several columns share a role name the program fails instead, see `Sanitize.RoleRows` under "## Left out") |
| Pipeline.Render | app.py:173-210 | the sheet has one header per pivot column and one body row per pivot row |
| Pipeline.RenderLayout | app.py:173-210 | the sheet's header is the grouping names, the styled dates and `Total`, and every body row is as wide as the header |
| Pipeline.RenderTotals | app.py:178 | the sheet's Total column is the pivot's Total |
| Pipeline.RenderCells | app.py:165-173 | each count cell of the sheet is its pivot row's count for that date |
| Pipeline.SummaryOf | app.py:53-210 | a sheet is the rendered pivot of the prepared rows |
| Pipeline.TotalsCountSurvivors | app.py:102-178 | the sheet's Total column adds up to the number of raw rows passing both filters (for a consent column of plain values; see `Sanitize.Classified` under "## Left out") |
| Pipeline.PivotCells | app.py:155-210 | each count cell is the number of prepared rows of its group on its date, under the styled header of that date |
| Text.Lower | app.py:145 | definition of `lower()` character by character (ASCII only, see "## Left out"); `ClassifyLowered` carries the property |
| Text.StripSlice | app.py:114 | `strip()` returns a slice with only whitespace cut on either side |
| Text.StripEnds | app.py:114 | a non-empty strip neither starts nor ends with whitespace |
| Text.StripIgnoresPadding | app.py:114 | surrounding whitespace never changes the strip |
| Text.DecimalRoundTrip | app.py:61 | the decimal form of k reads back as k |
| Text.DecimalInjective | app.py:61 | different numbers have different decimal forms |

## Left out

- File reading (`.dta` through pyreadstat, Excel through pandas), the Streamlit widgets and messages, the preview, and the Excel export with its `datetime.now()` file name (lines 2-52 and 211 onwards) are I/O or UI. The table arrives as a parameter, and each stop is an error value.
- `str()` of arbitrary Python values: a cell is modelled as the text `str()` gives, or as missing.
- Sanitize.Classified: columns are modelled as plain values. A `.dta` file is read with value labels applied (line 41), which makes a labelled column a pandas Categorical. `.apply` on a Categorical skips missing cells, so a row with a missing labelled consent gets no class instead of No, and the groupby at line 156 drops it. `Pipeline.TotalsCountSurvivors` therefore describes the program only for a consent column that is not categorical; with a categorical one, Total can be smaller than the number of survivors.
- Pivot.Reshape (and with it `Pivot.DailyCounts` and `Pivot.SortedGroups`): categorical columns and pandas' `observed` default are not modelled. With a labelled (categorical) enumerator, village or consent column, pandas before 3.0 groups with `observed=False` at lines 156 and 166. The pivot then has a zero-filled row for every combination of categories, including enumerators whose rows were all dropped at lines 105 or 137. The model has a row only per observed group, which is what pandas gives for plain-valued columns.
- `pd.to_datetime(..., errors='coerce')` is a parameter `parse`, applied per cell. pandas infers one format for the whole column, so the same text may parse differently in different columns; the model does not capture that.
- Sanitize.RoleRows: when several columns carry the same role name after the rename, the model reads the first. pandas would select all of them, and the later steps would fail. This happens, for instance, when `enum_lab` is chosen as enumerator while a column `enum` exists: validation passes, and the program would fail inside the `try`/`except` of lines 117-125 or at the groupby of line 156, where the model renders a sheet. `Pipeline.Summarise` and `Pipeline.EmptyDataStops` therefore describe the program only when every role name is carried by one column after the rename.
- Text.Lower: lowers only ASCII letters. No non-ASCII character lowers to a letter of `yes`, `true` or `y`, so classification is unaffected; no lowered text reaches the output.
- Calendar.ParseCompact: accepts exactly the two-digit day, capitalised English abbreviation and four-digit year. strptime also accepts one-digit days and other letter cases, and follows the locale for `%b`. The narrower form never matters: the header loops of lines 181-210 run over the pivot's columns, which are the index names, the internal keys and `Total`. No index name and not `Total` starts with `d_` (`Headers.IndexNamesUndated`), and every internal key is in the exact form (`Headers.DisplayInternalKey`).
- Years are limited to 1000-9999, so that `%Y` has four digits.
- The header-style strings of lines 25-26 are the datatype `Headers.HeaderStyle`.
- Sorting is specified by its result (sorted, each key once), not by pandas' algorithm.
- Pipeline.Summarise: the body rows hold the index cells as text and the counts as numbers. pandas' column dtypes are not modelled.
- The `try`/`except` around the string coercion (lines 117-133) cannot fire in the model, because the coercion is total.
