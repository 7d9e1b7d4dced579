# Table metadata profiling, modelled in Dafny

This project models the metadata routine of `metadata.py`. The routine
profiles a pandas data frame and returns one dictionary. Where pandas versions
differ, the model follows pandas 1.x, whose API the routine uses
(`DataFrame.applymap`). In particular, there the default `describe()` leaves
datetime columns out and stores every timedelta as "timedelta64[ns]". The dictionary holds
three table-level entries ("source", "rows", "columns"), then one entry per
metadata field, and each field maps every column name to that column's value.
The fields are:

- the basic profile: dtype label, whether the label is "float64" or "int64",
  an always-empty description, the distinct present values, the missing cells;
- the text-length profile: the shortest, mean and longest `len(str(cell))`;
- two heuristic flags, `possible_primary_key` and `possible_categorical`;
- thirteen numeric statistics, when some column is "float64" or "int64".

Modules, one per concern of the routine:

- `Frames` (`table.dfy`): the frame. It has a row count and an ordered
  sequence of named columns. Each column has a dtype label and one cell per
  row, and a cell is missing (`NA`) or a value.
- `BasicMeta` (`basic_meta.dfy`): `get_basic_meta`. `nunique` is the size of
  the set of present values. `isna().sum()` is the multiset count of `NA`.
- `CharMeta` (`char_meta.dfy`): `get_char_meta`. Rendering a value as text is
  a parameter `textLen`, and every missing cell is given the length 3 of
  "nan" (see "Left out"). The mean is kept as a sum and a count. On a frame
  without rows, the lengths keep the frame's own dtypes. If one of them is a
  numeric dtype, describe() gives NaN statistics, modelled as `None`. If none
  is, describe() has no "min" row and the routine raises
  (`DescribeHasMin`).
- `InitMeta` (`init_meta.dfy`): the left join of the two profiles.
- `PrimaryKey` (`primary_key.dfy`): `identify_pk_meta`. The rule is a
  specification function. The source's own sequence of steps (strict pass,
  overwrite, two masked writes) is a method over a local flag array, proved
  equal to that function. NaN lengths compare false under `==` and `>`, as
  in pandas.
- `Categorical` (`categorical.dfy`): `identify_categorical_meta`. The test
  `na_count < 0.3 * recs` is written over integers as
  `10 * na_count < 3 * recs`.
- `MetaTable` (`meta_table.dfy`): `generate_meta_table`, including the two
  ways it raises. The dictionary keys are an enumeration, and `KeyText` gives
  the string the source uses for each key. The numeric statistics of
  `get_numeric_meta` are a parameter `numeric(field, column)`.

Lines 72-73 compute the numeric statistics only under
`if any(basic["is_numeric"])`, so the `else` branch is evidently meant to join
the profile and the flags without them. As written it raises instead: line 77
reads `num`, which that branch never assigns. The model follows the code as
written (`GenerateMetaTable`). It also gives the intended behaviour as a
separate function (`GenerateMetaTableFixed`). See "Findings".

## Model

| member | source | states |
|---|---|---|
| `BasicMeta.NaCount` | metadata.py:136 | the missing-cell count is the multiset count of `NA` in the column, at most the column length |
| `BasicMeta.PresentIff` | metadata.py:135 | a value is among the distinct values counted by `nunique` exactly when some cell holds it (missing cells are not values) |
| `BasicMeta.PresentIsSetOfValues` | metadata.py:135 | the distinct values are exactly the set of present cell values |
| `BasicMeta.CountsBounded` | metadata.py:135-136 | distinct values plus missing cells never exceed the number of cells |
| `BasicMeta.FullyUniqueIsDistinct` | metadata.py:257-259 | `unique_count == rows` and `na_count == 0` imply every cell is present and no two cells are equal |
| `BasicMeta.DistinctIsFullyUnique` | metadata.py:257-259 | the converse: present, pairwise distinct cells give `unique_count == rows` and `na_count == 0` |
| `BasicMeta.GetBasicMeta` | metadata.py:126-137 | one row per column, in order: dtype label, `is_numeric` iff the label is "float64" or "int64", no description, the number of distinct present values, the number of missing cells, and those two counts sum to at most the row count |
| `CharMeta.MinOf` | metadata.py:172 | describe's "min" is an element of the lengths and bounds all of them from below |
| `CharMeta.MaxOf` | metadata.py:174 | describe's "max" is an element of the lengths and bounds all of them from above |
| `CharMeta.SumBetween` | metadata.py:173 | per-element bounds `lo`/`hi` bound the sum by `lo*n` and `hi*n`, so the mean lies between min and max |
| `CharMeta.ColumnCharBounds` | metadata.py:170-174 | per column: the count is the number of cells and the sum is the sum of their rendered lengths; min and max exist iff there are cells; each is attained by some cell's rendered length and bounds all of them; `min*count <= sum <= max*count` |
| `CharMeta.MissingCellInRange` | metadata.py:170 | a column with a missing cell has min <= 3 <= max, the length of "nan" |
| `CharMeta.AllMissingLengths` | metadata.py:170-173 | an all-missing column has length sum 3 per cell, so its mean is 3 |
| `CharMeta.GetCharMeta` | metadata.py:166-175 | one row per column, in order: the count is the row count, the sum is the sum of that column's rendered cell lengths, min/max exist iff rows > 0, each is attained by some cell's length and bounds every cell's length, and the sum lies between `min*count` and `max*count` |
| `InitMeta.GetInitMeta` | metadata.py:64-65 | the joined profile has one row per column of the frame, and row i pairs the basic profile of column i with its length profile |
| `InitMeta.FullyUniqueColumn` | metadata.py:256-259 | in the joined profile, `unique_count == rows && na_count == 0` holds exactly when the column's cells are present and pairwise distinct |
| `PrimaryKey.PrimaryKeyFlags` | metadata.py:227-276 | one flag per column; a flagged column always has `unique_count == recs` and `na_count == 0` |
| `PrimaryKey.StrictPassWins` | metadata.py:256-265 | when some column passes the strict rule (unique, no NA, constant length or "int64"), the flags are exactly the strict rule's verdicts |
| `PrimaryKey.RelaxedPassFlags` | metadata.py:265-273 | when no column passes the strict rule, a column is flagged iff unique, never missing, not "float64", and its max length is not a number above 254 |
| `PrimaryKey.RelaxedFlagIsNotStrict` | metadata.py:256-273 | a flag the strict rule does not explain implies that no column passed the strict rule, and that the column has non-equal (or NaN) lengths, is neither "int64" nor "float64", and is at most 254 long |
| `PrimaryKey.FlaggedColumnIdentifiesRows` | metadata.py:256-269 | every flagged column of a frame has present, pairwise distinct cells, so it identifies the rows |
| `PrimaryKey.DistinctIntegerColumnIsFlagged` | metadata.py:256-263 | an "int64" column of present, pairwise distinct values (1..N, say) is always flagged |
| `PrimaryKey.ClearWhere` | metadata.py:271-273 | the masked write `primary_key[mask] = False`: each flag becomes its old value and not the mask entry |
| `PrimaryKey.IdentifyPrimaryKey` | metadata.py:256-276 | the step-by-step computation (strict pass, overwrite with the uniqueness rule, two masked writes) returns exactly `PrimaryKeyFlags` |
| `Categorical.CategoricalFlags` | metadata.py:279-314 | one flag per column; a flagged column has fewer than 30% missing cells and fewer than 30 distinct values, and fewer than 11 when recs <= 900 |
| `Categorical.CategoricalIff` | metadata.py:306-311 | both directions of the rule with the thresholds 900, 30, 11 and 0.3 written out |
| `Categorical.LargeTableBoundary` | metadata.py:306-308 | above 900 rows the cut-off is strict: 29 distinct values is categorical and 30 is not |
| `Categorical.NoRowsNoCategorical` | metadata.py:306-311 | a table without rows has no categorical column, because no count is below 0.3 * 0 |
| `Categorical.KeyAndCategoricalOnlyInTinyTables` | metadata.py:306-311 | a column flagged both as key and as categorical forces fewer than 11 rows |
| `Categorical.DrawnFromValues` | metadata.py:135-136 | cells all present and drawn from a set `values` give no more distinct values than `values` has elements, and no missing cell |
| `Categorical.FewValuesIsCategorical` | metadata.py:309-311 | in a frame of 1..900 rows, a column of present values drawn from at most 10 values is flagged categorical |
| `MetaTable.Fields` | metadata.py:74-80 | the joined columns: every profile and flag field, and the numeric fields exactly when the numeric block is joined |
| `MetaTable.FieldEntry` | metadata.py:80-81 | one field's entry of `to_dict()` is keyed by exactly the column names and maps each column to its value |
| `MetaTable.Assemble` | metadata.py:80-87 | the dictionary's keys, in order, are "source", "rows", "columns" and then the fields; its entries are the location, the row count, the column count and each field's entry |
| `MetaTable.GenerateMetaTable` | metadata.py:19-91 | as written: no columns gives an error (describe raises); columns, no rows and no dtype describe() covers gives the missing-"min" error; otherwise no "float64"/"int64" column gives the unbound-`num` error; the run succeeds iff some column is "float64" or "int64" |
| `MetaTable.GenerateMetaTableShape` | metadata.py:72-87 | a run with a numeric column succeeds; its keys are the three table keys then the 23 fields in order, exactly those keys are present, and each field entry is keyed by exactly the column names |
| `MetaTable.GenerateMetaTableColumn` | metadata.py:79-81 | in a successful run, the entry of every field maps every column name to that column's value for the field |
| `MetaTable.ColumnFieldValues` | metadata.py:132-136 | a column's values: its dtype, `is_numeric` iff "float64"/"int64", NaN description, its distinct and missing counts, and a statistic only when describe() covers its dtype (NaN otherwise) |
| `MetaTable.ColumnLengthValues` | metadata.py:170-174 | a column's length values are the min, sum/count and max of its rendered lengths, or NaN when the frame has no rows |
| `MetaTable.GenerateMetaTableFixed` | metadata.py:72-77 | the corrected assembler fails only where `get_char_meta` raises: a frame without columns, or without rows and without a dtype describe() covers |
| `MetaTable.FixedAgreesAndOmitsNumeric` | metadata.py:72-77 | the corrected assembler equals the original wherever the original succeeds; on a frame that gets past `get_char_meta` without numeric columns it succeeds with the table keys and the ten profile and flag fields, and has no num_* key |
| `MetaTable.NoNumericColumnRaises` | metadata.py:72-77 | a one-column text frame makes the original fail with the unbound-`num` error while the corrected version succeeds |
| `MetaTable.EmptyDurationFrameReachesLine77` | metadata.py:170-172 | a timedelta column with no rows passes line 172, because describe() covers its dtype, so the original goes on to fail at line 77 with the unbound-`num` error and the corrected version succeeds |
| `MetaTable.KeyTextInjective` | metadata.py:84-87 | no two dictionary keys share a string, so building the dict from the table pairs and the field pairs overwrites no entry |
| `MetaTable.EmptyTextFrameRaises` | metadata.py:170-172 | a text column with no rows makes both assemblers fail with the missing-"min" error, before the numeric test |

## Left out

- `file_system.py` (copying files, listing and extracting zip archives) is not part of this model: those functions only wrap file-system calls.
- `get_numeric_meta` (metadata.py:178-224) is a parameter `numeric(field, column)`. Its quantiles, sums and standard deviation are floating point, which the model does not compute. The model only records which columns describe() reports on: the numpy integer, unsigned and float dtypes (float128 included), numpy's "timedelta64[ns]", and pandas' nullable "Int*"/"UInt*"/"Float*" dtypes.
- `MetaTable.ColumnFieldValues`: complex dtypes are not among the dtypes the model treats as covered by describe(), so a complex column gets NaN for every num_* field.
- `MetaTable.GenerateMetaTable`: for the same reason, a frame without rows whose only describe()-covered columns are complex gets the missing-"min" error, where the source passes line 172 and raises at line 77.
- `MetaTable.GenerateMetaTableFixed`: on that same frame it gives the missing-"min" error, where the corrected routine succeeds.
- Which dtype pandas infers for a column is not modelled: the label is an input.
- `len(str(x))` for a present value is a parameter.
- `CharMeta.CellLen`: every missing cell is given the length 3 of "nan". NaN renders as "nan" and NaT as "NaT", both of length 3. A None cell renders as "None" and a `pd.NA` cell as "<NA>", both of length 4. The model does not tell these apart, so it understates their lengths.
- `CharMeta.GetCharMeta`: it returns NaN (`None`) statistics on every frame without rows. The source raises there when no column has a numeric dtype. That case is the `NoLengthMinimum` error of `MetaTable.GenerateMetaTable`, which is checked before the profile is read.
- The float rounding of `0.3 * recs` is left out; the comparison is exact over the integers.
- `MetaTable.GenerateMetaTable`: requires distinct column names, because the pandas joins and `to_dict` on duplicated labels are not modelled.
- The status message string the routine returns next to the dictionary is not modelled; the error cases are `Err` values, where the source raises.
- Dictionary values are not floats: lengths are naturals, the mean is a (sum, count) pair, and NaN is a constructor of its own.

## Findings

| source | as written | input that shows it | evidently intended | confidence | as-written member | corrected member |
|---|---|---|---|---|---|---|
| metadata.py:72-77 | the `else` branch builds `elements` from `num`, which is assigned only in the `if` branch, so a table with columns, past `get_char_meta`, but none "float64" or "int64" raises an unbound-name error | a frame with one "object" column `grade` holding "A" | skip the numeric block: the result has the table keys and the ten profile and flag fields and no num_* key | not executed | `MetaTable.NoNumericColumnRaises` | `MetaTable.FixedAgreesAndOmitsNumeric` |
