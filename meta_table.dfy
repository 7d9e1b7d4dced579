/**
 * The assembler `generate_meta_table`: it builds the basic and length
 * profiles, joins them, derives the primary-key and categorical flags from the
 * join, adds the numeric statistics when some column is "float64" or "int64",
 * and flattens everything into one dictionary with the table-level keys
 * "source", "rows" and "columns" first and then one entry per field, each
 * mapping the column names to that field's values.
 *
 * The dictionary's keys are fixed names; they are an enumeration here, and
 * `KeyText` gives the string the source uses for each. The numeric statistics
 * (`get_numeric_meta`) are opaque: `numeric(field, c)` stands for the
 * statistic `field` of column `c`.
 */
module MetaTable {
  import opened Frames
  import opened BasicMeta
  import opened CharMeta
  import opened InitMeta
  import opened PrimaryKey
  import opened Categorical

  /** The statistics `get_numeric_meta` reports for a column. */
  datatype NumStat = Sum | Min | P01 | P10 | P25 | P50 | Avg | P75 | P90 | P99 | Max | Range | Stdev

  /** The column-level fields of the final frame: ten profile fields and the numeric statistics. */
  datatype Field =
    | DataType | IsNumeric | Description | UniqueCount
    | NaCountField  // "na_count"; the suffix keeps it apart from the function `NaCount`
    | CharMinLen | CharAvgLen | CharMaxLen
    | PossiblePrimaryKey | PossibleCategorical
    | Num(stat: NumStat)

  /** The keys of the result dictionary. */
  datatype Key = SourceKey | RowsKey | ColumnsKey | FieldKey(field: Field)

  /** The string the source uses for each key. */
  function KeyText(k: Key): string
  {
    match k
    case SourceKey => "source"
    case RowsKey => "rows"
    case ColumnsKey => "columns"
    case FieldKey(f) =>
      match f
      case DataType => "data_type"
      case IsNumeric => "is_numeric"
      case Description => "description"
      case UniqueCount => "unique_count"
      case NaCountField => "na_count"
      case CharMinLen => "char_min_len"
      case CharAvgLen => "char_avg_len"
      case CharMaxLen => "char_max_len"
      case PossiblePrimaryKey => "possible_primary_key"
      case PossibleCategorical => "possible_categorical"
      case Num(st) =>
        match st
        case Sum => "num_sum"
        case Min => "num_min"
        case P01 => "num_01_p"
        case P10 => "num_10_p"
        case P25 => "num_25_p"
        case P50 => "num_50_p"
        case Avg => "num_avg"
        case P75 => "num_75_p"
        case P90 => "num_90_p"
        case P99 => "num_99_p"
        case Max => "num_max"
        case Range => "num_range"
        case Stdev => "num_stdev"
  }

  /** No two keys share a string, so the `dict(...)` of lines 84-87 overwrites no entry. */
  lemma KeyTextInjective(a: Key, b: Key)
    requires KeyText(a) == KeyText(b)
    ensures a == b
  {
  }

  /** The value of one field for one column; `NaN` is a cell that nothing filled. */
  datatype Value<S> =
    | Text(s: string)
    | Flag(b: bool)
    | Count(n: nat)
    | Length(n: nat)
    | Mean(lenSum: nat, cellCount: nat)
    | Stat(stat: S)
    | NaN

  /** An entry of the result: the source label, a size, or a field's values by column name. */
  datatype Entry<S> = Source(location: string) | Size(n: nat) | Values(byColumn: map<string, Value<S>>)

  /** The result dictionary, with its keys in insertion order. */
  datatype MetaDict<S> = MetaDict(keys: seq<Key>, entries: map<Key, Entry<S>>)

  /** `d[field][name]`, or None when the dictionary has no such pair. */
  function Lookup<S>(d: MetaDict<S>, fld: Field, name: string): Option<Value<S>>
  {
    if FieldKey(fld) in d.entries && d.entries[FieldKey(fld)].Values? && name in d.entries[FieldKey(fld)].byColumn
    then Some(d.entries[FieldKey(fld)].byColumn[name])
    else None
  }

  /** What makes `generate_meta_table` raise. */
  datatype Error =
    | DescribeWithoutColumns  // describe() of a frame without columns raises ValueError
    | NoLengthMinimum         // describe() of the lengths has no "min" row (no rows, no numeric dtype)
    | UnboundNum              // the no-numeric branch reads `num`, which was never assigned

  datatype Result<T> = Ok(value: T) | Err(error: Error)

  const TableKeys: seq<Key> := [SourceKey, RowsKey, ColumnsKey]

  /** The columns of `init_meta`, in order. */
  const InitFields: seq<Field> := [
    DataType, IsNumeric, Description, UniqueCount, NaCountField, CharMinLen, CharAvgLen, CharMaxLen]

  const FlagFields: seq<Field> := [PossiblePrimaryKey, PossibleCategorical]

  /** The columns `get_numeric_meta` returns, in order. */
  const NumFields: seq<Field> := [
    Num(Sum), Num(Min), Num(P01), Num(P10), Num(P25), Num(P50), Num(Avg),
    Num(P75), Num(P90), Num(P99), Num(Max), Num(Range), Num(Stdev)]

  /** A field is a profile field, a flag, or (exactly when `withNumeric`) a statistic. */
  lemma FieldListed(withNumeric: bool, fld: Field)
    ensures fld in InitFields + FlagFields + (if withNumeric then NumFields else []) <==> withNumeric || !fld.Num?
  {
    var fields := InitFields + FlagFields + (if withNumeric then NumFields else []);
    match fld
    case DataType => assert fields[0] == fld;
    case IsNumeric => assert fields[1] == fld;
    case Description => assert fields[2] == fld;
    case UniqueCount => assert fields[3] == fld;
    case NaCountField => assert fields[4] == fld;
    case CharMinLen => assert fields[5] == fld;
    case CharAvgLen => assert fields[6] == fld;
    case CharMaxLen => assert fields[7] == fld;
    case PossiblePrimaryKey => assert fields[8] == fld;
    case PossibleCategorical => assert fields[9] == fld;
    case Num(st) =>
      assert fld !in InitFields + FlagFields;
      if withNumeric {
        match st
        case Sum => assert fields[10] == fld;
        case Min => assert fields[11] == fld;
        case P01 => assert fields[12] == fld;
        case P10 => assert fields[13] == fld;
        case P25 => assert fields[14] == fld;
        case P50 => assert fields[15] == fld;
        case Avg => assert fields[16] == fld;
        case P75 => assert fields[17] == fld;
        case P90 => assert fields[18] == fld;
        case P99 => assert fields[19] == fld;
        case Max => assert fields[20] == fld;
        case Range => assert fields[21] == fld;
        case Stdev => assert fields[22] == fld;
      }
  }

  /**
   * The fields of the joined frame, in column order: every profile field, and
   * every statistic exactly when the numeric block was joined.
   */
  function Fields(withNumeric: bool): (fields: seq<Field>)
    ensures forall fld :: fld in fields <==> withNumeric || !fld.Num?
  {
    var fields := InitFields + FlagFields + (if withNumeric then NumFields else []);
    assert forall fld :: fld in fields <==> withNumeric || !fld.Num? by {
      forall fld {
        FieldListed(withNumeric, fld);
      }
    }
    fields
  }

  /** The dictionary keys of a sequence of fields. */
  function FieldKeys(fields: seq<Field>): (keys: seq<Key>)
    ensures forall k :: k in keys <==> k.FieldKey? && k.field in fields
  {
    var keys := seq(|fields|, i requires 0 <= i < |fields| => FieldKey(fields[i]));
    assert forall i :: 0 <= i < |fields| ==> keys[i] == FieldKey(fields[i]);
    keys
  }

  /** Some column is "float64" or "int64": `any(basic["is_numeric"])`. */
  predicate HasNumericColumn<V>(f: Frame<V>)
  {
    exists i :: 0 <= i < |f.columns| && IsNumericLabel(f.columns[i].dtype)
  }

  /** A length statistic as pandas stores it: NaN where describe had no cells. */
  function LengthValue<S>(len: Option<nat>): Value<S>
  {
    match len
    case None => NaN
    case Some(n) => Length(n)
  }

  /**
   * The value of field `fld` for column `c` with joined profile `m` and flags
   * `pk`, `cat`. A numeric field holds the statistic when `get_numeric_meta`
   * ran and describe() covers the column's dtype; the left join leaves NaN otherwise.
   */
  function FieldValue<V, S>(fld: Field, c: Column<V>, m: ColumnMeta, pk: bool, cat: bool,
                            numeric: Option<(Field, Column<V>) -> S>): Value<S>
  {
    match fld
    case DataType => Text(m.basic.dataType)
    case IsNumeric => Flag(m.basic.isNumeric)
    case Description => NaN
    case UniqueCount => Count(m.basic.uniqueCount)
    case NaCountField => Count(m.basic.naCount)
    case CharMinLen => LengthValue(m.lengths.minLen)
    case CharAvgLen => if m.lengths.cellCount == 0 then NaN else Mean(m.lengths.lenSum, m.lengths.cellCount)
    case CharMaxLen => LengthValue(m.lengths.maxLen)
    case PossiblePrimaryKey => Flag(pk)
    case PossibleCategorical => Flag(cat)
    case Num(_) => if numeric.Some? && Described(c.dtype) then Stat(numeric.value(fld, c)) else NaN
  }

  /** One field's entry of `meta.to_dict()`: every column name mapped to that field's value. */
  function FieldEntry<V, S>(f: Frame<V>, meta: seq<ColumnMeta>, pk: seq<bool>, cat: seq<bool>,
                            numeric: Option<(Field, Column<V>) -> S>, fld: Field): (values: map<string, Value<S>>)
    requires DistinctNames(f) && |meta| == |pk| == |cat| == |f.columns|
    ensures values.Keys == NameSet(f)
    ensures forall i :: 0 <= i < |f.columns| ==>
      values[f.columns[i].name] == FieldValue(fld, f.columns[i], meta[i], pk[i], cat[i], numeric)
  {
    map i | 0 <= i < |f.columns| :: f.columns[i].name := FieldValue(fld, f.columns[i], meta[i], pk[i], cat[i], numeric)
  }

  /**
   * The flattening of lines 79-87: the three table-level pairs, then one pair
   * per field of the joined frame, given the joined profile `meta`, the two
   * flag series and the numeric block or its absence.
   */
  function Assemble<V, S>(f: Frame<V>, location: string, meta: seq<ColumnMeta>, pk: seq<bool>, cat: seq<bool>,
                          numeric: Option<(Field, Column<V>) -> S>): (d: MetaDict<S>)
    requires DistinctNames(f) && |meta| == |pk| == |cat| == |f.columns|
    ensures d.keys == TableKeys + FieldKeys(Fields(numeric.Some?))
    ensures forall k :: k in d.entries <==> k in d.keys
    ensures d.entries[SourceKey] == Source(location)
    ensures d.entries[RowsKey] == Size(f.rows)
    ensures d.entries[ColumnsKey] == Size(|f.columns|)
    ensures forall fld :: fld in Fields(numeric.Some?) ==>
      d.entries[FieldKey(fld)] == Values(FieldEntry(f, meta, pk, cat, numeric, fld))
  {
    var fields := Fields(numeric.Some?);
    var keys := FieldKeys(fields);
    var fieldEntries := map k | k in keys && k.FieldKey? :: Values(FieldEntry(f, meta, pk, cat, numeric, k.field));
    MetaDict(TableKeys + keys,
      fieldEntries[SourceKey := Source(location)][RowsKey := Size(f.rows)][ColumnsKey := Size(|f.columns|)])
  }

  /** Lines 55-87 from the frame on, with the numeric block or without it. */
  function Profile<V(==), S>(f: Frame<V>, location: string, textLen: V -> nat,
                             numeric: Option<(Field, Column<V>) -> S>): MetaDict<S>
    requires WellFormed(f) && DistinctNames(f)
  {
    var meta := GetInitMeta(f, textLen);
    Assemble(f, location, meta, PrimaryKeyFlags(meta, f.rows), CategoricalFlags(meta, f.rows), numeric)
  }

  /**
   * `generate_meta_table` as written. A frame without columns makes describe()
   * raise in `get_char_meta`, and so does a frame without rows whose dtypes
   * describe() does not cover (its describe() has no "min" row). Any other
   * frame with no "float64" or "int64" column reaches line 77, which reads the
   * unassigned `num` and raises.
   */
  function GenerateMetaTable<V(==), S>(f: Frame<V>, location: string, textLen: V -> nat,
                                        numeric: (Field, Column<V>) -> S): (r: Result<MetaDict<S>>)
    requires WellFormed(f) && DistinctNames(f)
    ensures |f.columns| == 0 ==> r == Err(DescribeWithoutColumns)
    ensures |f.columns| > 0 && f.rows == 0 && (forall i :: 0 <= i < |f.columns| ==> !Described(f.columns[i].dtype))
      ==> r == Err(NoLengthMinimum)
    ensures |f.columns| > 0 && (f.rows > 0 || exists i :: 0 <= i < |f.columns| && Described(f.columns[i].dtype))
      && (forall i :: 0 <= i < |f.columns| ==> !IsNumericLabel(f.columns[i].dtype))
      ==> r == Err(UnboundNum)
    ensures r.Ok? <==> exists i :: 0 <= i < |f.columns| && IsNumericLabel(f.columns[i].dtype)
  {
    if |f.columns| == 0 then Err(DescribeWithoutColumns)
    else if !DescribeHasMin(f) then Err(NoLengthMinimum)
    else if HasNumericColumn(f) then Ok(Profile(f, location, textLen, Some(numeric)))
    else Err(UnboundNum)
  }

  /** Each field's entry of an assembled dictionary maps a column's name to that column's value. */
  lemma AssembledValue<V, S>(f: Frame<V>, location: string, meta: seq<ColumnMeta>, pk: seq<bool>, cat: seq<bool>,
                             numeric: Option<(Field, Column<V>) -> S>, fld: Field, i: nat)
    requires DistinctNames(f) && |meta| == |pk| == |cat| == |f.columns| && i < |f.columns|
    requires numeric.Some? || !fld.Num?
    ensures var d := Assemble(f, location, meta, pk, cat, numeric);
      Lookup(d, fld, f.columns[i].name) == Some(FieldValue(fld, f.columns[i], meta[i], pk[i], cat[i], numeric))
  {
    assert fld in Fields(numeric.Some?);
    assert f.columns[i].name in NameSet(f);
  }

  /** Every field's entry maps a column's name to that column's value. */
  lemma AssembledValues<V, S>(f: Frame<V>, location: string, meta: seq<ColumnMeta>, pk: seq<bool>, cat: seq<bool>,
                              numeric: Option<(Field, Column<V>) -> S>, i: nat)
    requires DistinctNames(f) && |meta| == |pk| == |cat| == |f.columns| && i < |f.columns|
    ensures forall fld: Field :: numeric.Some? || !fld.Num? ==>
      Lookup(Assemble(f, location, meta, pk, cat, numeric), fld, f.columns[i].name) ==
        Some(FieldValue(fld, f.columns[i], meta[i], pk[i], cat[i], numeric))
  {
    forall fld: Field | numeric.Some? || !fld.Num? {
      AssembledValue(f, location, meta, pk, cat, numeric, fld, i);
    }
  }

  /**
   * When some column is "float64" or "int64" the run succeeds and yields
   * "source" = the location, "rows" = the row count, "columns" = the column
   * count, then the eight profile fields, the two flags and the thirteen
   * numeric fields, each keyed by exactly the column names.
   */
  lemma GenerateMetaTableShape<V, S>(f: Frame<V>, location: string, textLen: V -> nat,
                                     numeric: (Field, Column<V>) -> S)
    requires WellFormed(f) && DistinctNames(f) && HasNumericColumn(f)
    ensures GenerateMetaTable(f, location, textLen, numeric).Ok?
    ensures var d := GenerateMetaTable(f, location, textLen, numeric).value;
      && d.keys == [SourceKey, RowsKey, ColumnsKey] + FieldKeys(InitFields + FlagFields + NumFields)
      && (forall k :: k in d.entries <==> k in d.keys)
      && d.entries[SourceKey] == Source(location)
      && d.entries[RowsKey] == Size(f.rows)
      && d.entries[ColumnsKey] == Size(|f.columns|)
      && (forall fld :: fld in InitFields + FlagFields + NumFields ==>
            d.entries[FieldKey(fld)].Values? && d.entries[FieldKey(fld)].byColumn.Keys == NameSet(f))
  {
    var d := Profile(f, location, textLen, Some(numeric));
    assert GenerateMetaTable(f, location, textLen, numeric) == Ok(d);
    assert Fields(true) == InitFields + FlagFields + NumFields;
  }

  /**
   * A run with a numeric column maps every field and every column name to the
   * value of that field for that column.
   */
  lemma GenerateMetaTableColumn<V, S>(f: Frame<V>, location: string, textLen: V -> nat,
                                      numeric: (Field, Column<V>) -> S, i: nat)
    requires WellFormed(f) && DistinctNames(f) && HasNumericColumn(f) && i < |f.columns|
    ensures GenerateMetaTable(f, location, textLen, numeric).Ok?
    ensures var d := GenerateMetaTable(f, location, textLen, numeric).value;
      var meta := GetInitMeta(f, textLen);
      forall fld :: Lookup(d, fld, f.columns[i].name) ==
        Some(FieldValue(fld, f.columns[i], meta[i], PrimaryKeyFlags(meta, f.rows)[i], CategoricalFlags(meta, f.rows)[i], Some(numeric)))
  {
    var meta := GetInitMeta(f, textLen);
    var pk, cat := PrimaryKeyFlags(meta, f.rows), CategoricalFlags(meta, f.rows);
    assert GenerateMetaTable(f, location, textLen, numeric) == Ok(Assemble(f, location, meta, pk, cat, Some(numeric)));
    AssembledValues(f, location, meta, pk, cat, Some(numeric), i);
  }

  /** Each field's value read off a joined profile row `m` and the two flags. */
  lemma FieldValueOf<V, S>(c: Column<V>, m: ColumnMeta, pk: bool, cat: bool, numeric: Option<(Field, Column<V>) -> S>)
    ensures FieldValue(DataType, c, m, pk, cat, numeric) == Text(m.basic.dataType)
    ensures FieldValue(IsNumeric, c, m, pk, cat, numeric) == Flag(m.basic.isNumeric)
    ensures FieldValue(Description, c, m, pk, cat, numeric) == NaN
    ensures FieldValue(UniqueCount, c, m, pk, cat, numeric) == Count(m.basic.uniqueCount)
    ensures FieldValue(NaCountField, c, m, pk, cat, numeric) == Count(m.basic.naCount)
    ensures FieldValue(CharMinLen, c, m, pk, cat, numeric) == LengthValue(m.lengths.minLen)
    ensures FieldValue(CharAvgLen, c, m, pk, cat, numeric) ==
      if m.lengths.cellCount == 0 then NaN else Mean(m.lengths.lenSum, m.lengths.cellCount)
    ensures FieldValue(CharMaxLen, c, m, pk, cat, numeric) == LengthValue(m.lengths.maxLen)
    ensures FieldValue(PossiblePrimaryKey, c, m, pk, cat, numeric) == Flag(pk)
    ensures FieldValue(PossibleCategorical, c, m, pk, cat, numeric) == Flag(cat)
    ensures forall st :: FieldValue(Num(st), c, m, pk, cat, numeric) ==
                         if numeric.Some? && Described(c.dtype) then Stat(numeric.value(Num(st), c)) else NaN
  {
  }

  /**
   * The values a column gets in the result: its dtype, whether that dtype is
   * "float64" or "int64", an empty description, its distinct and missing
   * counts, and the statistics when describe() covers its dtype (NaN otherwise).
   */
  lemma ColumnFieldValues<V, S>(f: Frame<V>, textLen: V -> nat, numeric: Option<(Field, Column<V>) -> S>, i: nat)
    requires WellFormed(f) && i < |f.columns|
    ensures var meta := GetInitMeta(f, textLen);
      var c, pk, cat := f.columns[i], PrimaryKeyFlags(meta, f.rows)[i], CategoricalFlags(meta, f.rows)[i];
      && FieldValue(DataType, c, meta[i], pk, cat, numeric) == Text(c.dtype)
      && FieldValue(IsNumeric, c, meta[i], pk, cat, numeric) == Flag(IsNumericLabel(c.dtype))
      && FieldValue(Description, c, meta[i], pk, cat, numeric) == NaN
      && FieldValue(UniqueCount, c, meta[i], pk, cat, numeric) == Count(|Present(c.cells)|)
      && FieldValue(NaCountField, c, meta[i], pk, cat, numeric) == Count(NaCount(c.cells))
      && (forall st :: FieldValue(Num(st), c, meta[i], pk, cat, numeric) ==
            if numeric.Some? && Described(c.dtype) then Stat(numeric.value(Num(st), c)) else NaN)
  {
    var meta := GetInitMeta(f, textLen);
    var c := f.columns[i];
    assert meta[i].basic == ColumnBasic(c);
    FieldValueOf(c, meta[i], PrimaryKeyFlags(meta, f.rows)[i], CategoricalFlags(meta, f.rows)[i], numeric);
  }

  /**
   * The length values a column gets in the result: the shortest and longest
   * rendering and the mean as sum over count, or NaN for a frame without rows.
   */
  lemma ColumnLengthValues<V, S>(f: Frame<V>, textLen: V -> nat, numeric: Option<(Field, Column<V>) -> S>, i: nat)
    requires WellFormed(f) && i < |f.columns|
    ensures var meta := GetInitMeta(f, textLen);
      var c, pk, cat := f.columns[i], PrimaryKeyFlags(meta, f.rows)[i], CategoricalFlags(meta, f.rows)[i];
      var lens := Lengths(c.cells, textLen);
      && FieldValue(CharMinLen, c, meta[i], pk, cat, numeric) == (if f.rows == 0 then NaN else Length(MinOf(lens)))
      && FieldValue(CharAvgLen, c, meta[i], pk, cat, numeric) == (if f.rows == 0 then NaN else Mean(SumOf(lens), f.rows))
      && FieldValue(CharMaxLen, c, meta[i], pk, cat, numeric) == (if f.rows == 0 then NaN else Length(MaxOf(lens)))
  {
    var meta := GetInitMeta(f, textLen);
    var c := f.columns[i];
    assert meta[i].lengths == ColumnChar(c, textLen);
    FieldValueOf(c, meta[i], PrimaryKeyFlags(meta, f.rows)[i], CategoricalFlags(meta, f.rows)[i], numeric);
  }

  /**
   * `generate_meta_table` with line 77 corrected: when no column is numeric the
   * numeric block is left out of the join, and the result carries no num_* key.
   * It still raises where `get_char_meta` does.
   */
  function GenerateMetaTableFixed<V(==), S>(f: Frame<V>, location: string, textLen: V -> nat,
                                             numeric: (Field, Column<V>) -> S): (r: Result<MetaDict<S>>)
    requires WellFormed(f) && DistinctNames(f)
    ensures r.Err? <==> |f.columns| == 0 || (f.rows == 0 && forall i :: 0 <= i < |f.columns| ==> !Described(f.columns[i].dtype))
  {
    if |f.columns| == 0 then Err(DescribeWithoutColumns)
    else if !DescribeHasMin(f) then Err(NoLengthMinimum)
    else Ok(Profile(f, location, textLen, if HasNumericColumn(f) then Some(numeric) else None))
  }

  /**
   * The corrected assembler agrees with the original wherever the original
   * succeeds, and on a frame without numeric columns it succeeds with the
   * table-level keys and the ten profile and flag fields, and no num_* key.
   */
  lemma FixedAgreesAndOmitsNumeric<V, S>(f: Frame<V>, location: string, textLen: V -> nat,
                                         numeric: (Field, Column<V>) -> S)
    requires WellFormed(f) && DistinctNames(f)
    ensures GenerateMetaTable(f, location, textLen, numeric).Ok? ==>
      GenerateMetaTableFixed(f, location, textLen, numeric) == GenerateMetaTable(f, location, textLen, numeric)
    ensures |f.columns| > 0 && DescribeHasMin(f) && (forall i :: 0 <= i < |f.columns| ==> !IsNumericLabel(f.columns[i].dtype)) ==>
      var r := GenerateMetaTableFixed(f, location, textLen, numeric);
      && r.Ok?
      && r.value.keys == [SourceKey, RowsKey, ColumnsKey] + FieldKeys(InitFields + FlagFields)
      && (forall st :: FieldKey(Num(st)) !in r.value.entries)
  {
    if |f.columns| > 0 && DescribeHasMin(f) && !HasNumericColumn(f) {
      assert Fields(false) == InitFields + FlagFields;
    }
  }

  /**
   * A one-column text frame (`grade` = "A") shows the discrepancy: the code as
   * written raises on it, the corrected assembler returns its metadata.
   */
  lemma NoNumericColumnRaises()
    ensures var f := Frame(1, [Column("grade", "object", [Val("A")])]);
      var textLen := (s: string) => |s|;
      var numeric := (fld: Field, c: Column<string>) => 0;
      && GenerateMetaTable(f, "grades.csv", textLen, numeric) == Err(UnboundNum)
      && GenerateMetaTableFixed(f, "grades.csv", textLen, numeric).Ok?
  {
    var f := Frame(1, [Column("grade", "object", [Val("A")])]);
    assert !IsNumericLabel(f.columns[0].dtype);
  }

  /**
   * A frame with a text column `s` and no rows: the lengths keep the "object"
   * dtype, describe() has no "min" row, and `get_char_meta` raises before the
   * numeric test is reached, in the original and in the corrected assembler.
   */
  lemma EmptyTextFrameRaises()
    ensures var f: Frame<string> := Frame(0, [Column("s", "object", [])]);
      var textLen := (s: string) => |s|;
      var numeric := (fld: Field, c: Column<string>) => 0;
      && GenerateMetaTable(f, "empty.csv", textLen, numeric) == Err(NoLengthMinimum)
      && GenerateMetaTableFixed(f, "empty.csv", textLen, numeric) == Err(NoLengthMinimum)
  {
    var f: Frame<string> := Frame(0, [Column("s", "object", [])]);
    assert !Described(f.columns[0].dtype);
  }

  /**
   * A timedelta column with no rows: describe() covers its dtype, so the
   * lengths have a "min" row and line 172 passes; with no "float64" or
   * "int64" column the original then raises at line 77, and the corrected
   * assembler succeeds.
   */
  lemma EmptyDurationFrameReachesLine77()
    ensures var f: Frame<int> := Frame(0, [Column("t", "timedelta64[ns]", [])]);
      var textLen := (x: int) => 1;
      var numeric := (fld: Field, c: Column<int>) => 0;
      && GenerateMetaTable(f, "durations.csv", textLen, numeric) == Err(UnboundNum)
      && GenerateMetaTableFixed(f, "durations.csv", textLen, numeric).Ok?
  {
    var f: Frame<int> := Frame(0, [Column("t", "timedelta64[ns]", [])]);
    assert Described(f.columns[0].dtype) && !IsNumericLabel(f.columns[0].dtype);
  }
}
