/**
 * The categorical heuristic of `identify_categorical_meta`: a column is a
 * possible categorical variable when it has few distinct values (fewer than 30
 * in a table of more than 900 rows, fewer than 11 otherwise) and fewer than
 * 30% of its cells are missing. `na_count < 0.3 * recs` is written over the
 * integers as `10 * na_count < 3 * recs`.
 */
module Categorical {
  import opened Frames
  import opened BasicMeta
  import opened InitMeta
  import opened PrimaryKey

  /** Tables with more rows than this use the larger cardinality cut-off. */
  const LargeTableRows: nat := 900
  const LargeTableCardinality: nat := 30
  const SmallTableCardinality: nat := 11

  /** The cardinality a categorical column must stay below. */
  function CardinalityLimit(recs: nat): nat
  {
    if recs > LargeTableRows then LargeTableCardinality else SmallTableCardinality
  }

  /** `na_count < 0.3 * recs`, in integers. */
  predicate FewMissing(naCount: nat, recs: nat)
  {
    10 * naCount < 3 * recs
  }

  predicate IsCategorical(m: ColumnMeta, recs: nat)
  {
    m.basic.uniqueCount < CardinalityLimit(recs) && FewMissing(m.basic.naCount, recs)
  }

  /** `identify_categorical_meta`: the `possible_categorical` flag of every column. */
  function CategoricalFlags(meta: seq<ColumnMeta>, recs: nat): (flags: seq<bool>)
    ensures |flags| == |meta|
    ensures forall i :: 0 <= i < |meta| && flags[i] ==> 10 * meta[i].basic.naCount < 3 * recs
    ensures forall i :: 0 <= i < |meta| && flags[i] ==> meta[i].basic.uniqueCount < 30
    ensures recs <= 900 ==> forall i :: 0 <= i < |meta| && flags[i] ==> meta[i].basic.uniqueCount < 11
  {
    seq(|meta|, i requires 0 <= i < |meta| => IsCategorical(meta[i], recs))
  }

  /** Both directions of the rule, with the thresholds written out. */
  lemma CategoricalIff(meta: seq<ColumnMeta>, recs: nat, i: nat)
    requires i < |meta|
    ensures CategoricalFlags(meta, recs)[i] <==>
      && 10 * meta[i].basic.naCount < 3 * recs
      && (if recs > 900 then meta[i].basic.uniqueCount < 30 else meta[i].basic.uniqueCount < 11)
  {
  }

  /** With more than 900 rows, 29 distinct values is categorical and 30 is not (the cut-off is strict). */
  lemma LargeTableBoundary(meta: seq<ColumnMeta>, recs: nat, i: nat)
    requires i < |meta| && recs > 900 && 10 * meta[i].basic.naCount < 3 * recs
    ensures meta[i].basic.uniqueCount == 29 ==> CategoricalFlags(meta, recs)[i]
    ensures meta[i].basic.uniqueCount == 30 ==> !CategoricalFlags(meta, recs)[i]
  {
  }

  /** A table without rows has no categorical column: no NA count is below 0.3 * 0. */
  lemma NoRowsNoCategorical(meta: seq<ColumnMeta>)
    ensures forall i :: 0 <= i < |meta| ==> !CategoricalFlags(meta, 0)[i]
  {
  }

  /**
   * A column flagged both as a possible primary key and as categorical can only
   * occur in a table of fewer than 11 rows: a key has `rows` distinct values.
   */
  lemma KeyAndCategoricalOnlyInTinyTables(meta: seq<ColumnMeta>, recs: nat, i: nat)
    requires i < |meta|
    requires PrimaryKeyFlags(meta, recs)[i] && CategoricalFlags(meta, recs)[i]
    ensures recs < 11
  {
  }

  /** A column whose cells are all present and drawn from `values` has at most |values| distinct values. */
  lemma DrawnFromValues<V>(cells: seq<Cell<V>>, values: set<V>)
    requires forall k :: 0 <= k < |cells| ==> cells[k].Val? && cells[k].x in values
    ensures |Present(cells)| <= |values| && NaCount(cells) == 0
  {
    forall x | x in Present(cells) ensures x in values {
      PresentIff(cells, x);
    }
    assert values == Present(cells) + (values - Present(cells));
    assert NA !in cells;
    assert NaCount(cells) == 0;
  }

  /**
   * A column of a frame with at most 900 rows, no missing cell and its values
   * drawn from at most 10 values (the grade letters "A", "B", "C", say) is flagged categorical.
   */
  lemma FewValuesIsCategorical<V>(f: Frame<V>, textLen: V -> nat, i: nat, values: set<V>)
    requires WellFormed(f) && i < |f.columns| && 0 < f.rows <= 900 && |values| <= 10
    requires forall k :: 0 <= k < f.rows ==> f.columns[i].cells[k].Val? && f.columns[i].cells[k].x in values
    ensures CategoricalFlags(GetInitMeta(f, textLen), f.rows)[i]
  {
    var meta := GetInitMeta(f, textLen);
    DrawnFromValues(f.columns[i].cells, values);
    assert meta[i].basic == ColumnBasic(f.columns[i]);
  }
}
