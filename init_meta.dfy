/**
 * The joined profile `init_meta = basic.join(char, how="left")` that both
 * heuristics read. Both frames are indexed by the column names in column
 * order, so the join pairs the rows position by position.
 */
module InitMeta {
  import opened Frames
  import opened BasicMeta
  import opened CharMeta

  /** One row of `init_meta`: the basic profile and the length profile of a column. */
  datatype ColumnMeta = ColumnMeta(basic: BasicMeta, lengths: CharMeta)

  function Join(basic: seq<BasicMeta>, lengths: seq<CharMeta>): seq<ColumnMeta>
    requires |basic| == |lengths|
  {
    seq(|basic|, i requires 0 <= i < |basic| => ColumnMeta(basic[i], lengths[i]))
  }

  /** `init_meta` of a frame, as the assembler builds it. */
  function GetInitMeta<V(==)>(f: Frame<V>, textLen: V -> nat): (meta: seq<ColumnMeta>)
    requires WellFormed(f)
    ensures |meta| == |f.columns|
    ensures forall i :: 0 <= i < |meta| ==>
      meta[i].basic == GetBasicMeta(f)[i] && meta[i].lengths == GetCharMeta(f, textLen)[i]
  {
    Join(GetBasicMeta(f), GetCharMeta(f, textLen))
  }

  /**
   * In `init_meta`, a column has `unique_count == rows` and `na_count == 0`
   * exactly when its cells are all present and pairwise distinct.
   */
  lemma FullyUniqueColumn<V>(f: Frame<V>, textLen: V -> nat, i: nat)
    requires WellFormed(f) && i < |f.columns|
    ensures var m := GetInitMeta(f, textLen)[i];
      (m.basic.uniqueCount == f.rows && m.basic.naCount == 0) <==> AllPresentDistinct(f.columns[i].cells)
  {
    var cells := f.columns[i].cells;
    if |Present(cells)| == |cells| && NaCount(cells) == 0 {
      FullyUniqueIsDistinct(cells);
    }
    if AllPresentDistinct(cells) {
      DistinctIsFullyUnique(cells);
    }
  }
}
