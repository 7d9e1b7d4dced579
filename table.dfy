/**
 * The data frame the metadata routine profiles, reduced to what the routine
 * looks at: a row count, and an ordered sequence of named columns, each with
 * the dtype label pandas reports for it and one cell per row.
 */
module Frames {

  datatype Option<T> = None | Some(value: T)

  /** One cell of a column: missing (what `isna()` reports, NaN, None, NaT, pd.NA) or a present value. */
  datatype Cell<V> = NA | Val(x: V)

  /** A named column; `dtype` is the label `str(d_f.dtypes[name])` gives, e.g. "int64". */
  datatype Column<V> = Column(name: string, dtype: string, cells: seq<Cell<V>>)

  /**
   * A data frame. The row count is `d_f.shape[0]`; it is kept apart from the
   * columns because a frame without columns still has an index.
   */
  datatype Frame<V> = Frame(rows: nat, columns: seq<Column<V>>)

  /** Every column holds exactly one cell per row. */
  predicate WellFormed<V>(f: Frame<V>)
  {
    forall i :: 0 <= i < |f.columns| ==> |f.columns[i].cells| == f.rows
  }

  /** No two columns share a name. */
  predicate DistinctNames<V>(f: Frame<V>)
  {
    forall i, j :: 0 <= i < j < |f.columns| ==> f.columns[i].name != f.columns[j].name
  }

  /** The set of column names, the index of every per-column metadata frame. */
  function NameSet<V>(f: Frame<V>): set<string>
  {
    set i | 0 <= i < |f.columns| :: f.columns[i].name
  }
}
