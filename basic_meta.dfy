/**
 * The basic column profile of `get_basic_meta`: the dtype label, whether the
 * label is one of the two numeric labels, an always-missing description, the
 * number of distinct present values and the number of missing cells.
 */
module BasicMeta {
  import opened Frames

  const Float64: string := "float64"
  const Int64: string := "int64"

  /** The labels accepted by `isin(["float64", "int64"])`. */
  predicate IsNumericLabel(dtype: string)
  {
    dtype == Float64 || dtype == Int64
  }

  /** `isna().sum()` of one column: how many of its cells are missing. */
  function NaCount<V>(cells: seq<Cell<V>>): (n: nat)
    ensures n == multiset(cells)[NA]
    ensures n <= |cells|
  {
    if cells == [] then 0
    else
      assert cells == [cells[0]] + cells[1..];
      (if cells[0].NA? then 1 else 0) + NaCount(cells[1..])
  }

  /** The distinct present values of a column; `nunique()` is its size (missing cells are not counted). */
  function Present<V(==)>(cells: seq<Cell<V>>): set<V>
  {
    if cells == [] then {}
    else (if cells[0].Val? then {cells[0].x} else {}) + Present(cells[1..])
  }

  /** A value is among the distinct present values exactly when some cell holds it. */
  lemma {:induction false} PresentIff<V>(cells: seq<Cell<V>>, x: V)
    ensures x in Present(cells) <==> Val(x) in cells
  {
    if cells != [] {
      PresentIff(cells[1..], x);
      assert cells == [cells[0]] + cells[1..];
    }
  }

  /** Every cell is present and no two cells hold the same value. */
  predicate AllPresentDistinct<V(==)>(cells: seq<Cell<V>>)
  {
    && (forall i :: 0 <= i < |cells| ==> cells[i].Val?)
    && (forall i, j :: 0 <= i < j < |cells| ==> cells[i] != cells[j])
  }

  /** Distinct present values and missing cells together never outnumber the cells. */
  lemma {:induction false} CountsBounded<V>(cells: seq<Cell<V>>)
    ensures |Present(cells)| + NaCount(cells) <= |cells|
  {
    if cells != [] {
      var rest := cells[1..];
      CountsBounded(rest);
      if cells[0].Val? && cells[0].x !in Present(rest) {
        assert Present(cells) == Present(rest) + {cells[0].x};
      } else {
        assert Present(cells) == Present(rest);
      }
    }
  }

  /** A fully unique column (`unique_count == rows`, `na_count == 0`) has distinct present cells. */
  lemma {:induction false} FullyUniqueIsDistinct<V>(cells: seq<Cell<V>>)
    requires |Present(cells)| == |cells| && NaCount(cells) == 0
    ensures AllPresentDistinct(cells)
  {
    if cells != [] {
      var c, rest := cells[0], cells[1..];
      CountsBounded(rest);
      assert c.Val?;
      assert Present(cells) == Present(rest) + {c.x};
      FullyUniqueIsDistinct(rest);
      PresentIff(rest, c.x);
      forall i, j | 0 <= i < j < |cells| ensures cells[i] != cells[j] {
        assert cells[j] == rest[j - 1];
        if i > 0 {
          assert cells[i] == rest[i - 1];
        }
      }
    }
  }

  /** A column whose cells are present and pairwise distinct is fully unique. */
  lemma {:induction false} DistinctIsFullyUnique<V>(cells: seq<Cell<V>>)
    requires AllPresentDistinct(cells)
    ensures |Present(cells)| == |cells| && NaCount(cells) == 0
  {
    if cells != [] {
      var c, rest := cells[0], cells[1..];
      assert forall i :: 0 <= i < |rest| ==> rest[i] == cells[i + 1];
      DistinctIsFullyUnique(rest);
      PresentIff(rest, c.x);
      assert Present(cells) == Present(rest) + {c.x};
    }
  }

  /** The distinct present values, written as a comprehension over the cells. */
  lemma PresentIsSetOfValues<V>(cells: seq<Cell<V>>)
    ensures Present(cells) == set c | c in cells && c.Val? :: c.x
  {
    forall x ensures x in Present(cells) <==> x in set c | c in cells && c.Val? :: c.x {
      PresentIff(cells, x);
    }
  }

  /** One row of the basic frame (metadata.py columns data_type … na_count). */
  datatype BasicMeta = BasicMeta(
    dataType: string,
    isNumeric: bool,
    description: Option<string>,
    uniqueCount: nat,
    naCount: nat)

  function ColumnBasic<V(==)>(c: Column<V>): BasicMeta
  {
    BasicMeta(c.dtype, IsNumericLabel(c.dtype), None, |Present(c.cells)|, NaCount(c.cells))
  }

  /** `get_basic_meta`: the basic profile, one row per column, in column order. */
  function GetBasicMeta<V(==)>(f: Frame<V>): (basic: seq<BasicMeta>)
    requires WellFormed(f)
    ensures |basic| == |f.columns|
    ensures forall i :: 0 <= i < |basic| ==> basic[i].dataType == f.columns[i].dtype
    ensures forall i :: 0 <= i < |basic| ==>
      (basic[i].isNumeric <==> IsNumericLabel(f.columns[i].dtype))
    ensures forall i :: 0 <= i < |basic| ==> basic[i].description == None
    ensures forall i :: 0 <= i < |basic| ==> basic[i].naCount == multiset(f.columns[i].cells)[NA]
    ensures forall i :: 0 <= i < |basic| ==>
      basic[i].uniqueCount == |set c | c in f.columns[i].cells && c.Val? :: c.x|
    ensures forall i :: 0 <= i < |basic| ==>
      basic[i].uniqueCount + basic[i].naCount <= f.rows
  {
    var basic := seq(|f.columns|, i requires 0 <= i < |f.columns| => ColumnBasic(f.columns[i]));
    assert forall i :: 0 <= i < |basic| ==>
      basic[i].uniqueCount + basic[i].naCount <= f.rows by {
      forall i | 0 <= i < |basic| ensures basic[i].uniqueCount + basic[i].naCount <= f.rows {
        CountsBounded(f.columns[i].cells);
      }
    }
    assert forall i :: 0 <= i < |basic| ==>
      basic[i].uniqueCount == |set c | c in f.columns[i].cells && c.Val? :: c.x| by {
      forall i | 0 <= i < |basic| {
        PresentIsSetOfValues(f.columns[i].cells);
      }
    }
    basic
  }
}
