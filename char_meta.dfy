/**
 * The character-length profile of `get_char_meta`: every cell is rendered with
 * `str` and measured, and the minimum, mean and maximum of those lengths are
 * recorded per column. The rendering itself is a parameter `textLen`; a
 * missing cell is given the length of "nan". The mean is kept as its sum and count.
 */
module CharMeta {
  import opened Frames
  import opened BasicMeta

  /** `len(str(x))` of a missing cell: pandas' NaN renders as "nan". */
  const NaTextLen: nat := 3

  /** The length of one cell's text rendering. */
  function CellLen<V>(c: Cell<V>, textLen: V -> nat): nat
  {
    match c
    case NA => NaTextLen
    case Val(x) => textLen(x)
  }

  /** `applymap(lambda x: len(str(x)))` over one column. */
  function Lengths<V>(cells: seq<Cell<V>>, textLen: V -> nat): seq<nat>
  {
    seq(|cells|, i requires 0 <= i < |cells| => CellLen(cells[i], textLen))
  }

  /** The smallest element, describe's "min". */
  function MinOf(s: seq<nat>): (m: nat)
    requires |s| > 0
    ensures m in s
    ensures forall i :: 0 <= i < |s| ==> m <= s[i]
  {
    if |s| == 1 then s[0]
    else
      var rest := MinOf(s[1..]);
      if s[0] <= rest then s[0] else rest
  }

  /** The largest element, describe's "max". */
  function MaxOf(s: seq<nat>): (m: nat)
    requires |s| > 0
    ensures m in s
    ensures forall i :: 0 <= i < |s| ==> s[i] <= m
  {
    if |s| == 1 then s[0]
    else
      var rest := MaxOf(s[1..]);
      if rest <= s[0] then s[0] else rest
  }

  /** The sum of the elements; describe's "mean" is this over the count. */
  function SumOf(s: seq<nat>): nat
  {
    if s == [] then 0 else s[0] + SumOf(s[1..])
  }

  /** A lower bound on every element bounds the sum from below, an upper bound from above. */
  lemma {:induction false} SumBetween(s: seq<nat>, lo: nat, hi: nat)
    requires forall i :: 0 <= i < |s| ==> lo <= s[i] <= hi
    ensures lo * |s| <= SumOf(s) <= hi * |s|
  {
    if s != [] {
      SumBetween(s[1..], lo, hi);
      assert lo * |s| == lo + lo * |s[1..]|;
      assert hi * |s| == hi + hi * |s[1..]|;
    }
  }

  /**
   * One row of the char frame. `minLen` and `maxLen` are None where describe
   * gives NaN (a column without cells); `char_avg_len` is lenSum / cellCount.
   */
  datatype CharMeta = CharMeta(minLen: Option<nat>, lenSum: nat, cellCount: nat, maxLen: Option<nat>)

  function ColumnChar<V>(c: Column<V>, textLen: V -> nat): CharMeta
  {
    var lens := Lengths(c.cells, textLen);
    if lens == [] then CharMeta(None, 0, 0, None)
    else CharMeta(Some(MinOf(lens)), SumOf(lens), |lens|, Some(MaxOf(lens)))
  }

  /**
   * `m` is the length profile of column `c`: its count is the number of cells,
   * its sum is the sum of their lengths, and, when there are cells, min and
   * max are attained by some cell's length and bound all of them.
   */
  predicate ColumnCharFacts<V>(c: Column<V>, textLen: V -> nat, m: CharMeta)
  {
    && m.cellCount == |c.cells|
    && m.lenSum == SumOf(Lengths(c.cells, textLen))
    && (m.minLen.Some? <==> |c.cells| > 0)
    && (m.maxLen.Some? <==> |c.cells| > 0)
    && (m.minLen.Some? ==>
          && (exists j :: 0 <= j < |c.cells| && CellLen(c.cells[j], textLen) == m.minLen.value)
          && (forall j :: 0 <= j < |c.cells| ==> m.minLen.value <= CellLen(c.cells[j], textLen)))
    && (m.maxLen.Some? ==>
          && (exists j :: 0 <= j < |c.cells| && CellLen(c.cells[j], textLen) == m.maxLen.value)
          && (forall j :: 0 <= j < |c.cells| ==> CellLen(c.cells[j], textLen) <= m.maxLen.value))
    && (m.minLen.Some? && m.maxLen.Some? ==>
          m.minLen.value * m.cellCount <= m.lenSum <= m.maxLen.value * m.cellCount)
  }

  /** The length profile of one column: min and max are attained bounds and the mean lies between them. */
  lemma ColumnCharBounds<V>(c: Column<V>, textLen: V -> nat)
    ensures ColumnCharFacts(c, textLen, ColumnChar(c, textLen))
  {
    var lens := Lengths(c.cells, textLen);
    assert forall i :: 0 <= i < |lens| ==> lens[i] == CellLen(c.cells[i], textLen);
    if lens != [] {
      var lo, hi := MinOf(lens), MaxOf(lens);
      SumBetween(lens, lo, hi);
      var a :| 0 <= a < |lens| && lens[a] == lo;
      var b :| 0 <= b < |lens| && lens[b] == hi;
      assert CellLen(c.cells[a], textLen) == lo && CellLen(c.cells[b], textLen) == hi;
    }
  }

  /** A column with a missing cell has a length range that takes in the 3 of "nan". */
  lemma MissingCellInRange<V>(c: Column<V>, textLen: V -> nat)
    requires NA in c.cells
    ensures var m := ColumnChar(c, textLen);
      m.minLen.Some? && m.maxLen.Some? && m.minLen.value <= NaTextLen <= m.maxLen.value
  {
    var k :| 0 <= k < |c.cells| && c.cells[k] == NA;
    var lens := Lengths(c.cells, textLen);
    assert lens[k] == NaTextLen;
  }

  /** An all-missing column has every length, and so the mean, equal to 3. */
  lemma {:induction false} AllMissingLengths<V>(cells: seq<Cell<V>>, textLen: V -> nat)
    requires NaCount(cells) == |cells|
    ensures SumOf(Lengths(cells, textLen)) == NaTextLen * |cells|
  {
    if cells != [] {
      assert cells[0] == NA;
      AllMissingLengths(cells[1..], textLen);
      assert Lengths(cells, textLen)[1..] == Lengths(cells[1..], textLen);
    }
  }

  /**
   * The dtypes pandas 1.x `describe()` reports on by default (its numeric
   * selection): the numpy integer, unsigned and float widths, numpy's
   * timedelta64 (an integer subtype to numpy; pandas 1.x keeps it in
   * nanoseconds) and pandas' nullable integer and float dtypes. Datetime
   * columns are not among them in pandas 1.x.
   */
  predicate Described(dtype: string)
  {
    dtype in {"int8", "int16", "int32", "int64", "uint8", "uint16", "uint32", "uint64",
              "float16", "float32", "float64", "float128",
              "timedelta64[ns]",
              "Int8", "Int16", "Int32", "Int64", "UInt8", "UInt16", "UInt32", "UInt64",
              "Float32", "Float64"}
  }

  /**
   * Whether `string_length.describe()` has a "min" row. With rows, every
   * length column is "int64". Without rows, `applymap` keeps the frame's own
   * dtypes, and describe() of a frame with no numeric column has only
   * count/unique/top/freq, so `.loc["min", :]` raises.
   */
  predicate DescribeHasMin<V>(f: Frame<V>)
  {
    f.rows > 0 || exists i :: 0 <= i < |f.columns| && Described(f.columns[i].dtype)
  }

  /**
   * `get_char_meta`: the length profile, one row per column, in column order.
   * Each row counts the frame's rows, sums its column's rendered lengths and,
   * when there are rows, has the shortest and longest of them. On a frame
   * where `DescribeHasMin` fails the source raises instead; the assembler
   * reports that before it reads this profile.
   */
  function GetCharMeta<V>(f: Frame<V>, textLen: V -> nat): (profile: seq<CharMeta>)
    requires WellFormed(f)
    ensures |profile| == |f.columns|
    ensures forall i :: 0 <= i < |profile| ==> profile[i].cellCount == f.rows
    ensures forall i :: 0 <= i < |profile| ==> ColumnCharFacts(f.columns[i], textLen, profile[i])
  {
    var profile := seq(|f.columns|, i requires 0 <= i < |f.columns| => ColumnChar(f.columns[i], textLen));
    assert forall i :: 0 <= i < |profile| ==> ColumnCharFacts(f.columns[i], textLen, profile[i]) by {
      forall i | 0 <= i < |profile| {
        ColumnCharBounds(f.columns[i], textLen);
      }
    }
    profile
  }
}
