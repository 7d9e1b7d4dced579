/**
 * The primary-key heuristic of `identify_pk_meta`. A strict pass flags fully
 * unique, never-missing columns whose text length is constant or whose dtype
 * is "int64". Only when it flags nothing does a relaxed pass run: it flags
 * every fully unique, never-missing column and then clears "float64" columns
 * and columns whose longest text exceeds 254 characters.
 *
 * The char lengths are floats in pandas; a column without cells has NaN there,
 * and NaN is neither equal to anything nor greater than anything.
 */
module PrimaryKey {
  import opened Frames
  import opened BasicMeta
  import opened InitMeta

  /** The longest text a relaxed-pass key may have. */
  const MaxKeyLen: nat := 254

  /** `a == b` on two float lengths: a NaN length equals nothing. */
  predicate SameLen(a: Option<nat>, b: Option<nat>)
  {
    a.Some? && b.Some? && a.value == b.value
  }

  /** `a > k` on a float length: false for NaN. */
  predicate LongerThan(a: Option<nat>, k: nat)
  {
    a.Some? && a.value > k
  }

  /** `unique_count == recs` and `na_count == 0`. */
  predicate UniqueNoNa(m: ColumnMeta, recs: nat)
  {
    m.basic.uniqueCount == recs && m.basic.naCount == 0
  }

  /** The strict rule: fully unique, no missing cell, and constant length or an integer dtype. */
  predicate StrictKey(m: ColumnMeta, recs: nat)
  {
    UniqueNoNa(m, recs) && (SameLen(m.lengths.minLen, m.lengths.maxLen) || m.basic.dataType == Int64)
  }

  /** The relaxed rule after both masked writes: fully unique, no missing cell, not a float, not too long. */
  predicate RelaxedKey(m: ColumnMeta, recs: nat)
  {
    UniqueNoNa(m, recs) && m.basic.dataType != Float64 && !LongerThan(m.lengths.maxLen, MaxKeyLen)
  }

  /** The strict pass over all columns. */
  function StrictPass(meta: seq<ColumnMeta>, recs: nat): seq<bool>
  {
    seq(|meta|, i requires 0 <= i < |meta| => StrictKey(meta[i], recs))
  }

  /** `identify_pk_meta`: the `possible_primary_key` flag of every column. */
  function PrimaryKeyFlags(meta: seq<ColumnMeta>, recs: nat): (flags: seq<bool>)
    ensures |flags| == |meta|
    ensures forall i :: 0 <= i < |meta| && flags[i] ==>
      meta[i].basic.uniqueCount == recs && meta[i].basic.naCount == 0
  {
    var strict := StrictPass(meta, recs);
    if true in strict then strict
    else seq(|meta|, i requires 0 <= i < |meta| => RelaxedKey(meta[i], recs))
  }

  /** When some column passes the strict rule, the flags are exactly those of the strict pass. */
  lemma StrictPassWins(meta: seq<ColumnMeta>, recs: nat, j: nat)
    requires j < |meta| && StrictKey(meta[j], recs)
    ensures forall i :: 0 <= i < |meta| ==> (PrimaryKeyFlags(meta, recs)[i] <==> StrictKey(meta[i], recs))
  {
    assert StrictPass(meta, recs)[j];
  }

  /**
   * When no column passes the strict rule, a column is flagged exactly when it
   * is fully unique, never missing, not "float64" and at most 254 characters long.
   */
  lemma RelaxedPassFlags(meta: seq<ColumnMeta>, recs: nat)
    requires forall j :: 0 <= j < |meta| ==> !StrictKey(meta[j], recs)
    ensures forall i :: 0 <= i < |meta| ==>
      (PrimaryKeyFlags(meta, recs)[i] <==>
        && meta[i].basic.uniqueCount == recs && meta[i].basic.naCount == 0
        && meta[i].basic.dataType != Float64
        && !(meta[i].lengths.maxLen.Some? && meta[i].lengths.maxLen.value > MaxKeyLen))
  {
    assert true !in StrictPass(meta, recs);
  }

  /**
   * A flag the strict rule does not explain comes from the relaxed pass: then no
   * column passed the strict rule, and this one has varying (or NaN) lengths,
   * is neither "int64" nor "float64", and is at most 254 characters long.
   */
  lemma RelaxedFlagIsNotStrict(meta: seq<ColumnMeta>, recs: nat, i: nat)
    requires i < |meta| && PrimaryKeyFlags(meta, recs)[i] && !StrictKey(meta[i], recs)
    ensures forall j :: 0 <= j < |meta| ==> !StrictKey(meta[j], recs)
    ensures !SameLen(meta[i].lengths.minLen, meta[i].lengths.maxLen)
    ensures meta[i].basic.dataType != Int64 && meta[i].basic.dataType != Float64
    ensures !LongerThan(meta[i].lengths.maxLen, MaxKeyLen)
  {
    forall j | 0 <= j < |meta| ensures !StrictKey(meta[j], recs) {
      assert StrictPass(meta, recs)[j] == StrictKey(meta[j], recs);
    }
  }

  /** A flagged column of a frame holds present, pairwise distinct values: it identifies the rows. */
  lemma FlaggedColumnIdentifiesRows<V>(f: Frame<V>, textLen: V -> nat, i: nat)
    requires WellFormed(f) && i < |f.columns|
    requires PrimaryKeyFlags(GetInitMeta(f, textLen), f.rows)[i]
    ensures AllPresentDistinct(f.columns[i].cells)
  {
    FullyUniqueColumn(f, textLen, i);
  }

  /** An "int64" column whose values are present and pairwise distinct (say 1..N) is always flagged. */
  lemma DistinctIntegerColumnIsFlagged<V>(f: Frame<V>, textLen: V -> nat, i: nat)
    requires WellFormed(f) && i < |f.columns|
    requires f.columns[i].dtype == Int64 && AllPresentDistinct(f.columns[i].cells)
    ensures PrimaryKeyFlags(GetInitMeta(f, textLen), f.rows)[i]
  {
    var meta := GetInitMeta(f, textLen);
    FullyUniqueColumn(f, textLen, i);
    assert meta[i].basic == ColumnBasic(f.columns[i]);
    assert StrictKey(meta[i], f.rows);
    StrictPassWins(meta, f.rows, i);
  }

  /** `primary_key[mask] = False`: clear every flag whose mask entry is set. */
  method ClearWhere(flags: array<bool>, mask: seq<bool>)
    requires |mask| == flags.Length
    modifies flags
    ensures forall i :: 0 <= i < flags.Length ==> flags[i] == (old(flags[i]) && !mask[i])
  {
    var k := 0;
    while k < flags.Length
      invariant 0 <= k <= flags.Length
      invariant forall i :: 0 <= i < k ==> flags[i] == (old(flags[i]) && !mask[i])
      invariant forall i :: k <= i < flags.Length ==> flags[i] == old(flags[i])
    {
      if mask[k] {
        flags[k] := false;
      }
      k := k + 1;
    }
  }

  /**
   * `identify_pk_meta` as the source runs it: the strict pass, and when it
   * flags nothing, the series is overwritten with the uniqueness rule and two
   * masked writes clear the float columns and the over-long columns.
   */
  method IdentifyPrimaryKey(meta: seq<ColumnMeta>, recs: nat) returns (flags: seq<bool>)
    ensures flags == PrimaryKeyFlags(meta, recs)
  {
    var strict := StrictPass(meta, recs);
    var pk := new bool[|meta|](i requires 0 <= i < |meta| => strict[i]);
    if !(true in pk[..]) {
      var k := 0;
      while k < pk.Length
        invariant 0 <= k <= pk.Length
        invariant forall i :: 0 <= i < k ==> pk[i] == UniqueNoNa(meta[i], recs)
      {
        pk[k] := UniqueNoNa(meta[k], recs);
        k := k + 1;
      }
      ClearWhere(pk, seq(|meta|, i requires 0 <= i < |meta| => meta[i].basic.dataType == Float64));
      ClearWhere(pk, seq(|meta|, i requires 0 <= i < |meta| => LongerThan(meta[i].lengths.maxLen, MaxKeyLen)));
      assert pk[..] == seq(|meta|, i requires 0 <= i < |meta| => RelaxedKey(meta[i], recs));
    } else {
      assert pk[..] == strict;
    }
    flags := pk[..];
  }
}
