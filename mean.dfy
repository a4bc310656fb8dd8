/** The coordinate-wise mean of a cluster (servidorTA4.go, mean). */
module Averaging {
  import opened Distance

  /** What v adds to coordinate c of the mean of n vectors: v[c] / n, or nothing when v is too short. */
  function Share(v: Point, c: nat, n: real): real
    requires n > 0.0
  {
    if c < |v| then v[c] / n else 0.0
  }

  /** Coordinate c of the mean as mean accumulates it: the sum of the shares of vs. */
  function ColumnSum(vs: seq<Point>, c: nat, n: real): real
    requires n > 0.0
  {
    if vs == [] then 0.0 else ColumnSum(vs[..|vs| - 1], c, n) + Share(vs[|vs| - 1], c, n)
  }

  /** The plain sum of coordinate c over vs (vectors without coordinate c add nothing). */
  function ColumnTotal(vs: seq<Point>, c: nat): real
  {
    if vs == [] then 0.0 else ColumnTotal(vs[..|vs| - 1], c) + (if c < |vs[|vs| - 1]| then vs[|vs| - 1][c] else 0.0)
  }

  /**
   * What mean demands of its argument: vectors[0] exists (an empty cluster makes the index
   * vectors[0] fail) and no vector is longer than vectors[0] (the result has |vectors[0]| slots).
   */
  predicate MeanDefined(vectors: seq<Point>)
  {
    |vectors| >= 1 && forall t :: 0 <= t < |vectors| ==> |vectors[t]| <= |vectors[0]|
  }

  /** The vector mean returns. */
  function MeanOf(vectors: seq<Point>): Point
    requires MeanDefined(vectors)
  {
    seq(|vectors[0]|, c requires 0 <= c => ColumnSum(vectors, c, |vectors| as real))
  }

  /** The nested accumulating loops of mean. */
  method Mean(vectors: seq<Point>) returns (m: Point)
    requires MeanDefined(vectors)
    ensures m == MeanOf(vectors)
  {
    var n := |vectors|;
    var acc := new real[|vectors[0]|](_ => 0.0);
    var t := 0;
    while t < n
      invariant 0 <= t <= n
      invariant forall c :: 0 <= c < acc.Length ==> acc[c] == ColumnSum(vectors[..t], c, n as real)
    {
      var v := vectors[t];
      assert vectors[..t + 1][..t] == vectors[..t];
      var i := 0;
      while i < |v|
        invariant 0 <= i <= |v|
        invariant forall c :: 0 <= c < i ==> acc[c] == ColumnSum(vectors[..t + 1], c, n as real)
        invariant forall c :: i <= c < acc.Length ==> acc[c] == ColumnSum(vectors[..t], c, n as real)
      {
        acc[i] := acc[i] + v[i] / (n as real);
        i := i + 1;
      }
      t := t + 1;
    }
    assert vectors[..n] == vectors;
    m := acc[..];
  }

  lemma {:induction false} ColumnSumScales(vs: seq<Point>, c: nat, n: real)
    requires n > 0.0
    ensures ColumnSum(vs, c, n) * n == ColumnTotal(vs, c)
  {
    if vs != [] {
      var last := vs[|vs| - 1];
      ColumnSumScales(vs[..|vs| - 1], c, n);
      if c < |last| {
        DivThenScale(ColumnSum(vs[..|vs| - 1], c, n), last[c], n);
      }
    }
  }

  lemma DivThenScale(s: real, x: real, n: real)
    requires n > 0.0
    ensures (s + x / n) * n == s * n + x
  {
  }

  /**
   * Coordinate c of the mean, times the number of vectors, is the sum of coordinate c:
   * mean computes the arithmetic mean although it divides each term before adding.
   */
  lemma MeanIsAverage(vectors: seq<Point>, c: nat)
    requires MeanDefined(vectors) && c < |vectors[0]|
    ensures |MeanOf(vectors)| == |vectors[0]|
    ensures MeanOf(vectors)[c] * (|vectors| as real) == ColumnTotal(vectors, c)
  {
    ColumnSumScales(vectors, c, |vectors| as real);
  }

  /** The mean of a single vector is that vector. */
  lemma MeanOfSingleton(p: Point)
    ensures MeanDefined([p]) && MeanOf([p]) == p
  {
    forall c | 0 <= c < |p|
      ensures MeanOf([p])[c] == p[c]
    {
      assert [p][..0] == [];
      assert ColumnSum([p], c, 1.0) == 0.0 + p[c] / 1.0;
    }
  }
}
