/** Points and the squared Euclidean distance between them (servidorTA4.go, squaredDistance). */
module Distance {

  /** One dataset row or centroid: float64 coordinates modelled as reals. */
  type Point = seq<real>

  /** The sum over coordinates i < m of (p[i] - q[i])². */
  function SumSq(p: Point, q: Point, m: nat): real
    requires m <= |p| && m <= |q|
  {
    if m == 0 then 0.0 else SumSq(p, q, m - 1) + (p[m - 1] - q[m - 1]) * (p[m - 1] - q[m - 1])
  }

  /** squaredDistance(p, q): the loop runs over the coordinates of p, so q must be at least as long. */
  function Dist(p: Point, q: Point): real
    requires |p| <= |q|
  {
    SumSq(p, q, |p|)
  }

  /** The accumulating loop of squaredDistance. */
  method SquaredDistance(p1: Point, p2: Point) returns (sum: real)
    requires |p1| <= |p2|
    ensures sum == Dist(p1, p2)
  {
    sum := 0.0;
    var i := 0;
    while i < |p1|
      invariant 0 <= i <= |p1|
      invariant sum == SumSq(p1, p2, i)
    {
      sum := sum + (p1[i] - p2[i]) * (p1[i] - p2[i]);
      i := i + 1;
    }
  }

  lemma {:induction false} SumSqNonNegative(p: Point, q: Point, m: nat)
    requires m <= |p| && m <= |q|
    ensures SumSq(p, q, m) >= 0.0
  {
    if m > 0 {
      SumSqNonNegative(p, q, m - 1);
      Square(p[m - 1] - q[m - 1]);
    }
  }

  lemma Square(x: real)
    ensures x * x >= 0.0
  {
  }

  /** A squared distance is never negative. */
  lemma DistNonNegative(p: Point, q: Point)
    requires |p| <= |q|
    ensures Dist(p, q) >= 0.0
  {
    SumSqNonNegative(p, q, |p|);
  }

  lemma {:induction false} SumSqOfEqualPrefix(p: Point, q: Point, m: nat)
    requires m <= |p| && m <= |q|
    requires p[..m] == q[..m]
    ensures SumSq(p, q, m) == 0.0
  {
    if m > 0 {
      assert p[..m - 1] == p[..m][..m - 1] && q[..m - 1] == q[..m][..m - 1];
      assert p[m - 1] == p[..m][m - 1] && q[m - 1] == q[..m][m - 1];
      SumSqOfEqualPrefix(p, q, m - 1);
    }
  }

  /** A point is at distance zero from any point that starts with it, in particular from itself. */
  lemma DistToSelf(p: Point, q: Point)
    requires |p| <= |q| && q[..|p|] == p
    ensures Dist(p, q) == 0.0
    ensures Dist(p, p) == 0.0
  {
    assert p[..|p|] == p;
    SumSqOfEqualPrefix(p, q, |p|);
    SumSqOfEqualPrefix(p, p, |p|);
  }

  lemma {:induction false} SumSqSymmetric(p: Point, q: Point, m: nat)
    requires m <= |p| && m <= |q|
    ensures SumSq(p, q, m) == SumSq(q, p, m)
  {
    if m > 0 {
      SumSqSymmetric(p, q, m - 1);
    }
  }

  /** Between points of one dimension the distance is symmetric. */
  lemma DistSymmetric(p: Point, q: Point)
    requires |p| == |q|
    ensures Dist(p, q) == Dist(q, p)
  {
    SumSqSymmetric(p, q, |p|);
  }
}
