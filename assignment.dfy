/** The assignment stage of kMeans: each point goes to its nearest centroid (servidorTA4.go:83-105). */
module Assignment {
  import opened Distance

  /** Every centroid is at least as long as p, so squaredDistance(p, centroid) reads no missing coordinate. */
  predicate Reaches(p: Point, cs: seq<Point>)
  {
    forall j :: 0 <= j < |cs| ==> |p| <= |cs[j]|
  }

  /** Every point reaches every centroid. */
  predicate AllReach(pts: seq<Point>, cs: seq<Point>)
  {
    forall i :: 0 <= i < |pts| ==> Reaches(pts[i], cs)
  }

  /**
   * Among the first m centroids, a is at minimal distance from p and no lower index is as
   * close: the argmin in which the lowest index wins a tie.
   */
  predicate NearestAmong(p: Point, cs: seq<Point>, a: int, m: nat)
    requires m <= |cs| && Reaches(p, cs)
  {
    0 <= a < m
    && (forall j :: 0 <= j < m ==> Dist(p, cs[a]) <= Dist(p, cs[j]))
    && (forall j :: 0 <= j < a ==> Dist(p, cs[a]) < Dist(p, cs[j]))
  }

  /** a is the label the assignment stage gives p. */
  predicate IsNearest(p: Point, cs: seq<Point>, a: int)
    requires Reaches(p, cs)
  {
    NearestAmong(p, cs, a, |cs|)
  }

  /** The argmin over the first m centroids. */
  function NearestPrefix(p: Point, cs: seq<Point>, m: nat): (a: nat)
    requires 1 <= m <= |cs| && Reaches(p, cs)
    ensures NearestAmong(p, cs, a, m)
  {
    if m == 1 then 0
    else
      var b := NearestPrefix(p, cs, m - 1);
      if Dist(p, cs[m - 1]) < Dist(p, cs[b]) then m - 1 else b
  }

  /** The label of p among all centroids. */
  function Nearest(p: Point, cs: seq<Point>): (a: nat)
    requires 1 <= |cs| && Reaches(p, cs)
    ensures IsNearest(p, cs, a)
  {
    NearestPrefix(p, cs, |cs|)
  }

  /** Assign is the only labelling that gives every point its nearest centroid. */
  lemma AssignCharacterized(pts: seq<Point>, cs: seq<Point>, labels: seq<int>)
    requires |pts| > 0 ==> 1 <= |cs|
    requires AllReach(pts, cs)
    ensures labels == Assign(pts, cs) <==>
      |labels| == |pts| && forall i :: 0 <= i < |pts| ==> IsNearest(pts[i], cs, labels[i])
  {
    if |labels| == |pts| && forall i :: 0 <= i < |pts| ==> IsNearest(pts[i], cs, labels[i]) {
      forall i | 0 <= i < |pts|
        ensures labels[i] == Assign(pts, cs)[i]
      {
        NearestUnique(pts[i], cs, labels[i], Assign(pts, cs)[i]);
      }
    }
  }

  /** The minimal distance and the lowest-index tie-break determine the label. */
  lemma NearestUnique(p: Point, cs: seq<Point>, a: int, b: int)
    requires Reaches(p, cs) && IsNearest(p, cs, a) && IsNearest(p, cs, b)
    ensures a == b
  {
    assert Dist(p, cs[a]) <= Dist(p, cs[b]) && Dist(p, cs[b]) <= Dist(p, cs[a]);
  }

  /** The goroutine for one point (servidorTA4.go:86-94): a strict `<` keeps the first minimum. */
  method NearestCentroid(p: Point, cs: seq<Point>) returns (assignment: int)
    requires 1 <= |cs| && Reaches(p, cs)
    ensures IsNearest(p, cs, assignment)
  {
    var minDist := SquaredDistance(p, cs[0]);
    assignment := 0;
    var j := 1;
    while j < |cs|
      invariant 1 <= j <= |cs|
      invariant NearestAmong(p, cs, assignment, j)
      invariant minDist == Dist(p, cs[assignment])
    {
      var dist := SquaredDistance(p, cs[j]);
      if dist < minDist {
        minDist := dist;
        assignment := j;
      }
      j := j + 1;
    }
  }

  /** The labels of all points: one per point, each its point's nearest centroid. */
  function Assign(pts: seq<Point>, cs: seq<Point>): (labels: seq<int>)
    requires |pts| > 0 ==> 1 <= |cs|
    requires AllReach(pts, cs)
    ensures |labels| == |pts|
    ensures forall i :: 0 <= i < |pts| ==> IsNearest(pts[i], cs, labels[i])
  {
    seq(|pts|, i requires 0 <= i < |pts| => Nearest(pts[i], cs))
  }

  /**
   * The assignment stage with its per-point goroutines run one after another: every slot of
   * assignments is overwritten with its point's nearest centroid.
   */
  method AssignStage(pts: seq<Point>, centroids: array<Point>, assignments: array<int>)
    requires assignments.Length == |pts|
    requires |pts| > 0 ==> 1 <= centroids.Length
    requires AllReach(pts, centroids[..])
    modifies assignments
    ensures assignments[..] == Assign(pts, centroids[..])
    ensures forall i :: 0 <= i < |pts| ==> 0 <= assignments[i] < centroids.Length
  {
    var i := 0;
    while i < |pts|
      invariant 0 <= i <= |pts|
      invariant forall t :: 0 <= t < i ==> assignments[t] == Assign(pts, centroids[..])[t]
      invariant forall t :: 0 <= t < i ==> 0 <= assignments[t] < centroids.Length
    {
      var a := NearestCentroid(pts[i], centroids[..]);
      NearestUnique(pts[i], centroids[..], a, Assign(pts, centroids[..])[i]);
      assignments[i] := a;
      i := i + 1;
    }
  }
}
