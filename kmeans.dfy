/** The fixed-budget k-means loop (servidorTA4.go, kMeans) with its goroutine stages run in sequence. */
module KMeans {
  import opened Optional
  import opened Distance
  import opened Initialization
  import opened Averaging
  import opened Assignment
  import opened Partition

  /** The centroids and the assignment vector kMeans carries from one iteration to the next. */
  datatype State = State(centroids: seq<Point>, assignments: seq<int>)

  /** Every cluster of the labelling has a mean: it is not empty and no member is longer than its first. */
  predicate AllMeansDefined(pts: seq<Point>, labels: seq<int>, k: nat)
    requires |labels| <= |pts|
  {
    forall j :: 0 <= j < k ==> MeanDefined(Cluster(pts, labels, j))
  }

  /**
   * One iteration: assignment, partition and update. None when the source fails with an index
   * out of range: reading centroids[0] with no centroid, a centroid shorter than a point in
   * squaredDistance, mean reading vectors[0] of an empty cluster, or mean writing past the
   * end of its result for a member longer than the cluster's first member.
   */
  function Step(pts: seq<Point>, cs: seq<Point>): (r: Option<State>)
    ensures r.Some? ==>
      && |r.value.centroids| == |cs|
      && |r.value.assignments| == |pts|
      && forall i :: 0 <= i < |pts| ==> 0 <= r.value.assignments[i] < |cs|
  {
    if (|pts| > 0 && |cs| == 0) || !AllReach(pts, cs) then None
    else Update(pts, Assign(pts, cs), |cs|)
  }

  /** The partition and update stages for the labelling `labels` of the points into k clusters. */
  function Update(pts: seq<Point>, labels: seq<int>, k: nat): Option<State>
    requires |labels| <= |pts|
  {
    if AllMeansDefined(pts, labels, k) then
      Some(State(seq(k, j requires 0 <= j < k => MeanOf(Cluster(pts, labels, j))), labels))
    else
      None
  }

  /** The state after `iters` more iterations, with no early exit; None once an iteration fails. */
  function Run(pts: seq<Point>, s: State, iters: int): (r: Option<State>)
    ensures r.Some? ==> |r.value.centroids| == |s.centroids|
    ensures r.Some? && iters >= 1 ==> |r.value.assignments| == |pts|
    decreases iters
  {
    if iters <= 0 then Some(s)
    else
      match Step(pts, s.centroids)
      case None => None
      case Some(next) => Run(pts, next, iters - 1)
  }

  /** The all-zero assignment vector make([]int, n) starts with. */
  function Zeros(n: nat): seq<int>
  {
    seq(n, _ => 0)
  }

  /**
   * An iteration that succeeds keeps k centroids, gives each of the n points a label in [0, k)
   * that names its nearest current centroid (lowest index on ties), leaves no cluster empty (nor
   * without a mean) and makes each new centroid the mean of its cluster.
   */
  lemma StepSucceeds(pts: seq<Point>, cs: seq<Point>)
    requires Step(pts, cs).Some?
    ensures var next := Step(pts, cs).value;
      && |next.centroids| == |cs| && |next.assignments| == |pts|
      && AllReach(pts, cs)
      && (forall i :: 0 <= i < |pts| ==>
            0 <= next.assignments[i] < |cs| && IsNearest(pts[i], cs, next.assignments[i]))
      && (forall j :: 0 <= j < |cs| ==>
            MeanDefined(Cluster(pts, next.assignments, j))
            && next.centroids[j] == MeanOf(Cluster(pts, next.assignments, j)))
  {
  }

  /**
   * An empty cluster makes the iteration fail: mean indexes vectors[0] of the empty list
   * instead of producing a zero vector.
   */
  lemma EmptyClusterFails(pts: seq<Point>, cs: seq<Point>, j: nat)
    requires 1 <= |cs| && AllReach(pts, cs) && j < |cs|
    requires Members(Assign(pts, cs), j) == []
    ensures Step(pts, cs) == None
  {
    assert !MeanDefined(Cluster(pts, Assign(pts, cs), j));
  }

  /**
   * A run of at least one iteration is the run with one iteration fewer, followed by a
   * successful iteration from the centroids that run ends with.
   */
  lemma {:induction false} RunLast(pts: seq<Point>, s: State, iters: int)
    requires iters >= 1 && Run(pts, s, iters).Some?
    ensures Run(pts, s, iters - 1).Some?
    ensures Step(pts, Run(pts, s, iters - 1).value.centroids) == Run(pts, s, iters)
    decreases iters
  {
    if iters > 1 {
      RunLast(pts, Step(pts, s.centroids).value, iters - 1);
    }
  }

  /**
   * After at least one successful iteration the result r is self-consistent: k centroids, n
   * labels in [0, k), every label the nearest of the centroids the last iteration started
   * from, and every final centroid the mean of the points carrying its label.
   */
  lemma RunResult(pts: seq<Point>, s: State, iters: int, r: State)
    requires iters >= 1 && Run(pts, s, iters) == Some(r)
    ensures |r.centroids| == |s.centroids| && |r.assignments| == |pts|
    ensures forall i :: 0 <= i < |pts| ==> 0 <= r.assignments[i] < |r.centroids|
    ensures Run(pts, s, iters - 1).Some?
    ensures var prev := Run(pts, s, iters - 1).value.centroids;
      && |prev| == |r.centroids| && AllReach(pts, prev)
      && forall i :: 0 <= i < |pts| ==> IsNearest(pts[i], prev, r.assignments[i])
    ensures forall j :: 0 <= j < |r.centroids| ==>
      MeanDefined(Cluster(pts, r.assignments, j)) && r.centroids[j] == MeanOf(Cluster(pts, r.assignments, j))
  {
    RunLast(pts, s, iters);
    StepSucceeds(pts, Run(pts, s, iters - 1).value.centroids);
  }

  /** A state that one iteration reproduces is kept by any number of further iterations. */
  lemma {:induction false} FixedPointStays(pts: seq<Point>, s: State, iters: int)
    requires Step(pts, s.centroids) == Some(s)
    ensures Run(pts, s, iters) == Some(s)
    decreases iters
  {
    if iters > 0 {
      FixedPointStays(pts, s, iters - 1);
    }
  }

  /**
   * The update stage with its per-cluster goroutines run one after another: centroid j becomes
   * the mean of cluster j, unless some cluster has no mean, which makes the source fail.
   */
  method UpdateStage(clusters: array<seq<Point>>, centroids: array<Point>) returns (ok: bool)
    requires clusters.Length == centroids.Length
    modifies centroids
    ensures ok == forall j :: 0 <= j < clusters.Length ==> MeanDefined(clusters[j])
    ensures ok ==> forall j :: 0 <= j < centroids.Length ==> centroids[j] == MeanOf(clusters[j])
  {
    var j := 0;
    while j < clusters.Length
      invariant 0 <= j <= clusters.Length
      invariant forall t :: 0 <= t < j ==> MeanDefined(clusters[t]) && centroids[t] == MeanOf(clusters[t])
    {
      if !MeanDefined(clusters[j]) {
        return false;
      }
      centroids[j] := Mean(clusters[j]);
      j := j + 1;
    }
    return true;
  }

  /**
   * The partition and update stages, run on `labels`, compute what Update describes: `ok` says
   * whether every cluster has a mean, and then `updated` holds the means.
   */
  lemma StagesMakeUpdate(pts: seq<Point>, labels: seq<int>, clusters: seq<seq<Point>>, updated: seq<Point>, ok: bool)
    requires |labels| == |pts| && |clusters| == |updated|
    requires forall j :: 0 <= j < |clusters| ==> clusters[j] == Cluster(pts, labels, j)
    requires ok == forall j :: 0 <= j < |clusters| ==> MeanDefined(clusters[j])
    requires ok ==> forall j :: 0 <= j < |clusters| ==> updated[j] == MeanOf(clusters[j])
    ensures ok == Update(pts, labels, |clusters|).Some?
    ensures ok ==> Update(pts, labels, |clusters|) == Some(State(updated, labels))
  {
    var k := |clusters|;
    if ok {
      assert AllMeansDefined(pts, labels, k);
      assert updated == seq(k, j requires 0 <= j < k => MeanOf(Cluster(pts, labels, j)));
    } else {
      assert !AllMeansDefined(pts, labels, k);
    }
  }

  /**
   * One pass of kMeans' loop body: the assignment stage overwrites `assignments`, the
   * partition groups the points, the update stage overwrites `centroids`. `ok` is false when
   * the source would fail with an index out of range.
   */
  method Iteration(pts: seq<Point>, centroids: array<Point>, assignments: array<int>) returns (ok: bool)
    requires assignments.Length == |pts|
    modifies centroids, assignments
    ensures ok == Step(pts, old(centroids[..])).Some?
    ensures ok ==> Step(pts, old(centroids[..])) == Some(State(centroids[..], assignments[..]))
  {
    var k := centroids.Length;
    if (|pts| > 0 && k == 0) || !AllReach(pts, centroids[..]) {
      return false;
    }
    AssignStage(pts, centroids, assignments);
    var clusters := PartitionStage(pts, assignments, k);
    ghost var labels := assignments[..];
    ok := UpdateStage(clusters, centroids);
    StagesMakeUpdate(pts, labels, clusters[..], centroids[..], ok);
  }

  /**
   * The `for iter := 0; iter < maxIterations; iter++` loop of kMeans, with no early exit:
   * `ok` is false when an iteration fails, otherwise the arrays hold the state Run describes.
   */
  method RunIterations(pts: seq<Point>, centroids: array<Point>, assignments: array<int>, maxIterations: int)
    returns (ok: bool)
    requires assignments.Length == |pts|
    modifies centroids, assignments
    ensures var r := Run(pts, State(old(centroids[..]), old(assignments[..])), maxIterations);
      ok == r.Some? && (ok ==> State(centroids[..], assignments[..]) == r.value)
  {
    ghost var goal := Run(pts, State(centroids[..], assignments[..]), maxIterations);
    ghost var remaining := maxIterations;
    ok := true;
    var iter := 0;
    while iter < maxIterations
      invariant 0 <= iter && (iter <= maxIterations || iter == 0)
      invariant remaining == maxIterations - iter
      invariant assignments.Length == |pts|
      invariant goal == Run(pts, State(centroids[..], assignments[..]), remaining)
    {
      ghost var before := State(centroids[..], assignments[..]);
      ok := Iteration(pts, centroids, assignments);
      if !ok {
        assert Run(pts, before, remaining) == None;
        return;
      }
      ghost var after := State(centroids[..], assignments[..]);
      assert Run(pts, before, remaining) == Run(pts, after, remaining - 1);
      iter := iter + 1;
      remaining := remaining - 1;
    }
  }

  /**
   * kMeans: initial centroids from the draws, an all-zero assignment vector, then
   * maxIterations rounds of assignment and update. `ok` is false when the source would fail
   * with an index out of range; otherwise the arrays hold the state Run describes. The
   * result lives in fresh arrays and the dataset is only read.
   */
  method KMeans(data: array<Point>, k: nat, maxIterations: int, draws: seq<int>)
    returns (centroids: array<Point>, assignments: array<int>, ok: bool)
    requires |draws| == k && ValidDraws(data[..], draws)
    ensures fresh(centroids) && fresh(assignments) && unchanged(data)
    ensures var r := Run(data[..], State(InitialCentroids(data[..], draws), Zeros(data.Length)), maxIterations);
      ok == r.Some? && (ok ==> centroids[..] == r.value.centroids && assignments[..] == r.value.assignments)
    ensures maxIterations <= 0 ==>
      ok && centroids[..] == InitialCentroids(data[..], draws) && assignments[..] == Zeros(data.Length)
  {
    centroids := InitializeCentroids(data, k, draws);
    assignments := new int[data.Length](_ => 0);
    assert assignments[..] == Zeros(data.Length);
    ok := RunIterations(data[..], centroids, assignments, maxIterations);
  }
}
