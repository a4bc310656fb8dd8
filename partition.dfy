/** Grouping the points by label before the update stage (servidorTA4.go:112-118). */
module Partition {
  import opened Distance

  /** The indices i with labels[i] == j, in increasing order. */
  function Members(labels: seq<int>, j: int): (r: seq<nat>)
    ensures forall t :: 0 <= t < |r| ==> r[t] < |labels| && labels[r[t]] == j
    ensures forall s, t :: 0 <= s < t < |r| ==> r[s] < r[t]
  {
    if labels == [] then []
    else
      var n := |labels| - 1;
      Members(labels[..n], j) + (if labels[n] == j then [n] else [])
  }

  /** The points at the given indices, in that order. */
  function Gather(pts: seq<Point>, idx: seq<nat>): (r: seq<Point>)
    requires forall t :: 0 <= t < |idx| ==> idx[t] < |pts|
  {
    seq(|idx|, t requires 0 <= t < |idx| => pts[idx[t]])
  }

  /** clusters[j]: the points labelled j, in dataset order. */
  function Cluster(pts: seq<Point>, labels: seq<int>, j: int): seq<Point>
    requires |labels| <= |pts|
  {
    Gather(pts, Members(labels, j))
  }

  /** Every index labelled j is listed in Members(labels, j). */
  lemma {:induction false} MembersComplete(labels: seq<int>, j: int, i: nat)
    requires i < |labels| && labels[i] == j
    ensures i in Members(labels, j)
  {
    var n := |labels| - 1;
    if i < n {
      assert labels[..n][i] == labels[i];
      MembersComplete(labels[..n], j, i);
    }
  }

  /** Each point is in exactly one cluster: the one its label names. */
  lemma InExactlyOneCluster(labels: seq<int>, i: nat, j: int)
    requires i < |labels|
    ensures i in Members(labels, j) <==> labels[i] == j
  {
    if labels[i] == j {
      MembersComplete(labels, j, i);
    }
  }

  /** Σ_{j < k} |Members(labels, j)|. */
  function TotalSize(labels: seq<int>, k: nat): nat
  {
    if k == 0 then 0 else TotalSize(labels, k - 1) + |Members(labels, k - 1)|
  }

  lemma {:induction false} TotalSizeGrows(labels: seq<int>, k: nat)
    requires labels != []
    ensures TotalSize(labels, k) ==
      TotalSize(labels[..|labels| - 1], k) + (if 0 <= labels[|labels| - 1] < k then 1 else 0)
  {
    if k > 0 {
      TotalSizeGrows(labels, k - 1);
    }
  }

  /** When every label is in [0, k), the cluster sizes add up to the number of points. */
  lemma {:induction false} ClusterSizesSum(labels: seq<int>, k: nat)
    requires forall i :: 0 <= i < |labels| ==> 0 <= labels[i] < k
    ensures TotalSize(labels, k) == |labels|
  {
    if labels == [] {
      TotalSizeEmpty(labels, k);
    } else {
      var n := |labels| - 1;
      var init := labels[..n];
      assert forall i :: 0 <= i < |init| ==> init[i] == labels[i];
      ClusterSizesSum(init, k);
      TotalSizeGrows(labels, k);
      assert 0 <= labels[n] < k;
    }
  }

  lemma {:induction false} TotalSizeEmpty(labels: seq<int>, k: nat)
    requires labels == []
    ensures TotalSize(labels, k) == 0
  {
    if k > 0 {
      TotalSizeEmpty(labels, k - 1);
      assert |Members(labels, k - 1)| == 0;
    }
  }

  /**
   * The partition loop: a fresh list per cluster, then each point appended to the list its
   * label names, in dataset order.
   */
  method PartitionStage(pts: seq<Point>, assignments: array<int>, k: nat) returns (clusters: array<seq<Point>>)
    requires assignments.Length == |pts|
    requires forall i :: 0 <= i < assignments.Length ==> 0 <= assignments[i] < k
    ensures fresh(clusters) && clusters.Length == k
    ensures forall j :: 0 <= j < k ==> clusters[j] == Cluster(pts, assignments[..], j)
  {
    clusters := new seq<Point>[k](_ => []);
    var i := 0;
    while i < |pts|
      invariant 0 <= i <= |pts|
      invariant forall j :: 0 <= j < k ==> clusters[j] == Cluster(pts, assignments[..i], j)
    {
      var idx := assignments[i];
      assert assignments[..i + 1][..i] == assignments[..i];
      forall j | 0 <= j < k
        ensures Cluster(pts, assignments[..i + 1], j) ==
          Cluster(pts, assignments[..i], j) + (if j == idx then [pts[i]] else [])
      {
        var before := Members(assignments[..i], j);
        assert Members(assignments[..i + 1], j) == before + (if j == idx then [i] else []);
      }
      clusters[idx] := clusters[idx] + [pts[i]];
      i := i + 1;
    }
    assert assignments[..|pts|] == assignments[..];
  }
}
