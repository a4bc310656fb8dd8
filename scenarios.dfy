/** Concrete runs of the k-means model. */
module Scenarios {
  import opened Optional
  import opened Distance
  import opened Initialization
  import opened Assignment
  import opened Partition
  import opened KMeans

  lemma TwinCentroids()
    ensures InitialCentroids([[0.0], [1.0]], [0, 0]) == [[0.0], [0.0]]
  {
    var cs := InitialCentroids([[0.0], [1.0]], [0, 0]);
    assert CopyRow(1, [0.0]) == [0.0];
    assert cs[0] == [0.0] && cs[1] == [0.0];
  }

  lemma TiesGoToCentroidZero()
    ensures AllReach([[0.0], [1.0]], [[0.0], [0.0]])
    ensures Assign([[0.0], [1.0]], [[0.0], [0.0]]) == [0, 0]
  {
    var pts: seq<Point> := [[0.0], [1.0]];
    var cs: seq<Point> := [[0.0], [0.0]];
    assert AllReach(pts, cs);
    assert IsNearest(pts[0], cs, 0);
    assert IsNearest(pts[1], cs, 0);
    AssignCharacterized(pts, cs, [0, 0]);
  }

  /**
   * Sampling with replacement can draw the same row twice. With the rows [0] and [1] and the
   * draws [0, 0], both centroids are [0]; every point ties and goes to centroid 0, cluster 1
   * stays empty, and the first iteration fails in mean instead of producing a zero vector.
   */
  lemma DuplicateDrawFails()
    ensures Run([[0.0], [1.0]], State(InitialCentroids([[0.0], [1.0]], [0, 0]), Zeros(2)), 1) == None
  {
    var pts: seq<Point> := [[0.0], [1.0]];
    var cs: seq<Point> := [[0.0], [0.0]];
    TwinCentroids();
    TiesGoToCentroidZero();
    assert Members([0, 0], 1) == [];
    EmptyClusterFails(pts, cs, 1);
  }
}
