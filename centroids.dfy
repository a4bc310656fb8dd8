/** Random-index centroid initialisation (servidorTA4.go, initializeCentroids). */
module Initialization {
  import opened Distance

  /** make([]float64, n) followed by copy(row, src): the first min(n, |src|) coordinates of src, then zeros. */
  function CopyRow(n: nat, src: Point): Point
  {
    seq(n, i requires 0 <= i < n => if i < |src| then src[i] else 0.0)
  }

  /** Every row of the dataset has the dimension of the first one. */
  predicate Rectangular(data: seq<Point>)
  {
    forall i :: 0 <= i < |data| ==> |data[i]| == |data[0]|
  }

  /** Each draw is a result of rand.Intn(len(data)). */
  predicate ValidDraws(data: seq<Point>, draws: seq<int>)
  {
    forall i :: 0 <= i < |draws| ==> 0 <= draws[i] < |data|
  }

  /** The centroids initializeCentroids builds from the random indices `draws`. */
  function InitialCentroids(data: seq<Point>, draws: seq<int>): seq<Point>
    requires ValidDraws(data, draws)
  {
    seq(|draws|, i requires 0 <= i < |draws| => assert 0 <= draws[i] < |data|; CopyRow(|data[0]|, data[draws[i]]))
  }

  /**
   * One centroid per draw, each a copy of the drawn row; drawing with replacement, the same
   * row may be drawn twice. The centroids live in a fresh array, never in the dataset's storage.
   */
  method InitializeCentroids(data: array<Point>, k: nat, draws: seq<int>) returns (centroids: array<Point>)
    requires |draws| == k && ValidDraws(data[..], draws)
    ensures fresh(centroids) && centroids.Length == k
    ensures centroids[..] == InitialCentroids(data[..], draws)
  {
    centroids := new Point[k];
    var i := 0;
    while i < k
      invariant 0 <= i <= k
      invariant forall j :: 0 <= j < i ==> centroids[j] == InitialCentroids(data[..], draws)[j]
    {
      var idx := draws[i];
      centroids[i] := CopyRow(|data[0]|, data[idx]);
      i := i + 1;
    }
  }

  /**
   * On a rectangular dataset every initial centroid is the drawn data point itself, with the
   * dataset's dimension: k rows, each equal to data[idx] for an index idx in [0, n).
   */
  lemma InitialCentroidsAreDataPoints(data: seq<Point>, draws: seq<int>)
    requires ValidDraws(data, draws) && Rectangular(data)
    ensures |InitialCentroids(data, draws)| == |draws|
    ensures forall i :: 0 <= i < |draws| ==>
      InitialCentroids(data, draws)[i] == data[draws[i]] && |InitialCentroids(data, draws)[i]| == |data[0]|
  {
    forall i | 0 <= i < |draws|
      ensures InitialCentroids(data, draws)[i] == data[draws[i]]
    {
      assert 0 <= draws[i] < |data|;
      assert |data[draws[i]]| == |data[0]|;
    }
  }
}
