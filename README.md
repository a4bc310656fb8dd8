# k-means clustering server and CSV client, modelled in Dafny

The repository is a small Go client/server pair. The server (`servidorTA4.go`) receives a
dataset, runs a fixed number of k-means iterations and returns the centroids and the label of
every point. The client (`clienteTA4.go`) reads a CSV file into an identifier column and a
feature matrix, and writes the labelled rows back out.

This project models:

- **the clustering engine** of `servidorTA4.go`, in the imperative form of the source:
  - `squaredDistance`, an accumulating loop (`Distance.SquaredDistance`);
  - `initializeCentroids`, which fills a fresh array of copies (`Initialization.InitializeCentroids`);
  - `mean`, nested accumulating loops into a zeroed array (`Averaging.Mean`);
  - the body of `kMeans`' iteration loop: the assignment stage overwrites the `assignments`
    array in place (`Assignment.AssignStage`), the points are grouped into per-cluster lists
    (`Partition.PartitionStage`), and the update stage overwrites the `centroids` array in
    place (`KMeans.UpdateStage`);
  - the loop itself (`KMeans.RunIterations`) and the whole call (`KMeans.KMeans`).

  Each method is proved equal to a function that states its result: `Dist`, `InitialCentroids`,
  `MeanOf`, `Assign`, `Cluster`, `Step` (one iteration) and `Run` (the fixed budget of
  iterations). Lemmas state what the source promises about those functions.
- **the client's table reshaping** in `clienteTA4.go`: the loop of `readDataset` after
  `ReadAll`, and the rows `saveResults` hands to the CSV writer. `strconv.ParseFloat` and
  `fmt.Sprintf("%.2f")` are function parameters (`parse`, `format`). `strconv.Itoa` is modelled
  exactly (`Decimal.DecimalString`), with its round trip proved.

Modelling choices:

- float64 values are `real`, so there is no rounding.
- Each call of `rand.Intn(len(data))` is one element of the parameter `draws`, which must lie
  in `[0, n)`.
- The goroutines of each stage write disjoint slots (`assignments[i]` or `centroids[j]`) and
  are joined before the next stage, so the stages are modelled as sequential loops.
- Where the source fails with an index out of range during an iteration, the model reports
  failure: `ok == false` from the methods, `None` from `Step` and `Run`. This happens in four
  places:
  - `centroids[0]` is read when there are no centroids (line 86);
  - a centroid is shorter than a point in `squaredDistance` (line 32);
  - `mean` reads `vectors[0]` of an empty cluster (lines 52 and 126);
  - `mean` writes past the end of `meanVector` when a cluster member is longer than the
    cluster's first member (line 55).

  Failures before the first iteration are excluded by preconditions instead; "## Left out"
  lists them.
- Rows are values (`seq<real>`), so one row cannot alias another. The dataset is an `array`
  that `KMeans` has no right to modify. Its results are fresh arrays.

Behaviour at the edges, as the code has it:

- Empty cluster: `mean` fails at `vectors[0]` (servidorTA4.go:52), so no zero vector is
  produced. `Scenarios.DuplicateDrawFails` shows such a run: two equal draws, a tie that sends
  every point to centroid 0, and a failure in the first iteration.
- Initialisation needs only `n >= 1` when `k >= 1`, because the draws are with replacement;
  `k` may exceed `n`.
- `maxIterations <= 0` returns the initial centroids and the all-zero assignments from `make`.

## Model

| member | source | states |
|---|---|---|
| `Distance.SquaredDistance` | servidorTA4.go:29-35 | The loop computes the sum over the coordinates of p1 of (p1[i]-p2[i])², and requires p2 to be at least as long as p1. |
| `Distance.DistNonNegative` | servidorTA4.go:29-35 | A squared distance is never negative. |
| `Distance.DistToSelf` | servidorTA4.go:29-35 | The distance is 0 from a point to itself, and to any point that starts with it. |
| `Distance.DistSymmetric` | servidorTA4.go:29-35 | Between points of the same dimension the distance is symmetric. |
| `Initialization.InitializeCentroids` | servidorTA4.go:38-46 | The result is a fresh array of exactly k rows. Row i is a copy of the drawn row data[draws[i]], cut or zero-padded to len(data[0]) as `make` plus `copy` do. |
| `Initialization.InitialCentroidsAreDataPoints` | servidorTA4.go:38-46 | On a rectangular dataset, each initial centroid equals the drawn point data[idx] for an idx in [0, n) and has the dataset's dimension. Equal draws give duplicates. |
| `Averaging.Mean` | servidorTA4.go:50-58 | The result has len(vectors[0]) coordinates. Coordinate c is the sum of v[c]/n over the vectors. Requires a non-empty input with no vector longer than the first. |
| `Averaging.MeanIsAverage` | servidorTA4.go:50-58 | Coordinate c of the mean, times n, is the sum of coordinate c: summing the divided terms gives the arithmetic mean. |
| `Averaging.MeanOfSingleton` | servidorTA4.go:50-58 | The mean of a one-point cluster is that point. |
| `Assignment.NearestPrefix` | servidorTA4.go:86-94 | The argmin over the first m centroids is below m, at minimal distance, and strictly closer than every lower index. |
| `Assignment.NearestCentroid` | servidorTA4.go:86-94 | The per-point scan returns a label in [0, k) at minimal distance from the point. No lower index is equally close, because the comparison is a strict `<`. |
| `Assignment.NearestUnique` | servidorTA4.go:87-93 | The minimal distance plus the lowest-index tie-break determine the label uniquely. |
| `Assignment.Assign` | servidorTA4.go:83-105 | There is one label per point, and each label names the point's nearest centroid, with the lowest index winning ties. |
| `Assignment.AssignCharacterized` | servidorTA4.go:83-105 | A labelling equals Assign exactly when it has one label per point and every label is the nearest centroid with the tie-break. |
| `Assignment.AssignStage` | servidorTA4.go:80-109 | Every slot of `assignments` is overwritten with Assign of the current centroids. Each label is in [0, k). |
| `Partition.Members` | servidorTA4.go:116-118 | The indices listed for cluster j are valid, carry label j, and are in strictly increasing order. |
| `Partition.MembersComplete` | servidorTA4.go:116-118 | Every index with label j is listed in cluster j. |
| `Partition.InExactlyOneCluster` | servidorTA4.go:112-118 | Point i is in cluster j if and only if its label is j, so each point is in exactly one cluster. |
| `Partition.ClusterSizesSum` | servidorTA4.go:112-118 | When every label is in [0, k), the k cluster sizes add up to n. |
| `Partition.PartitionStage` | servidorTA4.go:112-118 | The result is a fresh array of k lists. List j holds the points labelled j, in dataset order. |
| `KMeans.Step` | servidorTA4.go:79-144 | When one iteration succeeds, it keeps the number of centroids and gives one label per point, each in [0, k). |
| `KMeans.StepSucceeds` | servidorTA4.go:79-144 | A successful iteration keeps k centroids and gives n labels in [0, k), each the nearest current centroid. No cluster is left empty, and each new centroid is the mean of its cluster. |
| `KMeans.EmptyClusterFails` | servidorTA4.go:120-135 | If a cluster receives no point, the iteration fails, because `mean` indexes vectors[0] (line 52). It does not produce a zero vector. |
| `KMeans.Run` | servidorTA4.go:71-145 | A run that does not fail keeps the number of centroids. After one or more iterations it holds one label per point, because every iteration reassigns all points; `RunResult` adds that each label is in [0, k). |
| `KMeans.RunLast` | servidorTA4.go:71-145 | A run of at least one iteration succeeds only if the run with one iteration fewer succeeds, and its result is one more iteration from the centroids that shorter run ends with. |
| `KMeans.RunResult` | servidorTA4.go:62-147 | After one or more successful iterations, the result has k centroids and n labels in [0, k). Each label is the nearest of the centroids the last iteration started from, the result of the run with one iteration fewer. Each final centroid is the mean of the points that carry its label. |
| `KMeans.FixedPointStays` | servidorTA4.go:71-145 | With no convergence check, a state that one iteration reproduces stays the result for any budget. |
| `KMeans.UpdateStage` | servidorTA4.go:120-144 | Reports success exactly when every cluster has a mean. On success, centroid j is replaced by the mean of cluster j. |
| `KMeans.StagesMakeUpdate` | servidorTA4.go:112-144 | The partition and update stages together compute Update: they succeed exactly when it does, with the same centroids and labels. |
| `KMeans.Iteration` | servidorTA4.go:72-144 | One loop body changes the two arrays exactly as Step says, and fails exactly when Step does. |
| `KMeans.RunIterations` | servidorTA4.go:71-145 | The loop runs maxIterations times with no early exit. It ends in the state Run gives, and fails exactly when Run does. |
| `KMeans.KMeans` | servidorTA4.go:62-148 | The result is Run from the initial centroids and all-zero labels, in fresh arrays, with the dataset unchanged. With maxIterations <= 0 it is the initial centroids with all-zero assignments. |
| `Scenarios.DuplicateDrawFails` | servidorTA4.go:41-52 | With rows [0] and [1] and draws [0, 0], both centroids are [0]. Ties send both points to centroid 0, and mean fails on the empty cluster 1. |
| `Client.ReadDataset` | clienteTA4.go:37-50 | Succeeds exactly when every feature cell parses. On success, ids and data each have len(records)-1 entries, since the header is dropped. ids[i-1] is records[i][0], data[i-1] has len(records[i])-1 entries, and data[i-1][j-1] is parse(records[i][j]). Otherwise the error names the first cell in reading order that does not parse. |
| `Client.SaveResults` | clienteTA4.go:64-77 | The six-column header comes first, then one row per id in id order. Each row has len(data[i])+2 fields: the id, the formatted features, and the label in decimal. It succeeds exactly when `data` and `assignments` are at least as long as `ids`. Otherwise the index at line 68 or 73 fails at the first missing row, and the rows before it have already been written. |
| `Decimal.NatStringRoundTrip` | clienteTA4.go:73 | The decimal text of a natural number is non-empty and all digits. It starts with '0' only for 0, and reading it back gives the number. |
| `Decimal.DecimalRoundTrip` | clienteTA4.go:73 | The label text is a minus sign exactly for negative labels, followed by digits, and reading it back gives the label. |

## Left out

- Goroutines, channels, `sync.WaitGroup` and `doneChan` in `kMeans` (servidorTA4.go:72-144): each stage is a sequential loop. Their tasks write disjoint slots behind a join barrier, so the result is the same.
- `handleConnection` and `main` in both files: TCP listen, accept and dial, plus console printing. This is network plumbing and output with no logic to prove.
- JSON encoding and decoding of `Request` and `Response`: a foreign library, so its round trip cannot be proved from the code shown.
- `rand.Seed` and `rand.Intn`: replaced by the `draws` parameter, whose entries are in [0, n).
- float64 rounding: coordinates are `real`. IEEE behaviour, NaN and infinities are not modelled.
- File I/O, `csv.NewReader`/`ReadAll`, `csv.NewWriter`/`Write`/`Flush`, `strconv.ParseFloat` and `fmt.Sprintf("%.2f")`: foreign calls. Parsing and formatting are function parameters, and the written rows are returned as a sequence. Errors from opening, reading or writing files are not modelled, including the ignored result of `writer.Write`.
- Client.ReadDataset: the error carries the row and column of the failing cell, not the text of ParseFloat's error value.
- KMeans.UpdateStage: when it reports failure it says nothing about `centroids`, because the source has crashed by then.
- KMeans.KMeans: when `ok` is false, the contents of the returned arrays are not specified, for the same reason.
- A panic in one goroutine ends the whole server process. The model only reports that the call failed.
- Distance.DistToSelf: the converse (distance 0 implies equal coordinates) is not proved. The source does not rely on it.
- No concrete multi-iteration run is proved; the concrete scenarios stop at the first iteration.
- KMeans.KMeans and Initialization.InitializeCentroids: a dataset with no rows and `k >= 1` panics in `rand.Intn(0)` and `data[0]` (servidorTA4.go:42-43); the model excludes it by requiring every draw to lie in [0, n), so that failure is not modelled.
- KMeans.KMeans and Initialization.InitializeCentroids: a negative `k` panics in `make` (servidorTA4.go:40); `k` is a `nat`, so that failure is not modelled.
- Client.ReadDataset: an empty `records` (a file with no header line) panics in `make` with length -1 (clienteTA4.go:37), and so does a data record with no field (clienteTA4.go:40); the model requires a header record and a field in each data record, so those failures are not modelled.
