# DBSCAN engine: a verified model

This is a model of the clustering engine in `DBSCAN.cpp` / `DBSCAN.h`: a
density-based clustering (DBSCAN) object for microcontrollers. Its
constructor fixes epsilon, minPts, a metric selector and a Minkowski
exponent. `init` copies a dataset of vectors into the object, tags every
point NOT_VISITED, and then scans the points in index order:

- an unvisited point with fewer than minPts neighbours becomes NOISE;
- otherwise the point seeds a cluster, which `enlargeCluster` grows through a
  work queue of neighbours.

During the scan `clusters[0]` is the first cluster found; the membership
check of `enlargeCluster` searches only `clusters[1 .. nClusters - 1]`, so a
member of the first cluster can join a later one as well. `init` finally
inserts the noise list in front of the clusters and returns that partition;
only then does slot 0 hold the noise list. `predict` gives the cluster of the first stored clustered
point that lies strictly within epsilon of a new vector, or 65535 when
there is none.

The project has seven modules.

- `Types` (types.dfy) holds the `uint8_t` / `uint16_t` widths, the `DISTANCE` tags and the `TYPE` enumeration.
- `Metrics` (metrics.dfy) holds `distance` as a function and the lemmas about its integer branches:
  - Manhattan;
  - Chebyshev, kept exactly as the engine accumulates it;
  - the two sentinels.
- `Clustering` (clustering.dfy) holds the value-level neighbourhood query, the union step and the cluster expansion.
- `Driver` (driver.dfy) holds the per-point state machine of `init` (`Step`), the run over all points (`Run`), the returned partition, and the scan invariant (`Inv`) with its per-step lemmas.
- `Outcome` (outcome.dfy) holds what a whole run guarantees: the shape of the partition, the seed occurring twice, and noise points being absorbed.
- `Predictor` (predictor.dfy) holds `predict` as a function and its lemmas.
- `Engine` (dbscan.dfy) holds the class `Dbscan`.
  - Its fields are the header's state without the leading underscore: `epsilon`, `mink`, `minPts`, `distanceType`, `nNoise`, `nData`, `nClusters`, `types` (the header's `_type`), `dataset` and `clusters`.
  - The extra constant `floatDist` has no counterpart in the header. It is the function, given to the constructor, that stands for the float-only metrics.
  - Every method runs the engine's own loops over these fields. It is proved to compute the corresponding function of the modules above, or to leave the fields in the state those functions describe.

Coordinates are integers and distances are reals. Both integer metrics are
therefore computed exactly. The float-only metrics are a function value that
the caller passes to the constructor.

## Model

| member | source | states |
|---|---|---|
| Types.TypeCode | DBSCAN.h:23-27 | the three point states are stored as three distinct codes 0, 1, 2 (NOT_VISITED = 0, VISITED = 1) |
| Types.TypeOfCode | DBSCAN.h:23-27 | every stored code below 3 reads back as the tag that is stored under it |
| Metrics.MaxAbsDiff | DBSCAN.cpp:201-202 | reference Chebyshev distance: bounds every component difference and equals one of them |
| Metrics.ManhattanSum | DBSCAN.cpp:198-199 | the Manhattan accumulator after the first k components: the sum of abs(a_i - b_i) over i < k, never negative |
| Metrics.ChebyshevSum | DBSCAN.cpp:201-202 | the Chebyshev accumulator as the loop computes it: each component adds max(d, abs(a_i - b_i)) to the running value d |
| Metrics.Distance | DBSCAN.cpp:181-213 | 1.0e10 for vectors of unequal length; otherwise by selector: the Manhattan sum, the Chebyshev accumulator, the caller's float function for Euclidean, Minkowski and Canberra, and 2.0e10 for any other selector |
| Metrics.DistanceSentinels | DBSCAN.cpp:183-186 | vectors of unequal length give 1.0e10 whatever the metric; an unknown selector on equal lengths gives 2.0e10 (default branch, lines 208-210) |
| Metrics.ManhattanSymmetric | DBSCAN.cpp:198-199 | the Manhattan sum is symmetric in its two vectors |
| Metrics.ManhattanZeroIff | DBSCAN.cpp:198-199 | the Manhattan sum is 0 exactly when the components agree |
| Metrics.ManhattanBoundsMax | DBSCAN.cpp:198-199 | the Manhattan sum is at least the largest component difference |
| Metrics.ChebyshevSymmetric | DBSCAN.cpp:201-202 | the accumulated Chebyshev value is symmetric in its two vectors |
| Metrics.ChebyshevBoundsMax | DBSCAN.cpp:201-202 | the accumulated value d := d + max(d, abs(a_i - b_i)) is at least the true maximum difference, and is 0 exactly when that maximum is 0 |
| Metrics.ChebyshevOneDimension | DBSCAN.cpp:201-202 | on one-dimensional vectors the accumulated value is the true Chebyshev distance |
| Metrics.ChebyshevAccumulates | DBSCAN.cpp:201-202 | on [0, 0] and [3, 4] the accumulated value is 7, not the maximum 4 |
| Metrics.ZeroMaxIff | DBSCAN.cpp:201-202 | the largest component difference is 0 exactly when the components agree |
| Metrics.DistanceSymmetric | DBSCAN.cpp:181-213 | under Manhattan, Chebyshev, an unknown selector or unequal lengths, distance(a, b) = distance(b, a) |
| Metrics.DistanceZeroIff | DBSCAN.cpp:198-203 | under both integer metrics the distance is non-negative, and it is 0 exactly when the vectors are equal |
| Clustering.IsNeighbour | DBSCAN.cpp:223-226 | two vectors are neighbours when their distance is at most epsilon |
| Clustering.NeighboursBelow | DBSCAN.cpp:172-174 | after the first k indices: exactly the indices below k whose point lies within epsilon (distance <= epsilon) of v, increasing, without repeats |
| Clustering.Neighbours | DBSCAN.cpp:170-176 | exactly the dataset indices within epsilon of v, in increasing order, without repeats, at most one per point |
| Clustering.NeighbourTable | DBSCAN.cpp:170-176 | row p is the neighbourhood of point p; every row is repeat-free and in range |
| Clustering.DistinctBound | DBSCAN.cpp:139-154 | a repeat-free queue of indices below n has at most n entries, so the queue never outgrows the dataset |
| Clustering.DistinctOnce | DBSCAN.cpp:145-154 | a repeat-free queue holds each index at most once |
| Clustering.Merge | DBSCAN.cpp:145-154 | the queue after the union loop: each entry of the new neighbourhood, in order, is appended when the growing queue does not hold it yet |
| Clustering.MergeContents | DBSCAN.cpp:145-154 | the union step extends the queue, holds exactly the entries of the queue and of the new neighbourhood, and adds no repeat |
| Clustering.MergeFrom | DBSCAN.cpp:145-153 | one pass of the union's outer loop: an entry is appended exactly when the growing queue does not hold it |
| Clustering.MergeInRange | DBSCAN.cpp:145-154 | the union of two neighbourhoods of in-range indices is in range |
| Clustering.MergeNew | DBSCAN.cpp:145-154 | an entry the union places after the end of a repeat-free queue comes from the new neighbourhood |
| Clustering.Expands | DBSCAN.cpp:141-143 | a queue entry has its neighbourhood merged exactly when it is NOT_VISITED and has strictly more than minPts neighbours |
| Clustering.InLaterClusters | DBSCAN.cpp:158-164 | x is found in one of clusters[1 .. nClusters - 1]; slot 0 is not searched, and during the scan slot 0 holds the first cluster found, not the noise list |
| Clustering.Joining | DBSCAN.cpp:157-165 | the entries of a stretch of the queue, in order, that the membership check appends to the current cluster |
| Clustering.JoiningMembers | DBSCAN.cpp:157-165 | a processed entry joins the current cluster exactly when it is not found in clusters[1 .. nClusters - 1] |
| Clustering.JoiningCount | DBSCAN.cpp:157-165 | no entry joins the cluster more often than it occurs in the queue |
| Clustering.JoiningStep | DBSCAN.cpp:157-165 | taking one entry: the cluster grows by that entry unless a later cluster holds it |
| Clustering.ExpandRun | DBSCAN.cpp:138-166 | the expansion ends with a repeat-free, in-range queue of at most nData entries, extending the initial queue; the cluster is the initial cluster followed by every queue entry from position i on that is not in clusters[1 .. nClusters - 1] |
| Clustering.ExpandCluster | DBSCAN.cpp:53-54 | the cluster seeded by point i starts with i and holds only point indices |
| Clustering.ClusterSize | DBSCAN.cpp:53-54 | in a new cluster the seed occurs at most twice and every other point at most once, so it has at most nData + 1 members and the uint16_t marking loop at line 56 ends |
| Clustering.ExpandClosed | DBSCAN.cpp:139-155 | the finished queue holds the neighbourhood of every entry that was NOT_VISITED with strictly more than minPts neighbours |
| Clustering.SourcedStep | DBSCAN.cpp:139-154 | one pass of the expansion loop: an entry the union appends comes from the neighbourhood of the entry being taken, which Expands |
| Clustering.ExpandSources | DBSCAN.cpp:139-155 | every entry appended to the queue beyond the seed's neighbourhood was appended from the neighbourhood of an EARLIER queue entry that Expands, so it is reached from the seed's neighbourhood through a chain of expanding entries |
| Driver.Initial | DBSCAN.cpp:24-28 | a freshly loaded run: every point NOT_VISITED, no cluster, no noise |
| Driver.MarkVisited | DBSCAN.cpp:56-57 | after the marking loop a point is VISITED if it is a member of the new cluster, and keeps its tag otherwise |
| Driver.AddNoise | DBSCAN.cpp:46-49 | the noise branch: point i is tagged NOISE, appended to the noise list and counted; clusters and the cluster count are unchanged |
| Driver.AddCluster | DBSCAN.cpp:53-60 | the cluster branch: the seed and every member are tagged VISITED, the cluster is appended after the earlier ones and counted; the noise list is unchanged |
| Driver.Step | DBSCAN.cpp:41-62 | one pass of init's loop keeps the state well formed: one tag per point, the counters equal the list lengths, members in range |
| Driver.Run | DBSCAN.cpp:40-63 | the run over the remaining points keeps the state well formed |
| Driver.Clustered | DBSCAN.cpp:38-63 | the state after init's loop has scanned every point from the freshly loaded state |
| Driver.Partition | DBSCAN.cpp:64-67 | the value init returns: the noise list inserted in slot 0 in front of the clusters, which keep the order in which they were found |
| Driver.StepMonotone | DBSCAN.cpp:41-62 | a step leaves point i scanned, never returns a point to NOT_VISITED and never changes a VISITED point |
| Driver.StepInvNoise | DBSCAN.cpp:46-49 | a point with fewer than minPts neighbours becomes NOISE, joins the noise list and increments the noise count, keeping the scan invariant |
| Driver.ClusterAppended | DBSCAN.cpp:51-60 | appending a cluster seeded by i keeps the scan invariant, whatever its other members are |
| Driver.AppendedMembers | DBSCAN.cpp:55-59 | after a cluster is appended, every member of every cluster is VISITED |
| Driver.AppendedSeeds | DBSCAN.cpp:46-53 | every cluster starts with a scanned seed that had at least minPts neighbours |
| Driver.AppendedNoise | DBSCAN.cpp:55-59 | appending a cluster keeps the noise list's invariant and every NOISE point on the list |
| Driver.NotMember | DBSCAN.cpp:41-57 | a point still NOT_VISITED belongs to no cluster |
| Driver.StepCoverNoise | DBSCAN.cpp:46-49 | after a noise step every scanned point is still recorded in the noise list or a cluster |
| Driver.StepCoverCluster | DBSCAN.cpp:55-59 | after a cluster step every scanned point is still recorded in the noise list or a cluster |
| Driver.InitialInv | DBSCAN.cpp:24-28 | the scan invariant holds of the freshly loaded state |
| Driver.ChainExists | DBSCAN.cpp:40-63 | for every prefix of the points there is a sequence of driver states, starting from the fresh state, in which each state is one pass of init's loop after the one before |
| Driver.ChainRun | DBSCAN.cpp:40-63 | along such a sequence, finishing the run from any of its states gives the sequence's last state |
| Driver.TraceExists | DBSCAN.cpp:40-63 | the states of init's loop after each prefix of the points form a trace whose last state is the final state of the run |
| Outcome.StepInv | DBSCAN.cpp:40-63 | each pass of init's loop keeps the scan invariant and extends it by one point |
| Outcome.StepInvCluster | DBSCAN.cpp:51-60 | the cluster branch keeps the scan invariant |
| Outcome.RunInv | DBSCAN.cpp:40-63 | the scan invariant holds once all points are scanned |
| Outcome.FinalShape | DBSCAN.cpp:38-65 | from any state that satisfies the scan invariant after all points, the noise list followed by the clusters has the partition's shape listed for PartitionFacts |
| Outcome.PartitionFacts | DBSCAN.cpp:38-67 | on a fresh object the result has nClusters + 1 slots; slot 0 is the noise list and has nNoise entries; nNoise + nClusters <= nData; no point is left NOT_VISITED; every point occurs in some slot; every noise point had fewer than minPts neighbours; every cluster starts with a seed that had at least minPts; every NOISE-tagged point is in slot 0; the noise list is increasing, so no index is on it twice; every member of slots 1 .. nClusters is a point index tagged VISITED |
| Outcome.SeedTwice | DBSCAN.cpp:53-54 | a seed that is its own neighbour occurs in its cluster exactly twice: pushed first, and appended again because the current cluster is never searched |
| Outcome.ExpandingMembersJoin | DBSCAN.cpp:139-165 | every queue entry of a new cluster's expansion that Expands is a member of the returned cluster: it is NOT_VISITED, so no earlier cluster holds it and the membership check lets it join |
| Outcome.SeedNeighboursJoin | DBSCAN.cpp:157-165 | every neighbour of the seed not found in clusters[1 .. nClusters - 1] joins the new cluster and ends VISITED, NOISE points included; the noise list is unchanged, so an absorbed noise point stays on it |
| Predictor.FirstCluster | DBSCAN.cpp:233-237 | the smallest cluster number holding point i |
| Predictor.Hit | DBSCAN.cpp:232-237 | a stored point counts for prediction when it is strictly closer than epsilon to the new vector and some cluster holds it |
| Predictor.PredictFrom | DBSCAN.cpp:228-240 | 65535 exactly when no stored point is strictly within epsilon and in a cluster 0 .. nClusters - 1; otherwise a number below nClusters, namely the lowest cluster holding the first such point |
| Predictor.PredictClusteredPoint | DBSCAN.cpp:228-240 | under both integer metrics with epsilon > 0, a stored point that is in a cluster is never predicted as 65535 |
| Predictor.BoundaryNotHit | DBSCAN.cpp:225-232 | a point at distance exactly epsilon is a neighbour during clustering (<=) but does not count for prediction (<) |
| Engine.Dbscan.constructor | DBSCAN.cpp:10-16 | sets epsilon, the metric selector and the exponent; stores minPts reduced modulo 2^16; counters zero, vectors empty (DBSCAN.h:35-41) |
| Engine.Dbscan.WithDefaultExponent | DBSCAN.h:52 | the constructor without its last argument: the Minkowski exponent is 1.0, the rest as above |
| Engine.Dbscan.Distance | DBSCAN.cpp:181-213 | the loops compute Metrics.Distance: the mismatch sentinel, the Manhattan and Chebyshev accumulators, the float metrics, the default sentinel |
| Engine.Dbscan.IsNeighbour | DBSCAN.cpp:223-226 | true exactly when distance <= epsilon |
| Engine.Dbscan.FindNeighbours | DBSCAN.cpp:170-176 | returns exactly Clustering.Neighbours of point n |
| Engine.Dbscan.CountNeighbours | DBSCAN.cpp:215-221 | returns the length of the neighbourhood of v |
| Engine.Dbscan.Holds | DBSCAN.cpp:146-152 | the inner search of the union step: true exactly when the queue holds x |
| Engine.Dbscan.Union | DBSCAN.cpp:145-154 | the union loop computes Clustering.Merge of the queue and the new neighbourhood |
| Engine.Dbscan.InLaterCluster | DBSCAN.cpp:158-164 | true exactly when x is found in clusters[1 .. nClusters - 1] |
| Engine.Dbscan.EnlargeCluster | DBSCAN.cpp:136-167 | the work-queue loop returns the cluster of Clustering.ExpandRun from queue position 0; it modifies no field |
| Engine.Dbscan.Load | DBSCAN.cpp:24-28 | stores the dataset in order, with nData points all NOT_VISITED |
| Engine.Dbscan.Seed | DBSCAN.cpp:53-54 | the cluster [i] enlarged from the neighbourhood of i is Clustering.ExpandCluster, with at most nData + 1 members |
| Engine.Dbscan.MarkMembers | DBSCAN.cpp:56-57 | the tags become Driver.MarkVisited of the old tags; nothing else changes |
| Engine.Dbscan.NewCluster | DBSCAN.cpp:55-60 | members marked VISITED, the cluster appended, the cluster count incremented |
| Engine.Dbscan.MarkNoise | DBSCAN.cpp:46-49 | point i is tagged NOISE, appended to the noise list and counted; nothing else changes |
| Engine.Dbscan.ClusterStep | DBSCAN.cpp:51-60 | the cluster branch leaves the fields in the state Driver.AddCluster gives for the cluster that Clustering.ExpandCluster builds |
| Engine.Dbscan.ProcessPoint | DBSCAN.cpp:41-62 | one pass of init's loop leaves the fields in the state Driver.Step gives |
| Engine.Dbscan.Scan | DBSCAN.cpp:38-63 | the loop over all points follows the trace of driver states point by point, so it leaves tags, clusters and counters as Driver.Clustered gives them and returns the noise list |
| Engine.Dbscan.Init | DBSCAN.cpp:22-68 | on a fresh object: the dataset is stored, the tags and counters are those of the driver's run, and the returned _clusters is Driver.Partition (noise list first, then the clusters in order) |
| Engine.Dbscan.ClusterOf | DBSCAN.cpp:233-237 | the search through slots 1 .. nClusters: finds p exactly when some cluster holds it, and then the lowest-numbered one |
| Engine.Dbscan.Predict | DBSCAN.cpp:228-240 | returns Predictor.PredictFrom: 65535 or the cluster of the first clustered point strictly within epsilon |

## Left out

- Euclidean, Minkowski and Canberra distances (DBSCAN.cpp:189-197, 204-207). They use `sqrt`, `pow` and float division, with NaN on 0/0. In the model they are one function value given to the constructor, so nothing is proved about them beyond their selection.
- Single-precision floats: coordinates are integers, epsilon and distances are exact reals, and no rounding is modelled.
- The average-distance block of `init` (DBSCAN.cpp:30-36) is float arithmetic and printing. It does not touch the state the rest of `init` uses.
- `displayStats`, `computeCentroid` and `computeTightness` (DBSCAN.cpp:70-133) are float reporting. The call at DBSCAN.cpp:66 is left out.
  - That call reads `_clusters[0][0]` (DBSCAN.cpp:73). When no point is noise, slot 0 is empty and the read is undefined behaviour, so the source's `init` has no defined result on such datasets. The model's `init` returns the partition normally in that case too.
- All `Serial` console output is I/O.
- Engine.Dbscan.Distance does not model the `uint8_t` component counter wrapping. It instead requires fewer than 256 components whenever a component loop runs.
- Engine.Dbscan.CountNeighbours does not model the `uint8_t` counter wrapping. It instead requires nData < 256.
- Engine.Dbscan.Init requires a freshly constructed object and fewer than 65535 points.
  - Re-running `init` appends to the stored vectors without resetting the counters; that is not modelled.
  - With 65535 points a cluster could reach 65536 entries, and the `uint16_t` marking counter would wrap.
- Engine.Dbscan.Predict requires that every stored cluster has fewer than 65536 entries, which its `uint16_t` counter needs. Init's result meets that requirement.
- The header declares `init` as returning nothing and does not declare `predict` (DBSCAN.h:54). The model follows the definitions: `init` returns `_clusters`, and `predict` is a method.
- The defaults that the header writes on `_epsilon` and `_distanceType` (DBSCAN.h:32, 36) are always overwritten by the constructor, so they are not modelled.
- The `_type` vector holds `uint8_t` codes. The model's `types` field holds the tags themselves. Types.TypeCode and Types.TypeOfCode only record the enumeration's encoding; no other contract uses them.
