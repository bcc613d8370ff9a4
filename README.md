# MinimalKMeans in Dafny

A model of the k-means sample of H2O, `samples.MinimalKMeans`.

The driver (`exec`) runs a fixed ten rounds of Lloyd's algorithm over a
partitioned data set. Each round does three things:

1. It runs a `KMeans` task over every partition of rows.
2. Each task's `map` assigns every row to its nearest centroid. It
   accumulates, per centroid, the column sums and the row count of the rows
   assigned to it, plus the total squared distance of all rows to their
   nearest centroids.
3. `reduce` merges the partial results element by element. The driver then
   moves every centroid that received rows to the mean of those rows. A
   centroid that received no rows stays where it was.

The project has these modules:

- `KMeansSpec` (`kmeans_spec.dfy`): pure reference definitions. These are
  the squared distance, the nearest-centroid rule, and the members of each
  cluster with their column sums and total error. They also include the
  partial aggregate one partition produces (`MapBlock`), its merge, the
  left-to-right fold over the partitions (`Distributed`), the centroid
  update, and the rounds (`Lloyd`, `ErrorTrace`).
- `KMeansLemmas` (`kmeans_lemmas.dfy`): properties of those definitions.
  - The nearest centroid is the first minimum.
  - A partition's aggregate counts the right rows and sums the right columns.
  - The counts add up to the number of rows.
  - The merge is commutative and associative.
  - The result does not depend on how the rows are split into partitions.
  - The update moves a centroid to the mean of its members, or leaves it in
    place when it has none.
  - Every reported error is non-negative.
- `KMeansTask` (`kmeans_task.dfy`): the task as a class. The centroids are an
  `array2<real>` field. The sums, counts and error are fields that `Map` and
  `Reduce` update in place with loops. Each method is proved against the
  functions of `KMeansSpec`.
- `KMeansDriver` (`kmeans_driver.dfy`): the per-round work over all
  partitions (`DoAll`), the in-place centroid update, and the ten-round loop
  (`Exec`). `Exec` is proved to leave the centroids as `Lloyd` says and to
  return the errors `ErrorTrace` says.
- `KMeansScenario` (`kmeans_scenario.dfy`): a worked example with two pairs
  of points.

Numbers are exact `real`s. There is no rounding, so sums do not depend on
the order of addition. The data comes in as a sequence of partitions, each a
sequence of rows.

## Model

| member | source | states |
|---|---|---|
| KMeansSpec.SqDistUpTo | h2o-samples/src/java/samples/MinimalKMeans.java:88-92 | the squared distance over the first n columns is never negative |
| KMeansSpec.NearestUpTo | h2o-samples/src/java/samples/MinimalKMeans.java:85-97 | the scan over the first n centroids, where a later centroid replaces the choice only when strictly closer, settles on one of those n centroids |
| KMeansSpec.Nearest | h2o-samples/src/java/samples/MinimalKMeans.java:85-97 | the centroid a row is assigned to is one of the centroids |
| KMeansSpec.MinSqDist | h2o-samples/src/java/samples/MinimalKMeans.java:85-98 | the squared distance from a row to its assigned centroid, the amount added to the error, is non-negative |
| KMeansSpec.Zero | h2o-samples/src/java/samples/MinimalKMeans.java:80-81 | the freshly allocated output has k by d sums, k counts, and every sum, count and the error are zero |
| KMeansSpec.Merge | h2o-samples/src/java/samples/MinimalKMeans.java:108-115 | every sum, every count and the error of the merge are those of the two aggregates added, and the shape is kept |
| KMeansSpec.AddRow | h2o-samples/src/java/samples/MinimalKMeans.java:98-103 | accounting for one row at its nearest centroid keeps a k by d aggregate k by d |
| KMeansSpec.MapBlock | h2o-samples/src/java/samples/MinimalKMeans.java:79-106 | the map of a block, rows added one at a time to the zero aggregate, is k by d |
| KMeansSpec.DistributedUpTo | h2o-samples/src/java/samples/MinimalKMeans.java:45 | the left-to-right merge of the maps of the first n partitions is k by d |
| KMeansSpec.Distributed | h2o-samples/src/java/samples/MinimalKMeans.java:45 | the merge of the maps of all partitions is k by d |
| KMeansSpec.Update | h2o-samples/src/java/samples/MinimalKMeans.java:47-54 | the centroid update, a mean for a centroid with a positive count and the old row otherwise, gives k centroids of width d |
| KMeansSpec.Round | h2o-samples/src/java/samples/MinimalKMeans.java:43-54 | one round, the update applied to the distributed result, gives k centroids of width d |
| KMeansSpec.Lloyd | h2o-samples/src/java/samples/MinimalKMeans.java:42-56 | the centroids after n rounds are k centroids of width d |
| KMeansSpec.ErrorTrace | h2o-samples/src/java/samples/MinimalKMeans.java:42-56 | the errors reported over n rounds are n values, one per round |
| KMeansLemmas.NearestUpToIsFirstMinimum | h2o-samples/src/java/samples/MinimalKMeans.java:85-97 | the cluster the scan over the first n centroids settles on is at least as close as each of them, and strictly closer than every earlier one |
| KMeansLemmas.NearestIsFirstMinimum | h2o-samples/src/java/samples/MinimalKMeans.java:85-97 | a cluster is the one chosen exactly when it is a closest centroid and every lower-numbered centroid is strictly farther |
| KMeansLemmas.TieGoesToLowerIndex | h2o-samples/src/java/samples/MinimalKMeans.java:93 | when two centroids are equally close, the higher-numbered one is not chosen |
| KMeansLemmas.MinSqDistIsMinimum | h2o-samples/src/java/samples/MinimalKMeans.java:85-98 | the distance added to the error is the distance to some centroid and is no larger than the distance to any centroid |
| KMeansLemmas.MapBlockMeaning | h2o-samples/src/java/samples/MinimalKMeans.java:79-106 | after the map of a block, each count is the number of rows nearest to that centroid, each sum is the column sum over exactly those rows, and the error is the total of every row's minimum squared distance |
| KMeansLemmas.CountsConserved | h2o-samples/src/java/samples/MinimalKMeans.java:100-103 | the counts of a block are non-negative and add up to the number of rows in it |
| KMeansLemmas.MergeCommutes | h2o-samples/src/java/samples/MinimalKMeans.java:108-115 | merging a with b gives the same aggregate as merging b with a |
| KMeansLemmas.MergeAssociates | h2o-samples/src/java/samples/MinimalKMeans.java:108-115 | the grouping of three merges does not change the result |
| KMeansLemmas.MergeZero | h2o-samples/src/java/samples/MinimalKMeans.java:80-81 | the freshly allocated all-zero aggregate is a unit of the merge |
| KMeansLemmas.AddRowMerge | h2o-samples/src/java/samples/MinimalKMeans.java:98-103 | adding a row after a merge is the same as adding it to the merged-in aggregate first |
| KMeansLemmas.PartitionInvariance | h2o-samples/src/java/samples/MinimalKMeans.java:79-115 | the map of two blocks one after the other equals the merge of the maps of each block |
| KMeansLemmas.DistributedUpToIsWhole | h2o-samples/src/java/samples/MinimalKMeans.java:42-45 | folding the maps of the first n partitions with the merge equals the map of all their rows at once |
| KMeansLemmas.DistributedIsWhole | h2o-samples/src/java/samples/MinimalKMeans.java:42-45 | a round's combined result over all partitions equals the map of the whole data set, wherever the partition boundaries lie |
| KMeansLemmas.RoundMeaning | h2o-samples/src/java/samples/MinimalKMeans.java:47-54 | after a round, a centroid no row is nearest to is unchanged, and every other centroid is the column-wise mean of exactly the rows nearest to it |
| KMeansLemmas.UpdateKeepsEmpty | h2o-samples/src/java/samples/MinimalKMeans.java:48 | a centroid whose count is zero is left as it was |
| KMeansLemmas.LloydPartitionInvariant | h2o-samples/src/java/samples/MinimalKMeans.java:42-56 | two partitionings of the same rows give the same centroids and the same errors after any number of rounds |
| KMeansLemmas.DistributedError | h2o-samples/src/java/samples/MinimalKMeans.java:98-113 | a round's error is the total of every row's minimum squared distance to the centroids the round starts with |
| KMeansLemmas.ErrorTraceStep | h2o-samples/src/java/samples/MinimalKMeans.java:42-56 | the errors of m+1 rounds are those of m rounds followed by the total minimum squared distance to the centroids after m rounds |
| KMeansLemmas.ErrorTraceAt | h2o-samples/src/java/samples/MinimalKMeans.java:42-56 | the error reported by round i is the combined error of all partitions, measured against the centroids after i rounds |
| KMeansLemmas.ErrorTraceNonNegative | h2o-samples/src/java/samples/MinimalKMeans.java:55 | every reported error is non-negative |
| KMeansTask.KMeans.constructor | h2o-samples/src/java/samples/MinimalKMeans.java:43-44 | a new task holds the given centroids, an error of zero and no sums or counts yet |
| KMeansTask.KMeans.SquaredDistance | h2o-samples/src/java/samples/MinimalKMeans.java:88-92 | the loop computes the squared distance from the row to the given centroid |
| KMeansTask.KMeans.FindNearest | h2o-samples/src/java/samples/MinimalKMeans.java:85-97 | the scan returns the nearest centroid with the first-minimum tie-break, and its squared distance |
| KMeansTask.KMeans.Accumulate | h2o-samples/src/java/samples/MinimalKMeans.java:98-103 | the row is added to its centroid's sums, the count goes up by one, the distance is added to the error, and nothing else changes |
| KMeansTask.KMeans.Assign | h2o-samples/src/java/samples/MinimalKMeans.java:85-103 | the output fields afterwards hold the aggregate with this row added to its nearest centroid |
| KMeansTask.KMeans.MapRow | h2o-samples/src/java/samples/MinimalKMeans.java:84-103 | accounting for one more row moves the output fields from the map of the first rows to the map of one row more |
| KMeansTask.KMeans.Map | h2o-samples/src/java/samples/MinimalKMeans.java:79-106 | the task leaves fresh sums and counts equal to the map of the block, and an error that is its old error plus the block's error |
| KMeansTask.KMeans.Reduce | h2o-samples/src/java/samples/MinimalKMeans.java:108-115 | the task's output becomes the element-wise merge of its old output and the other task's output; the other task is unchanged |
| KMeansDriver.MapAndReduce | h2o-samples/src/java/samples/MinimalKMeans.java:108-115 | a new task over the same centroids maps the block, and its output is merged into the task |
| KMeansDriver.MapFirst | h2o-samples/src/java/samples/MinimalKMeans.java:79-106 | a new task over the centroids that maps one block holds exactly the map of that block |
| KMeansDriver.ReduceNext | h2o-samples/src/java/samples/MinimalKMeans.java:108-115 | when the task holds the fold of the first p partitions, mapping partition p with a new task and reducing it in leaves the fold of the first p+1, with the centroids unchanged |
| KMeansDriver.ReduceRest | h2o-samples/src/java/samples/MinimalKMeans.java:108-115 | from the fold of the first partitions, reducing in each remaining partition in order leaves the fold over all of them |
| KMeansDriver.DoAll | h2o-samples/src/java/samples/MinimalKMeans.java:43-45 | a new task over the centroids, run over all partitions, holds the left-to-right fold of the partitions' maps |
| KMeansDriver.UpdateCentroids | h2o-samples/src/java/samples/MinimalKMeans.java:47-54 | every centroid with a positive count becomes its sums divided by its count, and every other centroid is left as it was |
| KMeansDriver.RunRound | h2o-samples/src/java/samples/MinimalKMeans.java:43-55 | one round leaves the centroids that one Lloyd round gives and returns the combined error measured against the centroids it started with |
| KMeansDriver.Exec | h2o-samples/src/java/samples/MinimalKMeans.java:42-56 | after `Iterations` (10, the bound of the loop at line 42) rounds the centroids are those of ten Lloyd rounds, and the returned errors are the ten per-round errors |
| KMeansScenario.TwoPairsScenario | h2o-samples/src/java/samples/MinimalKMeans.java:42-56 | for rows (0,0), (0,1), (10,10), (10,11) starting from (0,0) and (10,10), one round gives (0,0.5) and (10,10.5), and the first two errors are 2 and 1 |
| KMeansScenario.FirstRound | h2o-samples/src/java/samples/MinimalKMeans.java:43-54 | for the same rows and starting centroids, round one has counts 2 and 2, sums (0,1) and (20,21), error 2, and moves the centroids to (0,0.5) and (10,10.5) |
| KMeansScenario.SecondRoundError | h2o-samples/src/java/samples/MinimalKMeans.java:43-55 | measured against (0,0.5) and (10,10.5), the same rows have a combined error of 1 |

## Left out

- Loading and parsing the CSV file, and dropping its first column (lines 21-25): this is I/O. The model takes the rows as a parameter.
- The random choice of starting centroids (lines 28-39): this is randomness. `Exec` takes the starting centroids as its input array.
- Printing the errors and the final centroids with `DecimalFormat` (lines 55, 58-64): this is I/O. `Exec` returns the errors instead.
- Launching the cloud, and `doAll`'s parallel, distributed execution: these are concurrency. `DoAll` is a sequential left fold: the task maps the first partition, and each later partition is mapped by a new task and reduced into it. Because the merge is associative and commutative, any other reduction tree gives the same result.
- Setting `_clusters` to null at the end of `map` (line 105): this only saves serialization. The model keeps the reference.
- IEEE double arithmetic: values are exact reals. `Double.MAX_VALUE` as the starting `minSqr` is treated as larger than any distance: "no centroid chosen yet" (`nearest == -1`) accepts the first centroid.
- The 32-bit `int` counts: they are unbounded integers, so overflow past 2^31 - 1 rows is not modelled.
- The column-major `Chunk[]` layout: the model uses rows. `_sums[0].length` in `reduce` is the width of the sums array.
- Zero clusters: `KMeansTask.KMeans.FindNearest`, `Assign`, `MapRow` and `Map`, the callers of `SquaredDistance`, and every method of `KMeansDriver` except `UpdateCentroids` require at least one centroid. With none, the source's `_sums[nearest]` at index -1 fails on the first row. `Reduce`, `UpdateCentroids` and `Merge` accept zero centroids, as the source's `reduce` and update loop do.
- Zero columns: `KMeansTask.KMeans.Map` and the driver methods that call it require at least one column. With none, the source's `map` fails at line 84, reading the length of a chunk that does not exist. The reference function `MapBlock` is total and would give every row of width 0 to centroid 0.
- A partition's width: rows are required to have as many columns as the centroids, as they do in the source, where the same frame provides both.
- KMeansTask.KMeans.Reduce: requires the other task to be a different object with its own arrays. The framework always passes a separate copy.
- KMeansDriver.DoAll, KMeansDriver.RunRound, KMeansDriver.Exec: require at least one partition. With none, `doAll` would reduce nothing and leave `_counts` null.
- KMeansDriver.MapAndReduce, KMeansDriver.ReduceNext, KMeansDriver.ReduceRest: require the task's sums array to be a different array from the centroids. In the source, `map` always allocates the sums afresh.
- The non-increase of the error from round to round is not proved.

## Notes

For the scenario's four points, the code reports an error of 2 for the first
round, because it measures against the starting centroids (0 + 1 + 0 + 1).
It reports 1 for the second round (4 × 0.25), measured against the centroids
after one update. `KMeansScenario.TwoPairsScenario` proves the values 2 and 1.
