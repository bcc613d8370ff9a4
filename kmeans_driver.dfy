/**
 * The driver: each round runs a fresh task over every partition of the
 * data, merges the partial results, and moves each centroid that received
 * rows to the mean of those rows. The number of rounds is fixed.
 */
module KMeansDriver {
  import opened KMeansSpec
  import opened KMeansTask

  /**
   * Map `block` with a new task over the same centroids as `task`, then
   * reduce that task's output into `task`.
   */
  method MapAndReduce(task: KMeans, block: Matrix)
    requires 1 <= task.clusters.Length0 && 1 <= task.clusters.Length1 && HasWidth(block, task.clusters.Length1)
    requires Shaped(task.Output(), task.clusters.Length0, task.clusters.Length1)
    requires task.sums != task.clusters
    modifies task`error, task.sums, task.counts
    ensures Rows(task.clusters) == old(Rows(task.clusters))
    ensures task.Output() ==
      Merge(old(task.Output()), MapBlock(old(Rows(task.clusters)), task.clusters.Length1, block))
  {
    ghost var cs := Rows(task.clusters);
    ghost var before := task.Output();
    ghost var mapped := MapBlock(cs, task.clusters.Length1, block);
    var other := new KMeans(task.clusters);
    other.Map(block);
    assert task.Output() == before;
    assert other.Output() == mapped by {
      assert Shifted(mapped, 0.0) == mapped;
    }
    assert |Rows(task.sums)[0]| == task.sums.Length1;
    assert |Rows(other.sums)[0]| == other.sums.Length1;
    task.Reduce(other);
    assert task.Output() == Merge(before, mapped);
  }

  /** A new task over `clusters` that has mapped `block`. */
  method MapFirst(clusters: array2<real>, block: Matrix) returns (task: KMeans)
    requires 1 <= clusters.Length0 && 1 <= clusters.Length1 && HasWidth(block, clusters.Length1)
    ensures fresh(task) && fresh(task.sums) && fresh(task.counts) && task.clusters == clusters
    ensures task.Output() == MapBlock(Rows(clusters), clusters.Length1, block)
  {
    task := new KMeans(clusters);
    task.Map(block);
    assert Shifted(MapBlock(Rows(clusters), clusters.Length1, block), 0.0) ==
           MapBlock(Rows(clusters), clusters.Length1, block);
  }

  /**
   * The task holds the fold of the first `p` partitions; mapping partition
   * `p` with a new task and reducing it in extends the fold by one partition.
   */
  method ReduceNext(task: KMeans, parts: seq<Matrix>, p: nat, ghost cs: Matrix)
    requires 1 <= task.clusters.Length0 && 1 <= task.clusters.Length1 && task.sums != task.clusters
    requires cs == Rows(task.clusters) && AllHaveWidth(parts, task.clusters.Length1)
    requires 1 <= p < |parts|
    requires task.Output() == DistributedUpTo(cs, task.clusters.Length1, parts, p)
    modifies task`error, task.sums, task.counts
    ensures cs == Rows(task.clusters)
    ensures task.Output() == DistributedUpTo(cs, task.clusters.Length1, parts, p + 1)
  {
    MapAndReduce(task, parts[p]);
  }

  /**
   * The task holds the fold of the first `from` partitions; map each later
   * partition with a new task over the same centroids and reduce it in.
   */
  method ReduceRest(task: KMeans, parts: seq<Matrix>, from: nat, ghost cs: Matrix)
    requires 1 <= task.clusters.Length0 && 1 <= task.clusters.Length1 && task.sums != task.clusters
    requires cs == Rows(task.clusters) && AllHaveWidth(parts, task.clusters.Length1)
    requires 1 <= from <= |parts|
    requires task.Output() == DistributedUpTo(cs, task.clusters.Length1, parts, from)
    modifies task`error, task.sums, task.counts
    ensures task.Output() == Distributed(cs, task.clusters.Length1, parts)
    decreases |parts| - from
  {
    if from < |parts| {
      ReduceNext(task, parts, from, cs);
      ReduceRest(task, parts, from + 1, cs);
    }
  }

  /**
   * A new task over `clusters` run over all partitions: the first partition
   * is mapped by the task itself, every later one by a new task over the same
   * centroids whose output is then reduced into it, from left to right.
   */
  method DoAll(clusters: array2<real>, parts: seq<Matrix>) returns (task: KMeans)
    requires 1 <= clusters.Length0 && 1 <= clusters.Length1
    requires 1 <= |parts| && AllHaveWidth(parts, clusters.Length1)
    ensures fresh(task) && fresh(task.sums) && fresh(task.counts) && task.clusters == clusters
    ensures task.Output() == Distributed(Rows(clusters), clusters.Length1, parts)
  {
    task := MapFirst(clusters, parts[0]);
    ReduceRest(task, parts, 1, Rows(clusters));
  }

  /**
   * Move every centroid that received rows to the mean of its sums; leave a
   * centroid that received none where it was.
   */
  method UpdateCentroids(clusters: array2<real>, task: KMeans)
    requires clusters != task.sums
    requires Shaped(task.Output(), clusters.Length0, clusters.Length1)
    modifies clusters
    ensures Rows(clusters) == Update(old(Rows(clusters)), clusters.Length1, old(task.Output()))
  {
    ghost var cs := Rows(clusters);
    ghost var agg := task.Output();
    var c := 0;
    while c < clusters.Length0
      invariant 0 <= c <= clusters.Length0
      invariant task.Output() == agg
      invariant forall i, v :: 0 <= i < clusters.Length0 && 0 <= v < clusters.Length1 ==>
        clusters[i, v] == (if i < c && agg.counts[i] > 0 then agg.sums[i][v] / (agg.counts[i] as real) else cs[i][v])
    {
      if task.counts[c] > 0 {
        assert |agg.sums[c]| == task.sums.Length1;
        var v := 0;
        while v < clusters.Length1
          invariant 0 <= v <= clusters.Length1
          invariant task.Output() == agg
          invariant forall i, w :: 0 <= i < clusters.Length0 && 0 <= w < clusters.Length1 ==>
            clusters[i, w] == (if (i < c || (i == c && w < v)) && agg.counts[i] > 0
                               then agg.sums[i][w] / (agg.counts[i] as real) else cs[i][w])
        {
          clusters[c, v] := task.sums[c, v] / (task.counts[c] as real);
          v := v + 1;
        }
      }
      c := c + 1;
    }
    RowsEqual(clusters, Update(cs, clusters.Length1, agg));
  }

  /**
   * One round: a new task run over all partitions, then the centroid update.
   * Returns the error the task accumulated.
   */
  method RunRound(clusters: array2<real>, parts: seq<Matrix>, ghost cs: Matrix) returns (error: real)
    requires 1 <= clusters.Length0 && 1 <= clusters.Length1 && cs == Rows(clusters)
    requires 1 <= |parts| && AllHaveWidth(parts, clusters.Length1)
    modifies clusters
    ensures Rows(clusters) == Round(cs, clusters.Length1, parts)
    ensures error == Distributed(cs, clusters.Length1, parts).error
  {
    var task := DoAll(clusters, parts);
    UpdateCentroids(clusters, task);
    error := task.error;
  }

  /**
   * The rounds of the algorithm from the given centroids. Returns the error
   * each round reports; the centroids end as `Iterations` rounds leave them.
   */
  method Exec(clusters: array2<real>, parts: seq<Matrix>) returns (errors: seq<real>)
    requires 1 <= clusters.Length0 && 1 <= clusters.Length1
    requires 1 <= |parts| && AllHaveWidth(parts, clusters.Length1)
    modifies clusters
    ensures Rows(clusters) == Lloyd(old(Rows(clusters)), clusters.Length1, parts, Iterations)
    ensures errors == ErrorTrace(old(Rows(clusters)), clusters.Length1, parts, Iterations)
  {
    ghost var start := Rows(clusters);
    var d := clusters.Length1;
    errors := [];
    var i := 0;
    while i < Iterations
      invariant 0 <= i <= Iterations
      invariant Rows(clusters) == Lloyd(start, d, parts, i)
      invariant errors == ErrorTrace(start, d, parts, i)
    {
      var error := RunRound(clusters, parts, Rows(clusters));
      errors := errors + [error];
      i := i + 1;
    }
  }
}
