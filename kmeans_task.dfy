/**
 * The k-means task object: one map over a partition and the reduce that
 * merges another task's output into this one. The centroids are the task's
 * input; the per-centroid sums, counts and total squared error are its output
 * and are updated in place.
 */
module KMeansTask {
  import opened KMeansSpec
  import opened KMeansLemmas

  /** The rows of a two-dimensional array, as a matrix. */
  function Rows(a: array2<real>): (m: Matrix)
    reads a
    ensures IsMatrix(m, a.Length0, a.Length1)
    ensures forall c, j :: 0 <= c < a.Length0 && 0 <= j < a.Length1 ==> m[c][j] == a[c, j]
  {
    seq(a.Length0, c requires 0 <= c < a.Length0 reads a =>
      seq(a.Length1, j requires 0 <= j < a.Length1 reads a => a[c, j]))
  }

  /** An array equal element by element to a matrix of its shape has that matrix as its rows. */
  lemma RowsEqual(a: array2<real>, m: Matrix)
    requires IsMatrix(m, a.Length0, a.Length1)
    requires forall c, j :: 0 <= c < a.Length0 && 0 <= j < a.Length1 ==> a[c, j] == m[c][j]
    ensures Rows(a) == m
  {
    var r := Rows(a);
    forall c | 0 <= c < a.Length0 ensures r[c] == m[c] {
      assert |r[c]| == |m[c]|;
    }
  }

  class KMeans {
    /** IN: the current centroids, k rows of d columns. */
    var clusters: array2<real>
    /** OUT: per centroid, the sum of each column over the rows assigned to it. */
    var sums: array2<real>
    /** OUT: per centroid, the number of rows assigned to it. */
    var counts: array<int>
    /** OUT: the total squared distance of the rows to their nearest centroids. */
    var error: real

    /** A new task over the given centroids, with no output yet. */
    constructor (clusters: array2<real>)
      ensures this.clusters == clusters && error == 0.0
      ensures sums.Length0 == 0 && counts.Length == 0
    {
      this.clusters := clusters;
      sums := new real[0, 0];
      counts := new int[0];
      error := 0.0;
    }

    /** The task's output fields, as an aggregate value. */
    function Output(): Aggregate
      reads this, sums, counts
    {
      Aggregate(Rows(sums), counts[..], error)
    }

    /** Squared distance from row `x` to centroid `cluster`, column by column. */
    method SquaredDistance(x: Vector, cluster: nat) returns (sqr: real)
      requires cluster < clusters.Length0 && |x| == clusters.Length1
      ensures sqr == SqDist(x, Rows(clusters)[cluster])
    {
      ghost var centroid := Rows(clusters)[cluster];
      sqr := 0.0;
      var column := 0;
      while column < |x|
        invariant 0 <= column <= |x|
        invariant sqr == SqDistUpTo(x, centroid, column)
      {
        var delta := x[column] - clusters[cluster, column];
        sqr := sqr + delta * delta;
        column := column + 1;
      }
    }

    /**
     * The scan over the centroids for one row. `nearest == -1` stands for
     * "none found yet", when the bound `minSqr` is still infinite; after that
     * a centroid replaces the current choice only when strictly closer.
     */
    method FindNearest(x: Vector) returns (nearest: int, minSqr: real)
      requires 1 <= clusters.Length0 && |x| == clusters.Length1
      ensures 0 <= nearest < clusters.Length0
      ensures nearest == Nearest(x, Rows(clusters))
      ensures minSqr == MinSqDist(x, Rows(clusters))
    {
      ghost var cs := Rows(clusters);
      nearest := -1;
      minSqr := 0.0;
      var cluster := 0;
      while cluster < clusters.Length0
        invariant 0 <= cluster <= clusters.Length0
        invariant nearest == -1 <==> cluster == 0
        invariant cluster > 0 ==> nearest == NearestUpTo(x, cs, cluster)
        invariant cluster > 0 ==> minSqr == SqDist(x, cs[nearest])
      {
        var sqr := SquaredDistance(x, cluster);
        if nearest == -1 || sqr < minSqr {
          nearest := cluster;
          minSqr := sqr;
        }
        cluster := cluster + 1;
      }
    }

    /** The output fields hold exactly `agg`. */
    ghost predicate Stores(agg: Aggregate)
      reads this, sums, counts
    {
      sums.Length0 == counts.Length == |agg.sums| == |agg.counts| &&
      (forall c :: 0 <= c < |agg.sums| ==> |agg.sums[c]| == sums.Length1) &&
      (forall c, j :: 0 <= c < sums.Length0 && 0 <= j < sums.Length1 ==> sums[c, j] == agg.sums[c][j]) &&
      (forall c :: 0 <= c < counts.Length ==> counts[c] == agg.counts[c]) &&
      error == agg.error
    }

    /** What the output fields hold is what Output() says. */
    lemma StoresOutput(agg: Aggregate)
      requires Stores(agg)
      ensures Output() == agg
    {
      RowsEqual(sums, agg.sums);
      assert counts[..] == agg.counts;
    }

    /**
     * Add row `x` to the sums and count of centroid `nearest`, and its
     * squared distance `minSqr` to the error.
     */
    method Accumulate(x: Vector, nearest: nat, minSqr: real, ghost before: Aggregate)
      requires Stores(before) && nearest < counts.Length && |x| == sums.Length1
      requires sums != clusters
      modifies this`error, sums, counts
      ensures Stores(Aggregate(before.sums[nearest := VecAdd(before.sums[nearest], x)],
                               before.counts[nearest := before.counts[nearest] + 1],
                               before.error + minSqr))
    {
      error := error + minSqr;
      var column := 0;
      while column < sums.Length1
        invariant 0 <= column <= sums.Length1
        invariant forall c, j :: 0 <= c < sums.Length0 && 0 <= j < sums.Length1 ==>
          sums[c, j] == (if c == nearest && j < column then before.sums[c][j] + x[j] else before.sums[c][j])
        invariant forall c :: 0 <= c < counts.Length ==> counts[c] == before.counts[c]
        invariant error == before.error + minSqr
      {
        sums[nearest, column] := sums[nearest, column] + x[column];
        column := column + 1;
      }
      counts[nearest] := counts[nearest] + 1;
    }

    /**
     * One row of the map: find its nearest centroid, then add it there.
     * `before` is what the output fields held before the row.
     */
    method Assign(x: Vector, ghost before: Aggregate)
      requires 1 <= clusters.Length0 && |x| == clusters.Length1
      requires Shaped(before, clusters.Length0, clusters.Length1) && Stores(before)
      requires sums != clusters
      modifies this`error, sums, counts
      ensures Stores(AddRow(before, Rows(clusters), x))
    {
      var nearest, minSqr := FindNearest(x);
      assert |before.sums[0]| == sums.Length1;
      assert AddRow(before, Rows(clusters), x) ==
        Aggregate(before.sums[nearest := VecAdd(before.sums[nearest], x)],
                  before.counts[nearest := before.counts[nearest] + 1], before.error + minSqr);
      Accumulate(x, nearest, minSqr, before);
    }

    /**
     * Rows 0 .. row-1 of `block` are accounted for; account for row `row`
     * too. `start` is the error the task held before the map.
     */
    method MapRow(block: Matrix, row: nat, ghost start: real)
      requires 1 <= clusters.Length0 && HasWidth(block, clusters.Length1) && row < |block|
      requires sums != clusters
      requires Stores(Shifted(MapBlock(Rows(clusters), clusters.Length1, block[..row]), start))
      modifies this`error, sums, counts
      ensures Stores(Shifted(MapBlock(Rows(clusters), clusters.Length1, block[..row + 1]), start))
    {
      ghost var cs := Rows(clusters);
      MapBlockPrefixStep(cs, clusters.Length1, block, row, start);
      Assign(block[row], Shifted(MapBlock(cs, clusters.Length1, block[..row]), start));
    }

    /**
     * The map over one partition: fresh zeroed sums and counts, then every
     * row is added to its nearest centroid and its squared distance to the
     * error. The error field is accumulated, not reset.
     */
    method Map(block: Matrix)
      requires 1 <= clusters.Length0 && 1 <= clusters.Length1 && HasWidth(block, clusters.Length1)
      modifies this
      ensures clusters == old(clusters) && fresh(sums) && fresh(counts)
      ensures Output() == Shifted(MapBlock(Rows(clusters), clusters.Length1, block), old(error))
    {
      ghost var cs := Rows(clusters);
      ghost var start := error;
      var k, d := clusters.Length0, clusters.Length1;
      sums := new real[k, d]((_, _) => 0.0);
      counts := new int[k](_ => 0);
      assert block[..0] == [];
      assert Stores(Shifted(MapBlock(cs, d, block[..0]), start));
      var row := 0;
      while row < |block|
        invariant 0 <= row <= |block|
        invariant clusters == old(clusters) && fresh(sums) && fresh(counts)
        invariant Stores(Shifted(MapBlock(cs, d, block[..row]), start))
      {
        MapRow(block, row, start);
        row := row + 1;
      }
      assert block[..|block|] == block;
      StoresOutput(Shifted(MapBlock(cs, d, block), start));
    }

    /**
     * Merge another task's output into this one, element by element. The
     * other task is a different object with its own arrays, and stays as it was.
     */
    method Reduce(task: KMeans)
      requires task != this && task.sums != sums && task.counts != counts
      requires counts.Length == sums.Length0 == task.counts.Length == task.sums.Length0
      requires sums.Length1 == task.sums.Length1
      modifies this`error, sums, counts
      ensures SameShape(old(Output()), old(task.Output()))
      ensures Output() == Merge(old(Output()), old(task.Output()))
      ensures unchanged(task) && unchanged(task.sums) && unchanged(task.counts)
    {
      var cluster := 0;
      while cluster < counts.Length
        invariant 0 <= cluster <= counts.Length
        invariant unchanged(task) && unchanged(task.sums) && unchanged(task.counts)
        invariant forall c, j :: 0 <= c < sums.Length0 && 0 <= j < sums.Length1 ==>
          sums[c, j] == (if c < cluster then old(sums[c, j]) + task.sums[c, j] else old(sums[c, j]))
        invariant forall c :: 0 <= c < counts.Length ==>
          counts[c] == (if c < cluster then old(counts[c]) + task.counts[c] else old(counts[c]))
        invariant error == old(error)
      {
        var column := 0;
        while column < sums.Length1
          invariant 0 <= column <= sums.Length1
          invariant unchanged(task) && unchanged(task.sums) && unchanged(task.counts)
          invariant forall c, j :: 0 <= c < sums.Length0 && 0 <= j < sums.Length1 ==>
            sums[c, j] == (if c < cluster || (c == cluster && j < column)
                           then old(sums[c, j]) + task.sums[c, j] else old(sums[c, j]))
          invariant forall c :: 0 <= c < counts.Length ==>
            counts[c] == (if c < cluster then old(counts[c]) + task.counts[c] else old(counts[c]))
          invariant error == old(error)
        {
          sums[cluster, column] := sums[cluster, column] + task.sums[cluster, column];
          column := column + 1;
        }
        counts[cluster] := counts[cluster] + task.counts[cluster];
        cluster := cluster + 1;
      }
      error := error + task.error;
      ghost var m := Merge(old(Output()), old(task.Output()));
      RowsEqual(sums, m.sums);
      assert counts[..] == m.counts;
    }
  }
}
