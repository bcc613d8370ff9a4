/**
 * Properties of the k-means specification: the nearest-centroid rule, what
 * the map of a block computes, the algebra of the merge, partition
 * invariance and the centroid update.
 */
module KMeansLemmas {
  import opened KMeansSpec

  // ---------------------------------------------------------------------------
  // Nearest centroid
  // ---------------------------------------------------------------------------

  /**
   * The scan over the first n centroids settles on one that is at least as
   * close as each of them and strictly closer than every earlier one.
   */
  lemma {:induction false} NearestUpToIsFirstMinimum(x: Vector, cs: Matrix, n: nat)
    requires 1 <= n <= |cs| && HasWidth(cs, |x|)
    ensures var r := NearestUpTo(x, cs, n);
      (forall j :: 0 <= j < n ==> SqDist(x, cs[r]) <= SqDist(x, cs[j])) &&
      (forall j :: 0 <= j < r ==> SqDist(x, cs[r]) < SqDist(x, cs[j]))
  {
    if n > 1 {
      NearestUpToIsFirstMinimum(x, cs, n - 1);
    }
  }

  /**
   * The assigned centroid is exactly the lowest-indexed centroid among those
   * at minimal squared distance: both directions.
   */
  lemma NearestIsFirstMinimum(x: Vector, cs: Matrix, r: nat)
    requires 1 <= |cs| && HasWidth(cs, |x|)
    ensures r == Nearest(x, cs) <==>
      (r < |cs| &&
       (forall j :: 0 <= j < |cs| ==> SqDist(x, cs[r]) <= SqDist(x, cs[j])) &&
       (forall j :: 0 <= j < r ==> SqDist(x, cs[r]) < SqDist(x, cs[j])))
  {
    NearestUpToIsFirstMinimum(x, cs, |cs|);
  }

  /** A tie never moves a row to the higher-indexed centroid (strict comparison). */
  lemma TieGoesToLowerIndex(x: Vector, cs: Matrix, i: nat, j: nat)
    requires 1 <= |cs| && HasWidth(cs, |x|)
    requires i < j < |cs| && SqDist(x, cs[i]) == SqDist(x, cs[j])
    ensures Nearest(x, cs) != j
  {
    NearestUpToIsFirstMinimum(x, cs, |cs|);
  }

  /** MinSqDist is attained by some centroid and bounded by every centroid's distance. */
  lemma MinSqDistIsMinimum(x: Vector, cs: Matrix)
    requires 1 <= |cs| && HasWidth(cs, |x|)
    ensures exists c :: 0 <= c < |cs| && MinSqDist(x, cs) == SqDist(x, cs[c])
    ensures forall c :: 0 <= c < |cs| ==> MinSqDist(x, cs) <= SqDist(x, cs[c])
  {
    NearestUpToIsFirstMinimum(x, cs, |cs|);
    var n := Nearest(x, cs);
    assert MinSqDist(x, cs) == SqDist(x, cs[n]);
  }

  // ---------------------------------------------------------------------------
  // What map computes
  // ---------------------------------------------------------------------------

  /** Mapping one more row accounts for that row and changes nothing else. */
  lemma MapBlockAppend(cs: Matrix, block: Matrix, x: Vector)
    requires 1 <= |cs| && HasWidth(cs, |x|) && HasWidth(block, |x|)
    ensures HasWidth(block + [x], |x|)
    ensures MapBlock(cs, |x|, block + [x]) == AddRow(MapBlock(cs, |x|, block), cs, x)
  {
    ConcatHasWidth(block, [x], |x|);
    assert (block + [x])[..|block|] == block;
    assert (block + [x])[|block|] == x;
  }

  /** Adding a row commutes with shifting the error. */
  lemma AddRowShifted(a: Aggregate, cs: Matrix, x: Vector, start: real)
    requires 1 <= |cs| && HasWidth(cs, |x|) && Shaped(a, |cs|, |x|)
    ensures AddRow(Shifted(a, start), cs, x) == Shifted(AddRow(a, cs, x), start)
  {
  }

  /** One more row of `block` accounted for, whatever error the task started with. */
  lemma MapBlockPrefixStep(cs: Matrix, d: nat, block: Matrix, row: nat, start: real)
    requires 1 <= |cs| && HasWidth(cs, d) && HasWidth(block, d) && row < |block|
    ensures Shifted(MapBlock(cs, d, block[..row + 1]), start) ==
            AddRow(Shifted(MapBlock(cs, d, block[..row]), start), cs, block[row])
  {
    var prefix := block[..row + 1];
    assert prefix[..row] == block[..row];
    assert prefix[row] == block[row];
    AddRowShifted(MapBlock(cs, d, block[..row]), cs, block[row], start);
  }

  /**
   * After the map of a block, centroid c's count is the number of rows of the
   * block nearest to c, its sums are the column sums over exactly those rows,
   * and the error is the block's total minimum squared distance.
   */
  lemma {:induction false} MapBlockMeaning(cs: Matrix, d: nat, block: Matrix, c: nat)
    requires 1 <= |cs| && HasWidth(cs, d) && HasWidth(block, d) && c < |cs|
    ensures MapBlock(cs, d, block).counts[c] == |Members(cs, d, block, c)|
    ensures forall j :: 0 <= j < d ==>
      MapBlock(cs, d, block).sums[c][j] == ColumnSum(Members(cs, d, block, c), j)
    ensures MapBlock(cs, d, block).error == TotalError(cs, d, block)
    decreases |block|
  {
    if block != [] {
      var prefix := block[..|block| - 1];
      var x := block[|block| - 1];
      MapBlockMeaning(cs, d, prefix, c);
      var rest := Members(cs, d, prefix, c);
      if Nearest(x, cs) == c {
        assert (rest + [x])[..|rest + [x]| - 1] == rest;
        forall j | 0 <= j < d
          ensures MapBlock(cs, d, block).sums[c][j] == ColumnSum(Members(cs, d, block, c), j)
        {
          assert ColumnSum(rest + [x], j) == ColumnSum(rest, j) + x[j];
        }
      }
    }
  }

  lemma {:induction false} TotalIncrement(s: seq<int>, n: nat)
    requires n < |s|
    ensures Total(s[n := s[n] + 1]) == Total(s) + 1
    decreases |s|
  {
    var t := s[n := s[n] + 1];
    if n < |s| - 1 {
      assert t[..|t| - 1] == s[..|s| - 1][n := s[n] + 1];
      TotalIncrement(s[..|s| - 1], n);
    } else {
      assert t[..|t| - 1] == s[..|s| - 1];
    }
  }

  lemma {:induction false} TotalOfZeros(s: seq<int>)
    requires forall i :: 0 <= i < |s| ==> s[i] == 0
    ensures Total(s) == 0
    decreases |s|
  {
    if s != [] {
      TotalOfZeros(s[..|s| - 1]);
    }
  }

  /** The counts of the map of a block add up to the number of rows in the block. */
  lemma {:induction false} CountsConserved(cs: Matrix, d: nat, block: Matrix)
    requires 1 <= |cs| && HasWidth(cs, d) && HasWidth(block, d)
    ensures Total(MapBlock(cs, d, block).counts) == |block|
    ensures forall c :: 0 <= c < |cs| ==> MapBlock(cs, d, block).counts[c] >= 0
    decreases |block|
  {
    if block == [] {
      TotalOfZeros(Zero(|cs|, d).counts);
    } else {
      var prefix := block[..|block| - 1];
      var x := block[|block| - 1];
      var prev := MapBlock(cs, d, prefix);
      var n := Nearest(x, cs);
      CountsConserved(cs, d, prefix);
      assert MapBlock(cs, d, block).counts == prev.counts[n := prev.counts[n] + 1];
      TotalIncrement(prev.counts, n);
    }
  }

  // ---------------------------------------------------------------------------
  // The merge
  // ---------------------------------------------------------------------------

  lemma AggregateEqual(a: Aggregate, b: Aggregate)
    requires SameShape(a, b)
    requires forall c, j :: 0 <= c < |a.sums| && 0 <= j < |a.sums[c]| ==> a.sums[c][j] == b.sums[c][j]
    requires forall c :: 0 <= c < |a.counts| ==> a.counts[c] == b.counts[c]
    requires a.error == b.error
    ensures a == b
  {
    forall c | 0 <= c < |a.sums| ensures a.sums[c] == b.sums[c] {
    }
  }

  /** Merging is commutative. */
  lemma MergeCommutes(a: Aggregate, b: Aggregate)
    requires SameShape(a, b)
    ensures Merge(a, b) == Merge(b, a)
  {
    AggregateEqual(Merge(a, b), Merge(b, a));
  }

  /** Merging is associative. */
  lemma MergeAssociates(a: Aggregate, b: Aggregate, c: Aggregate)
    requires SameShape(a, b) && SameShape(b, c)
    ensures SameShape(Merge(a, b), c) && SameShape(a, Merge(b, c))
    ensures Merge(Merge(a, b), c) == Merge(a, Merge(b, c))
  {
    AggregateEqual(Merge(Merge(a, b), c), Merge(a, Merge(b, c)));
  }

  /** The aggregate of no rows is a unit of the merge. */
  lemma MergeZero(a: Aggregate, k: nat, d: nat)
    requires Shaped(a, k, d)
    ensures SameShape(a, Zero(k, d)) && Merge(a, Zero(k, d)) == a
  {
    AggregateEqual(Merge(a, Zero(k, d)), a);
  }

  /** Adding a row on the right commutes with merging on the left. */
  lemma AddRowMerge(a: Aggregate, b: Aggregate, cs: Matrix, x: Vector)
    requires 1 <= |cs| && HasWidth(cs, |x|)
    requires Shaped(a, |cs|, |x|) && Shaped(b, |cs|, |x|)
    ensures Merge(a, AddRow(b, cs, x)) == AddRow(Merge(a, b), cs, x)
  {
    AggregateEqual(Merge(a, AddRow(b, cs, x)), AddRow(Merge(a, b), cs, x));
  }

  // ---------------------------------------------------------------------------
  // Partition invariance
  // ---------------------------------------------------------------------------

  lemma ConcatHasWidth(a: Matrix, b: Matrix, d: nat)
    requires HasWidth(a, d) && HasWidth(b, d)
    ensures HasWidth(a + b, d)
  {
    forall r | 0 <= r < |a + b| ensures |(a + b)[r]| == d {
      if r >= |a| {
        assert (a + b)[r] == b[r - |a|];
      }
    }
  }

  /** Mapping two blocks one after the other and merging equals mapping their concatenation. */
  lemma {:induction false} PartitionInvariance(cs: Matrix, d: nat, a: Matrix, b: Matrix)
    requires 1 <= |cs| && HasWidth(cs, d) && HasWidth(a, d) && HasWidth(b, d)
    ensures HasWidth(a + b, d)
    ensures MapBlock(cs, d, a + b) == Merge(MapBlock(cs, d, a), MapBlock(cs, d, b))
    decreases |b|
  {
    ConcatHasWidth(a, b, d);
    if b == [] {
      assert a + b == a;
      MergeZero(MapBlock(cs, d, a), |cs|, d);
    } else {
      var prefix := b[..|b| - 1];
      var x := b[|b| - 1];
      assert (a + b)[..|a + b| - 1] == a + prefix;
      assert (a + b)[|a + b| - 1] == x;
      PartitionInvariance(cs, d, a, prefix);
      AddRowMerge(MapBlock(cs, d, a), MapBlock(cs, d, prefix), cs, x);
    }
  }

  lemma {:induction false} FlattenHasWidth(parts: seq<Matrix>, d: nat)
    requires AllHaveWidth(parts, d)
    ensures HasWidth(Flatten(parts), d)
    decreases |parts|
  {
    if parts != [] {
      FlattenHasWidth(parts[..|parts| - 1], d);
      ConcatHasWidth(Flatten(parts[..|parts| - 1]), parts[|parts| - 1], d);
    }
  }

  /** Every prefix of a sequence of partitions of width `d` has width `d`. */
  lemma PrefixHasWidth(parts: seq<Matrix>, d: nat, n: nat)
    requires AllHaveWidth(parts, d) && n <= |parts|
    ensures AllHaveWidth(parts[..n], d)
  {
    assert forall q :: 0 <= q < n ==> parts[..n][q] == parts[q];
  }

  /** The rows of the first `n` partitions have width `d`. */
  lemma FlattenPrefixWidth(parts: seq<Matrix>, d: nat, n: nat)
    requires AllHaveWidth(parts, d) && n <= |parts|
    ensures HasWidth(Flatten(parts[..n]), d)
  {
    PrefixHasWidth(parts, d, n);
    FlattenHasWidth(parts[..n], d);
  }

  /**
   * Folding the maps of the first `n` partitions with the merge gives the
   * map of all their rows at once.
   */
  lemma {:induction false} DistributedUpToIsWhole(cs: Matrix, d: nat, parts: seq<Matrix>, n: nat)
    requires 1 <= |cs| && HasWidth(cs, d)
    requires 1 <= n <= |parts| && AllHaveWidth(parts, d)
    ensures HasWidth(Flatten(parts[..n]), d)
    ensures DistributedUpTo(cs, d, parts, n) == MapBlock(cs, d, Flatten(parts[..n]))
  {
    FlattenPrefixWidth(parts, d, n);
    if n == 1 {
      FlattenPrefixStep(parts, 1);
      assert parts[..0] == [];
      assert Flatten(parts[..1]) == parts[0];
    } else {
      FlattenPrefixWidth(parts, d, n - 1);
      DistributedUpToIsWhole(cs, d, parts, n - 1);
      MapFlattenStep(cs, d, parts, n);
    }
  }

  /** The map of the rows of n partitions merges the map of the first n-1 with that of the last. */
  lemma MapFlattenStep(cs: Matrix, d: nat, parts: seq<Matrix>, n: nat)
    requires 1 <= |cs| && HasWidth(cs, d)
    requires 2 <= n <= |parts| && AllHaveWidth(parts, d)
    ensures HasWidth(Flatten(parts[..n - 1]), d) && HasWidth(Flatten(parts[..n]), d)
    ensures MapBlock(cs, d, Flatten(parts[..n])) ==
      Merge(MapBlock(cs, d, Flatten(parts[..n - 1])), MapBlock(cs, d, parts[n - 1]))
  {
    FlattenPrefixWidth(parts, d, n - 1);
    FlattenPrefixWidth(parts, d, n);
    FlattenPrefixStep(parts, n);
    PartitionInvariance(cs, d, Flatten(parts[..n - 1]), parts[n - 1]);
  }

  /** The rows of the first n partitions are those of the first n-1, then partition n-1's. */
  lemma FlattenPrefixStep(parts: seq<Matrix>, n: nat)
    requires 1 <= n <= |parts|
    ensures Flatten(parts[..n]) == Flatten(parts[..n - 1]) + parts[n - 1]
  {
    assert parts[..n][..n - 1] == parts[..n - 1];
    assert parts[..n][n - 1] == parts[n - 1];
  }

  /**
   * Folding the per-partition maps with the merge gives the map of all rows
   * at once: the result does not depend on where the partition boundaries lie.
   */
  lemma DistributedIsWhole(cs: Matrix, d: nat, parts: seq<Matrix>)
    requires 1 <= |cs| && HasWidth(cs, d)
    requires 1 <= |parts| && AllHaveWidth(parts, d)
    ensures HasWidth(Flatten(parts), d)
    ensures Distributed(cs, d, parts) == MapBlock(cs, d, Flatten(parts))
  {
    DistributedUpToIsWhole(cs, d, parts, |parts|);
    assert parts[..|parts|] == parts;
  }

  // ---------------------------------------------------------------------------
  // The centroid update and the rounds
  // ---------------------------------------------------------------------------

  /**
   * After a round, a centroid to which no row of the data set is nearest is
   * unchanged, and any other centroid is the column-wise mean of exactly the
   * rows nearest to it.
   */
  lemma RoundMeaning(cs: Matrix, d: nat, parts: seq<Matrix>, c: nat)
    requires 1 <= |cs| && HasWidth(cs, d)
    requires 1 <= |parts| && AllHaveWidth(parts, d)
    requires c < |cs|
    ensures HasWidth(Flatten(parts), d)
    ensures var rows := Members(cs, d, Flatten(parts), c);
      if |rows| == 0 then Round(cs, d, parts)[c] == cs[c]
      else forall v :: 0 <= v < d ==>
        Round(cs, d, parts)[c][v] == ColumnSum(rows, v) / (|rows| as real)
  {
    DistributedIsWhole(cs, d, parts);
    MapBlockMeaning(cs, d, Flatten(parts), c);
  }

  /** Zero-count stability, stated on the update itself. */
  lemma UpdateKeepsEmpty(cs: Matrix, d: nat, agg: Aggregate, c: nat)
    requires HasWidth(cs, d) && Shaped(agg, |cs|, d)
    requires c < |cs| && agg.counts[c] == 0
    ensures Update(cs, d, agg)[c] == cs[c]
  {
  }

  /** The rounds do not depend on how the rows are split into partitions. */
  lemma {:induction false} LloydPartitionInvariant(cs: Matrix, d: nat, p: seq<Matrix>, q: seq<Matrix>, n: nat)
    requires 1 <= |cs| && HasWidth(cs, d)
    requires 1 <= |p| && AllHaveWidth(p, d)
    requires 1 <= |q| && AllHaveWidth(q, d)
    requires Flatten(p) == Flatten(q)
    ensures Lloyd(cs, d, p, n) == Lloyd(cs, d, q, n)
    ensures ErrorTrace(cs, d, p, n) == ErrorTrace(cs, d, q, n)
  {
    if n > 0 {
      LloydPartitionInvariant(cs, d, p, q, n - 1);
      var prev := Lloyd(cs, d, p, n - 1);
      DistributedIsWhole(prev, d, p);
      DistributedIsWhole(prev, d, q);
    }
  }

  /** The error of the distributed result is the total error of all rows. */
  lemma DistributedError(cs: Matrix, d: nat, parts: seq<Matrix>)
    requires 1 <= |cs| && HasWidth(cs, d)
    requires 1 <= |parts| && AllHaveWidth(parts, d)
    ensures HasWidth(Flatten(parts), d)
    ensures Distributed(cs, d, parts).error == TotalError(cs, d, Flatten(parts))
  {
    DistributedIsWhole(cs, d, parts);
    MapBlockMeaning(cs, d, Flatten(parts), 0);
  }

  /**
   * Round m appends to the reported errors the total minimum squared distance
   * of all rows to the centroids with which round m started.
   */
  lemma ErrorTraceStep(cs: Matrix, d: nat, parts: seq<Matrix>, m: nat)
    requires 1 <= |cs| && HasWidth(cs, d)
    requires 1 <= |parts| && AllHaveWidth(parts, d)
    ensures HasWidth(Flatten(parts), d)
    ensures ErrorTrace(cs, d, parts, m + 1) ==
      ErrorTrace(cs, d, parts, m) + [TotalError(Lloyd(cs, d, parts, m), d, Flatten(parts))]
  {
    DistributedError(Lloyd(cs, d, parts, m), d, parts);
  }

  /** Round i reports the error of the distributed result over the centroids after i rounds. */
  lemma {:induction false} ErrorTraceAt(cs: Matrix, d: nat, parts: seq<Matrix>, n: nat, i: nat)
    requires 1 <= |cs| && HasWidth(cs, d)
    requires 1 <= |parts| && AllHaveWidth(parts, d)
    requires i < n
    ensures ErrorTrace(cs, d, parts, n)[i] == Distributed(Lloyd(cs, d, parts, i), d, parts).error
  {
    if i < n - 1 {
      ErrorTraceAt(cs, d, parts, n - 1, i);
    }
  }

  /** No round reports a negative error. */
  lemma ErrorTraceNonNegative(cs: Matrix, d: nat, parts: seq<Matrix>, n: nat)
    requires 1 <= |cs| && HasWidth(cs, d)
    requires 1 <= |parts| && AllHaveWidth(parts, d)
    ensures forall i :: 0 <= i < n ==> ErrorTrace(cs, d, parts, n)[i] >= 0.0
  {
    forall i | 0 <= i < n ensures ErrorTrace(cs, d, parts, n)[i] >= 0.0 {
      ErrorTraceAt(cs, d, parts, n, i);
      DistributedError(Lloyd(cs, d, parts, i), d, parts);
    }
  }
}
