/**
 * Pure specification of one round of Lloyd's k-means algorithm as the
 * MinimalKMeans sample realises it: squared Euclidean distance, the
 * nearest-centroid rule, the partial aggregate a partition produces, the
 * element-wise merge of two aggregates, the centroid update and the fixed
 * number of rounds the driver runs.
 *
 * Values are exact reals, so sums are independent of summation order.
 */
module KMeansSpec {

  type Vector = seq<real>
  type Matrix = seq<Vector>

  /** Every row of `m` has exactly `d` columns. */
  predicate HasWidth(m: Matrix, d: nat) {
    forall r :: 0 <= r < |m| ==> |m[r]| == d
  }

  /** `m` is a `k` by `d` matrix. */
  predicate IsMatrix(m: Matrix, k: nat, d: nat) {
    |m| == k && HasWidth(m, d)
  }

  // ---------------------------------------------------------------------------
  // Distance and nearest centroid
  // ---------------------------------------------------------------------------

  /** Squared Euclidean distance between `x` and `c` over their first `n` columns. */
  function SqDistUpTo(x: Vector, c: Vector, n: nat): (r: real)
    requires n <= |x| && n <= |c|
    ensures r >= 0.0
  {
    if n == 0 then 0.0
    else
      var delta := x[n - 1] - c[n - 1];
      SquareNonNegative(delta);
      SqDistUpTo(x, c, n - 1) + delta * delta
  }

  lemma SquareNonNegative(delta: real)
    ensures delta * delta >= 0.0
  {
    if delta < 0.0 {
      assert delta * delta == (-delta) * (-delta);
    }
  }

  /** Squared Euclidean distance between a row and a centroid of the same width. */
  function SqDist(x: Vector, c: Vector): (r: real)
    requires |x| == |c|
    ensures r >= 0.0
  {
    SqDistUpTo(x, c, |x|)
  }

  /**
   * The centroid the scan over clusters 0 .. n-1 settles on: a later cluster
   * replaces the current choice only when it is STRICTLY closer.
   */
  function NearestUpTo(x: Vector, cs: Matrix, n: nat): (r: nat)
    requires 1 <= n <= |cs|
    requires HasWidth(cs, |x|)
    ensures r < n
  {
    if n == 1 then 0
    else
      var p := NearestUpTo(x, cs, n - 1);
      if SqDist(x, cs[n - 1]) < SqDist(x, cs[p]) then n - 1 else p
  }

  /** The centroid a row is assigned to. */
  function Nearest(x: Vector, cs: Matrix): (r: nat)
    requires 1 <= |cs| && HasWidth(cs, |x|)
    ensures r < |cs|
  {
    NearestUpTo(x, cs, |cs|)
  }

  /** The squared distance from a row to its nearest centroid. */
  function MinSqDist(x: Vector, cs: Matrix): (r: real)
    requires 1 <= |cs| && HasWidth(cs, |x|)
    ensures r >= 0.0
  {
    SqDist(x, cs[Nearest(x, cs)])
  }

  // ---------------------------------------------------------------------------
  // Reference definitions: who is assigned where, and their statistics
  // ---------------------------------------------------------------------------

  /** The rows of `block`, in order, whose nearest centroid is `c`. */
  function Members(cs: Matrix, d: nat, block: Matrix, c: nat): (m: Matrix)
    requires 1 <= |cs| && HasWidth(cs, d) && HasWidth(block, d)
    ensures |m| <= |block| && HasWidth(m, d)
    ensures forall i :: 0 <= i < |m| ==> Nearest(m[i], cs) == c
    decreases |block|
  {
    if block == [] then []
    else
      var x := block[|block| - 1];
      var rest := Members(cs, d, block[..|block| - 1], c);
      if Nearest(x, cs) == c then rest + [x] else rest
  }

  /** The sum of column `j` over `rows`. */
  function ColumnSum(rows: Matrix, j: nat): real
    requires forall r :: 0 <= r < |rows| ==> j < |rows[r]|
    decreases |rows|
  {
    if rows == [] then 0.0
    else ColumnSum(rows[..|rows| - 1], j) + rows[|rows| - 1][j]
  }

  /** The sum over the rows of `block` of each row's minimum squared distance. */
  function TotalError(cs: Matrix, d: nat, block: Matrix): (r: real)
    requires 1 <= |cs| && HasWidth(cs, d) && HasWidth(block, d)
    ensures r >= 0.0
    decreases |block|
  {
    if block == [] then 0.0
    else TotalError(cs, d, block[..|block| - 1]) + MinSqDist(block[|block| - 1], cs)
  }

  /** The sum of a sequence of counts. */
  function Total(s: seq<int>): int
    decreases |s|
  {
    if s == [] then 0 else Total(s[..|s| - 1]) + s[|s| - 1]
  }

  // ---------------------------------------------------------------------------
  // Partial aggregates: the OUT fields of the task
  // ---------------------------------------------------------------------------

  /** Per-centroid column sums, per-centroid row counts and total squared error. */
  datatype Aggregate = Aggregate(sums: Matrix, counts: seq<int>, error: real)

  /** `a` has `k` by `d` sums and `k` counts. */
  predicate Shaped(a: Aggregate, k: nat, d: nat) {
    IsMatrix(a.sums, k, d) && |a.counts| == k
  }

  /** `a` and `b` have the same number of centroids and the same row widths. */
  predicate SameShape(a: Aggregate, b: Aggregate) {
    |a.counts| == |a.sums| == |b.sums| == |b.counts| &&
    forall c :: 0 <= c < |a.sums| ==> |a.sums[c]| == |b.sums[c]|
  }

  /** The aggregate of no rows: freshly allocated, all zero. */
  function Zero(k: nat, d: nat): (z: Aggregate)
    ensures Shaped(z, k, d) && z.error == 0.0
    ensures forall c :: 0 <= c < k ==> z.counts[c] == 0
    ensures forall c, j :: 0 <= c < k && 0 <= j < d ==> z.sums[c][j] == 0.0
  {
    Aggregate(seq(k, _ => seq(d, _ => 0.0)), seq(k, _ => 0), 0.0)
  }

  /** Element-wise sum of two vectors of equal length. */
  function VecAdd(u: Vector, v: Vector): (w: Vector)
    requires |u| == |v|
    ensures |w| == |u|
    ensures forall j :: 0 <= j < |w| ==> w[j] == u[j] + v[j]
  {
    seq(|u|, j requires 0 <= j < |u| => u[j] + v[j])
  }

  /** The merge of two partial aggregates: everything is added element-wise. */
  function Merge(a: Aggregate, b: Aggregate): (m: Aggregate)
    requires SameShape(a, b)
    ensures SameShape(m, a) && SameShape(m, b)
    ensures forall c, j :: 0 <= c < |m.sums| && 0 <= j < |m.sums[c]| ==>
      m.sums[c][j] == a.sums[c][j] + b.sums[c][j]
    ensures forall c :: 0 <= c < |m.counts| ==> m.counts[c] == a.counts[c] + b.counts[c]
    ensures m.error == a.error + b.error
  {
    Aggregate(
      seq(|a.sums|, c requires 0 <= c < |a.sums| => VecAdd(a.sums[c], b.sums[c])),
      seq(|a.counts|, c requires 0 <= c < |a.counts| => a.counts[c] + b.counts[c]),
      a.error + b.error)
  }

  /** `a` with `base` added to its error: what a task reports whose error started at `base`. */
  function Shifted(a: Aggregate, base: real): Aggregate {
    a.(error := base + a.error)
  }

  /** Account for one more row: it goes to its nearest centroid. */
  function AddRow(a: Aggregate, cs: Matrix, x: Vector): (r: Aggregate)
    requires 1 <= |cs| && HasWidth(cs, |x|) && Shaped(a, |cs|, |x|)
    ensures Shaped(r, |cs|, |x|)
  {
    var n := Nearest(x, cs);
    Aggregate(a.sums[n := VecAdd(a.sums[n], x)], a.counts[n := a.counts[n] + 1],
              a.error + SqDist(x, cs[n]))
  }

  /** What the task's map computes for one block of rows, row by row. */
  function MapBlock(cs: Matrix, d: nat, block: Matrix): (r: Aggregate)
    requires 1 <= |cs| && HasWidth(cs, d) && HasWidth(block, d)
    ensures Shaped(r, |cs|, d)
    decreases |block|
  {
    if block == [] then Zero(|cs|, d)
    else AddRow(MapBlock(cs, d, block[..|block| - 1]), cs, block[|block| - 1])
  }

  /** Every partition of `parts` has rows of width `d`. */
  predicate AllHaveWidth(parts: seq<Matrix>, d: nat) {
    forall p :: 0 <= p < |parts| ==> HasWidth(parts[p], d)
  }

  /** The rows of all partitions, in partition order. */
  function Flatten(parts: seq<Matrix>): (rows: Matrix)
    decreases |parts|
  {
    if parts == [] then [] else Flatten(parts[..|parts| - 1]) + parts[|parts| - 1]
  }

  /**
   * The distributed result over the first `n` partitions: the map of each
   * partition, folded together by merging from left to right.
   */
  function DistributedUpTo(cs: Matrix, d: nat, parts: seq<Matrix>, n: nat): (r: Aggregate)
    requires 1 <= |cs| && HasWidth(cs, d)
    requires 1 <= n <= |parts| && AllHaveWidth(parts, d)
    ensures Shaped(r, |cs|, d)
  {
    if n == 1 then MapBlock(cs, d, parts[0])
    else Merge(DistributedUpTo(cs, d, parts, n - 1), MapBlock(cs, d, parts[n - 1]))
  }

  /** The distributed result over all partitions. */
  function Distributed(cs: Matrix, d: nat, parts: seq<Matrix>): (r: Aggregate)
    requires 1 <= |cs| && HasWidth(cs, d)
    requires 1 <= |parts| && AllHaveWidth(parts, d)
    ensures Shaped(r, |cs|, d)
  {
    DistributedUpTo(cs, d, parts, |parts|)
  }

  // ---------------------------------------------------------------------------
  // The driver
  // ---------------------------------------------------------------------------

  /** The number of rounds the driver runs; there is no convergence test. */
  const Iterations: nat := 10

  /**
   * The centroid update: a centroid that received rows becomes the
   * column-wise mean of its sums; one that received none is left as it was.
   */
  function Update(cs: Matrix, d: nat, agg: Aggregate): (r: Matrix)
    requires HasWidth(cs, d) && Shaped(agg, |cs|, d)
    ensures IsMatrix(r, |cs|, d)
  {
    seq(|cs|, c requires 0 <= c < |cs| =>
      if agg.counts[c] > 0 then
        seq(d, v requires 0 <= v < d => agg.sums[c][v] / (agg.counts[c] as real))
      else cs[c])
  }

  /** One round over all partitions. */
  function Round(cs: Matrix, d: nat, parts: seq<Matrix>): (r: Matrix)
    requires 1 <= |cs| && HasWidth(cs, d)
    requires 1 <= |parts| && AllHaveWidth(parts, d)
    ensures IsMatrix(r, |cs|, d)
  {
    Update(cs, d, Distributed(cs, d, parts))
  }

  /** The centroids after `n` rounds. */
  function Lloyd(cs: Matrix, d: nat, parts: seq<Matrix>, n: nat): (r: Matrix)
    requires 1 <= |cs| && HasWidth(cs, d)
    requires 1 <= |parts| && AllHaveWidth(parts, d)
    ensures IsMatrix(r, |cs|, d)
  {
    if n == 0 then cs else Round(Lloyd(cs, d, parts, n - 1), d, parts)
  }

  /** The total squared error reported by each of the first `n` rounds. */
  function ErrorTrace(cs: Matrix, d: nat, parts: seq<Matrix>, n: nat): (r: seq<real>)
    requires 1 <= |cs| && HasWidth(cs, d)
    requires 1 <= |parts| && AllHaveWidth(parts, d)
    ensures |r| == n
  {
    if n == 0 then []
    else ErrorTrace(cs, d, parts, n - 1) + [Distributed(Lloyd(cs, d, parts, n - 1), d, parts).error]
  }
}
