/**
 * A worked example of two rounds: rows (0,0), (0,1), (10,10), (10,11) in one
 * partition, starting from centroids (0,0) and (10,10).
 */
module KMeansScenario {
  import opened KMeansSpec
  import opened KMeansLemmas

  /** The squared distance of two-column rows, written out. */
  lemma SqDistOfPairs(x: Vector, c: Vector)
    requires |x| == |c| == 2
    ensures SqDist(x, c) == (x[0] - c[0]) * (x[0] - c[0]) + (x[1] - c[1]) * (x[1] - c[1])
  {
    assert SqDistUpTo(x, c, 1) == (x[0] - c[0]) * (x[0] - c[0]);
  }

  /** With two centroids, the second wins only when it is strictly closer. */
  lemma NearestOfTwo(x: Vector, cs: Matrix)
    requires |cs| == 2 && HasWidth(cs, |x|)
    ensures Nearest(x, cs) == if SqDist(x, cs[1]) < SqDist(x, cs[0]) then 1 else 0
  {
  }

  const Points: Matrix := [[0.0, 0.0], [0.0, 1.0], [10.0, 10.0], [10.0, 11.0]]
  const Start: Matrix := [[0.0, 0.0], [10.0, 10.0]]
  const Next: Matrix := [[0.0, 0.5], [10.0, 10.5]]

  // The map of each prefix of Points, first with the starting centroids and
  // then with the centroids after one round.

  lemma StartPrefix1()
    ensures HasWidth(Points[..1], 2)
    ensures MapBlock(Start, 2, Points[..1]) == Aggregate([[0.0, 0.0], [0.0, 0.0]], [1, 0], 0.0)
  {
    var x := Points[0];
    SqDistOfPairs(x, Start[0]); SqDistOfPairs(x, Start[1]); NearestOfTwo(x, Start);
    assert Nearest(x, Start) == 0;
    var a := Zero(2, 2);
    assert Points[..0] == [];
    assert a.sums[0] == [0.0, 0.0] && a.sums[1] == [0.0, 0.0] && a.counts == [0, 0];
    MapBlockAppend(Start, Points[..0], x);
    assert Points[..0] + [x] == Points[..1];
    assert VecAdd(a.sums[0], x) == [0.0, 0.0];
  }

  lemma StartPrefix2()
    ensures HasWidth(Points[..2], 2)
    ensures MapBlock(Start, 2, Points[..2]) == Aggregate([[0.0, 1.0], [0.0, 0.0]], [2, 0], 1.0)
  {
    var x := Points[1];
    SqDistOfPairs(x, Start[0]); SqDistOfPairs(x, Start[1]); NearestOfTwo(x, Start);
    assert Nearest(x, Start) == 0;
    StartPrefix1();
    var a := Aggregate([[0.0, 0.0], [0.0, 0.0]], [1, 0], 0.0);
    MapBlockAppend(Start, Points[..1], x);
    assert Points[..1] + [x] == Points[..2];
    assert VecAdd(a.sums[0], x) == [0.0, 1.0];
  }

  lemma StartPrefix3()
    ensures HasWidth(Points[..3], 2)
    ensures MapBlock(Start, 2, Points[..3]) == Aggregate([[0.0, 1.0], [10.0, 10.0]], [2, 1], 1.0)
  {
    var x := Points[2];
    SqDistOfPairs(x, Start[0]); SqDistOfPairs(x, Start[1]); NearestOfTwo(x, Start);
    assert Nearest(x, Start) == 1;
    StartPrefix2();
    var a := Aggregate([[0.0, 1.0], [0.0, 0.0]], [2, 0], 1.0);
    MapBlockAppend(Start, Points[..2], x);
    assert Points[..2] + [x] == Points[..3];
    assert VecAdd(a.sums[1], x) == [10.0, 10.0];
  }

  lemma StartPrefix4()
    ensures HasWidth(Points[..4], 2)
    ensures MapBlock(Start, 2, Points[..4]) == Aggregate([[0.0, 1.0], [20.0, 21.0]], [2, 2], 2.0)
  {
    var x := Points[3];
    SqDistOfPairs(x, Start[0]); SqDistOfPairs(x, Start[1]); NearestOfTwo(x, Start);
    assert Nearest(x, Start) == 1;
    StartPrefix3();
    var a := Aggregate([[0.0, 1.0], [10.0, 10.0]], [2, 1], 1.0);
    MapBlockAppend(Start, Points[..3], x);
    assert Points[..3] + [x] == Points[..4];
    assert VecAdd(a.sums[1], x) == [20.0, 21.0];
  }

  lemma NextPrefix1()
    ensures HasWidth(Points[..1], 2)
    ensures MapBlock(Next, 2, Points[..1]) == Aggregate([[0.0, 0.0], [0.0, 0.0]], [1, 0], 0.25)
  {
    var x := Points[0];
    SqDistOfPairs(x, Next[0]); SqDistOfPairs(x, Next[1]); NearestOfTwo(x, Next);
    assert Nearest(x, Next) == 0;
    var a := Zero(2, 2);
    assert Points[..0] == [];
    assert a.sums[0] == [0.0, 0.0] && a.sums[1] == [0.0, 0.0] && a.counts == [0, 0];
    MapBlockAppend(Next, Points[..0], x);
    assert Points[..0] + [x] == Points[..1];
    assert VecAdd(a.sums[0], x) == [0.0, 0.0];
  }

  lemma NextPrefix2()
    ensures HasWidth(Points[..2], 2)
    ensures MapBlock(Next, 2, Points[..2]) == Aggregate([[0.0, 1.0], [0.0, 0.0]], [2, 0], 0.5)
  {
    var x := Points[1];
    SqDistOfPairs(x, Next[0]); SqDistOfPairs(x, Next[1]); NearestOfTwo(x, Next);
    assert Nearest(x, Next) == 0;
    NextPrefix1();
    var a := Aggregate([[0.0, 0.0], [0.0, 0.0]], [1, 0], 0.25);
    MapBlockAppend(Next, Points[..1], x);
    assert Points[..1] + [x] == Points[..2];
    assert VecAdd(a.sums[0], x) == [0.0, 1.0];
  }

  lemma NextPrefix3()
    ensures HasWidth(Points[..3], 2)
    ensures MapBlock(Next, 2, Points[..3]) == Aggregate([[0.0, 1.0], [10.0, 10.0]], [2, 1], 0.75)
  {
    var x := Points[2];
    SqDistOfPairs(x, Next[0]); SqDistOfPairs(x, Next[1]); NearestOfTwo(x, Next);
    assert Nearest(x, Next) == 1;
    NextPrefix2();
    var a := Aggregate([[0.0, 1.0], [0.0, 0.0]], [2, 0], 0.5);
    MapBlockAppend(Next, Points[..2], x);
    assert Points[..2] + [x] == Points[..3];
    assert VecAdd(a.sums[1], x) == [10.0, 10.0];
  }

  lemma NextPrefix4()
    ensures HasWidth(Points[..4], 2)
    ensures MapBlock(Next, 2, Points[..4]) == Aggregate([[0.0, 1.0], [20.0, 21.0]], [2, 2], 1.0)
  {
    var x := Points[3];
    SqDistOfPairs(x, Next[0]); SqDistOfPairs(x, Next[1]); NearestOfTwo(x, Next);
    assert Nearest(x, Next) == 1;
    NextPrefix3();
    var a := Aggregate([[0.0, 1.0], [10.0, 10.0]], [2, 1], 0.75);
    MapBlockAppend(Next, Points[..3], x);
    assert Points[..3] + [x] == Points[..4];
    assert VecAdd(a.sums[1], x) == [20.0, 21.0];
  }

  /**
   * One round moves the centroids to (0, 0.5) and (10, 10.5). The error each
   * round reports is measured against the centroids the round starts with:
   * 0 + 1 + 0 + 1 = 2 in round one and 4 * 0.25 = 1 in round two.
   */
  lemma TwoPairsScenario()
    ensures HasWidth(Points, 2) && AllHaveWidth([Points], 2)
    ensures Round(Start, 2, [Points]) == Next
    ensures ErrorTrace(Start, 2, [Points], 2) == [2.0, 1.0]
  {
    FirstRound();
    SecondRoundError();
    assert Lloyd(Start, 2, [Points], 1) == Next;
    assert ErrorTrace(Start, 2, [Points], 1) == [2.0];
  }

  /** The combined result of round one, and the centroids it leaves. */
  lemma FirstRound()
    ensures HasWidth(Points, 2) && AllHaveWidth([Points], 2)
    ensures Distributed(Start, 2, [Points]) == Aggregate([[0.0, 1.0], [20.0, 21.0]], [2, 2], 2.0)
    ensures Round(Start, 2, [Points]) == Next
  {
    assert Points[..4] == Points;
    StartPrefix4();
    var r := Round(Start, 2, [Points]);
    assert r[0] == [0.0, 0.5] && r[1] == [10.0, 10.5];
  }

  /** The error of round two, measured against the centroids after round one. */
  lemma SecondRoundError()
    ensures HasWidth(Points, 2) && AllHaveWidth([Points], 2)
    ensures Distributed(Next, 2, [Points]).error == 1.0
  {
    assert Points[..4] == Points;
    NextPrefix4();
  }
}
