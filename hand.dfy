/** The five dice of a hand, viewed as plain values: how many show a face, and their sum.
    Every scoring rule is stated with these two functions. */
module Hand {

  const NumDice := 5   // number of dice in the game
  const MinFace := 1   // smallest face, and the value of a new die
  const MaxFace := 6   // largest face

  predicate IsFace(v: int) { MinFace <= v <= MaxFace }

  /** Five dice, each showing a face in 1..6. */
  predicate IsHand(d: seq<int>)
  {
    |d| == NumDice && forall i :: 0 <= i < |d| ==> IsFace(d[i])
  }

  predicate IsSorted(d: seq<int>)
  {
    forall i, j :: 0 <= i < j < |d| ==> d[i] <= d[j]
  }

  /** Number of dice showing face f. */
  function Count(d: seq<int>, f: int): nat
  {
    multiset(d)[f]
  }

  /** Sum of all dice, accumulated from the first die to the last. */
  function Sum(d: seq<int>): int
  {
    if |d| == 0 then 0 else Sum(d[..|d| - 1]) + d[|d| - 1]
  }

  function Ind(b: bool): nat { if b then 1 else 0 }

  lemma SumSnoc(s: seq<int>, x: int)
    ensures Sum(s + [x]) == Sum(s) + x
  {
    assert (s + [x])[..|s|] == s;
  }

  lemma CountSnoc(s: seq<int>, x: int, f: int)
    ensures Count(s + [x], f) == Count(s, f) + Ind(x == f)
  {
    assert multiset(s + [x]) == multiset(s) + multiset{x};
  }

  /** A prefix grows by one die: its count and sum grow by that die. */
  lemma PrefixStep(d: seq<int>, i: nat)
    requires i < |d|
    ensures forall f :: Count(d[..i + 1], f) == Count(d[..i], f) + Ind(d[i] == f)
    ensures Sum(d[..i + 1]) == Sum(d[..i]) + d[i]
  {
    assert d[..i + 1] == d[..i] + [d[i]];
    forall f ensures Count(d[..i + 1], f) == Count(d[..i], f) + Ind(d[i] == f) {
      CountSnoc(d[..i], d[i], f);
    }
    SumSnoc(d[..i], d[i]);
  }

  /** For five dice, counts and sum written out die by die. */
  lemma Expand(d: seq<int>)
    requires |d| == NumDice
    ensures forall f :: Count(d, f) == Ind(d[0] == f) + Ind(d[1] == f) + Ind(d[2] == f)
                                      + Ind(d[3] == f) + Ind(d[4] == f)
    ensures Sum(d) == d[0] + d[1] + d[2] + d[3] + d[4]
    ensures forall f :: f in d <==> f == d[0] || f == d[1] || f == d[2] || f == d[3] || f == d[4]
  {
    assert d[..0] == [];
    PrefixStep(d, 0);
    PrefixStep(d, 1);
    PrefixStep(d, 2);
    PrefixStep(d, 3);
    PrefixStep(d, 4);
    assert d[..5] == d;
    forall f ensures Count(d, f) == Ind(d[0] == f) + Ind(d[1] == f) + Ind(d[2] == f)
                                   + Ind(d[3] == f) + Ind(d[4] == f)
    {
      assert Count(d[..0], f) == 0;
    }
  }

  /** The sum of a hand of faces is determined by its counts: each face f contributes f per die. */
  lemma {:induction false} SumByFaces(d: seq<int>)
    requires forall i :: 0 <= i < |d| ==> IsFace(d[i])
    ensures Sum(d) == Count(d, 1) + 2 * Count(d, 2) + 3 * Count(d, 3)
                      + 4 * Count(d, 4) + 5 * Count(d, 5) + 6 * Count(d, 6)
  {
    if |d| == 0 {
    } else {
      var s, x := d[..|d| - 1], d[|d| - 1];
      assert d == s + [x];
      SumByFaces(s);
      SumSnoc(s, x);
      forall f ensures Count(d, f) == Count(s, f) + Ind(x == f) {
        CountSnoc(s, x, f);
      }
    }
  }

  /** Reordering the dice changes neither a count nor the sum. */
  lemma SamePermutation(a: seq<int>, b: seq<int>)
    requires multiset(a) == multiset(b)
    requires forall i :: 0 <= i < |a| ==> IsFace(a[i])
    ensures forall i :: 0 <= i < |b| ==> IsFace(b[i])
    ensures forall f :: Count(a, f) == Count(b, f)
    ensures Sum(a) == Sum(b)
  {
    forall i | 0 <= i < |b| ensures IsFace(b[i]) {
      assert b[i] in multiset(b);
      assert b[i] in a;
    }
    SumByFaces(a);
    SumByFaces(b);
  }

  /** Points of face f in the hand: f for each die showing f. */
  function FacePoints(d: seq<int>, f: int): int
  {
    if |d| == 0 then 0 else FacePoints(d[..|d| - 1], f) + (if d[|d| - 1] == f then f else 0)
  }

  lemma FacePointsStep(d: seq<int>, i: nat)
    requires i < |d|
    ensures forall f :: FacePoints(d[..i + 1], f) == FacePoints(d[..i], f) + (if d[i] == f then f else 0)
  {
    assert d[..i + 1][..i] == d[..i];
  }

  /** The points of a face are the face times the number of dice showing it. */
  lemma {:induction false} FacePointsCount(d: seq<int>, f: int)
    ensures FacePoints(d, f) == f * Count(d, f)
  {
    if |d| > 0 {
      var s, x := d[..|d| - 1], d[|d| - 1];
      assert d == s + [x];
      FacePointsCount(s, f);
      CountSnoc(s, x, f);
      if x == f {
        MulSucc(f, Count(s, f));
      }
    }
  }

  lemma MulSucc(a: int, b: int)
    ensures a * (b + 1) == a * b + a
  {
  }

  lemma FacePointsByCount(d: seq<int>)
    ensures forall f :: FacePoints(d, f) == f * Count(d, f)
  {
    forall f ensures FacePoints(d, f) == f * Count(d, f) {
      FacePointsCount(d, f);
    }
  }
}
