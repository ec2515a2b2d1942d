/** The thirteen scoring categories, the constant tables the score controller works from, the
    meaning of each category stated on counts of faces, and lemmas showing that the tests the
    score controller actually performs on a sorted hand decide exactly that meaning. */
module Rules {
  import opened Hand

  datatype Category =
    | Ones | Twos | Threes | Fours | Fives | Sixes
    | ThreeOfAKind | FourOfAKind | FullHouse | SmallStraight | LargeStraight | Yahtzee | Chance

  /** Which half of the score sheet a slot is in (0 and 1 in the program). */
  datatype Section = Upper | Lower

  /** The value slots of the upper array, in array order (index i holds face i + 1). */
  const UpperCategories: seq<Category> := [Ones, Twos, Threes, Fours, Fives, Sixes]

  /** The value slots of the lower array, in array order. */
  const LowerCategories: seq<Category> :=
    [ThreeOfAKind, FourOfAKind, FullHouse, SmallStraight, LargeStraight, Yahtzee, Chance]

  // Indices into the lower array
  const ThreeKindIndex := 0
  const FourKindIndex := 1
  const FullHouseIndex := 2
  const SmStraightIndex := 3
  const LgStraightIndex := 4
  const YahtzeeIndex := 5
  const ChanceIndex := 6

  /** Points of each lower slot; zero means "the sum of all dice". */
  const LowerScores: seq<int> := [0, 0, 25, 30, 40, 50, 0]

  /** Lower indices in the order the lower section is scored. */
  const ScoreCalcOrder: seq<int> := [5, 1, 0, 2, 3, 4, 6]

  const HalfFactor := 2
  const YahtzeeSameDice := 5
  const FourKindSameDice := 4
  const ThreeKindSameDice := 3
  const SmStraightSeq := 4
  const LgStraightSeq := 5

  const FullHousePoints := 25
  const SmallStraightPoints := 30
  const LargeStraightPoints := 40
  const YahtzeePoints := 50

  predicate IsUpper(c: Category)
  {
    c.Ones? || c.Twos? || c.Threes? || c.Fours? || c.Fives? || c.Sixes?
  }

  function SectionOf(c: Category): Section
  {
    if IsUpper(c) then Upper else Lower
  }

  /** The face an upper category collects. */
  function FaceOf(c: Category): (f: int)
    requires IsUpper(c)
    ensures IsFace(f) && UpperCategories[f - 1] == c
  {
    match c
    case Ones => 1
    case Twos => 2
    case Threes => 3
    case Fours => 4
    case Fives => 5
    case Sixes => 6
  }

  /** Position of a lower category in the lower array. */
  function LowerIndexOf(c: Category): (i: int)
    requires !IsUpper(c)
    ensures 0 <= i < |LowerCategories| && LowerCategories[i] == c
  {
    match c
    case ThreeOfAKind => 0
    case FourOfAKind => 1
    case FullHouse => 2
    case SmallStraight => 3
    case LargeStraight => 4
    case Yahtzee => 5
    case Chance => 6
  }

  /** The slot at upper index i collects face i + 1. */
  lemma UpperCandidate(i: int, d: seq<int>)
    requires 0 <= i < |UpperCategories|
    ensures IsUpper(UpperCategories[i]) && FaceOf(UpperCategories[i]) == i + 1
    ensures Candidate(UpperCategories[i], d) == (i + 1) * Count(d, i + 1)
  {
  }

  // ---------------------------------------------------------------------------------------
  // What each category means, stated on counts of faces (independent of any dice order)

  /** Some face shows on at least n dice. */
  predicate HasKind(d: seq<int>, n: int)
  {
    exists f :: MinFace <= f <= MaxFace && Count(d, f) >= n
  }

  /** Three dice of one face and two of another. */
  predicate IsFullHouse(d: seq<int>)
  {
    exists a, b :: MinFace <= a <= MaxFace && MinFace <= b <= MaxFace && a != b
                   && Count(d, a) == 3 && Count(d, b) == 2
  }

  predicate Shows(d: seq<int>, f: int) { Count(d, f) > 0 }

  /** Four consecutive faces, starting at lo, all show. */
  predicate HasRun4(d: seq<int>, lo: int)
  {
    Shows(d, lo) && Shows(d, lo + 1) && Shows(d, lo + 2) && Shows(d, lo + 3)
  }

  predicate HasRun5(d: seq<int>, lo: int)
  {
    HasRun4(d, lo) && Shows(d, lo + 4)
  }

  predicate IsSmallStraight(d: seq<int>)
  {
    HasRun4(d, 1) || HasRun4(d, 2) || HasRun4(d, 3)
  }

  predicate IsLargeStraight(d: seq<int>)
  {
    HasRun5(d, 1) || HasRun5(d, 2)
  }

  /** The points a hand is worth in a category. */
  function Candidate(c: Category, d: seq<int>): int
  {
    match c
    case ThreeOfAKind => if HasKind(d, 3) then Sum(d) else 0
    case FourOfAKind => if HasKind(d, 4) then Sum(d) else 0
    case FullHouse => if IsFullHouse(d) then FullHousePoints else 0
    case SmallStraight => if IsSmallStraight(d) then SmallStraightPoints else 0
    case LargeStraight => if IsLargeStraight(d) then LargeStraightPoints else 0
    case Yahtzee => if HasKind(d, 5) then YahtzeePoints else 0
    case Chance => Sum(d)
    case _ => FaceOf(c) * Count(d, FaceOf(c))
  }

  // ---------------------------------------------------------------------------------------
  // The quantities and tests the score controller computes

  /** n is the largest count of any face and v a face with that count. */
  predicate IsMaxCount(d: seq<int>, n: int, v: int)
  {
    IsFace(v) && Count(d, v) == n && forall f :: MinFace <= f <= MaxFace ==> Count(d, f) <= n
  }

  /** The full-house test: the most common face shows three times and the first two or the last
      two dice are a pair of another face. */
  predicate FullHouseTest(d: seq<int>, sameDice: int, sameDiceVal: int)
    requires |d| == NumDice
  {
    sameDice == ThreeKindSameDice
    && ((d[0] == d[1] && d[0] != sameDiceVal) || (d[4] == d[3] && d[4] != sameDiceVal))
  }

  /** Number of the first k adjacent pairs whose values differ by exactly one. */
  function Steps(d: seq<int>, k: nat): nat
    requires k < |d|
  {
    if k == 0 then 0 else Steps(d, k - 1) + Ind(d[k] - d[k - 1] == 1)
  }

  /** The small-straight test on the run count and on which faces are present. */
  predicate SmallStraightTest(d: seq<int>, sequentialNums: int)
  {
    sequentialNums >= SmStraightSeq
    && 3 in d && 4 in d
    && ((1 in d && 2 in d) || (2 in d && 5 in d) || (5 in d && 6 in d))
  }

  // ---------------------------------------------------------------------------------------
  // The tests are right

  lemma StepsOfHand(d: seq<int>)
    requires |d| == NumDice
    ensures Steps(d, 4) == Ind(d[1] - d[0] == 1) + Ind(d[2] - d[1] == 1)
                           + Ind(d[3] - d[2] == 1) + Ind(d[4] - d[3] == 1)
  {
    assert Steps(d, 1) == Ind(d[1] - d[0] == 1);
    assert Steps(d, 2) == Steps(d, 1) + Ind(d[2] - d[1] == 1);
    assert Steps(d, 3) == Steps(d, 2) + Ind(d[3] - d[2] == 1);
  }

  lemma SortedHand(d: seq<int>)
    requires IsHand(d) && IsSorted(d)
    ensures 1 <= d[0] <= d[1] <= d[2] <= d[3] <= d[4] <= 6
  {
    assert d[0] <= d[1] && d[1] <= d[2] && d[2] <= d[3] && d[3] <= d[4];
    assert IsFace(d[0]) && IsFace(d[4]);
  }

  /** A hand holds some face; so the largest count is positive. */
  lemma MaxCountPositive(d: seq<int>, n: int, v: int)
    requires IsHand(d) && IsMaxCount(d, n, v)
    ensures 1 <= n <= NumDice
  {
    Expand(d);
    assert IsFace(d[0]);
    assert Count(d, d[0]) >= 1;
  }

  /** Comparing the largest count with a threshold decides the kind categories. */
  lemma KindTest(d: seq<int>, n: int, v: int, k: int)
    requires IsMaxCount(d, n, v)
    ensures n >= k <==> HasKind(d, k)
  {
    if n >= k {
      assert IsFace(v) && Count(d, v) >= k;
    }
  }

  /** Five of a kind is the same as all five dice being equal. */
  lemma {:induction false} YahtzeeIffAllEqual(d: seq<int>)
    requires IsHand(d)
    ensures HasKind(d, 5) <==> d[0] == d[1] == d[2] == d[3] == d[4]
  {
    Expand(d);
    if d[0] == d[1] == d[2] == d[3] == d[4] {
      assert IsFace(d[0]) && Count(d, d[0]) >= 5;
    }
  }

  /** The full-house test on a sorted hand holds exactly for three of one face and two of another. */
  lemma FullHouseTestCorrect(d: seq<int>, n: int, v: int)
    requires IsHand(d) && IsSorted(d) && IsMaxCount(d, n, v)
    ensures FullHouseTest(d, n, v) <==> IsFullHouse(d)
  {
    Expand(d);
    SortedHand(d);
    if FullHouseTest(d, n, v) {
      if d[0] == d[1] && d[0] != v {
        assert IsFace(v) && IsFace(d[0]) && Count(d, v) == 3 && Count(d, d[0]) == 2;
      } else {
        assert IsFace(v) && IsFace(d[4]) && Count(d, v) == 3 && Count(d, d[4]) == 2;
      }
    }
    if IsFullHouse(d) {
      var a, b :| IsFace(a) && IsFace(b) && a != b && Count(d, a) == 3 && Count(d, b) == 2;
      assert Count(d, a) <= n;
      assert n == 3 && v == a;
      if b < a {
        assert d[0] == d[1] == b;
      } else {
        assert d[3] == d[4] == b;
      }
    }
  }

  /** Three or more of a kind leaves at most three distinct faces: no straight is possible. */
  lemma NoStraightWithTriple(d: seq<int>, n: int, v: int)
    requires IsHand(d) && IsMaxCount(d, n, v) && n > 2
    ensures !IsSmallStraight(d) && !IsLargeStraight(d)
  {
    Expand(d);
  }

  /** Without three of a kind, the small-straight test holds exactly for four consecutive faces. */
  lemma SmallStraightTestCorrect(d: seq<int>)
    requires IsHand(d) && IsSorted(d)
    ensures SmallStraightTest(d, 1 + Steps(d, 4)) <==> IsSmallStraight(d)
  {
    Expand(d);
    SortedHand(d);
    StepsOfHand(d);
  }

  /** The large-straight test (every adjacent pair differs by one) holds exactly for five
      consecutive faces. */
  lemma LargeStraightTestCorrect(d: seq<int>)
    requires IsHand(d) && IsSorted(d)
    ensures 1 + Steps(d, 4) == LgStraightSeq <==> IsLargeStraight(d)
  {
    Expand(d);
    SortedHand(d);
    StepsOfHand(d);
  }

  // ---------------------------------------------------------------------------------------
  // Properties of the candidate scores

  /** Every candidate is a non-negative score no larger than a Yahtzee. */
  lemma CandidateBounds(c: Category, d: seq<int>)
    requires IsHand(d)
    ensures 0 <= Candidate(c, d) <= YahtzeePoints
  {
    Expand(d);
  }

  /** Candidates depend only on which faces the dice show, not on their order. */
  lemma CandidatePermutation(c: Category, a: seq<int>, b: seq<int>)
    requires IsHand(a) && multiset(a) == multiset(b)
    ensures Candidate(c, a) == Candidate(c, b)
  {
    SamePermutation(a, b);
  }

  /** Chance always scores the sum of the dice. */
  lemma ChanceIsSum(d: seq<int>)
    requires IsHand(d)
    ensures Candidate(Chance, d) == d[0] + d[1] + d[2] + d[3] + d[4]
  {
    Expand(d);
  }

  /** Five of a kind scores three and four of a kind and the Yahtzee, but not the full house. */
  lemma FiveOfAKind(d: seq<int>)
    requires IsHand(d) && d[0] == d[1] == d[2] == d[3] == d[4]
    ensures Candidate(Yahtzee, d) == YahtzeePoints
    ensures Candidate(FourOfAKind, d) == Candidate(ThreeOfAKind, d) == Sum(d)
    ensures Candidate(FullHouse, d) == 0
  {
    Expand(d);
    YahtzeeIffAllEqual(d);
    assert MinFace <= d[0] <= MaxFace && Count(d, d[0]) >= 5;
  }

  lemma HandOfThreesAndOthers()
    ensures Candidate(ThreeOfAKind, [2, 2, 2, 5, 6]) == 17
    ensures Candidate(FullHouse, [2, 2, 2, 5, 6]) == 0
    ensures Candidate(Chance, [2, 2, 2, 5, 6]) == 17
    ensures Candidate(Twos, [2, 2, 2, 5, 6]) == 6
  {
    var d := [2, 2, 2, 5, 6];
    Expand(d);
    assert MinFace <= 2 <= MaxFace && Count(d, 2) >= 3;
  }

  lemma HandOfFiveThrees()
    ensures Candidate(Yahtzee, [3, 3, 3, 3, 3]) == 50
    ensures Candidate(FourOfAKind, [3, 3, 3, 3, 3]) == 15
    ensures Candidate(ThreeOfAKind, [3, 3, 3, 3, 3]) == 15
  {
    var d := [3, 3, 3, 3, 3];
    FiveOfAKind(d);
    Expand(d);
  }

  lemma UpperOfFiveThrees()
    ensures Candidate(Threes, [3, 3, 3, 3, 3]) == 15
    ensures Candidate(Ones, [3, 3, 3, 3, 3]) == Candidate(Twos, [3, 3, 3, 3, 3]) == 0
    ensures Candidate(Fours, [3, 3, 3, 3, 3]) == Candidate(Fives, [3, 3, 3, 3, 3]) == 0
    ensures Candidate(Sixes, [3, 3, 3, 3, 3]) == 0
  {
    Expand([3, 3, 3, 3, 3]);
  }

  lemma HandOfOneToFive()
    ensures Candidate(LargeStraight, [1, 2, 3, 4, 5]) == 40
    ensures Candidate(SmallStraight, [1, 2, 3, 4, 5]) == 30
    ensures Candidate(Chance, [1, 2, 3, 4, 5]) == 15
  {
    Expand([1, 2, 3, 4, 5]);
  }

  /** A duplicate inside a run of four still makes a small straight, and no large one. */
  lemma HandWithInnerPair()
    ensures Candidate(SmallStraight, [2, 3, 3, 4, 5]) == 30
    ensures Candidate(LargeStraight, [2, 3, 3, 4, 5]) == 0
    ensures 1 + Steps([2, 3, 3, 4, 5], 4) == 4
  {
    Expand([2, 3, 3, 4, 5]);
    StepsOfHand([2, 3, 3, 4, 5]);
  }
}
