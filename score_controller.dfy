/** The score controller: the thirteen value slots and five totals of the score sheet, the
    calculation of every slot's candidate from a sorted hand, and the update of the totals when a
    slot is chosen. */
module ScoreControl {
  import opened Hand
  import opened Rules
  import opened Sheet
  import opened Scores

  /** A section's value slots, in order: limit new slots of the section, each unused, scoring
      nothing and with its button disabled. */
  method InitScores(limit: nat, section: Section) returns (slots: seq<ActiveScore>)
    ensures |slots| == limit
    ensures forall i :: 0 <= i < limit ==> fresh(slots[i])
    ensures forall i, j :: 0 <= i < j < limit ==> slots[i] != slots[j]
    ensures forall i :: 0 <= i < limit ==> slots[i].section == section
    ensures forall i :: 0 <= i < limit ==> slots[i].Blank()
  {
    slots := [];
    for index := 0 to limit
      invariant |slots| == index
      invariant forall i :: 0 <= i < index ==> fresh(slots[i])
      invariant forall i, j :: 0 <= i < j < index ==> slots[i] != slots[j]
      invariant forall i :: 0 <= i < index ==> slots[i].section == section
      invariant forall i :: 0 <= i < index ==> slots[i].Blank()
    {
      var s := new ActiveScore(section);
      slots := slots + [s];
    }
  }

  class ScoreController {
    const upper: seq<ActiveScore>   // Ones .. Sixes
    const lower: seq<ActiveScore>   // 3 of a Kind .. Chance, in LowerCategories order
    const upperSum: Score
    const upBonus: Score
    const upperTotal: Score
    const lowerTotal: Score
    const grandTotal: Score

    /** Six upper and seven lower slots, all distinct objects, in their sections, and five
        distinct totals. */
    ghost predicate Valid()
    {
      && |upper| == |UpperCategories| && |lower| == |LowerCategories|
      && (forall i, j :: 0 <= i < j < |upper| ==> upper[i] != upper[j])
      && (forall i, j :: 0 <= i < j < |lower| ==> lower[i] != lower[j])
      && (forall i, j :: 0 <= i < |upper| && 0 <= j < |lower| ==> upper[i] != lower[j])
      && (forall i :: 0 <= i < |upper| ==> upper[i].section == Upper)
      && (forall j :: 0 <= j < |lower| ==> lower[j].section == Lower)
      && upperSum != upBonus && upperSum != upperTotal && upperSum != lowerTotal
      && upperSum != grandTotal && upBonus != upperTotal && upBonus != lowerTotal
      && upBonus != grandTotal && upperTotal != lowerTotal && upperTotal != grandTotal
      && lowerTotal != grandTotal
    }

    /** The totals agree with each other and with the bonus rule (TotalsInv, on the objects). */
    ghost predicate TotalsAgree()
      reads upperSum`value, upBonus`value, upperTotal`value, lowerTotal`value, grandTotal`value
    {
      && upperTotal.value == upperSum.value + upBonus.value
      && grandTotal.value == upperTotal.value + lowerTotal.value
      && upBonus.value == (if upperSum.value >= UpBonusThreshold then UpBonusPoints else 0)
    }

    /** Every candidate is non-negative. */
    ghost predicate CandidatesNonNegative()
      reads upper`tempValue, lower`tempValue
    {
      (forall i :: 0 <= i < |upper| ==> upper[i].tempValue >= 0)
      && (forall j :: 0 <= j < |lower| ==> lower[j].tempValue >= 0)
    }

    /** A used slot's button is disabled. */
    ghost predicate UsedDisabled()
      reads upper`used, upper`enabled, lower`used, lower`enabled
    {
      (forall i :: 0 <= i < |upper| ==> upper[i].used ==> !upper[i].enabled)
      && (forall j :: 0 <= j < |lower| ==> lower[j].used ==> !lower[j].enabled)
    }

    /** The sheet as play keeps it. */
    ghost predicate Consistent()
      reads upper`tempValue, upper`used, upper`enabled, lower`tempValue, lower`used, lower`enabled
      reads upperSum`value, upBonus`value, upperTotal`value, lowerTotal`value, grandTotal`value
    {
      TotalsAgree() && CandidatesNonNegative() && UsedDisabled()
    }

    /** The slots as a roll leaves them: every candidate is its category's score for the hand,
        and a slot's button is enabled exactly when the slot is unused. */
    ghost predicate Offers(hand: seq<int>)
      requires Valid()
      reads upper`tempValue, upper`used, upper`enabled, lower`tempValue, lower`used, lower`enabled
    {
      && (forall i :: 0 <= i < |upper| ==>
            upper[i].tempValue == Candidate(UpperCategories[i], hand) && upper[i].enabled == !upper[i].used)
      && (forall j :: 0 <= j < |lower| ==>
            lower[j].tempValue == Candidate(LowerCategories[j], hand) && lower[j].enabled == !lower[j].used)
    }

    /** The number of used slots. */
    ghost function UsedSlots(): nat
      reads upper`used, lower`used
    {
      UsedIn(upper) + UsedIn(lower)
    }

    /** The sheet after the given number of rounds: consistent, one slot used per round, and no
        slot choosable before the round's first roll. */
    ghost predicate Played(rounds: int, rolled: bool)
      reads upper`tempValue, upper`used, upper`enabled, lower`tempValue, lower`used, lower`enabled
      reads upperSum`value, upBonus`value, upperTotal`value, lowerTotal`value, grandTotal`value
    {
      Consistent() && UsedSlots() == rounds && (!rolled ==> NoneEnabled())
    }

    /** The upper sum holds the points committed in the upper slots, and the lower total those
        committed in the lower slots. */
    ghost predicate Tallied()
      reads upper`used, upper`value, lower`used, lower`value, upperSum`value, lowerTotal`value
    {
      upperSum.value == CommittedIn(upper) && lowerTotal.value == CommittedIn(lower)
    }

    /** Every slot is used. */
    ghost predicate AllUsed()
      reads upper`used, lower`used
    {
      (forall i :: 0 <= i < |upper| ==> upper[i].used) && (forall j :: 0 <= j < |lower| ==> lower[j].used)
    }

    /** No slot's button can be clicked. */
    ghost predicate NoneEnabled()
      reads upper`enabled, lower`enabled
    {
      (forall i :: 0 <= i < |upper| ==> !upper[i].enabled) && (forall j :: 0 <= j < |lower| ==> !lower[j].enabled)
    }

    ghost function TotalsView(): Totals
      reads upperSum`value, upBonus`value, upperTotal`value, lowerTotal`value, grandTotal`value
    {
      Totals(upperSum.value, upBonus.value, upperTotal.value, lowerTotal.value, grandTotal.value)
    }

    /** The slot of a category. */
    function Slot(c: Category): (s: ActiveScore)
      requires Valid()
      ensures IsUpper(c) ==> s == upper[FaceOf(c) - 1]
      ensures !IsUpper(c) ==> s == lower[LowerIndexOf(c)]
      ensures s in upper || s in lower
      ensures s.section == SectionOf(c)
    {
      if IsUpper(c) then upper[FaceOf(c) - 1] else lower[LowerIndexOf(c)]
    }

    /** A sheet with every slot unused, scoring nothing, its button disabled, and all totals 0. */
    constructor ()
      ensures Valid()
      ensures forall i :: 0 <= i < |upper| ==> fresh(upper[i])
      ensures forall j :: 0 <= j < |lower| ==> fresh(lower[j])
      ensures fresh(upperSum) && fresh(upBonus) && fresh(upperTotal) && fresh(lowerTotal) && fresh(grandTotal)
      ensures forall i :: 0 <= i < |upper| ==> upper[i].Blank()
      ensures forall j :: 0 <= j < |lower| ==> lower[j].Blank()
      ensures TotalsView() == NoTotals
    {
      var ups := InitScores(|UpperCategories|, Upper);
      var lows := InitScores(|LowerCategories|, Lower);
      upper, lower := ups, lows;
      upperSum := new Score(Upper);
      upBonus := new Score(Upper);
      upperTotal := new Score(Upper);
      lowerTotal := new Score(Lower);
      grandTotal := new Score(Lower);
    }

    /** A sheet of blank slots with zero totals is consistent, has no used slot and no slot
        that can be chosen. */
    lemma BlankIsConsistent()
      requires (forall i :: 0 <= i < |upper| ==> upper[i].Blank()) && (forall j :: 0 <= j < |lower| ==> lower[j].Blank())
      requires TotalsView() == NoTotals
      ensures Played(0, false) && Tallied()
    {
      UsedInBound(upper);
      UsedInBound(lower);
      NothingCommitted(upper);
      NothingCommitted(lower);
    }

    /** Computes every slot's candidate for the sorted hand: each slot's candidate becomes its
        category's score for the hand, and every unused slot's button is enabled. On a consistent
        sheet, the sheet stays consistent and exactly the unused slots can be chosen. */
    method CalcScores(dice: array<int>)
      requires Valid() && IsHand(dice[..]) && IsSorted(dice[..])
      modifies upper`tempValue, upper`enabled, lower`tempValue, lower`enabled
      ensures forall i :: 0 <= i < |upper| ==>
        upper[i].tempValue == Candidate(UpperCategories[i], dice[..])
        && upper[i].enabled == (upper[i].used ==> old(upper[i].enabled))
      ensures forall j :: 0 <= j < |lower| ==>
        lower[j].tempValue == Candidate(LowerCategories[j], dice[..])
        && lower[j].enabled == (lower[j].used ==> old(lower[j].enabled))
      ensures old(Consistent()) ==> Consistent() && Offers(dice[..])
    {
      ResetTempActiveScores();
      EnableScoreButtons(true);
      ScoreUpper(dice);
      ScoreLower(dice);
      forall i | 0 <= i < |upper| ensures Candidate(UpperCategories[i], dice[..]) == (i + 1) * Count(dice[..], i + 1) {
        UpperCandidate(i, dice[..]);
      }
      if old(Consistent()) {
        RescoreKeepsConsistent(dice[..]);
      }
    }

    /** Rescoring a consistent sheet for a hand, which changes only candidates and buttons as
        calcScores does, keeps it consistent and leaves exactly the unused slots choosable. */
    twostate lemma RescoreKeepsConsistent(hand: seq<int>)
      requires Valid() && IsHand(hand) && old(Consistent()) && unchanged(upperSum, upBonus, upperTotal, lowerTotal, grandTotal)
      requires forall i :: 0 <= i < |upper| ==>
        && upper[i].tempValue == Candidate(UpperCategories[i], hand)
        && upper[i].value == old(upper[i].value) && upper[i].used == old(upper[i].used)
        && upper[i].enabled == (upper[i].used ==> old(upper[i].enabled))
      requires forall j :: 0 <= j < |lower| ==>
        && lower[j].tempValue == Candidate(LowerCategories[j], hand)
        && lower[j].value == old(lower[j].value) && lower[j].used == old(lower[j].used)
        && lower[j].enabled == (lower[j].used ==> old(lower[j].enabled))
      ensures Consistent() && Offers(hand)
    {
      forall c ensures Candidate(c, hand) >= 0 {
        CandidateBounds(c, hand);
      }
    }

    /** Committing the enabled slot of category c, which makes it used, leaves every candidate
        as it was, disables every button and adds the candidate to the totals as actionPerformed
        does, keeps the sheet consistent with one more used slot. */
    twostate lemma CommitKeepsConsistent(c: Category)
      requires Valid() && old(Consistent()) && old(Slot(c).enabled)
      requires TotalsView() == AddPoints(old(TotalsView()), SectionOf(c), Slot(c).tempValue)
      requires forall i :: 0 <= i < |upper| ==>
        && upper[i].tempValue == old(upper[i].tempValue) && !upper[i].enabled
        && upper[i].used == (old(upper[i].used) || upper[i] == Slot(c))
      requires forall j :: 0 <= j < |lower| ==>
        && lower[j].tempValue == old(lower[j].tempValue) && !lower[j].enabled
        && lower[j].used == (old(lower[j].used) || lower[j] == Slot(c))
      ensures Consistent() && UsedSlots() == old(UsedSlots()) + 1 && NoneEnabled()
    {
      AddPointsKeepsInv(old(TotalsView()), SectionOf(c), Slot(c).tempValue);
      if IsUpper(c) {
        Slot(c).CountsCommit(upper);
        UsedInSame(lower);
      } else {
        UsedInSame(upper);
        Slot(c).CountsCommit(lower);
      }
    }

    /** Committing the unused slot of category c, which takes its candidate as its value while no
        other slot changes its value or used flag, and adding that value to the totals as
        actionPerformed does, keeps the sums equal to the committed points. */
    twostate lemma CommitKeepsTallied(c: Category)
      requires Valid() && old(Tallied()) && !old(Slot(c).used) && Slot(c).used
      requires TotalsView() == AddPoints(old(TotalsView()), SectionOf(c), Slot(c).value)
      requires forall i :: 0 <= i < |upper| && upper[i] != Slot(c) ==>
        upper[i].used == old(upper[i].used) && upper[i].value == old(upper[i].value)
      requires forall j :: 0 <= j < |lower| && lower[j] != Slot(c) ==>
        lower[j].used == old(lower[j].used) && lower[j].value == old(lower[j].value)
      ensures Tallied()
    {
      if IsUpper(c) {
        Slot(c).ValuesCommit(upper);
        CommittedInSame(lower);
      } else {
        CommittedInSame(upper);
        Slot(c).ValuesCommit(lower);
      }
    }

    /** Offers depend on the hand only through its candidates. */
    lemma OffersSameCandidates(h: seq<int>, h': seq<int>)
      requires Valid() && Offers(h)
      requires forall c :: Candidate(c, h) == Candidate(c, h')
      ensures Offers(h')
    {
    }

    /** Sets every candidate to 0. */
    method ResetTempActiveScores()
      requires Valid()
      modifies upper`tempValue, lower`tempValue
      ensures forall i :: 0 <= i < |upper| ==> upper[i].tempValue == 0
      ensures forall j :: 0 <= j < |lower| ==> lower[j].tempValue == 0
    {
      for index := 0 to |upper|
        invariant forall i :: 0 <= i < index ==> upper[i].tempValue == 0
      {
        upper[index].ResetTempValue();
      }
      for index := 0 to |lower|
        invariant forall i :: 0 <= i < |upper| ==> upper[i].tempValue == 0
        invariant forall j :: 0 <= j < index ==> lower[j].tempValue == 0
      {
        lower[index].ResetTempValue();
      }
    }

    /** Enables or disables the button of every unused slot; a used slot's button stays as it is. */
    method EnableScoreButtons(enable: bool)
      requires Valid()
      modifies upper`enabled, lower`enabled
      ensures forall i :: 0 <= i < |upper| ==>
        upper[i].enabled == if upper[i].used then old(upper[i].enabled) else enable
      ensures forall j :: 0 <= j < |lower| ==>
        lower[j].enabled == if lower[j].used then old(lower[j].enabled) else enable
    {
      for index := 0 to |upper|
        invariant forall i :: 0 <= i < index ==>
          upper[i].enabled == if upper[i].used then old(upper[i].enabled) else enable
        invariant forall i :: index <= i < |upper| ==> upper[i].enabled == old(upper[i].enabled)
        invariant forall j :: 0 <= j < |lower| ==> lower[j].enabled == old(lower[j].enabled)
      {
        upper[index].EnableButton(enable);
      }
      for index := 0 to |lower|
        invariant forall i :: 0 <= i < |upper| ==>
          upper[i].enabled == if upper[i].used then old(upper[i].enabled) else enable
        invariant forall j :: 0 <= j < index ==>
          lower[j].enabled == if lower[j].used then old(lower[j].enabled) else enable
        invariant forall j :: index <= j < |lower| ==> lower[j].enabled == old(lower[j].enabled)
      {
        lower[index].EnableButton(enable);
      }
    }

    /** Adds each die's value to the candidate of the slot of its face: the slot of face f gains
        f times the number of dice showing f. */
    method ScoreUpper(dice: array<int>)
      requires Valid() && IsHand(dice[..])
      modifies upper`tempValue
      ensures forall i :: 0 <= i < |upper| ==>
        upper[i].tempValue == old(upper[i].tempValue) + (i + 1) * Count(dice[..], i + 1)
    {
      ghost var d := dice[..];
      assert d[..0] == [] && forall f :: FacePoints(d[..0], f) == 0;
      for index := 0 to dice.Length
        invariant forall i :: 0 <= i < |upper| ==>
          upper[i].tempValue == old(upper[i].tempValue) + FacePoints(d[..index], i + 1)
      {
        FacePointsStep(d, index);
        upper[dice[index] - 1].AddTempValue(dice[index]);
      }
      assert d[..dice.Length] == d;
      FacePointsByCount(d);
    }

    /** The largest number of dice showing one face, and the smallest face showing that many,
        read off the upper candidates. */
    method MatchingDice(ghost d: seq<int>) returns (sameDice: int, sameDiceVal: int)
      requires Valid() && IsHand(d)
      requires forall i :: 0 <= i < |upper| ==> upper[i].tempValue == (i + 1) * Count(d, i + 1)
      ensures IsMaxCount(d, sameDice, sameDiceVal)
      ensures forall f :: MinFace <= f < sameDiceVal ==> Count(d, f) < sameDice
    {
      sameDice, sameDiceVal := 0, 0;
      for index := 0 to |upper|
        invariant forall f :: MinFace <= f <= index ==> Count(d, f) <= sameDice
        invariant sameDiceVal == 0 ==> sameDice == 0
        invariant sameDiceVal != 0 ==> MinFace <= sameDiceVal <= index && Count(d, sameDiceVal) == sameDice
        invariant forall f :: MinFace <= f < sameDiceVal ==> Count(d, f) < sameDice
      {
        var temp := upper[index].GetTempValue();
        FaceQuotient(index + 1, Count(d, index + 1));
        var numDice := temp / (index + 1);
        if numDice > sameDice {
          sameDice := numDice;
          sameDiceVal := index + 1;
        }
      }
      Expand(d);
      assert IsFace(d[0]) && Count(d, d[0]) > 0;
    }

    /** Scores a lower slot, named by its position in the calculation order, with its fixed
        points, or with the sum of the dice when its points are 0; no other candidate changes. */
    method ScoreComponent(orderIndex: int, dice: array<int>, ghost d: seq<int>)
      requires Valid() && dice[..] == d && 0 <= orderIndex < |ScoreCalcOrder|
      modifies lower`tempValue
      ensures forall j :: 0 <= j < |lower| ==>
        lower[j].tempValue == (
          if j != ScoreCalcOrder[orderIndex] then old(lower[j].tempValue)
          else if LowerScores[j] != 0 then LowerScores[j] else Sum(d))
    {
      var index := ScoreCalcOrder[orderIndex];
      lower[index].ScoreTempValue(LowerScores[index], dice);
    }

    /** Scores the first half of the calculation order, Yahtzee, four and three of a kind, each
        when at least five, four or three dice match; ends at the full house, needing two dice. */
    method ScoreKinds(dice: array<int>, ghost d: seq<int>, sameDice: int) returns (orderIndex: int, sameDiceNeeded: int)
      requires Valid() && dice[..] == d
      modifies lower`tempValue
      ensures orderIndex == |ScoreCalcOrder| / HalfFactor && sameDiceNeeded == ThreeKindSameDice - 1
      ensures forall j :: 0 <= j < |lower| ==>
        lower[j].tempValue == (
          if j == YahtzeeIndex && sameDice >= YahtzeeSameDice then YahtzeePoints
          else if j == FourKindIndex && sameDice >= FourKindSameDice then Sum(d)
          else if j == ThreeKindIndex && sameDice >= ThreeKindSameDice then Sum(d)
          else old(lower[j].tempValue))
    {
      orderIndex := 0;
      sameDiceNeeded := YahtzeeSameDice;
      while orderIndex < |ScoreCalcOrder| / HalfFactor
        invariant 0 <= orderIndex <= 3 && sameDiceNeeded == YahtzeeSameDice - orderIndex
        invariant forall j :: 0 <= j < |lower| ==>
          lower[j].tempValue == (
            if j == YahtzeeIndex && orderIndex > 0 && sameDice >= YahtzeeSameDice then YahtzeePoints
            else if j == FourKindIndex && orderIndex > 1 && sameDice >= FourKindSameDice then Sum(d)
            else if j == ThreeKindIndex && orderIndex > 2 && sameDice >= ThreeKindSameDice then Sum(d)
            else old(lower[j].tempValue))
      {
        if sameDice >= sameDiceNeeded {
          ScoreComponent(orderIndex, dice, d);
        }
        orderIndex := orderIndex + 1;
        sameDiceNeeded := sameDiceNeeded - 1;
      }
    }

    /** Scores the full house when exactly the needed number of dice match and either the first
        two or the last two dice are a pair of a face other than the matching one. */
    method ScoreFullHouse(dice: array<int>, ghost d: seq<int>, sameDice: int, sameDiceVal: int, sameDiceNeeded: int, orderIndex: int)
      requires Valid() && dice.Length == NumDice && dice[..] == d
      requires 0 <= orderIndex < |ScoreCalcOrder| && ScoreCalcOrder[orderIndex] == FullHouseIndex
      modifies lower`tempValue
      ensures forall j :: 0 <= j < |lower| ==>
        lower[j].tempValue == (
          if j == FullHouseIndex && sameDice == sameDiceNeeded
             && ((d[0] == d[1] && d[0] != sameDiceVal) || (d[4] == d[3] && d[4] != sameDiceVal))
          then FullHousePoints else old(lower[j].tempValue))
    {
      if sameDice == sameDiceNeeded {
        var cond1 := dice[0] == dice[1] && dice[0] != sameDiceVal;
        var cond2 := dice[dice.Length - 1] == dice[dice.Length - 2] && dice[dice.Length - 1] != sameDiceVal;
        if cond1 || cond2 {
          ScoreComponent(orderIndex, dice, d);
        }
      }
    }

    /** When no more than the needed number of dice match, scores the straights: counts the
        adjacent dice that differ by one, then scores the small straight when the count and the
        faces present allow it, and the large straight when all five dice are in sequence. */
    method ScoreStraights(dice: array<int>, ghost d: seq<int>, sameDice: int, sameDiceNeeded: int, orderIndex: int)
      requires Valid() && dice.Length == NumDice && dice[..] == d && 0 <= orderIndex < |ScoreCalcOrder| - 1
      requires ScoreCalcOrder[orderIndex] == SmStraightIndex && ScoreCalcOrder[orderIndex + 1] == LgStraightIndex
      modifies lower`tempValue
      ensures forall j :: 0 <= j < |lower| ==>
        lower[j].tempValue == (
          if j == SmStraightIndex && sameDice <= sameDiceNeeded && SmallStraightTest(d, 1 + Steps(d, 4))
          then SmallStraightPoints
          else if j == LgStraightIndex && sameDice <= sameDiceNeeded && 1 + Steps(d, 4) == LgStraightSeq
          then LargeStraightPoints
          else old(lower[j].tempValue))
    {
      if sameDice <= sameDiceNeeded {
        var sequentialNums := 1;
        for index := 0 to dice.Length - 1
          invariant sequentialNums == 1 + Steps(d, index)
        {
          if dice[index + 1] - dice[index] == 1 {
            sequentialNums := sequentialNums + 1;
          }
        }
        if sequentialNums >= SmStraightSeq
           && 3 in dice[..] && 4 in dice[..]
           && ((1 in dice[..] && 2 in dice[..]) || (2 in dice[..] && 5 in dice[..])
               || (5 in dice[..] && 6 in dice[..]))
        {
          ScoreComponent(orderIndex, dice, d);
        }
        var next := orderIndex + 1;
        if sequentialNums == LgStraightSeq {
          ScoreComponent(next, dice, d);
        }
      }
    }

    /** Scores the lower section from the upper candidates and the sorted hand: every lower
        slot's candidate becomes its category's score. */
    method ScoreLower(dice: array<int>)
      requires Valid() && IsHand(dice[..]) && IsSorted(dice[..])
      requires forall i :: 0 <= i < |upper| ==> upper[i].tempValue == (i + 1) * Count(dice[..], i + 1)
      requires forall j :: 0 <= j < |lower| ==> lower[j].tempValue == 0
      modifies lower`tempValue
      ensures forall j :: 0 <= j < |lower| ==> lower[j].tempValue == Candidate(LowerCategories[j], dice[..])
    {
      ghost var d := dice[..];
      ScoreComponent(ChanceIndex, dice, d);
      var sameDice, sameDiceVal := MatchingDice(d);
      var orderIndex, sameDiceNeeded := ScoreKinds(dice, d, sameDice);
      sameDiceNeeded := sameDiceNeeded + 1;
      ScoreFullHouse(dice, d, sameDice, sameDiceVal, sameDiceNeeded, orderIndex);
      orderIndex := orderIndex + 1;
      sameDiceNeeded := sameDiceNeeded - 1;
      ScoreStraights(dice, d, sameDice, sameDiceNeeded, orderIndex);
      assert forall j :: 0 <= j < |lower| ==> lower[j].tempValue == LowerTests(d, sameDice, sameDiceVal)[j];
      LowerCandidates(d, sameDice, sameDiceVal);
    }

    /** Adds the points of a commit in the given section to that section's totals and to the
        grand total, awarding the bonus the first time the upper sum reaches the threshold. */
    method AddToTotals(newPoints: int, section: Section)
      requires Valid()
      modifies upperSum`value, upBonus`value, upperTotal`value, lowerTotal`value, grandTotal`value
      ensures TotalsView() == AddPoints(old(TotalsView()), section, newPoints)
    {
      if section == Upper {
        upperSum.AddToValue(newPoints);
        upperTotal.AddToValue(newPoints);
        var bonus := upBonus.GetValue();
        var sum := upperSum.GetValue();
        if bonus == 0 && sum >= UpBonusThreshold {
          upBonus.AddToValue(UpBonusPoints);
          upperTotal.AddToValue(UpBonusPoints);
          grandTotal.AddToValue(UpBonusPoints);
        }
      } else {
        lowerTotal.AddToValue(newPoints);
      }
      grandTotal.AddToValue(newPoints);
    }

    /** The slot's button was clicked: its candidate is added to the totals of its section and to
        the grand total, the bonus is awarded the first time the upper sum reaches the threshold,
        and every unused slot's button is disabled. */
    method ActionPerformed(clicked: ActiveScore)
      requires Valid()
      modifies upperSum`value, upBonus`value, upperTotal`value, lowerTotal`value, grandTotal`value
      modifies upper`enabled, lower`enabled
      ensures TotalsView() == AddPoints(old(TotalsView()), clicked.section, clicked.tempValue)
      ensures forall i :: 0 <= i < |upper| ==> upper[i].enabled == (upper[i].used && old(upper[i].enabled))
      ensures forall j :: 0 <= j < |lower| ==> lower[j].enabled == (lower[j].used && old(lower[j].enabled))
    {
      var newPoints := clicked.GetTempValue();
      var section := clicked.GetSection();
      AddToTotals(newPoints, section);
      EnableScoreButtons(false);
    }
  }

  /** The lower candidates, in LowerCategories order, as the tests of the score controller decide
      them from the largest count n of a face and the smallest face v with that count. */
  function LowerTests(d: seq<int>, n: int, v: int): (t: seq<int>)
    requires |d| == NumDice
    ensures |t| == |LowerCategories|
  {
    [ if n >= ThreeKindSameDice then Sum(d) else 0,
      if n >= FourKindSameDice then Sum(d) else 0,
      if FullHouseTest(d, n, v) then FullHousePoints else 0,
      if n <= 2 && SmallStraightTest(d, 1 + Steps(d, 4)) then SmallStraightPoints else 0,
      if n <= 2 && 1 + Steps(d, 4) == LgStraightSeq then LargeStraightPoints else 0,
      if n >= YahtzeeSameDice then YahtzeePoints else 0,
      Sum(d) ]
  }

  /** On a sorted hand, the tests agree with the rules: each lower candidate is its category's
      score. */
  lemma LowerCandidates(d: seq<int>, n: int, v: int)
    requires IsHand(d) && IsSorted(d) && IsMaxCount(d, n, v)
    ensures forall j :: 0 <= j < |LowerCategories| ==> LowerTests(d, n, v)[j] == Candidate(LowerCategories[j], d)
  {
    var t := LowerTests(d, n, v);
    KindTest(d, n, v, 3);
    KindTest(d, n, v, 4);
    KindTest(d, n, v, 5);
    assert t[ThreeKindIndex] == Candidate(ThreeOfAKind, d);
    assert t[FourKindIndex] == Candidate(FourOfAKind, d);
    assert t[YahtzeeIndex] == Candidate(Yahtzee, d);
    FullHouseTestCorrect(d, n, v);
    assert t[FullHouseIndex] == Candidate(FullHouse, d);
    StraightCandidates(d, n, v);
    assert t[ChanceIndex] == Candidate(Chance, d);
    forall j | 0 <= j < |LowerCategories| ensures t[j] == Candidate(LowerCategories[j], d) {
      if j == 0 { } else if j == 1 { } else if j == 2 { } else if j == 3 { } else if j == 4 { } else if j == 5 { } else { }
    }
  }

  /** The straight tests agree with the rules; with three or more dice alike there is none. */
  lemma StraightCandidates(d: seq<int>, n: int, v: int)
    requires IsHand(d) && IsSorted(d) && IsMaxCount(d, n, v)
    ensures LowerTests(d, n, v)[SmStraightIndex] == Candidate(SmallStraight, d)
    ensures LowerTests(d, n, v)[LgStraightIndex] == Candidate(LargeStraight, d)
  {
    SmallStraightTestCorrect(d);
    LargeStraightTestCorrect(d);
    if n > 2 {
      NoStraightWithTriple(d, n, v);
    }
  }

  /** Dividing a face's candidate by the face gives back the number of dice. */
  lemma FaceQuotient(f: int, n: int)
    requires IsFace(f)
    ensures (f * n) / f == n
  {
    if f == 1 {
    } else if f == 2 {
    } else if f == 3 {
    } else if f == 4 {
    } else if f == 5 {
    } else {
    }
  }
}
