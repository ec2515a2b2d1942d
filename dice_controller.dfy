/** The dice controller: the five dice, the number of rolls made this round, the number of
    rounds played, and the roll button, which stays enabled only while a roll is allowed. */
module DiceControl {
  import opened Hand
  import opened Rules
  import opened Scores
  import opened Dice
  import opened ScoreControl

  const MaxRolls := 3     // rolls per round
  const MaxRounds := 13   // rounds per game

  /** The faces of a sequence of dice, in order. */
  ghost function ValuesOf(ds: seq<Die>): (r: seq<int>)
    reads ds`value
    ensures |r| == |ds| && forall i :: 0 <= i < |ds| ==> r[i] == ds[i].value
  {
    if ds == [] then [] else ValuesOf(ds[..|ds| - 1]) + [ds[|ds| - 1].value]
  }

  /** Sorts the values in increasing order, in place, by insertion. */
  method SortValues(a: array<int>)
    modifies a
    ensures IsSorted(a[..]) && multiset(a[..]) == multiset(old(a[..]))
  {
    for i := 0 to a.Length
      invariant forall k, l :: 0 <= k < l < i ==> a[k] <= a[l]
      invariant multiset(a[..]) == multiset(old(a[..]))
    {
      InsertLast(a, i);
    }
  }

  /** Moves a[i] down into the sorted prefix a[..i], so that a[..i + 1] is sorted; the values
      are only permuted. */
  method InsertLast(a: array<int>, i: int)
    requires 0 <= i < a.Length && forall k, l :: 0 <= k < l < i ==> a[k] <= a[l]
    modifies a
    ensures forall k, l :: 0 <= k < l <= i ==> a[k] <= a[l]
    ensures multiset(a[..]) == multiset(old(a[..]))
  {
    var j := i;
    while j > 0 && a[j - 1] > a[j]
      invariant 0 <= j <= i
      invariant forall k, l :: 0 <= k < l <= i && k != j && l != j ==> a[k] <= a[l]
      invariant forall l :: j < l <= i ==> a[j] < a[l]
      invariant multiset(a[..]) == multiset(old(a[..]))
    {
      var t := a[j - 1];
      a[j - 1] := a[j];
      a[j] := t;
      j := j - 1;
    }
  }

  class DiceController {
    var numRolls: int      // rolls made this round
    var round: int         // rounds finished
    var rollEnabled: bool  // whether the roll button can be clicked
    const dice: seq<Die>
    const scoreControl: ScoreController

    /** Five distinct dice, each showing a face. */
    ghost predicate DiceValid()
      reads dice`value
    {
      && |dice| == NumDice
      && (forall i, j :: 0 <= i < j < |dice| ==> dice[i] != dice[j])
      && (forall i :: 0 <= i < |dice| ==> dice[i].Valid())
    }

    /** The dice are valid, at most three rolls are made in a round, and the roll button is
        enabled only while the round has a roll left and the game has a round left. */
    ghost predicate Valid()
      reads this`numRolls, this`round, this`rollEnabled, dice`value
    {
      && DiceValid()
      && 0 <= numRolls <= MaxRolls && 0 <= round
      && (rollEnabled ==> numRolls < MaxRolls && round < MaxRounds)
    }

    /** A new game: no rolls and no rounds yet, five new dice, and the roll button enabled. */
    constructor (score: ScoreController)
      ensures Valid() && scoreControl == score
      ensures numRolls == 0 && round == 0 && rollEnabled
      ensures forall i :: 0 <= i < |dice| ==> fresh(dice[i])
      ensures forall i :: 0 <= i < |dice| ==>
        dice[i].value == MinFace && !dice[i].hold && !dice[i].holdEnabled
    {
      var ds: seq<Die> := [];
      for index := 0 to NumDice
        invariant |ds| == index
        invariant forall i :: 0 <= i < index ==> fresh(ds[i])
        invariant forall i, j :: 0 <= i < j < index ==> ds[i] != ds[j]
        invariant forall i :: 0 <= i < index ==>
          ds[i].value == MinFace && !ds[i].hold && !ds[i].holdEnabled
      {
        var d := new Die();
        ds := ds + [d];
      }
      dice := ds;
      scoreControl := score;
      numRolls := 0;
      round := 0;
      rollEnabled := true;
    }

    /** Counts one more roll and rolls every die with the new count; rs holds the integer part
        of each die's random draw. */
    method RollDice(rs: seq<int>)
      requires DiceValid() && |rs| == NumDice && forall i :: 0 <= i < |rs| ==> 0 <= rs[i] < NumDice + 1
      modifies this`numRolls, dice`hold, dice`value, dice`holdEnabled
      ensures DiceValid() && numRolls == old(numRolls) + 1
      ensures forall i :: 0 <= i < |dice| ==> dice[i].RolledWith(numRolls, MaxRolls, rs[i])
    {
      numRolls := numRolls + 1;
      for index := 0 to |dice|
        invariant numRolls == old(numRolls) + 1
        invariant forall i :: 0 <= i < |dice| ==> dice[i].Valid()
        invariant forall i :: 0 <= i < index ==> dice[i].RolledWith(numRolls, MaxRolls, rs[i])
        invariant forall i :: index <= i < |dice| ==>
          dice[i].hold == old(dice[i].hold) && dice[i].value == old(dice[i].value)
      {
        dice[index].Roll(numRolls, MaxRolls, rs[index]);
      }
    }

    /** The faces of the dice, sorted in increasing order, in a new array; the dice are left as
        they are. */
    method GetDiceValues() returns (diceValues: array<int>)
      requires DiceValid()
      ensures fresh(diceValues)
      ensures IsHand(diceValues[..]) && IsSorted(diceValues[..])
      ensures multiset(diceValues[..]) == multiset(ValuesOf(dice))
    {
      diceValues := new int[|dice|];
      for index := 0 to |dice|
        invariant forall i :: 0 <= i < index ==> diceValues[i] == dice[i].value
      {
        diceValues[index] := dice[index].GetValue();
      }
      assert diceValues[..] == ValuesOf(dice);
      SortValues(diceValues);
      SamePermutation(ValuesOf(dice), diceValues[..]);
    }

    /** Starts a new round: no rolls made yet, one more round played. */
    method NextRound()
      modifies this`numRolls, this`round
      ensures numRolls == 0 && round == old(round) + 1
    {
      numRolls := 0;
      round := round + 1;
    }

    /** A score button was clicked: a new round starts, and the roll button is enabled exactly
        when the game has a round left. */
    method ScoreSelected()
      requires Valid()
      modifies this`numRolls, this`round, this`rollEnabled
      ensures Valid()
      ensures numRolls == 0 && round == old(round) + 1 && rollEnabled == (round < MaxRounds)
    {
      NextRound();
      rollEnabled := round < MaxRounds;
    }

    /** Sends the sorted faces of the dice to the score controller: every slot's candidate
        becomes its category's score for the dice, and exactly the unused slots have their
        buttons enabled. */
    method ScoreDice()
      requires DiceValid() && scoreControl.Valid() && scoreControl.Consistent()
      modifies scoreControl.upper`tempValue, scoreControl.upper`enabled
      modifies scoreControl.lower`tempValue, scoreControl.lower`enabled
      ensures scoreControl.Consistent() && scoreControl.Offers(ValuesOf(dice))
    {
      ghost var hand := ValuesOf(dice);
      var values := GetDiceValues();
      scoreControl.CalcScores(values);
      assert ValuesOf(dice) == hand;
      forall c ensures Candidate(c, values[..]) == Candidate(c, hand) {
        CandidatePermutation(c, values[..], hand);
      }
      scoreControl.OffersSameCandidates(values[..], hand);
    }

    /** The roll button was clicked: the dice are rolled, the roll button is disabled after the
        last roll of the round, every slot's candidate becomes its category's score for the
        dice, and exactly the unused slots have their buttons enabled. A roll happens only in a
        round of the game. */
    method RollButtonClicked(rs: seq<int>)
      requires Valid() && rollEnabled && scoreControl.Valid() && scoreControl.Consistent()
      requires |rs| == NumDice && forall i :: 0 <= i < |rs| ==> 0 <= rs[i] < NumDice + 1
      modifies this`numRolls, this`rollEnabled, dice`hold, dice`value, dice`holdEnabled
      modifies scoreControl.upper`tempValue, scoreControl.upper`enabled
      modifies scoreControl.lower`tempValue, scoreControl.lower`enabled
      ensures Valid() && round < MaxRounds
      ensures numRolls == old(numRolls) + 1 && rollEnabled == (numRolls < MaxRolls)
      ensures forall i :: 0 <= i < |dice| ==> dice[i].RolledWith(numRolls, MaxRolls, rs[i])
      ensures scoreControl.Consistent() && scoreControl.Offers(ValuesOf(dice))
    {
      RollDice(rs);
      if numRolls == MaxRolls {
        rollEnabled := false;
      }
      ScoreDice();
    }
  }
}
