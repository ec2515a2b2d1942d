/** A game: the score controller and the dice controller wired together. A click on a value
    slot's button reaches its listeners last-registered first: the dice disable their hold
    buttons, the dice controller starts the next round, the score controller adds the candidate
    to the totals and disables the buttons, and the slot commits its candidate. */
module Play {
  import opened Hand
  import opened Rules
  import opened Sheet
  import opened Scores
  import opened Dice
  import opened ScoreControl
  import opened DiceControl

  class Game {
    const scores: ScoreController
    const control: DiceController

    /** The controllers are valid and share the sheet, the sheet is consistent, one slot has
        been used per round played, no slot can be chosen before the round's first roll, and the
        upper sum and lower total hold the points committed in their sections. */
    ghost predicate Valid()
      reads control`numRolls, control`round, control`rollEnabled, control.dice`value
      reads scores.upper`tempValue, scores.upper`used, scores.upper`enabled, scores.upper`value
      reads scores.lower`tempValue, scores.lower`used, scores.lower`enabled, scores.lower`value
      reads scores.upperSum`value, scores.upBonus`value, scores.upperTotal`value
      reads scores.lowerTotal`value, scores.grandTotal`value
    {
      && control.Valid() && scores.Valid() && control.scoreControl == scores
      && scores.Played(control.round, control.numRolls != 0) && scores.Tallied()
    }

    /** A new game: an empty sheet, five new dice, no rounds played, and rolling allowed. Every
        object of the game is new. */
    constructor ()
      ensures Valid()
      ensures fresh(scores) && fresh(control)
      ensures forall i :: 0 <= i < |scores.upper| ==> fresh(scores.upper[i])
      ensures forall j :: 0 <= j < |scores.lower| ==> fresh(scores.lower[j])
      ensures fresh(scores.upperSum) && fresh(scores.upBonus) && fresh(scores.upperTotal)
      ensures fresh(scores.lowerTotal) && fresh(scores.grandTotal)
      ensures forall i :: 0 <= i < |control.dice| ==> fresh(control.dice[i])
      ensures scores.TotalsView() == NoTotals
      ensures control.round == 0 && control.numRolls == 0 && control.rollEnabled
    {
      var s := new ScoreController();
      s.BlankIsConsistent();
      scores := s;
      control := new DiceController(s);
    }

    /** The roll button was clicked, with rs the integer parts of the dice's random draws: the
        first roll of a round releases every die, a held die keeps its face and a released one
        shows rs[i] + 1, the roll and hold buttons stay enabled while the round has a roll left,
        every slot's candidate becomes its category's score for the new faces, and exactly the
        unused slots can be chosen. */
    method Roll(rs: seq<int>)
      requires Valid() && control.rollEnabled
      requires |rs| == NumDice && forall i :: 0 <= i < |rs| ==> 0 <= rs[i] < NumDice + 1
      modifies control`numRolls, control`rollEnabled
      modifies control.dice`hold, control.dice`value, control.dice`holdEnabled
      modifies scores.upper`tempValue, scores.upper`enabled, scores.lower`tempValue, scores.lower`enabled
      ensures Valid() && control.numRolls == old(control.numRolls) + 1
      ensures control.rollEnabled == (control.numRolls < MaxRolls)
      ensures forall i :: 0 <= i < |control.dice| ==> control.dice[i].RolledWith(control.numRolls, MaxRolls, rs[i])
      ensures scores.Offers(ValuesOf(control.dice))
    {
      control.RollButtonClicked(rs);
    }

    /** The hold button of die i was clicked, which it can be only between rolls of a round: the
        die's hold flag flips, and its face and everything else stay as they are. */
    method Hold(i: int)
      requires Valid() && 0 <= i < |control.dice| && control.dice[i].holdEnabled
      modifies {control.dice[i]}`hold
      ensures Valid() && control.dice[i].hold == !old(control.dice[i].hold)
    {
      control.dice[i].Hold();
    }

    /** The button of the slot of category c was clicked. Only an unused slot can be chosen; it
        takes its candidate as its value and is used from then on, the candidate is added to the
        totals with the bonus rule, the next round starts with its roll button enabled while
        rounds remain, and every hold button is disabled. No other slot's value or used flag can
        change, so a used slot stays used with its value. The sheet stays consistent. */
    method Select(c: Category)
      requires Valid() && scores.Slot(c).enabled
      modifies scores.upper`enabled, scores.lower`enabled, scores.Slot(c)`value, scores.Slot(c)`used
      modifies scores.upperSum`value, scores.upBonus`value, scores.upperTotal`value
      modifies scores.lowerTotal`value, scores.grandTotal`value
      modifies control`numRolls, control`round, control`rollEnabled, control.dice`holdEnabled
      ensures Valid()
      ensures !old(scores.Slot(c).used)
      ensures scores.Slot(c).used && scores.Slot(c).value == scores.Slot(c).tempValue
      ensures scores.TotalsView() == AddPoints(old(scores.TotalsView()), SectionOf(c), scores.Slot(c).tempValue)
      ensures control.round == old(control.round) + 1 && control.numRolls == 0
      ensures control.rollEnabled == (control.round < MaxRounds)
      ensures forall i :: 0 <= i < |control.dice| ==> !control.dice[i].holdEnabled
      ensures scores.NoneEnabled()
    {
      NextTurn(c);
      CommitSlot(c, old(control.round));
    }

    /** The score controller and the chosen slot react to the click on the button of category c:
        the candidate is added to the totals, every slot's button is disabled, and the slot takes
        its candidate as its value and is used from then on; no other slot changes its value or
        used flag. A sheet played for the given rounds is then played for one more, with no slot
        choosable, and its sums still hold the committed points. */
    method CommitSlot(c: Category, ghost rounds: int)
      requires scores.Valid() && scores.Played(rounds, true) && scores.Tallied() && scores.Slot(c).enabled
      modifies scores.upper`enabled, scores.lower`enabled, scores.Slot(c)`value, scores.Slot(c)`used
      modifies scores.upperSum`value, scores.upBonus`value, scores.upperTotal`value
      modifies scores.lowerTotal`value, scores.grandTotal`value
      ensures scores.Played(rounds + 1, false) && scores.Tallied()
      ensures !old(scores.Slot(c).used)
      ensures scores.Slot(c).used && scores.Slot(c).value == scores.Slot(c).tempValue
      ensures scores.TotalsView() == AddPoints(old(scores.TotalsView()), SectionOf(c), scores.Slot(c).tempValue)
      ensures forall i :: 0 <= i < |scores.upper| && scores.upper[i] != scores.Slot(c) ==>
        scores.upper[i].used == old(scores.upper[i].used) && scores.upper[i].value == old(scores.upper[i].value)
      ensures forall j :: 0 <= j < |scores.lower| && scores.lower[j] != scores.Slot(c) ==>
        scores.lower[j].used == old(scores.lower[j].used) && scores.lower[j].value == old(scores.lower[j].value)
    {
      var slot := scores.Slot(c);
      scores.ActionPerformed(slot);
      slot.ScoreButtonClicked();
      scores.CommitKeepsConsistent(c);
      scores.CommitKeepsTallied(c);
    }

    /** The dice and the dice controller react to the click on the button of category c: every
        hold button is disabled, a new round starts, and rolling is allowed while rounds remain.
        The sheet is not touched. */
    method NextTurn(c: Category)
      requires Valid() && scores.Slot(c).enabled
      modifies control`numRolls, control`round, control`rollEnabled, control.dice`holdEnabled
      ensures control.Valid()
      ensures control.round == old(control.round) + 1 && control.numRolls == 0
      ensures control.rollEnabled == (control.round < MaxRounds)
      ensures forall i :: 0 <= i < |control.dice| ==> !control.dice[i].holdEnabled
      ensures scores.Played(old(control.round), true) && scores.Tallied() && scores.Slot(c).enabled
      ensures scores.TotalsView() == old(scores.TotalsView())
    {
      DisableHolds();
      control.ScoreSelected();
    }

    /** At most thirteen rounds are played, and the game is over exactly when every slot is used. */
    lemma RoundsBounded()
      requires Valid()
      ensures control.round <= MaxRounds
      ensures control.round == MaxRounds <==> scores.AllUsed()
    {
      UsedInBound(scores.upper);
      UsedInBound(scores.lower);
    }

    /** The grand total is the points committed in all slots plus the bonus, which is held
        exactly when the upper slots have committed at least the threshold. */
    lemma GrandTotalIsCommitted()
      requires Valid()
      ensures scores.grandTotal.value == CommittedIn(scores.upper) + CommittedIn(scores.lower) + scores.upBonus.value
      ensures scores.upBonus.value == if CommittedIn(scores.upper) >= UpBonusThreshold then UpBonusPoints else 0
    {
    }

    /** A slot can be chosen only after a roll in the round, and only once in a game. */
    lemma CommitNeedsRoll(c: Category)
      requires Valid() && scores.Slot(c).enabled
      ensures control.numRolls >= 1 && !scores.Slot(c).used
    {
    }

    /** Every die's hold button is disabled; the faces are kept. */
    method DisableHolds()
      requires control.DiceValid()
      modifies control.dice`holdEnabled
      ensures control.DiceValid()
      ensures forall i :: 0 <= i < |control.dice| ==> !control.dice[i].holdEnabled
    {
      for index := 0 to |control.dice|
        invariant forall i :: 0 <= i < |control.dice| ==> control.dice[i].Valid()
        invariant forall i :: 0 <= i < index ==> !control.dice[i].holdEnabled
      {
        control.dice[index].ScoreSelected();
      }
    }
  }
}
