/** One die of the game: the face it shows, whether the player holds it, and whether its hold
    button can be clicked. */
module Dice {
  import opened Hand

  class Die {
    var value: int
    var hold: bool
    var holdEnabled: bool   // whether the hold button can be clicked

    /** The die always shows a face. */
    ghost predicate Valid()
      reads this`value
    {
      IsFace(value)
    }

    /** A new die shows the lowest face, is not held, and its hold button starts disabled. */
    constructor ()
      ensures Valid()
      ensures value == MinFace && !hold && !holdEnabled
    {
      value := MinFace;
      hold := false;
      holdEnabled := false;
    }

    /** The hold button was clicked: the hold flag flips and the face is kept. */
    method Hold()
      modifies this`hold
      ensures hold == !old(hold)
    {
      hold := !hold;
    }

    /** A score button was clicked: the hold button is disabled until the next roll. */
    method ScoreSelected()
      modifies this`holdEnabled
      ensures !holdEnabled
    {
      holdEnabled := false;
    }

    /** The die was rolled as roll number numRolls of a round of at most maxRolls rolls, with r
        the integer part of the random draw: the first roll of a round released it, a released
        die shows r + 1 and a held one its old face, and the hold button is enabled exactly while
        more rolls remain. */
    twostate predicate RolledWith(numRolls: int, maxRolls: int, r: int)
      reads this
    {
      && hold == (old(hold) && numRolls != 1)
      && value == (if hold then old(value) else r + 1)
      && holdEnabled == (numRolls < maxRolls)
    }

    /** Rolls the die as roll number numRolls of a round of at most maxRolls rolls. The first
        roll of a round releases the die; a released die takes the face r + 1, where r is the
        integer part of the random draw scaled to NumDice + 1 values, and a held die keeps its face.
        The hold button is enabled exactly while more rolls remain. */
    method Roll(numRolls: int, maxRolls: int, r: int)
      requires Valid() && 0 <= r < NumDice + 1
      modifies this`hold, this`value, this`holdEnabled
      ensures Valid() && RolledWith(numRolls, maxRolls, r)
    {
      if numRolls == 1 {
        hold := false;
      }
      if !hold {
        value := r + 1;
      }
      var enable := numRolls < maxRolls;
      holdEnabled := enable;
    }

    method GetValue() returns (v: int)
      ensures v == value
    {
      v := value;
    }
  }
}
