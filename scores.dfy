/** The score components of the sheet. A Score holds a value and the section it belongs to; the
    totals are plain Scores. An ActiveScore is a value slot the player can choose: it also holds a
    candidate (tempValue) for the current dice, a used flag and the enabled state of its button. */
module Scores {
  import opened Hand
  import opened Rules
  import opened Sheet

  class Score {
    var value: int
    const section: Section

    constructor (section: Section)
      ensures value == 0 && this.section == section
    {
      value := 0;
      this.section := section;
    }

    /** Adds points to the value. */
    method AddToValue(points: int)
      modifies this`value
      ensures value == old(value) + points
    {
      value := value + points;
    }

    method GetValue() returns (v: int)
      ensures v == value
    {
      v := value;
    }

    method GetSection() returns (s: Section)
      ensures s == section
    {
      s := section;
    }
  }

  class ActiveScore {
    var value: int
    const section: Section
    var tempValue: int
    var used: bool
    var enabled: bool   // whether the value button can be clicked

    /** The slot of a new sheet: no candidate, no value, unused, and its button disabled. */
    ghost predicate Blank()
      reads this
    {
      tempValue == 0 && value == 0 && !used && !enabled
    }

    /** A new slot is unused, scores nothing and its button starts disabled. */
    constructor (section: Section)
      ensures Blank() && this.section == section
    {
      value := 0;
      this.section := section;
      tempValue := 0;
      used := false;
      enabled := false;
    }

    /** The button was clicked: the candidate becomes the value, and the slot is used for the
        rest of the game with its button disabled. */
    method ScoreButtonClicked()
      modifies this`value, this`enabled, this`used
      ensures value == old(tempValue) && used
      ensures enabled == (old(used) && old(enabled))
    {
      value := tempValue;
      EnableButton(false);
      used := true;
    }

    /** Raises the candidate by exactly v. */
    method AddTempValue(v: int)
      modifies this`tempValue
      ensures tempValue == old(tempValue) + v
    {
      tempValue := tempValue + v;
    }

    /** Sets the candidate to the given points, or to the sum of the dice when the points are 0. */
    method ScoreTempValue(pointValue: int, dice: array<int>)
      modifies this`tempValue
      ensures tempValue == if pointValue != 0 then pointValue else Sum(dice[..])
    {
      if pointValue != 0 {
        tempValue := pointValue;
      } else {
        tempValue := 0;
        for index := 0 to dice.Length
          invariant tempValue == Sum(dice[..index])
        {
          PrefixStep(dice[..], index);
          assert dice[..index + 1] == dice[..][..index + 1];
          tempValue := tempValue + dice[index];
        }
        assert dice[..dice.Length] == dice[..];
      }
    }

    /** Sets the candidate to 0. */
    method ResetTempValue()
      modifies this`tempValue
      ensures tempValue == 0
    {
      tempValue := 0;
    }

    method GetTempValue() returns (v: int)
      ensures v == tempValue
    {
      v := tempValue;
    }

    /** Enables or disables the button, unless the slot is used: then its button stays as it is. */
    method EnableButton(enable: bool)
      modifies this`enabled
      ensures enabled == if used then old(enabled) else enable
    {
      if used {
        return;
      }
      enabled := enable;
    }

    method IsUsed() returns (u: bool)
      ensures u == used
    {
      u := used;
    }

    method GetSection() returns (s: Section)
      ensures s == section
    {
      s := section;
    }

    /** When this slot of s became used and no other slot of s changed its used flag, the
        number of used slots of s grows by one. */
    twostate lemma {:induction false} CountsCommit(s: seq<ActiveScore>)
      requires this in s && !old(used) && used
      requires forall i, j :: 0 <= i < j < |s| ==> s[i] != s[j]
      requires forall i :: 0 <= i < |s| && s[i] != this ==> s[i].used == old(s[i].used)
      ensures UsedIn(s) == old(UsedIn(s)) + 1
    {
      if s[|s| - 1] == this {
        UsedInSame(s[..|s| - 1]);
      } else {
        CountsCommit(s[..|s| - 1]);
      }
    }

    /** When this slot of s became used with its value and no other slot of s changed its used
        flag or value, the committed points of s grow by this slot's value. */
    twostate lemma {:induction false} ValuesCommit(s: seq<ActiveScore>)
      requires this in s && !old(used) && used
      requires forall i, j :: 0 <= i < j < |s| ==> s[i] != s[j]
      requires forall i :: 0 <= i < |s| && s[i] != this ==>
        s[i].used == old(s[i].used) && s[i].value == old(s[i].value)
      ensures CommittedIn(s) == old(CommittedIn(s)) + value
    {
      if s[|s| - 1] == this {
        CommittedInSame(s[..|s| - 1]);
      } else {
        ValuesCommit(s[..|s| - 1]);
      }
    }
  }

  /** The number of used slots among s. */
  ghost function UsedIn(s: seq<ActiveScore>): nat
    reads s`used
  {
    if s == [] then 0 else UsedIn(s[..|s| - 1]) + Ind(s[|s| - 1].used)
  }

  /** At most every slot is used; all are exactly when the count reaches the length, and none
      exactly when it is 0. */
  lemma {:induction false} UsedInBound(s: seq<ActiveScore>)
    ensures UsedIn(s) <= |s|
    ensures UsedIn(s) == |s| <==> forall i :: 0 <= i < |s| ==> s[i].used
    ensures UsedIn(s) == 0 <==> forall i :: 0 <= i < |s| ==> !s[i].used
  {
    if s != [] {
      var n := |s| - 1;
      UsedInBound(s[..n]);
      assert forall i :: 0 <= i < n ==> s[..n][i] == s[i];
    }
  }

  /** Slots whose used flags did not change keep their count. */
  twostate lemma {:induction false} UsedInSame(s: seq<ActiveScore>)
    requires forall i :: 0 <= i < |s| ==> s[i].used == old(s[i].used)
    ensures UsedIn(s) == old(UsedIn(s))
  {
    if s != [] {
      UsedInSame(s[..|s| - 1]);
    }
  }

  /** The points committed in s: the sum of the values of its used slots. */
  ghost function CommittedIn(s: seq<ActiveScore>): int
    reads s`used, s`value
  {
    if s == [] then 0
    else CommittedIn(s[..|s| - 1]) + (if s[|s| - 1].used then s[|s| - 1].value else 0)
  }

  /** Slots none of which is used have committed nothing. */
  lemma {:induction false} NothingCommitted(s: seq<ActiveScore>)
    requires forall i :: 0 <= i < |s| ==> !s[i].used
    ensures CommittedIn(s) == 0
  {
    if s != [] {
      NothingCommitted(s[..|s| - 1]);
    }
  }

  /** Slots whose used flags and values did not change keep their committed points. */
  twostate lemma {:induction false} CommittedInSame(s: seq<ActiveScore>)
    requires forall i :: 0 <= i < |s| ==> s[i].used == old(s[i].used) && s[i].value == old(s[i].value)
    ensures CommittedIn(s) == old(CommittedIn(s))
  {
    if s != [] {
      CommittedInSame(s[..|s| - 1]);
    }
  }
}
