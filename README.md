# Yahtzee scoring engine and turn state

A model of the core of a single-player Yahtzee game:

- the dice and their hold flags;
- the dice controller, which counts rolls in a round and rounds in a game and enables the roll button;
- the score controller, which fills a candidate score for each of the thirteen categories from a sorted hand;
- the score sheet, whose value slots take a chosen candidate and whose five automatic totals (upper sum, upper bonus, upper total, lower total, grand total) follow each commit, with the 35-point bonus awarded once, the first time the upper sum reaches 63.

The model is imperative, like the program. Each die, slot, total and controller is a class whose methods update its fields. The hand handed to the score controller is an array. A game (`Play.Game`) wires the two controllers together. It holds the invariant that play keeps:

- the totals agree with each other and with the bonus rule;
- every candidate is non-negative;
- a used slot's button is disabled;
- one slot is used per round played, a used slot stays used and keeps its value;
- the upper sum and the lower total hold the points committed in their sections, so the grand total is every committed point plus the bonus;
- no slot can be chosen before a round's first roll;
- at most three rolls are made per round, and at most thirteen rounds per game.

The scoring is proved against a specification that does not depend on dice order. `Rules.Candidate` states each category on counts of faces: three/four/five of a kind, three of one face plus two of another, four or five consecutive faces, and the sum. Lemmas show that the tests the controller actually runs on a sorted hand decide exactly these:

- the strict `>` scan for the largest count;
- the pair test at either end of the hand;
- the count of adjacent steps of one, combined with the membership tests.

Files:

- `hand.dfy`: faces, hands, counts and sums.
- `rules.dfy`: categories, the constant tables, candidate scores and the test-correctness lemmas.
- `sheet.dfy`: the totals as a value and what a commit does to them.
- `scores.dfy`: `Score` and `ActiveScore`.
- `score_controller.dfy`: the score controller.
- `dice.dfy`: a die.
- `dice_controller.dfy`: the dice controller.
- `game.dfy`: the wired game and its click handlers.

## Model

| member | source | states |
|---|---|---|
| Scores.Score.constructor | src/Score.java:39-56 | a new total has value 0 and keeps the given section |
| Scores.Score.AddToValue | src/Score.java:67-86 | the value grows by exactly the points added and nothing else changes, so a run of additions yields the sum of the points |
| Scores.Score.GetValue | src/Score.java:96-99 | returns the value, changing nothing |
| Scores.Score.GetSection | src/Score.java:110-113 | returns the section fixed at construction |
| Scores.ActiveScore.constructor | ActiveScore.java:32-42 | a new slot has no candidate, no value, is unused and has its button disabled |
| Scores.ActiveScore.ScoreButtonClicked | ActiveScore.java:77-94 | the value becomes the candidate and the slot is used; the button is disabled (it keeps its state only when the slot was already used) |
| Scores.ActiveScore.AddTempValue | ActiveScore.java:105-109 | the candidate grows by exactly v; nothing else changes |
| Scores.ActiveScore.ScoreTempValue | ActiveScore.java:123-145 | the candidate becomes the given points when they are non-zero, and otherwise the sum of all dice |
| Scores.ActiveScore.ResetTempValue | ActiveScore.java:155-159 | the candidate becomes 0; value and used flag are untouched |
| Scores.ActiveScore.GetTempValue | ActiveScore.java:169-172 | returns the candidate, changing nothing |
| Scores.ActiveScore.EnableButton | ActiveScore.java:207-233 | a used slot's button keeps its state, so it can never be re-enabled; an unused slot's button takes the requested state |
| Scores.ActiveScore.IsUsed | ActiveScore.java:258-261 | returns the used flag, changing nothing |
| Scores.ActiveScore.GetSection | src/Score.java:110-113 | returns the section the slot was built with |
| Scores.ActiveScore.CountsCommit | ActiveScore.java:77-94 | when exactly this slot of a sheet section becomes used, the section's number of used slots grows by one |
| Scores.UsedInBound | ActiveScore.java:258-261 | the number of used slots is at most the number of slots; it equals it exactly when all are used and is 0 exactly when none is |
| Scores.UsedInSame | ActiveScore.java:258-261 | slots whose used flags did not change keep their number of used slots |
| Scores.ActiveScore.ValuesCommit | ActiveScore.java:77-94 | when exactly this slot of a sheet section becomes used, the section's committed points grow by its value |
| Scores.NothingCommitted | ActiveScore.java:32-42 | slots none of which is used have committed no points |
| Scores.CommittedInSame | ActiveScore.java:77-94 | slots whose used flags and values did not change keep their committed points |
| ScoreControl.InitScores | src/ScoreController.java:163-184 | builds the requested number of distinct new slots of one section, each unused, scoring nothing, button disabled |
| ScoreControl.ScoreController.constructor | src/ScoreController.java:116-143 | six upper and seven lower distinct new blank slots and five new totals all at 0 |
| ScoreControl.ScoreController.BlankIsConsistent | src/ScoreController.java:116-143 | the new sheet is consistent, has no used slot, no choosable slot and no committed points |
| ScoreControl.ScoreController.Slot | src/ScoreController.java:100-101 | the slot of a category lies in its section's array: face f at upper index f - 1, the lower ones in table order |
| ScoreControl.ScoreController.CalcScores | src/ScoreController.java:197-231 | every candidate becomes its category's score for the hand (so a failed condition scores 0), every unused slot's button is enabled, a used one's kept; a consistent sheet stays consistent and offers exactly the unused slots |
| ScoreControl.ScoreController.RescoreKeepsConsistent | src/ScoreController.java:197-231 | rescoring changes only candidates and buttons, keeps the sheet consistent and leaves exactly the unused slots choosable |
| ScoreControl.ScoreController.CommitKeepsConsistent | src/ScoreController.java:535-600 | committing an enabled slot keeps the totals invariant and the candidates, makes one more slot used and disables every button |
| ScoreControl.ScoreController.CommitKeepsTallied | src/ScoreController.java:561-585 | committing a slot's value to its section's totals keeps the upper sum and the lower total equal to the points committed in the upper and lower slots |
| ScoreControl.ScoreController.OffersSameCandidates | src/ScoreController.java:197-231 | what is offered depends on the hand only through its candidates |
| ScoreControl.ScoreController.ResetTempActiveScores | src/ScoreController.java:241-261 | every upper and lower candidate is 0 |
| ScoreControl.ScoreController.EnableScoreButtons | src/ScoreController.java:273-293 | every unused slot's button takes the requested state; a used slot's button keeps its state |
| ScoreControl.ScoreController.ScoreUpper | src/ScoreController.java:304-312 | the upper slot of face f gains f times the number of dice showing f |
| ScoreControl.ScoreController.MatchingDice | src/ScoreController.java:338-354 | sameDice is the largest count of any face and sameDiceVal the smallest face with that count |
| ScoreControl.ScoreController.ScoreComponent | src/ScoreController.java:514-522 | the lower slot at the given position of the calculation order gets its fixed points, or the sum of the dice when its points are 0; no other slot changes |
| ScoreControl.ScoreController.ScoreKinds | src/ScoreController.java:366-381 | Yahtzee scores 50 when five dice match, four and three of a kind score the sum when at least four or three match; the loop ends at the full house's position needing two matching dice |
| ScoreControl.ScoreController.ScoreFullHouse | src/ScoreController.java:393-411 | the full house scores 25 exactly when the needed number of dice match and the first two or the last two dice pair up on a face other than the matching one |
| ScoreControl.ScoreController.ScoreStraights | src/ScoreController.java:423-490 | with at most two matching dice, the small straight scores 30 when at least three adjacent steps of one exist and 3, 4 and one of {1,2}, {2,5}, {5,6} show; the large straight scores 40 when all four adjacent steps are one |
| ScoreControl.ScoreController.ScoreLower | src/ScoreController.java:324-499 | every lower candidate becomes its category's score for the sorted hand |
| ScoreControl.ScoreController.AddToTotals | src/ScoreController.java:561-585 | the totals become the commit of the new points in the slot's section, bonus rule included |
| ScoreControl.ScoreController.ActionPerformed | src/ScoreController.java:535-600 | the clicked slot's candidate is added to the totals of its section and to the grand total, with the bonus rule, and every unused slot's button is disabled |
| ScoreControl.LowerTests | src/ScoreController.java:324-499 | the lower candidates the controller's tests give, one per lower slot |
| ScoreControl.LowerCandidates | src/ScoreController.java:324-499 | on a sorted hand, with the largest count and its smallest face, the controller's tests give exactly every lower category's score |
| ScoreControl.StraightCandidates | src/ScoreController.java:423-490 | the straight tests, guarded by at most two matching dice, give exactly the straight scores |
| Sheet.AddPoints | src/ScoreController.java:561-585 | a commit adds to the grand total exactly what it adds to the upper and lower totals; an upper commit raises the upper sum by the points and leaves the lower total; a lower commit raises only the lower total |
| Sheet.AddPointsKeepsInv | src/ScoreController.java:568-574 | a commit of non-negative points keeps upper total = upper sum + bonus, grand total = upper total + lower total, and the bonus held exactly when the upper sum reaches 63 |
| Sheet.BonusAwardedOnce | src/ScoreController.java:93-96 | the bonus changes exactly when an upper commit takes the upper sum from below 63 to at least 63, and then it becomes 35 |
| Sheet.SixesCrossThreshold | src/ScoreController.java:568-574 | six points of Sixes on an upper sum of 60 give sum 66, bonus 35, upper and grand totals 101 |
| Rules.FaceOf | src/ScoreController.java:304-312 | an upper category's face is a die face and indexes its slot |
| Rules.LowerIndexOf | src/ScoreController.java:60-66 | a lower category's index is its position in the lower table |
| Rules.UpperCandidate | src/ScoreController.java:304-312 | the upper slot at index i scores face i + 1 times its count |
| Rules.StepsOfHand | src/ScoreController.java:425-442 | the adjacent-step count of a hand is the number of its four adjacent pairs that differ by one |
| Rules.SortedHand | src/ScoreController.java:197-231 | a sorted hand is non-decreasing within 1..6 |
| Rules.MaxCountPositive | src/ScoreController.java:342-354 | the largest count of a hand is between 1 and 5 |
| Rules.KindTest | src/ScoreController.java:366-381 | the largest count is at least k exactly when some face shows on k dice |
| Rules.YahtzeeIffAllEqual | src/ScoreController.java:366-381 | five of a kind holds exactly when all five dice are equal |
| Rules.FullHouseTestCorrect | src/ScoreController.java:393-411 | on a sorted hand the pair test with a count of three holds exactly for three of one face and two of another |
| Rules.NoStraightWithTriple | src/ScoreController.java:423-490 | with three matching dice no straight is possible, so the guard on the straights loses nothing |
| Rules.SmallStraightTestCorrect | src/ScoreController.java:455-474 | on a sorted hand the small-straight test holds exactly when four consecutive faces show |
| Rules.LargeStraightTestCorrect | src/ScoreController.java:483-489 | on a sorted hand, four adjacent steps of one hold exactly when five consecutive faces show |
| Rules.CandidateBounds | src/ScoreController.java:72 | every candidate lies between 0 and 50 |
| Rules.CandidatePermutation | src/ScoreController.java:197-231 | candidates depend only on which faces the dice show, not on their order |
| Rules.ChanceIsSum | src/ScoreController.java:327 | chance scores the sum of the five dice |
| Rules.FiveOfAKind | src/ScoreController.java:366-411 | five equal dice score Yahtzee, four and three of a kind, but no full house |
| Rules.HandOfThreesAndOthers | src/ScoreController.java:366-411 | [2,2,2,5,6] scores 17 as three of a kind and chance, 6 as Twos, and no full house |
| Rules.HandOfFiveThrees | src/ScoreController.java:366-381 | [3,3,3,3,3] scores 50 as Yahtzee and 15 as four and three of a kind |
| Rules.UpperOfFiveThrees | src/ScoreController.java:304-312 | [3,3,3,3,3] scores 15 as Threes and 0 in every other upper category |
| Rules.HandOfOneToFive | src/ScoreController.java:423-490 | [1,2,3,4,5] scores both straights and 15 as chance |
| Rules.HandWithInnerPair | src/ScoreController.java:423-490 | [2,3,3,4,5] has three steps of one, scores the small straight and not the large one |
| Dice.Die.constructor | src/Dice.java:60-86 | a new die shows 1, is not held and has its hold button disabled |
| Dice.Die.Hold | src/Dice.java:175-179 | the hold flag flips and the face is kept; two clicks restore the flag |
| Dice.Die.ScoreSelected | src/Dice.java:137-165 | after a score is chosen the hold button is disabled |
| Dice.Die.RolledWith | src/Dice.java:192-226 | (the effect of one roll, used by the roll contracts) the first roll of a round releases the die, a released die shows the drawn face, a held one keeps its face, and the hold button is enabled exactly while rolls remain |
| Dice.Die.Roll | src/Dice.java:192-226 | the first roll of a round releases the die; a released die takes a face in 1..6, a held one keeps its face; the hold button is enabled exactly while rolls remain |
| Dice.Die.GetValue | src/Dice.java:236-239 | returns the face, changing nothing |
| DiceControl.ValuesOf | DiceController.java:260-276 | the faces of the dice in order |
| DiceControl.SortValues | DiceController.java:260-276 | the array ends sorted and a permutation of what it held |
| DiceControl.InsertLast | DiceController.java:260-276 | one insertion step extends the sorted prefix by one, permuting the values |
| DiceControl.DiceController.constructor | DiceController.java:83-141 | no rolls and no rounds, five new dice showing 1, unheld, hold buttons disabled, roll button enabled |
| DiceControl.DiceController.RollDice | DiceController.java:241-250 | the roll count grows by one and every die is rolled with the new count |
| DiceControl.DiceController.GetDiceValues | DiceController.java:260-276 | a new length-5 array of faces, sorted and a permutation of the dice's faces; the dice are unchanged |
| DiceControl.DiceController.NextRound | DiceController.java:287-291 | no rolls made yet and one more round played |
| DiceControl.DiceController.ScoreSelected | DiceController.java:166-178 | a new round starts and the roll button is enabled exactly while fewer than 13 rounds are played |
| DiceControl.DiceController.ScoreDice | DiceController.java:229 | every candidate becomes its category's score for the dice and exactly the unused slots are choosable |
| DiceControl.DiceController.RollButtonClicked | DiceController.java:196-230 | a roll happens only in a round of the game; the dice are rolled, the roll button is disabled after the third roll, and the candidates and buttons follow the new faces |
| Play.Game.constructor | src/Yahtzee.java:50-51 | a new game: the score controller, then the dice controller sharing it; every controller, slot, total and die is a new object; all totals 0, no rolls, no rounds, rolling allowed, and the game invariant |
| Play.Game.Roll | DiceController.java:196-230 | the first roll of a round releases every die, a held die keeps its face and a released one shows the drawn face, the roll and hold buttons stay enabled exactly while the round has a roll left, every candidate becomes its category's score for the dice, and the game invariant is kept |
| Play.Game.Hold | src/Dice.java:144-147 | a hold click, possible only while the die's hold button is enabled, flips that die's hold flag and keeps the game invariant |
| Play.Game.Select | src/ScoreController.java:535-600 | only an unused slot can be chosen; it takes its candidate and is used, the totals follow the bonus rule, a new round starts with rolling allowed exactly while rounds remain, holds and score buttons are disabled, every other slot keeps its value and used flag (a used slot stays used), and the game invariant is kept |
| Play.Game.CommitSlot | src/ScoreController.java:535-600 | the sheet reacts to a click: commit to the totals, buttons disabled, slot used, no other slot's value or used flag changed, one more round on the sheet, and the sums still hold the committed points |
| Play.Game.NextTurn | DiceController.java:166-178 | the dice and the dice controller react to a click: holds disabled, next round, rolling allowed while rounds remain; the sheet is untouched |
| Play.Game.GrandTotalIsCommitted | src/ScoreController.java:561-585 | the grand total is every committed point plus the bonus, and the bonus is held exactly when the upper slots have committed at least 63 |
| Play.Game.RoundsBounded | DiceController.java:28 | at most 13 rounds are played, and the game is over exactly when every slot is used |
| Play.Game.CommitNeedsRoll | src/ScoreController.java:197-231 | a slot can be chosen only after a roll in the round, and only while it is unused: slots start disabled, only the scoring after a roll enables the unused ones, and a commit disables them all |
| Play.Game.DisableHolds | src/Dice.java:137-165 | every die's hold button is disabled and the faces are kept |

## Left out

- Swing: panels, buttons, labels, icons, layout and image loading. Each button's `enabled` state is kept as a boolean field, because the game's rules rely on it.
- Threads and pauses. Each button click is one sequential method.
- The random draw of a die. It is passed in as its integer part `r` in `0..5` (or one per die, `rs`), so the face is `r + 1`.
- Listener wiring (`setUpActionListener`) and the lookup of the clicked button among the listeners. A click on a value slot runs its listeners in a fixed order, last registered first: dice, dice controller, score controller, slot. `Play.Game.Select` takes the category instead of an event source.
- `toString` methods, the button and label getters, and the display updates of values.
- Yahtzee.java is not part of this model beyond the construction of the two controllers, which `Play.Game`'s constructor models; the rest is window setup. AutoScore.java is not part of this model: it holds a label only.
- The static counters of the dice controller are fields of one controller object.
- `Arrays.sort` is an insertion sort, and binary search in the sorted hand is sequence membership.
- The lower section's scan is split into helper methods (`MatchingDice`, `ScoreKinds`, `ScoreFullHouse`, `ScoreStraights`) that follow the code's order and tests.
- `ActiveScore` extends `Score` in the program. Here it is its own class with the same `value` and `section` fields.
- Four of a kind scores when at least four dice match, as the code's `>=` comparison does, so five of a kind also scores it.
- Play.Game.CommitNeedsRoll: follows from the game invariant alone, so its proof is immediate.
