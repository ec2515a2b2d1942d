/** The score sheet as values: one view per value slot, the five totals, and what a commit does
    to the totals, including the one-time upper bonus. */
module Sheet {
  import opened Hand
  import opened Rules

  /** The automatic slots: upper sum, upper bonus, upper total, lower total, grand total. */
  datatype Totals = Totals(upperSum: int, upBonus: int, upperTotal: int, lowerTotal: int, grandTotal: int)

  const UpBonusThreshold := 63
  const UpBonusPoints := 35

  const NoTotals := Totals(0, 0, 0, 0, 0)

  /** What committing p points in a section does to the totals: the grand total gains exactly
      what the upper and lower totals gain; an upper commit raises the upper sum by p and leaves
      the lower total alone; a lower commit raises only the lower total (and the grand total). */
  function AddPoints(t: Totals, section: Section, p: int): (r: Totals)
    ensures r.grandTotal - t.grandTotal == (r.upperTotal - t.upperTotal) + (r.lowerTotal - t.lowerTotal)
    ensures section == Upper ==> r.upperSum == t.upperSum + p && r.lowerTotal == t.lowerTotal
    ensures section == Lower ==> r.lowerTotal == t.lowerTotal + p
                                 && r.upperSum == t.upperSum && r.upBonus == t.upBonus && r.upperTotal == t.upperTotal
  {
    match section
    case Upper =>
      var sum := t.upperSum + p;
      var bonus := if t.upBonus == 0 && sum >= UpBonusThreshold then UpBonusPoints else 0;
      Totals(sum, t.upBonus + bonus, t.upperTotal + p + bonus, t.lowerTotal, t.grandTotal + bonus + p)
    case Lower =>
      t.(lowerTotal := t.lowerTotal + p, grandTotal := t.grandTotal + p)
  }

  /** The totals agree with each other and the bonus is held exactly when the upper sum reaches
      the threshold. */
  predicate TotalsInv(t: Totals)
  {
    && t.upperTotal == t.upperSum + t.upBonus
    && t.grandTotal == t.upperTotal + t.lowerTotal
    && t.upBonus == (if t.upperSum >= UpBonusThreshold then UpBonusPoints else 0)
  }

  /** A commit of non-negative points keeps the totals consistent. */
  lemma AddPointsKeepsInv(t: Totals, section: Section, p: int)
    requires TotalsInv(t) && p >= 0
    ensures TotalsInv(AddPoints(t, section, p))
  {
  }

  /** The bonus changes at a commit exactly when an upper commit takes the sum across the
      threshold, and then it becomes the bonus points. */
  lemma BonusAwardedOnce(t: Totals, section: Section, p: int)
    requires TotalsInv(t) && p >= 0
    ensures var t' := AddPoints(t, section, p);
            (t'.upBonus != t.upBonus <==>
               section == Upper && t.upperSum < UpBonusThreshold <= t.upperSum + p)
            && (t'.upBonus != t.upBonus ==> t'.upBonus == UpBonusPoints)
  {
  }

  /** Committing six points of Sixes on an upper sum of 60 awards the bonus. */
  lemma SixesCrossThreshold()
    ensures AddPoints(Totals(60, 0, 60, 0, 60), Upper, 6) == Totals(66, 35, 101, 0, 101)
  {
  }
}
