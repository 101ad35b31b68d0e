/**
 * What one round of observations proves about a submitted claim
 * (lez-faucet-ffi/src/client.rs).
 */
module Reconciliation {
  import opened Wrappers

  // The three readings of a round; a reading that failed is None.
  datatype Observation = Observation(included: Option<bool>, balance: Option<nat>, rotated: Option<bool>)

  datatype Decision = Continue | Credited | LostRace | Unattributable

  function Classify(before: nat, expected: nat, seen: Observation): Decision {
    if seen.balance.Some? && seen.balance.value != before && seen.balance.value != expected then Unattributable
    else if seen.included == Some(true) then
      match seen.balance
      case Some(balance) => if balance == expected then Credited else Unattributable
      case None => Continue
    else if seen.included == Some(false) && seen.balance == Some(before) && seen.rotated == Some(true) then LostRace
    else Continue
  }

  // ---- what the readings prove ---------------------------------------------------

  // The claim is in a block and the recipient holds exactly one prize more.
  predicate ShowsCredit(before: nat, prize: nat, seen: Observation) {
    seen.included == Some(true) && seen.balance == Some(before + prize)
  }

  // The claim is in no block, the recipient holds what it held, and the
  // challenge the claim was for is gone.
  predicate ShowsLoss(before: nat, seen: Observation) {
    seen.included == Some(false) && seen.balance == Some(before) && seen.rotated == Some(true)
  }

  // The recipient's balance is one no claim of this request explains, or it is
  // not a prize higher although the claim is in a block.
  predicate ShowsForeignChange(before: nat, prize: nat, seen: Observation) {
    && seen.balance.Some? && seen.balance.value != before + prize
    && (seen.balance.value != before || seen.included == Some(true))
  }

  /**
   * The decision is exactly what the three readings show: credited, lost and
   * unattributable each if and only if the readings are so, and otherwise the
   * client looks again.
   */
  lemma DecidesByReadings(before: nat, prize: nat, seen: Observation)
    ensures var decision := Classify(before, before + prize, seen);
            && (decision == Credited <==> ShowsCredit(before, prize, seen))
            && (decision == LostRace <==> ShowsLoss(before, seen))
            && (decision == Unattributable <==> ShowsForeignChange(before, prize, seen))
  {
  }

  predicate Weaker<T(==)>(less: Option<T>, more: Option<T>) {
    less.None? || less == more
  }

  // A read that failed never decides anything a successful read would not
  // have decided: knowing less gives the same decision or none.
  lemma UnknownNeverDecides(before: nat, expected: nat, less: Observation, more: Observation)
    requires Weaker(less.included, more.included) && Weaker(less.balance, more.balance)
    requires Weaker(less.rotated, more.rotated)
    ensures Classify(before, expected, less) in {Continue, Classify(before, expected, more)}
  {
  }
}
