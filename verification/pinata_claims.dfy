/**
 * What one drop may conclude from what it read.
 *
 * An attempt records the positions in the log at which the client took its
 * readings. The theorems speak of any later log, so they say what can still
 * happen after the drop has returned.
 */
module PinataClaims {
  import opened PinataChain

  // How an attempt ended. Positions are those of the readings behind the verdict.
  datatype Fate =
    | Refused
    | Lost(balanceAt: nat, challengeAt: nat)
    | Credited(includedAt: nat, balanceAt: nat)
    | Undecided

  // One submitted claim: the balance the attempt started from, read at
  // anchoredAt; the challenge it solved, re-read at refreshedAt; the balance
  // read once more at baselineAt; and the moment it went to the sequencer.
  datatype Attempt = Attempt(tx: Tx, challenge: Challenge, before: nat, anchoredAt: nat,
                             refreshedAt: nat, baselineAt: nat, sentAt: nat, fate: Fate)

  // The attempt is what the client's readings of this log say it is.
  ghost predicate Observed(rules: Rules, log: seq<Event>, recipient: Account, a: Attempt) {
    && a.tx.winner == recipient
    && rules.fits(a.challenge, a.tx.solution)
    && a.anchoredAt <= a.refreshedAt <= a.baselineAt <= a.sentAt <= |log|
    && BalanceAt(rules, log, a.anchoredAt, recipient) == a.before
    && ChallengeAt(rules, log, a.refreshedAt) == a.challenge
    && BalanceAt(rules, log, a.baselineAt, recipient) == a.before
    && match a.fate
       case Lost(balanceAt, challengeAt) =>
         && a.sentAt <= balanceAt <= challengeAt <= |log|
         && BalanceAt(rules, log, balanceAt, recipient) == a.before
         && ChallengeAt(rules, log, challengeAt) != a.challenge
       case Credited(includedAt, balanceAt) =>
         && a.sentAt <= includedAt <= balanceAt <= |log|
         && PaidBy(log, includedAt, a.tx) > 0
         && BalanceAt(rules, log, balanceAt, recipient) == a.before + rules.prize
       case _ => true
  }

  // Where the last reading of a lost attempt was taken.
  function LostAt(a: Attempt): nat {
    if a.fate.Lost? then a.fate.challengeAt else a.sentAt
  }

  // The attempt before this one was judged lost before this one began.
  ghost predicate Follows(attempts: seq<Attempt>, i: nat)
    requires 0 < i < |attempts|
  {
    var previous := attempts[i - 1];
    previous.fate.Lost? && LostAt(previous) <= attempts[i].refreshedAt
  }

  // A drop: every attempt but the last was judged lost before the next began.
  ghost predicate DropTrace(rules: Rules, log: seq<Event>, recipient: Account, attempts: seq<Attempt>) {
    && (forall i | 0 <= i < |attempts| :: Observed(rules, log, recipient, attempts[i]))
    && (forall i | 0 < i < |attempts| :: Follows(attempts, i))
  }

  // ---- assumptions -----------------------------------------------------------------

  // The prize is worth something, the recipient does not spend while the chain
  // is watched, and no two challenges accept one claim. Anybody may hand in the
  // client's own claim, before the client does or after.
  ghost predicate Assumptions(rules: Rules, log: seq<Event>, recipient: Account, attempts: seq<Attempt>) {
    && Lawful(rules, log) && rules.prize > 0 && NeverSpends(log, recipient)
    && forall i | 0 <= i < |attempts| :: OneChallengeOnly(rules, log, attempts[i].tx.solution)
  }

  // The client's own claim was applied between the balance reading and the
  // challenge reading of the round that called the race lost.
  ghost predicate LandedBetween(log: seq<Event>, a: Attempt) {
    && a.fate.Lost? && a.fate.balanceAt <= a.fate.challengeAt <= |log|
    && PaidBy(log, a.fate.balanceAt, a.tx) < PaidBy(log, a.fate.challengeAt, a.tx)
  }

  // ---- one attempt -------------------------------------------------------------------

  // A claim that fits the current challenge has not been paid before: had it
  // been, that challenge would be gone.
  lemma LiveClaimIsUnpaid(rules: Rules, log: seq<Event>, n: nat, tx: Tx)
    requires Lawful(rules, log) && OneChallengeOnly(rules, log, tx.solution)
    requires n <= |log| && rules.fits(ChallengeAt(rules, log, n), tx.solution)
    ensures PaidBy(log, n, tx) == 0
  {
    if PaidBy(log, n, tx) > 0 {
      var at := PaidMeansWon(log, n, tx);
      assert Admissible(rules, log, at, log[at]);
      SeenLater(rules, log, at);
      SeenLater(rules, log, n);
      WonChallengeIsGone(rules, log, at, n);
    }
  }

  // Whoever handed the claim in, it was not paid before the challenge was
  // re-read, and so not before the balance the attempt started from.
  lemma UnpaidAtAnchor(rules: Rules, log: seq<Event>, recipient: Account, a: Attempt)
    requires Lawful(rules, log) && OneChallengeOnly(rules, log, a.tx.solution)
    requires Observed(rules, log, recipient, a)
    ensures PaidBy(log, a.anchoredAt, a.tx) == PaidBy(log, a.refreshedAt, a.tx) == 0
  {
    hide Lawful, ChallengeAt, BalanceAt, PaidBy, OneChallengeOnly;
    LiveClaimIsUnpaid(rules, log, a.refreshedAt, a.tx);
    PaidGrows(log, a.anchoredAt, a.refreshedAt, a.tx);
  }

  // Before a reading that shows the balance the attempt started from, the
  // claim cannot have been applied: the balance would show it.
  lemma UnchangedMeansUnpaid(rules: Rules, log: seq<Event>, recipient: Account, a: Attempt, at: nat)
    requires Lawful(rules, log) && rules.prize > 0 && NeverSpends(log, recipient)
    requires Observed(rules, log, recipient, a) && OneChallengeOnly(rules, log, a.tx.solution)
    requires a.anchoredAt <= at <= |log| && BalanceAt(rules, log, at, recipient) == a.before
    ensures PaidBy(log, at, a.tx) == 0
  {
    hide Lawful, NeverSpends, ChallengeAt, BalanceAt, PaidBy, OneChallengeOnly;
    UnpaidAtAnchor(rules, log, recipient, a);
    PrizesAreGained(rules, log, a.anchoredAt, at, a.tx);
    AtLeastThePrize(PaidBy(log, at, a.tx), rules.prize);
  }

  lemma AtLeastThePrize(paid: nat, prize: nat)
    ensures paid > 0 ==> paid * prize >= prize
  {
  }

  // After the challenge reading the claim can never be applied: its one
  // challenge is gone.
  lemma NeverPaidAfterRotation(rules: Rules, log: seq<Event>, a: Attempt, n: nat)
    requires Lawful(rules, log) && OneChallengeOnly(rules, log, a.tx.solution)
    requires a.refreshedAt <= n < |log| && rules.fits(a.challenge, a.tx.solution)
    requires ChallengeAt(rules, log, a.refreshedAt) == a.challenge
    requires ChallengeAt(rules, log, n) != a.challenge
    ensures !(log[n].Won? && log[n].tx == a.tx)
  {
    if log[n].Won? && log[n].tx == a.tx {
      assert Admissible(rules, log, n, log[n]);
      SeenLater(rules, log, n);
      SeenLater(rules, log, a.refreshedAt);
    }
  }

  lemma {:induction false} PaidStopsAtRotation(rules: Rules, log: seq<Event>, a: Attempt, from: nat, n: nat)
    requires Lawful(rules, log) && OneChallengeOnly(rules, log, a.tx.solution)
    requires a.refreshedAt <= from <= n <= |log| && rules.fits(a.challenge, a.tx.solution)
    requires ChallengeAt(rules, log, a.refreshedAt) == a.challenge
    requires ChallengeAt(rules, log, from) != a.challenge
    ensures PaidBy(log, n, a.tx) == PaidBy(log, from, a.tx)
  {
    hide Lawful, OneChallengeOnly, ChallengeAt;
    if from < n {
      PaidStopsAtRotation(rules, log, a, from, n - 1);
      RotatedChallengeIsGone(rules, log, a.refreshedAt, from, n - 1);
      NeverPaidAfterRotation(rules, log, a, n - 1);
    }
  }

  /**
   * The verdict "lost race" is exact. However the chain goes on, the claim is
   * paid if and only if it was applied in the gap between the two readings;
   * outside that gap a claim judged lost credits nothing, ever.
   */
  lemma LostRaceIsExact(rules: Rules, log: seq<Event>, recipient: Account, a: Attempt)
    requires Lawful(rules, log) && rules.prize > 0 && NeverSpends(log, recipient)
    requires Observed(rules, log, recipient, a) && OneChallengeOnly(rules, log, a.tx.solution) && a.fate.Lost?
    ensures PaidBy(log, |log|, a.tx) == if LandedBetween(log, a) then 1 else 0
  {
    UnchangedMeansUnpaid(rules, log, recipient, a, a.fate.balanceAt);
    PaidStopsAtRotation(rules, log, a, a.fate.challengeAt, |log|);
    PaidAtMostOnce(rules, log, |log|, a.tx);
  }

  /**
   * A credited claim was paid exactly once, and between the baseline and the
   * reading that proved it nothing else changed the recipient's balance.
   */
  lemma CreditIsExact(rules: Rules, log: seq<Event>, recipient: Account, a: Attempt, n: nat)
    requires Lawful(rules, log) && rules.prize > 0 && NeverSpends(log, recipient)
    requires Observed(rules, log, recipient, a) && OneChallengeOnly(rules, log, a.tx.solution) && a.fate.Credited?
    requires a.baselineAt <= n <= a.fate.balanceAt
    ensures PaidBy(log, |log|, a.tx) == 1
    ensures BalanceAt(rules, log, n, recipient) == a.before + PaidBy(log, n, a.tx) * rules.prize
  {
    hide Lawful, OneChallengeOnly, ChallengeAt, BalanceAt, PaidBy, NeverSpends;
    var end := a.fate.balanceAt;
    PaidGrows(log, a.fate.includedAt, end, a.tx);
    PaidGrows(log, end, |log|, a.tx);
    PaidAtMostOnce(rules, log, |log|, a.tx);
    UnchangedMeansUnpaid(rules, log, recipient, a, a.baselineAt);
    PrizesAreGained(rules, log, a.baselineAt, n, a.tx);
    PrizesAreGained(rules, log, n, end, a.tx);
    PaidAtMostOnce(rules, log, n, a.tx);
  }

  // ---- one drop ------------------------------------------------------------------------

  // Distinct attempts submit distinct claims: the first one's challenge was
  // gone before the second one solved its own.
  lemma ClaimsDiffer(rules: Rules, log: seq<Event>, recipient: Account, attempts: seq<Attempt>, i: nat, j: nat)
    requires Assumptions(rules, log, recipient, attempts) && DropTrace(rules, log, recipient, attempts)
    requires i < j < |attempts|
    ensures attempts[i].tx != attempts[j].tx
  {
    var a, b := attempts[i], attempts[j];
    ReadingsAreOrdered(rules, log, recipient, attempts, i, j);
    assert Observed(rules, log, recipient, a) && Observed(rules, log, recipient, b);
    assert OneChallengeOnly(rules, log, b.tx.solution);
    RotatedChallengeIsGone(rules, log, a.refreshedAt, LostAt(a), b.refreshedAt);
    SeenLater(rules, log, a.refreshedAt);
    SeenLater(rules, log, b.refreshedAt);
  }

  lemma {:induction false} ReadingsAreOrdered(rules: Rules, log: seq<Event>, recipient: Account,
                                              attempts: seq<Attempt>, i: nat, j: nat)
    requires DropTrace(rules, log, recipient, attempts) && i < j < |attempts|
    ensures attempts[i].fate.Lost? && LostAt(attempts[i]) <= attempts[j].refreshedAt
  {
    assert Follows(attempts, j);
    if i < j - 1 {
      ReadingsAreOrdered(rules, log, recipient, attempts, i, j - 1);
      assert Observed(rules, log, recipient, attempts[j - 1]);
    }
  }

  // The payments of all the claims the first n attempts submitted.
  ghost function Credits(log: seq<Event>, attempts: seq<Attempt>, n: nat): nat
    requires n <= |attempts|
  {
    if n == 0 then 0 else Credits(log, attempts, n - 1) + PaidBy(log, |log|, attempts[n - 1].tx)
  }

  // The lost races among the first n attempts whose claim landed in the gap.
  ghost function Landed(log: seq<Event>, attempts: seq<Attempt>, n: nat): nat
    requires n <= |attempts|
  {
    if n == 0 then 0 else Landed(log, attempts, n - 1) + if LandedBetween(log, attempts[n - 1]) then 1 else 0
  }

  lemma {:induction false} LostCreditsAreLandings(rules: Rules, log: seq<Event>, recipient: Account,
                                                  attempts: seq<Attempt>, n: nat)
    requires Assumptions(rules, log, recipient, attempts) && DropTrace(rules, log, recipient, attempts)
    requires n <= |attempts| && forall i | 0 <= i < n :: attempts[i].fate.Lost?
    ensures Credits(log, attempts, n) == Landed(log, attempts, n)
  {
    hide Lawful, OneChallengeOnly, Observed, LandedBetween, NeverSpends;
    if n > 0 {
      LostCreditsAreLandings(rules, log, recipient, attempts, n - 1);
      assert Observed(rules, log, recipient, attempts[n - 1]);
      assert OneChallengeOnly(rules, log, attempts[n - 1].tx.solution);
      LostRaceIsExact(rules, log, recipient, attempts[n - 1]);
    }
  }

  lemma EarlierAttemptsLost(rules: Rules, log: seq<Event>, recipient: Account, attempts: seq<Attempt>)
    requires DropTrace(rules, log, recipient, attempts)
    ensures forall i | 0 <= i < |attempts| - 1 :: attempts[i].fate.Lost?
  {
    forall i | 0 <= i < |attempts| - 1
      ensures attempts[i].fate.Lost?
    {
      assert Follows(attempts, i + 1);
    }
  }

  /**
   * Conservation: however often one drop retried and however long the chain
   * runs on, the credits it caused are one for each lost race that landed in
   * the gap between its two readings, plus at most one for the last attempt.
   */
  lemma {:induction false} CreditsOfOneDrop(rules: Rules, log: seq<Event>, recipient: Account, attempts: seq<Attempt>)
    requires Assumptions(rules, log, recipient, attempts) && DropTrace(rules, log, recipient, attempts)
    ensures Landed(log, attempts, |attempts|) <= Credits(log, attempts, |attempts|) <= Landed(log, attempts,
         |attempts|) + 1
    ensures attempts != [] && !attempts[|attempts| - 1].fate.Lost? ==>
              Credits(log, attempts, |attempts|)
              == Landed(log, attempts, |attempts|) + PaidBy(log, |log|, attempts[|attempts| - 1].tx)
    ensures attempts == [] || attempts[|attempts| - 1].fate.Lost? ==>
              Credits(log, attempts, |attempts|) == Landed(log, attempts, |attempts|)
  {
    hide Lawful, OneChallengeOnly, NeverSpends, PaidBy;
    EarlierAttemptsLost(rules, log, recipient, attempts);
    if attempts != [] {
      var n := |attempts| - 1;
      LostCreditsAreLandings(rules, log, recipient, attempts, n);
      assert OneChallengeOnly(rules, log, attempts[n].tx.solution);
      PaidAtMostOnce(rules, log, |log|, attempts[n].tx);
      if attempts[n].fate.Lost? {
        LostCreditsAreLandings(rules, log, recipient, attempts, n + 1);
      }
    }
  }

  /**
   * One press, one prize. When no claim of the drop landed in a gap, the drop
   * causes at most one credit, and a drop whose last attempt was judged
   * credited caused exactly one.
   */
  lemma {:induction false} AtMostOneCredit(rules: Rules, log: seq<Event>, recipient: Account, attempts: seq<Attempt>)
    requires Assumptions(rules, log, recipient, attempts) && DropTrace(rules, log, recipient, attempts)
    requires Landed(log, attempts, |attempts|) == 0
    ensures Credits(log, attempts, |attempts|) <= 1
    ensures attempts != [] && attempts[|attempts| - 1].fate.Credited? ==> Credits(log, attempts, |attempts|) == 1
    ensures attempts == [] || attempts[|attempts| - 1].fate.Lost? ==> Credits(log, attempts, |attempts|) == 0
  {
    CreditsOfOneDrop(rules, log, recipient, attempts);
    if attempts != [] && attempts[|attempts| - 1].fate.Credited? {
      var a := attempts[|attempts| - 1];
      assert Observed(rules, log, recipient, a) && OneChallengeOnly(rules, log, a.tx.solution);
      CreditIsExact(rules, log, recipient, a, a.baselineAt);
    }
  }

  // No claim of anybody was applied between the two readings.
  ghost predicate QuietGap(log: seq<Event>, a: Attempt) {
    a.fate.Lost? && a.fate.balanceAt <= a.fate.challengeAt <= |log| ==>
      forall k | a.fate.balanceAt <= k < a.fate.challengeAt :: !log[k].Won?
  }

  lemma {:induction false} NothingPaidMeanwhile(log: seq<Event>, from: nat, n: nat, tx: Tx)
    requires from <= n <= |log| && forall k | from <= k < n :: !log[k].Won?
    ensures PaidBy(log, n, tx) == PaidBy(log, from, tx)
  {
    if from < n {
      NothingPaidMeanwhile(log, from, n - 1, tx);
    }
  }

  // If no block with a claim falls between a round's balance reading and its
  // challenge reading, no claim of the drop lands there.
  lemma {:induction false} QuietGapsNeverLand(log: seq<Event>, attempts: seq<Attempt>, n: nat)
    requires n <= |attempts| && forall a <- attempts :: QuietGap(log, a)
    ensures Landed(log, attempts, n) == 0
  {
    if n > 0 {
      QuietGapsNeverLand(log, attempts, n - 1);
      var a := attempts[n - 1];
      assert QuietGap(log, a);
      if LandedBetween(log, a) {
        NothingPaidMeanwhile(log, a.fate.balanceAt, a.fate.challengeAt, a.tx);
      }
    }
  }

  // What was read stays read: whatever was observed on a log was observed on
  // every later one.
  lemma ObservedSurvivesGrowth(rules: Rules, log: seq<Event>, later: seq<Event>, recipient: Account, a: Attempt)
    requires Extends(log, later) && Observed(rules, log, recipient, a)
    ensures Observed(rules, later, recipient, a)
  {
    hide ChallengeAt, BalanceAt, PaidBy;
    SamePast(rules, log, later, a.anchoredAt, recipient, a.tx);
    SamePast(rules, log, later, a.refreshedAt, recipient, a.tx);
    SamePast(rules, log, later, a.baselineAt, recipient, a.tx);
    if a.fate.Lost? {
      SamePast(rules, log, later, a.fate.balanceAt, recipient, a.tx);
      SamePast(rules, log, later, a.fate.challengeAt, recipient, a.tx);
    } else if a.fate.Credited? {
      SamePast(rules, log, later, a.fate.includedAt, recipient, a.tx);
      SamePast(rules, log, later, a.fate.balanceAt, recipient, a.tx);
    }
  }

  lemma TraceSurvivesGrowth(rules: Rules, log: seq<Event>, later: seq<Event>, recipient: Account,
    attempts: seq<Attempt>)
    requires Extends(log, later) && DropTrace(rules, log, recipient, attempts)
    ensures DropTrace(rules, later, recipient, attempts)
  {
    hide Observed;
    forall i | 0 <= i < |attempts|
      ensures Observed(rules, later, recipient, attempts[i])
    {
      ObservedSurvivesGrowth(rules, log, later, recipient, attempts[i]);
    }
  }

  // ---- why the assumptions are needed ---------------------------------------------------

  const ALICE: Account := "alice"
  const BOB: Account := "bob"

  function Toy(fits: (Challenge, nat) -> bool): Rules {
    Rules(1, Challenge(1, ""), account => 0, fits)
  }

  // A proof of work in which every challenge has its own solution.
  const STRICT: (Challenge, nat) -> bool := (challenge: Challenge, solution: nat) => solution == |challenge.seed|

  // What a difficulty of zero does: everything is a solution.
  const LAX: (Challenge, nat) -> bool := (challenge: Challenge, solution: nat) => true

  const FIRST := Tx(ALICE, 0)
  const SECOND := Tx(ALICE, 1)
  const RIVAL := Tx(BOB, 2)

  // The challenges of these toy chains have seeds of different lengths.
  lemma ToySeeds(log: seq<Event>)
    requires forall i | 0 <= i < |log| && log[i].Won? :: log[i].next in {Challenge(1, "a"), Challenge(1, "aa")}
    ensures OneChallengeOnly(Toy(STRICT), log, 0) && OneChallengeOnly(Toy(STRICT), log, 1)
  {
    forall c | SeenBy(Toy(STRICT), log, |log|, c)
      ensures c in {Challenge(1, ""), Challenge(1, "a"), Challenge(1, "aa")}
    {
    }
  }

  /**
   * The gap is real. The first claim lands after the balance reading and
   * before the challenge reading, is judged lost, and the retry is paid too:
   * two credits, with every other assumption in place.
   */
  lemma GapPaysTwice()
    ensures exists log, attempts ::
              && Assumptions(Toy(STRICT), log, ALICE, attempts) && DropTrace(Toy(STRICT), log, ALICE, attempts)
              && Credits(log, attempts, |attempts|) == 2
  {
    var rules := Toy(STRICT);
    var log := [Won(FIRST, Challenge(1, "a")), Won(SECOND, Challenge(1, "aa"))];
    var one := Attempt(FIRST, Challenge(1, ""), 0, 0, 0, 0, 0, Lost(0, 1));
    var two := Attempt(SECOND, Challenge(1, "a"), 1, 1, 1, 1, 1, Credited(2, 2));
    var attempts := [one, two];
    assert ChallengeAt(rules, log, 0) == one.challenge && ChallengeAt(rules, log, 1) == two.challenge;
    assert BalanceAt(rules, log, 1, ALICE) == 1 && BalanceAt(rules, log, 2, ALICE) == 2;
    assert PaidBy(log, 1, SECOND) == PaidBy(log, 0, SECOND);
    assert PaidBy(log, 1, FIRST) == PaidBy(log, 0, FIRST) + 1;
    assert PaidBy(log, 2, FIRST) == 1 && PaidBy(log, 2, SECOND) == 1;
    assert Observed(rules, log, ALICE, one) && Observed(rules, log, ALICE, two);
    ToySeeds(log);
    assert Follows(attempts, 1);
    assert Credits(log, attempts, 2) == Credits(log, attempts, 1) + PaidBy(log, 2, SECOND);
    assert Assumptions(rules, log, ALICE, attempts) && DropTrace(rules, log, ALICE, attempts);
  }

  /**
   * The recipient must not spend. The first claim is paid, the prize is spent
   * before the balance is read, and the claim is judged lost because the
   * balance looks untouched: the retry is paid as well, though nothing landed
   * in a gap and every other assumption holds.
   */
  lemma SpendingPaysTwice()
    ensures exists log: seq<Event>, attempts: seq<Attempt> ::
              && Lawful(Toy(STRICT), log) && Toy(STRICT).prize > 0 && DropTrace(Toy(STRICT), log, ALICE, attempts)
              && (forall i | 0 <= i < |attempts| :: OneChallengeOnly(Toy(STRICT), log, attempts[i].tx.solution))
              && Landed(log, attempts, |attempts|) == 0 && Credits(log, attempts, |attempts|) == 2
  {
    var rules := Toy(STRICT);
    var log := [Won(FIRST, Challenge(1, "a")), Spent(ALICE, 1), Won(SECOND, Challenge(1, "aa"))];
    var one := Attempt(FIRST, Challenge(1, ""), 0, 0, 0, 0, 0, Lost(2, 2));
    var two := Attempt(SECOND, Challenge(1, "a"), 0, 2, 2, 2, 2, Credited(3, 3));
    var attempts := [one, two];
    assert BalanceAt(rules, log, 1, ALICE) == 1 && BalanceAt(rules, log, 2, ALICE) == 0;
    assert BalanceAt(rules, log, 3, ALICE) == 1;
    assert ChallengeAt(rules, log, 1) == ChallengeAt(rules, log, 2) == two.challenge;
    assert PaidBy(log, 1, FIRST) == 1 && PaidBy(log, 2, FIRST) == 1 && PaidBy(log, 3, FIRST) == 1;
    assert PaidBy(log, 2, SECOND) == PaidBy(log, 1, SECOND) == 0 && PaidBy(log, 3, SECOND) == 1;
    assert Observed(rules, log, ALICE, one) && Observed(rules, log, ALICE, two);
    assert Follows(attempts, 1);
    ToySeeds(log);
    assert Admissible(rules, log, 0, log[0]) && Admissible(rules, log, 1, log[1]) && Admissible(rules, log, 2, log[2]);
    assert Credits(log, attempts, 2) == Credits(log, attempts, 1) + PaidBy(log, 3, SECOND);
    assert Credits(log, attempts, 1) == Credits(log, attempts, 0) + PaidBy(log, 3, FIRST);
    assert Landed(log, attempts, 2) == Landed(log, attempts, 1) == Landed(log, attempts, 0);
    assert Lawful(rules, log) && DropTrace(rules, log, ALICE, attempts);
    assert Credits(log, attempts, 2) == 2 && Landed(log, attempts, 2) == 0;
    assert forall i | 0 <= i < |attempts| :: OneChallengeOnly(rules, log, attempts[i].tx.solution);
  }

  /**
   * At difficulty zero a lost claim is not dead. A rival wins the race, the
   * first claim is rightly judged lost, and both it and the retry are paid
   * afterwards. No claim landed in a gap, and of the assumptions only that no
   * two challenges accept one claim is missing.
   */
  lemma ZeroDifficultyPaysTwice()
    ensures exists log, attempts ::
              && Lawful(Toy(LAX), log) && Toy(LAX).prize > 0 && NeverSpends(log, ALICE)
              && DropTrace(Toy(LAX), log, ALICE, attempts)
              && Landed(log, attempts, |attempts|) == 0 && Credits(log, attempts, |attempts|) == 2
  {
    var rules := Toy(LAX);
    var log := [Won(RIVAL, Challenge(0, "a")), Won(FIRST, Challenge(0, "aa")), Won(SECOND, Challenge(0, "aaa"))];
    var one := Attempt(FIRST, Challenge(1, ""), 0, 0, 0, 0, 0, Lost(1, 1));
    var two := Attempt(SECOND, Challenge(0, "a"), 0, 1, 1, 1, 1, Undecided);
    var attempts := [one, two];
    assert ChallengeAt(rules, log, 0) == one.challenge && ChallengeAt(rules, log, 1) == two.challenge;
    assert BalanceAt(rules, log, 0, ALICE) == 0 && BalanceAt(rules, log, 1, ALICE) == 0;
    assert PaidBy(log, 1, FIRST) == PaidBy(log, 0, FIRST);
    assert PaidBy(log, 2, FIRST) == 1 && PaidBy(log, 3, FIRST) == 1;
    assert PaidBy(log, 1, SECOND) == PaidBy(log, 0, SECOND);
    assert PaidBy(log, 2, SECOND) == 0 && PaidBy(log, 3, SECOND) == 1;
    assert Observed(rules, log, ALICE, one) && Observed(rules, log, ALICE, two);
    assert Follows(attempts, 1);
    assert Credits(log, attempts, 2) == Credits(log, attempts, 1) + PaidBy(log, 3, SECOND);
    assert Landed(log, attempts, 2) == Landed(log, attempts, 1) == Landed(log, attempts, 0);
    assert forall n | 0 <= n < |log| :: Admissible(rules, log, n, log[n]);
    assert Lawful(rules, log);
    assert NeverSpends(log, ALICE);
    assert Landed(log, attempts, 2) == 0;
    assert PaidBy(log, 3, FIRST) == 1;
    assert Credits(log, attempts, 1) == Credits(log, attempts, 0) + PaidBy(log, 3, FIRST);
    assert Credits(log, attempts, 2) == 2;
    assert DropTrace(rules, log, ALICE, attempts);
  }
}
