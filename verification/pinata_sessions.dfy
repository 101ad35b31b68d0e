/**
 * All the presses of one session on one chain
 * (lez-faucet-ffi/src/client.rs:862-905, 992-1198).
 *
 * Sessions says which drops run, PinataDrops what one drop may send, and
 * PinataClaims what its claims can be paid. Here they meet: what a recipient
 * is paid over every key and every press of the process.
 */
module PinataSessions {
  import opened Wrappers
  import opened PinataChain
  import opened PinataClaims
  import opened PinataRuns
  import opened PinataDrops
  import S = Sessions

  // ---- the order of the runs -----------------------------------------------------------

  predicate IsUnknown(s: S.System, i: nat)
    requires i < |s.runs|
  {
    s.runs[i].key in s.shared.ledger
    && s.shared.ledger[s.runs[i].key].outcome == Some(S.Refused(S.OutcomeUnknown))
  }

  // Whoever can still record an outcome is the last run.
  predicate LiveIsLast(s: S.System, c: nat)
    requires c in s.callers
  {
    s.callers[c].place.Running? || s.callers[c].place.Recording? ==>
      s.runs != [] && s.callers[c].key == s.runs[|s.runs| - 1].key
  }

  // No run follows one for the same recipient whose outcome is unknown.
  ghost predicate UnknownIsLast(s: S.System) {
    forall i, j | 0 <= i < j < |s.runs| && s.runs[i].account == s.runs[j].account :: !IsUnknown(s, i)
  }

  ghost predicate InOrder(s: S.System) {
    UnknownIsLast(s) && forall c: nat | c in s.callers :: LiveIsLast(s, c)
  }

  lemma ApplyKeepsLive(s: S.System, step: S.Step, c: nat)
    requires S.Inv(s) && InOrder(s) && c in S.Apply(s, step).callers
    ensures LiveIsLast(S.Apply(s, step), c)
  {
    hide S.RunsInv, S.UnknownsInv, S.Relies, UnknownIsLast, S.Replayed;
    if c in s.callers {
      assert LiveIsLast(s, c);
      if c != step.id && step.id in s.callers {
        assert !(S.HoldsIn(s, c) && S.HoldsIn(s, step.id));
      }
    }
  }

  lemma ApplyKeepsUnknownLast(s: S.System, step: S.Step)
    requires S.Inv(s) && InOrder(s)
    ensures UnknownIsLast(S.Apply(s, step))
  {
    hide S.PermitInv, S.Replayed;
    if step.id in s.callers {
      assert S.Relies(s.shared, s.callers[step.id]) && LiveIsLast(s, step.id);
    }
    var t := S.Apply(s, step);
    forall i, j | 0 <= i < j < |t.runs| && t.runs[i].account == t.runs[j].account
      ensures !IsUnknown(t, i)
    {
      assert i < |s.runs| && t.runs[i] == s.runs[i];
      if j < |s.runs| {
        assert !IsUnknown(s, i);
      }
    }
  }

  lemma {:induction false} RunKeepsOrder(steps: seq<S.Step>)
    ensures S.Inv(S.Run(S.START, steps)) && InOrder(S.Run(S.START, steps))
    decreases |steps|
  {
    hide S.Apply, S.Inv, UnknownIsLast, LiveIsLast;
    if steps == [] {
      StartIsInOrder();
    } else {
      var before, step := S.Run(S.START, steps[..|steps| - 1]), steps[|steps| - 1];
      RunKeepsOrder(steps[..|steps| - 1]);
      S.ApplyKeeps(before, step);
      ApplyKeepsUnknownLast(before, step);
      forall c: nat | c in S.Apply(before, step).callers ensures LiveIsLast(S.Apply(before, step), c) {
        ApplyKeepsLive(before, step, c);
      }
    }
  }

  lemma StartIsInOrder()
    ensures S.Inv(S.START) && InOrder(S.START)
  {
  }

  // ---- the presses -----------------------------------------------------------------------

  // What one run sent; its outcome counts once the ledger has it.
  datatype Press = Press(attempts: seq<Attempt>, outcome: Outcome)

  function Recorded(s: S.System, i: nat): Option<S.Reply>
    requires i < |s.runs|
  {
    var key := s.runs[i].key;
    if key in s.shared.ledger then s.shared.ledger[key].outcome else None
  }

  predicate Matches(reply: S.Reply, outcome: Outcome) {
    && (reply.Granted? <==> outcome.Receipt?)
    && (reply == S.Refused(S.OutcomeUnknown) <==> outcome == Failed(OutcomeUnknown))
  }

  // Each run was a drop: finished as the ledger says, or cut short.
  ghost predicate PressOk(rules: Rules, log: seq<Event>, s: S.System, i: nat, press: Press)
    requires i < |s.runs|
  {
    && DropTrace(rules, log, s.runs[i].account, press.attempts)
    && (Recorded(s, i).Some? ==>
          EndsAs(press.outcome, press.attempts, rules.prize) && Matches(Recorded(s, i).value, press.outcome))
  }

  ghost predicate Backed(rules: Rules, log: seq<Event>, s: S.System, presses: seq<Press>) {
    && |presses| == |s.runs|
    && forall i | 0 <= i < |presses| :: PressOk(rules, log, s, i, presses[i])
  }

  // The press sent a claim that nothing it read has decided.
  predicate Outstanding(press: Press) {
    press.attempts != [] && press.attempts[|press.attempts| - 1].fate.Undecided?
  }

  // The run has no outcome and nobody is left to record one.
  predicate LeftOpen(s: S.System, i: nat)
    requires i < |s.runs|
  {
    && Recorded(s, i).None?
    && forall c: nat | c in s.callers && s.callers[c].key == s.runs[i].key ::
         !s.callers[c].place.Running? && !s.callers[c].place.Recording?
  }

  /**
   * Over all presses and all keys, at most one claim of a recipient is
   * outstanding, unless a running drop was abandoned: of two presses with an
   * outstanding claim for one recipient, the earlier was cut short before its
   * outcome was recorded.
   */
  lemma OneOutstandingUnlessAbandoned(rules: Rules, log: seq<Event>, s: S.System, presses: seq<Press>, i: nat, j: nat)
    requires S.Reachable(s) && Backed(rules, log, s, presses) && i < j < |presses|
    requires s.runs[i].account == s.runs[j].account && Outstanding(presses[i]) && Outstanding(presses[j])
    ensures LeftOpen(s, i)
  {
    hide S.Run, DropTrace, S.PermitInv, S.UnknownsInv, S.Relies;
    var steps :| s == S.Run(S.START, steps);
    RunKeepsOrder(steps);
    assert PressOk(rules, log, s, i, presses[i]) && !IsUnknown(s, i);
    forall c: nat | c in s.callers && s.callers[c].key == s.runs[i].key
      ensures !s.callers[c].place.Running? && !s.callers[c].place.Recording?
    {
      assert LiveIsLast(s, c);
      assert s.runs[i].key != s.runs[|s.runs| - 1].key;
    }
  }

  // ---- what a session pays -----------------------------------------------------------------

  // The payments of the claims of those of the first n runs that are meant.
  ghost function PaidTo(log: seq<Event>, s: S.System, presses: seq<Press>, mine: S.DropRun -> bool, n: nat): nat
    requires n <= |presses| == |s.runs|
  {
    if n == 0 then 0
    else
      PaidTo(log, s, presses, mine, n - 1)
      + if mine(s.runs[n - 1]) then Credits(log, presses[n - 1].attempts, |presses[n - 1].attempts|) else 0
  }

  // A recorded outcome under which nothing was credited.
  predicate IsClear(s: S.System, presses: seq<Press>, i: nat)
    requires i < |presses| == |s.runs|
  {
    && Recorded(s, i).Some? && presses[i].outcome.Failed?
    && presses[i].outcome.failure !in {SubmissionRejected, OutcomeUnknown}
  }

  // Of the first n runs that are meant, those with a receipt.
  ghost function Receipts(s: S.System, mine: S.DropRun -> bool, n: nat): nat
    requires n <= |s.runs|
  {
    if n == 0 then 0
    else
      var granted := mine(s.runs[n - 1]) && Recorded(s, n - 1).Some? && Recorded(s, n - 1).value.Granted?;
      Receipts(s, mine, n - 1) + if granted then 1 else 0
  }

  // And those that are not clear: a receipt, a rejection, an unknown outcome or
  // none yet.
  ghost function NotClear(s: S.System, presses: seq<Press>, mine: S.DropRun -> bool, n: nat): nat
    requires n <= |presses| == |s.runs|
  {
    if n == 0 then 0
    else
      NotClear(s, presses, mine, n - 1) + if mine(s.runs[n - 1]) && !IsClear(s, presses, n - 1) then 1 else 0
  }

  // The chain assumptions, and no claim landed between the readings of a round.
  ghost predicate Quiet(rules: Rules, log: seq<Event>, s: S.System, presses: seq<Press>)
    requires |presses| == |s.runs|
  {
    forall i | 0 <= i < |presses| :: IsQuiet(rules, log, s.runs[i].account, presses[i])
  }

  ghost predicate IsQuiet(rules: Rules, log: seq<Event>, account: Account, press: Press) {
    Assumptions(rules, log, account, press.attempts) && Landed(log, press.attempts, |press.attempts|) == 0
  }

  lemma OnePressPays(rules: Rules, log: seq<Event>, s: S.System, presses: seq<Press>, i: nat)
    requires Backed(rules, log, s, presses) && Quiet(rules, log, s, presses) && i < |presses|
    ensures var paid := Credits(log, presses[i].attempts, |presses[i].attempts|);
            && (Recorded(s, i).Some? && Recorded(s, i).value.Granted? ==> paid == 1)
            && (IsClear(s, presses, i) ==> paid == 0) && paid <= 1
  {
    hide DropTrace, Assumptions, Credits, Landed, EndsAs;
    var press, account := presses[i], s.runs[i].account;
    assert PressOk(rules, log, s, i, press) && IsQuiet(rules, log, account, press);
    AtMostOneCredit(rules, log, account, press.attempts);
    if Recorded(s, i).Some? {
      PressPaysWhatItSays(rules, log, log, account, press.outcome, press.attempts);
    }
  }

  /**
   * What the presses of one session are paid, in all and for any selection of
   * them: once for each receipt, and at most once for each press that is not
   * clear. A press that failed in any other way was paid nothing.
   */
  lemma {:induction false} SessionPays(rules: Rules, log: seq<Event>, s: S.System, presses: seq<Press>,
                                       mine: S.DropRun -> bool, n: nat)
    requires Backed(rules, log, s, presses) && Quiet(rules, log, s, presses) && n <= |presses|
    ensures Receipts(s, mine, n) <= PaidTo(log, s, presses, mine, n) <= NotClear(s, presses, mine, n)
  {
    hide Backed, Quiet, Credits, IsClear, Recorded;
    if n > 0 {
      SessionPays(rules, log, s, presses, mine, n - 1);
      OnePressPays(rules, log, s, presses, n - 1);
    }
  }

  // Nothing is meant, nothing is paid.
  lemma {:induction false} NobodyIsPaid(log: seq<Event>, s: S.System, presses: seq<Press>, mine: S.DropRun -> bool,
                                        n: nat)
    requires n <= |presses| == |s.runs| && forall i | 0 <= i < n :: !mine(s.runs[i])
    ensures PaidTo(log, s, presses, mine, n) == 0
  {
    if n > 0 {
      NobodyIsPaid(log, s, presses, mine, n - 1);
    }
  }

  /**
   * At most one claim on chain for a request key, and so for a key and an
   * account, for as long as the process lives and whatever its callers do.
   */
  lemma {:induction false} OneClaimPerKey(rules: Rules, log: seq<Event>, s: S.System, presses: seq<Press>,
                                          key: S.Key, n: nat)
    requires S.Reachable(s) && Backed(rules, log, s, presses) && Quiet(rules, log, s, presses) && n <= |presses|
    ensures PaidTo(log, s, presses, (run: S.DropRun) => run.key == key, n) <= 1
  {
    hide S.Reachable, PressOk, Quiet, Credits;
    var mine := (run: S.DropRun) => run.key == key;
    S.OneRunPerKey(s);
    if n > 0 {
      if mine(s.runs[n - 1]) {
        NobodyIsPaid(log, s, presses, mine, n - 1);
        OnePressPays(rules, log, s, presses, n - 1);
      } else {
        OneClaimPerKey(rules, log, s, presses, key, n - 1);
      }
    }
  }

  // Whatever the session goes on to do, two presses for one recipient never
  // both end with an unknown outcome.
  lemma OneUnknownPerRecipient(s: S.System, i: nat, j: nat)
    requires S.Reachable(s) && i < j < |s.runs| && s.runs[i].account == s.runs[j].account
    ensures Recorded(s, i) != Some(S.Refused(S.OutcomeUnknown))
  {
    hide S.Run, S.Inv;
    var steps :| s == S.Run(S.START, steps);
    RunKeepsOrder(steps);
    assert !IsUnknown(s, i);
  }

  // ---- why abandoning is excepted ---------------------------------------------------------

  lemma Reach(s: S.System, step: S.Step) returns (t: S.System)
    requires S.Reachable(s)
    ensures t == S.Apply(s, step) && S.Reachable(t)
  {
    hide S.Apply;
    t := S.Apply(s, step);
    var steps :| s == S.Run(S.START, steps);
    var longer := steps + [step];
    assert longer[..|longer| - 1] == steps;
    assert t == S.Run(S.START, longer);
  }

  // A caller of a new key that meets nobody starts its drop.
  lemma Starts(s: S.System, id: nat, key: S.Key, account: Account) returns (t: S.System)
    requires S.Reachable(s) && id !in s.callers && key !in s.shared.ledger && account !in s.shared.unreconciled
    requires !s.shared.dropActive && |s.shared.ledger| < S.MAX_RECORDS
    ensures S.Reachable(t) && t.runs == s.runs + [S.DropRun(key, account)]
    ensures t.shared.unreconciled == s.shared.unreconciled
    ensures t.shared.ledger == s.shared.ledger[key := S.Record(account, None)]
    ensures t.callers == s.callers[id := S.Caller(key, account, S.Running, true)]
  {
    hide S.Reachable;
    t := Reach(s, S.Arrive(id, key, account));
    t := Reach(t, S.Advance(id));
    t := Reach(t, S.Advance(id));
    t := Reach(t, S.Advance(id));
    t := Reach(t, S.Advance(id));
    t := Reach(t, S.Advance(id));
    assert t.callers[id].place.AtReserve? && t.callers == s.callers[id := t.callers[id]];
    t := Reach(t, S.Advance(id));
  }

  /**
   * A drop is abandoned while its claim is in flight, and a second press under
   * another key sends its own: two claims of one recipient are outstanding, and
   * both are paid.
   */
  lemma AbandonedDropLeavesTwo()
    ensures exists s, log, presses ::
              && S.Reachable(s) && Backed(Toy(STRICT), log, s, presses) && Quiet(Toy(STRICT), log, s, presses)
              && |presses| == 2 && s.runs[0].account == s.runs[1].account == ALICE && LeftOpen(s, 0)
              && Outstanding(presses[0]) && Outstanding(presses[1])
              && PaidTo(log, s, presses, (run: S.DropRun) => run.account == ALICE, 2) == 2
  {
    var s := TwoPresses();
    var rules, log := Toy(STRICT), [Won(FIRST, Challenge(1, "a")), Won(SECOND, Challenge(1, "aa"))];
    var one := Attempt(FIRST, Challenge(1, ""), 0, 0, 0, 0, 0, Undecided);
    var two := Attempt(SECOND, Challenge(1, "a"), 1, 1, 1, 1, 1, Undecided);
    var presses := [Press([one], Failed(OutcomeUnknown)), Press([two], Failed(OutcomeUnknown))];
    BothAreObserved(log, one, two);
    assert PressOk(rules, log, s, 0, presses[0]) && PressOk(rules, log, s, 1, presses[1]);
    assert Quiet(rules, log, s, presses);
    var mine := (run: S.DropRun) => run.account == ALICE;
    assert PaidTo(log, s, presses, mine, 1) == PaidTo(log, s, presses, mine, 0) + 1;
    assert PaidTo(log, s, presses, mine, 2) == 2;
  }

  lemma TwoPresses() returns (s: S.System)
    ensures S.Reachable(s) && s.runs == [S.DropRun("k1", ALICE), S.DropRun("k2", ALICE)]
    ensures Recorded(s, 0).None? && Recorded(s, 1).None? && LeftOpen(s, 0)
  {
    hide S.Run;
    assert S.START == S.Run(S.START, []) by { StartIsRun(); }
    s := Starts(S.START, 0, "k1", ALICE);
    s := Reach(s, S.Abandon(0));
    s := Starts(s, 1, "k2", ALICE);
  }

  lemma StartIsRun()
    ensures S.START == S.Run(S.START, [])
  {
  }

  lemma BothAreObserved(log: seq<Event>, one: Attempt, two: Attempt)
    requires log == [Won(FIRST, Challenge(1, "a")), Won(SECOND, Challenge(1, "aa"))]
    requires one == Attempt(FIRST, Challenge(1, ""), 0, 0, 0, 0, 0, Undecided)
    requires two == Attempt(SECOND, Challenge(1, "a"), 1, 1, 1, 1, 1, Undecided)
    ensures DropTrace(Toy(STRICT), log, ALICE, [one]) && DropTrace(Toy(STRICT), log, ALICE, [two])
    ensures IsQuiet(Toy(STRICT), log, ALICE, Press([one], Failed(OutcomeUnknown)))
    ensures IsQuiet(Toy(STRICT), log, ALICE, Press([two], Failed(OutcomeUnknown)))
    ensures Credits(log, [one], 1) == 1 && Credits(log, [two], 1) == 1
  {
    var rules := Toy(STRICT);
    assert ChallengeAt(rules, log, 0) == one.challenge && ChallengeAt(rules, log, 1) == two.challenge;
    assert BalanceAt(rules, log, 0, ALICE) == 0 && BalanceAt(rules, log, 1, ALICE) == 1;
    assert PaidBy(log, 1, FIRST) == PaidBy(log, 0, FIRST) + 1 && PaidBy(log, 1, SECOND) == PaidBy(log, 0, SECOND);
    assert PaidBy(log, 2, FIRST) == 1 && PaidBy(log, 2, SECOND) == 1;
    ToySeeds(log);
    assert Admissible(rules, log, 0, log[0]) && Admissible(rules, log, 1, log[1]);
    assert Credits(log, [one], 1) == Credits(log, [one], 0) + 1;
    assert Credits(log, [two], 1) == Credits(log, [two], 0) + 1;
    assert Landed(log, [one], 1) == Landed(log, [one], 0) && Landed(log, [two], 1) == Landed(log, [two], 0);
    assert Observed(rules, log, ALICE, one) && Observed(rules, log, ALICE, two);
  }
}
