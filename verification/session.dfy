/**
 * Concurrent callers of `request_drop` (lez-faucet-ffi/src/client.rs:866-992).
 *
 * Callers share the idempotency ledger, the set of unreconciled recipients and
 * the drop permit. Each lock or atomic is one step of the machine; between any
 * two steps of one caller the others may take any number of theirs, and a
 * running drop may be abandoned, which releases its permit but records nothing.
 */
module Sessions {
  import opened Wrappers

  type Key = string
  type Account = string

  const MAX_RECORDS: nat := 4096

  datatype Error =
    | IdempotencyConflict | DropInProgress | RecipientUnreconciled | JobLimitReached
    | OutcomeUnknown | Other(code: nat)

  datatype Reply = Granted(receipt: nat) | Refused(error: Error)

  // No outcome yet: reserved, and its drop is running or was abandoned.
  datatype Record = Record(account: Account, outcome: Option<Reply>)

  datatype Shared = Shared(ledger: map<Key, Record>, unreconciled: set<Account>, dropActive: bool)

  datatype Place =
    | AtReplay | AtEnsure | AtAcquire | AtReplayAgain | AtEnsureAgain | AtReserve
    | Running | Recording(outcome: Reply) | Releasing(reply: Reply) | Done(reply: Reply) | Abandoned

  datatype Caller = Caller(key: Key, account: Account, place: Place, ran: bool)

  datatype DropRun = DropRun(key: Key, account: Account)

  // The runs are those started so far, in order.
  datatype System = System(shared: Shared, callers: map<nat, Caller>, runs: seq<DropRun>)

  datatype Step =
    | Arrive(id: nat, key: Key, account: Account)
    | Advance(id: nat)
    | Finish(id: nat, outcome: Reply)
    | Abandon(id: nat)

  // ---- what each critical section does ----------------------------------------------

  // What the ledger answers to this key and account; None if the key is new.
  function Replayed(shared: Shared, key: Key, account: Account): Option<Reply> {
    if key !in shared.ledger then None
    else
      var record := shared.ledger[key];
      if record.account != account then Some(Refused(IdempotencyConflict))
      else if record.outcome.None? then Some(Refused(DropInProgress))
      else record.outcome
  }

  function Reserved(shared: Shared, key: Key, account: Account): Shared {
    shared.(ledger := shared.ledger[key := Record(account, None)])
  }

  function Recorded(shared: Shared, key: Key, outcome: Reply): Shared {
    if key !in shared.ledger then shared
    else shared.(ledger := shared.ledger[key := shared.ledger[key].(outcome := Some(outcome))])
  }

  function Marked(shared: Shared, account: Account): Shared {
    shared.(unreconciled := shared.unreconciled + {account})
  }

  // ---- the machine --------------------------------------------------------------------

  const START := System(Shared(map[], {}, false), map[], [])

  function MoveTo(s: System, id: nat, place: Place): System
    requires id in s.callers
  {
    s.(callers := s.callers[id := s.callers[id].(place := place)])
  }

  function Advanced(s: System, id: nat): System
    requires id in s.callers
  {
    var c := s.callers[id];
    match c.place
    case AtReplay =>
      var stored := Replayed(s.shared, c.key, c.account);
      MoveTo(s, id, if stored.Some? then Done(stored.value) else AtEnsure)
    case AtEnsure =>
      MoveTo(s, id, if c.account in s.shared.unreconciled then Done(Refused(RecipientUnreconciled)) else AtAcquire)
    case AtAcquire =>
      if s.shared.dropActive then MoveTo(s, id, Done(Refused(DropInProgress)))
      else MoveTo(s, id, AtReplayAgain).(shared := s.shared.(dropActive := true))
    case AtReplayAgain =>
      var stored := Replayed(s.shared, c.key, c.account);
      MoveTo(s, id, if stored.Some? then Releasing(stored.value) else AtEnsureAgain)
    case AtEnsureAgain =>
      MoveTo(s, id, if c.account in s.shared.unreconciled then Releasing(Refused(RecipientUnreconciled)) else AtReserve)
    case AtReserve =>
      if |s.shared.ledger| >= MAX_RECORDS then MoveTo(s, id, Releasing(Refused(JobLimitReached)))
      else System(Reserved(s.shared, c.key, c.account),
                  s.callers[id := Caller(c.key, c.account, Running, true)],
                  s.runs + [DropRun(c.key, c.account)])
    case Recording(outcome) =>
      MoveTo(s, id, Releasing(outcome)).(shared := Recorded(s.shared, c.key, outcome))
    case Releasing(reply) =>
      MoveTo(s, id, Done(reply)).(shared := s.shared.(dropActive := false))
    case Running => s
    case Done(_) => s
    case Abandoned => s
  }

  function Finished(s: System, id: nat, outcome: Reply): System
    requires id in s.callers && s.callers[id].place.Running?
  {
    var shared := if outcome == Refused(OutcomeUnknown) then Marked(s.shared, s.callers[id].account) else s.shared;
    MoveTo(s, id, Recording(outcome)).(shared := shared)
  }

  // A step that is not enabled changes nothing.
  function Apply(s: System, step: Step): System {
    match step
    case Arrive(id, key, account) =>
      if id in s.callers then s else s.(callers := s.callers[id := Caller(key, account, AtReplay, false)])
    case Advance(id) => if id in s.callers then Advanced(s, id) else s
    case Finish(id, outcome) =>
      if id in s.callers && s.callers[id].place.Running? then Finished(s, id, outcome) else s
    case Abandon(id) =>
      if id in s.callers && s.callers[id].place.Running?
      then MoveTo(s, id, Abandoned).(shared := s.shared.(dropActive := false))
      else s
  }

  function Run(s: System, steps: seq<Step>): System
    decreases |steps|
  {
    if steps == [] then s else Apply(Run(s, steps[..|steps| - 1]), steps[|steps| - 1])
  }

  // ---- invariant ------------------------------------------------------------------------

  predicate Holds(place: Place) {
    place.AtReplayAgain? || place.AtEnsureAgain? || place.AtReserve? || place.Running?
    || place.Recording? || place.Releasing?
  }

  predicate HoldsIn(s: System, id: nat) {
    id in s.callers && Holds(s.callers[id].place)
  }

  ghost predicate PermitInv(s: System) {
    && (forall i, j | HoldsIn(s, i) && HoldsIn(s, j) :: i == j)
    && (s.shared.dropActive <==> exists i :: HoldsIn(s, i))
  }

  // Every record belongs to exactly one run, and there are never too many.
  ghost predicate RunsInv(s: System) {
    && |s.runs| == |s.shared.ledger| <= MAX_RECORDS
    && (forall i | 0 <= i < |s.runs| ::
          s.runs[i].key in s.shared.ledger && s.shared.ledger[s.runs[i].key].account == s.runs[i].account)
    && (forall i, j | 0 <= i < j < |s.runs| :: s.runs[i].key != s.runs[j].key)
  }

  // What a caller may rely on where it stands.
  ghost predicate Relies(shared: Shared, c: Caller) {
    && (c.place.AtEnsureAgain? || c.place.AtReserve? ==> c.key !in shared.ledger)
    && (c.place.AtReserve? ==> c.account !in shared.unreconciled)
    && (c.place.Running? || c.place.Recording? ==>
          c.ran && c.key in shared.ledger && shared.ledger[c.key] == Record(c.account, None))
    && (c.place == Recording(Refused(OutcomeUnknown)) ==> c.account in shared.unreconciled)
    && (c.ran && (c.place.Releasing? || c.place.Done?) ==>
          c.key in shared.ledger && shared.ledger[c.key] == Record(c.account, Some(c.place.reply)))
    && (c.ran ==> c.place.Running? || c.place.Recording? || c.place.Releasing? || c.place.Done? || c.place.Abandoned?)
  }

  ghost predicate UnknownsInv(shared: Shared) {
    forall k | k in shared.ledger && shared.ledger[k].outcome == Some(Refused(OutcomeUnknown)) ::
      shared.ledger[k].account in shared.unreconciled
  }

  ghost predicate Inv(s: System) {
    && PermitInv(s) && RunsInv(s) && UnknownsInv(s.shared)
    && forall i | i in s.callers :: Relies(s.shared, s.callers[i])
  }

  // A step moves at most one caller, and it takes the permit, gives it back or
  // leaves it where it was.
  predicate Passes(s: System, t: System, id: nat) {
    && (HoldsIn(s, id) == HoldsIn(t, id) ==> t.shared.dropActive == s.shared.dropActive)
    && (!HoldsIn(s, id) && HoldsIn(t, id) ==> !s.shared.dropActive && t.shared.dropActive)
    && (HoldsIn(s, id) && !HoldsIn(t, id) ==> !t.shared.dropActive)
  }

  lemma ApplyPasses(s: System, step: Step)
    ensures Passes(s, Apply(s, step), step.id)
    ensures forall i | i != step.id :: HoldsIn(s, i) == HoldsIn(Apply(s, step), i)
  {
    hide Replayed;
  }

  lemma ApplyKeepsPermit(s: System, step: Step)
    requires PermitInv(s)
    ensures PermitInv(Apply(s, step))
  {
    hide Apply, Holds;
    ApplyPasses(s, step);
  }

  lemma ApplyKeepsRuns(s: System, step: Step)
    requires Inv(s)
    ensures RunsInv(Apply(s, step))
  {
    hide PermitInv, UnknownsInv;
    if step.id in s.callers {
      assert Relies(s.shared, s.callers[step.id]);
    }
  }

  lemma ApplyKeepsUnknowns(s: System, step: Step)
    requires Inv(s)
    ensures UnknownsInv(Apply(s, step).shared)
  {
    hide PermitInv, RunsInv;
    if step.id in s.callers {
      assert Relies(s.shared, s.callers[step.id]);
    }
  }

  lemma ApplyKeepsRelies(s: System, step: Step, i: nat)
    requires Inv(s) && i in Apply(s, step).callers
    ensures Relies(Apply(s, step).shared, Apply(s, step).callers[i])
  {
    hide RunsInv, UnknownsInv;
    if i in s.callers {
      assert Relies(s.shared, s.callers[i]);
      if i != step.id && step.id in s.callers {
        assert !(HoldsIn(s, i) && HoldsIn(s, step.id));
        assert Relies(s.shared, s.callers[step.id]);
      }
    }
  }

  lemma ApplyKeeps(s: System, step: Step)
    requires Inv(s)
    ensures Inv(Apply(s, step))
  {
    hide Apply, Relies, PermitInv, RunsInv, UnknownsInv;
    ApplyKeepsPermit(s, step);
    ApplyKeepsRuns(s, step);
    ApplyKeepsUnknowns(s, step);
    forall i | i in Apply(s, step).callers
      ensures Relies(Apply(s, step).shared, Apply(s, step).callers[i])
    {
      ApplyKeepsRelies(s, step, i);
    }
  }

  lemma {:induction false} RunKeeps(s: System, steps: seq<Step>)
    requires Inv(s)
    ensures Inv(Run(s, steps))
    decreases |steps|
  {
    hide Apply, Inv;
    if steps != [] {
      RunKeeps(s, steps[..|steps| - 1]);
      ApplyKeeps(Run(s, steps[..|steps| - 1]), steps[|steps| - 1]);
    }
  }

  // ---- what holds on every run -------------------------------------------------------------

  ghost predicate Reachable(s: System) {
    exists steps :: s == Run(START, steps)
  }

  lemma ReachableKeepsInv(s: System)
    requires Reachable(s)
    ensures Inv(s)
  {
    var steps :| s == Run(START, steps);
    RunKeeps(START, steps);
  }

  lemma {:induction false} RunComposes(s: System, steps: seq<Step>, more: seq<Step>)
    ensures Run(s, steps + more) == Run(Run(s, steps), more)
    decreases |more|
  {
    hide Apply;
    if more == [] {
      assert steps + more == steps;
    } else {
      RunComposes(s, steps, more[..|more| - 1]);
      assert (steps + more)[..|steps + more| - 1] == steps + more[..|more| - 1];
    }
  }

  // One live drop at a time, one run to a record, and never too many records.
  lemma AtMostOneLiveRun(s: System, i: nat, j: nat)
    requires Reachable(s) && i in s.callers && j in s.callers
    requires s.callers[i].place.Running? && s.callers[j].place.Running?
    ensures i == j && s.shared.dropActive
  {
    ReachableKeepsInv(s);
    assert HoldsIn(s, i) && HoldsIn(s, j);
  }

  lemma OneRunPerKey(s: System)
    requires Reachable(s)
    ensures |s.runs| == |s.shared.ledger| <= 4096
    ensures forall i, j | 0 <= i < j < |s.runs| :: s.runs[i].key != s.runs[j].key
    ensures forall i | 0 <= i < |s.runs| :: s.runs[i].key in s.shared.ledger
  {
    ReachableKeepsInv(s);
  }

  // The permit is out exactly while some caller is between taking it and
  // giving it back, so an idle session always has one to give.
  lemma PermitIsHeld(s: System)
    requires Reachable(s)
    ensures s.shared.dropActive <==> exists i :: HoldsIn(s, i)
  {
    ReachableKeepsInv(s);
  }

  // A caller whose drop ran was answered with what the ledger says.
  lemma RunsAnswerAsRecorded(s: System, i: nat)
    requires Reachable(s) && i in s.callers && s.callers[i].ran && s.callers[i].place.Done?
    ensures s.callers[i].key in s.shared.ledger
    ensures s.shared.ledger[s.callers[i].key] == Record(s.callers[i].account, Some(s.callers[i].place.reply))
  {
    ReachableKeepsInv(s);
    assert Relies(s.shared, s.callers[i]);
  }

  // Nothing recorded is ever forgotten or changed.
  ghost predicate Remembers(s: System, t: System) {
    && (forall k | k in s.shared.ledger ::
          && k in t.shared.ledger && t.shared.ledger[k].account == s.shared.ledger[k].account
          && (s.shared.ledger[k].outcome.Some? ==> t.shared.ledger[k] == s.shared.ledger[k]))
    && s.shared.unreconciled <= t.shared.unreconciled
  }

  lemma ApplyRemembers(s: System, step: Step)
    requires Inv(s)
    ensures Remembers(s, Apply(s, step))
  {
    hide PermitInv, RunsInv, UnknownsInv;
    if step.id in s.callers {
      assert Relies(s.shared, s.callers[step.id]);
    }
  }

  lemma {:induction false} LedgerNeverForgets(s: System, steps: seq<Step>)
    requires Inv(s)
    ensures Remembers(s, Run(s, steps))
    decreases |steps|
  {
    hide Apply, Inv;
    if steps != [] {
      var before := Run(s, steps[..|steps| - 1]);
      RunKeeps(s, steps[..|steps| - 1]);
      LedgerNeverForgets(s, steps[..|steps| - 1]);
      ApplyRemembers(before, steps[|steps| - 1]);
    }
  }

  // The runs t has beyond those of s are for recipients s had not given up on.
  ghost predicate RunsBeyond(s: System, t: System) {
    && |s.runs| <= |t.runs| && s.runs == t.runs[..|s.runs|]
    && forall i | |s.runs| <= i < |t.runs| :: t.runs[i].account !in s.shared.unreconciled
  }

  lemma ApplyStartsElsewhere(s: System, step: Step)
    requires Inv(s)
    ensures RunsBeyond(s, Apply(s, step))
  {
    hide PermitInv, RunsInv, UnknownsInv;
    if step.id in s.callers {
      assert Relies(s.shared, s.callers[step.id]);
    }
  }

  lemma {:induction false} NoRunForTheUnreconciled(s: System, steps: seq<Step>)
    requires Inv(s)
    ensures RunsBeyond(s, Run(s, steps))
    decreases |steps|
  {
    hide Apply, Inv, Remembers;
    if steps != [] {
      var before := Run(s, steps[..|steps| - 1]);
      RunKeeps(s, steps[..|steps| - 1]);
      NoRunForTheUnreconciled(s, steps[..|steps| - 1]);
      ApplyStartsElsewhere(before, steps[|steps| - 1]);
      LedgerNeverForgets(s, steps[..|steps| - 1]);
      assert s.shared.unreconciled <= before.shared.unreconciled by {
        assert Remembers(s, before);
        UnreconciledOnlyGrows(s, before);
      }
    }
  }

  lemma UnreconciledOnlyGrows(s: System, t: System)
    requires Remembers(s, t)
    ensures s.shared.unreconciled <= t.shared.unreconciled
  {
  }

  /**
   * After a drop for a recipient ended with an unknown outcome, no drop for
   * that recipient is started again, under any key, whatever the callers do.
   */
  lemma UnknownOutcomeFences(s: System, key: Key, steps: seq<Step>, i: nat)
    requires Reachable(s) && key in s.shared.ledger
    requires s.shared.ledger[key].outcome == Some(Refused(OutcomeUnknown))
    requires |s.runs| <= i < |Run(s, steps).runs|
    ensures Run(s, steps).runs[i].account != s.shared.ledger[key].account
  {
    hide Run;
    ReachableKeepsInv(s);
    NoRunForTheUnreconciled(s, steps);
  }

  // What a caller that came after the record is told: a conflict if it names
  // another account; otherwise the outcome, or that the drop is in progress if
  // there was none yet.
  predicate LateReply(before: Record, now: Record, account: Account, reply: Reply) {
    if account != before.account then reply == Refused(IdempotencyConflict)
    else if before.outcome.Some? then Some(reply) == before.outcome
    else reply == Refused(DropInProgress) || now.outcome == Some(reply)
  }

  // Callers of the key that arrived after s stand where they came in, or have
  // such an answer.
  ghost predicate AnsweredFrom(s: System, t: System, key: Key)
    requires key in s.shared.ledger
  {
    && key in t.shared.ledger
    && forall id: nat | id in t.callers && id !in s.callers && t.callers[id].key == key ::
         IsAnswered(t.callers[id], s.shared.ledger[key], t.shared.ledger[key])
  }

  predicate IsAnswered(c: Caller, before: Record, now: Record) {
    !c.ran && (c.place == AtReplay || (c.place.Done? && LateReply(before, now, c.account, c.place.reply)))
  }

  lemma ApplyAnswersOne(t: System, step: Step, id: nat, before: Record)
    requires id in Apply(t, step).callers && Apply(t, step).callers[id].key in t.shared.ledger
    requires var now := t.shared.ledger[Apply(t, step).callers[id].key];
             && now.account == before.account && (before.outcome.Some? ==> now == before)
             && (id in t.callers ==> IsAnswered(t.callers[id], before, now))
    requires Remembers(t, Apply(t, step))
    ensures var c := Apply(t, step).callers[id];
            c.key in Apply(t, step).shared.ledger && IsAnswered(c, before, Apply(t, step).shared.ledger[c.key])
  {
  }

  lemma ApplyAnswers(s: System, t: System, key: Key, step: Step)
    requires Inv(t) && key in s.shared.ledger
    requires Remembers(s, t) && AnsweredFrom(s, t, key)
    ensures AnsweredFrom(s, Apply(t, step), key)
  {
    hide Inv, Apply, IsAnswered;
    ApplyRemembers(t, step);
    var u := Apply(t, step);
    forall id: nat | id in u.callers && id !in s.callers && u.callers[id].key == key
      ensures IsAnswered(u.callers[id], s.shared.ledger[key], u.shared.ledger[key])
    {
      if id in t.callers {
        KeyIsKept(t, step, id);
      }
      ApplyAnswersOne(t, step, id, s.shared.ledger[key]);
    }
  }

  lemma KeyIsKept(s: System, step: Step, id: nat)
    requires id in s.callers
    ensures id in Apply(s, step).callers && Apply(s, step).callers[id].key == s.callers[id].key
    ensures Apply(s, step).callers[id].account == s.callers[id].account
  {
    hide Replayed;
  }

  /**
   * Once a key has a record, every later caller of it is answered from the
   * ledger: with a conflict if it names another account, with the outcome if
   * there is one, and otherwise that the drop is in progress, unless the
   * outcome came before it looked. No later state changes the answer.
   */
  lemma {:induction false} OutcomeIsReplayedForever(s: System, key: Key, steps: seq<Step>)
    requires Inv(s) && key in s.shared.ledger
    ensures AnsweredFrom(s, Run(s, steps), key)
    decreases |steps|
  {
    hide Apply, Inv, Remembers, IsAnswered;
    if steps != [] {
      var before := Run(s, steps[..|steps| - 1]);
      RunKeeps(s, steps[..|steps| - 1]);
      OutcomeIsReplayedForever(s, key, steps[..|steps| - 1]);
      LedgerNeverForgets(s, steps[..|steps| - 1]);
      ApplyAnswers(s, before, key, steps[|steps| - 1]);
    }
  }

  // ---- every refusal has a cause --------------------------------------------------------

  // Why a caller without a drop of its own is told this. Only "in progress" may
  // have a cause that has passed: the permit was out.
  predicate HasCause(shared: Shared, key: Key, account: Account, reply: Reply) {
    || (key in shared.ledger && shared.ledger[key] == Record(account, Some(reply)))
    || match reply
       case Refused(IdempotencyConflict) => key in shared.ledger && shared.ledger[key].account != account
       case Refused(RecipientUnreconciled) => account in shared.unreconciled
       case Refused(JobLimitReached) => |shared.ledger| >= 4096
       case Refused(DropInProgress) => true
       case _ => false
  }

  predicate CauseOk(shared: Shared, c: Caller) {
    !c.ran && (c.place.Releasing? || c.place.Done?) ==> HasCause(shared, c.key, c.account, c.place.reply)
  }

  lemma CauseStays(s: System, t: System, key: Key, account: Account, reply: Reply)
    requires Remembers(s, t) && |t.shared.ledger| >= |s.shared.ledger| && HasCause(s.shared, key, account, reply)
    ensures HasCause(t.shared, key, account, reply)
  {
  }

  // A caller's own step answers it for a cause.
  lemma CauseArises(s: System, id: nat)
    requires id in s.callers && Relies(s.shared, s.callers[id]) && !s.callers[id].ran
    requires !s.callers[id].place.Releasing? && !s.callers[id].place.Done?
    ensures var c := Advanced(s, id).callers[id];
            c.place.Releasing? || c.place.Done? ==> HasCause(s.shared, c.key, c.account, c.place.reply)
  {
  }

  lemma ApplyKeepsCause(s: System, step: Step, id: nat)
    requires id in Apply(s, step).callers && Remembers(s, Apply(s, step))
    requires |Apply(s, step).shared.ledger| >= |s.shared.ledger|
    requires id in s.callers ==> CauseOk(s.shared, s.callers[id]) && Relies(s.shared, s.callers[id])
    ensures CauseOk(Apply(s, step).shared, Apply(s, step).callers[id])
  {
    hide HasCause, Remembers, Replayed, Reserved, Recorded, Marked;
    var c := Apply(s, step).callers[id];
    if id in s.callers && step == Advance(id) && !s.callers[id].ran {
      if !s.callers[id].place.Releasing? && !s.callers[id].place.Done? {
        CauseArises(s, id);
      }
    }
    if !c.ran && (c.place.Releasing? || c.place.Done?) {
      CauseStays(s, Apply(s, step), c.key, c.account, c.place.reply);
    }
  }

  lemma LedgerOnlyGrows(s: System, step: Step)
    requires Inv(s)
    ensures |Apply(s, step).shared.ledger| >= |s.shared.ledger|
  {
    hide Replayed;
  }

  /**
   * A caller that ran no drop is answered for a cause that is there to see: the
   * recorded outcome, another account's key, an unreconciled recipient, a full
   * ledger, or a drop in progress.
   */
  lemma {:induction false} AnswersHaveCauses(steps: seq<Step>)
    ensures Inv(Run(START, steps))
    ensures var s := Run(START, steps); forall id: nat | id in s.callers :: CauseOk(s.shared, s.callers[id])
    decreases |steps|
  {
    hide Apply, CauseOk, Relies, PermitInv, RunsInv, UnknownsInv, Remembers;
    assert Reachable(Run(START, steps));
    ReachableKeepsInv(Run(START, steps));
    if steps != [] {
      var before, step := Run(START, steps[..|steps| - 1]), steps[|steps| - 1];
      AnswersHaveCauses(steps[..|steps| - 1]);
      forall id: nat | id in Apply(before, step).callers
        ensures CauseOk(Apply(before, step).shared, Apply(before, step).callers[id])
      {
        ApplyRemembers(before, step);
        LedgerOnlyGrows(before, step);
        ApplyKeepsCause(before, step, id);
      }
    }
  }
}
