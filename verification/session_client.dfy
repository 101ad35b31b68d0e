/**
 * `request_drop` itself, as the code takes its locks
 * (lez-faucet-ffi/src/client.rs:866-992).
 *
 * Each method below is one critical section. Between two of them Others lets
 * every other caller take any number of steps, so RequestDrop is proved to be
 * one caller of the machine in Sessions under every interleaving, and the
 * theorems about that machine hold of the states it passes through.
 */
module SessionClient {
  import opened Wrappers
  import opened Sessions

  ghost predicate Leads(s: System, t: System) {
    exists steps :: t == Run(s, steps)
  }

  lemma LeadsToItself(s: System)
    ensures Leads(s, s)
  {
    assert s == Run(s, []);
  }

  lemma LeadsOnward(s: System, t: System, step: Step)
    requires Leads(s, t)
    ensures Leads(s, Apply(t, step))
  {
    hide Apply;
    var steps :| t == Run(s, steps);
    var longer := steps + [step];
    assert longer[..|longer| - 1] == steps;
    assert Apply(t, step) == Run(s, longer);
  }

  lemma LeadsThrough(s: System, t: System, u: System)
    requires Leads(s, t) && Leads(t, u)
    ensures Leads(s, u)
  {
    var steps :| t == Run(s, steps);
    var more :| u == Run(t, more);
    RunComposes(s, steps, more);
  }

  lemma LeadsIsTransitive()
    ensures forall s, t, u | Leads(s, t) && Leads(t, u) :: Leads(s, u)
  {
    forall s, t, u | Leads(s, t) && Leads(t, u)
      ensures Leads(s, u)
    {
      LeadsThrough(s, t, u);
    }
  }

  lemma OneStep(s: System, step: Step)
    requires Leads(START, s)
    ensures Leads(START, Apply(s, step)) && Leads(s, Apply(s, step))
  {
    hide Apply, Leads;
    LeadsToItself(s);
    LeadsOnward(s, s, step);
    LeadsOnward(START, s, step);
  }

  // What was on record stays on record.
  lemma LedRemembers(s: System, t: System)
    requires Leads(START, s) && Leads(s, t)
    ensures Remembers(s, t)
  {
    hide Remembers, Inv;
    LedFromStart(s);
    ReachableKeepsInv(s);
    var steps :| t == Run(s, steps);
    LedgerNeverForgets(s, steps);
  }

  // A caller that was not there before is answered from the record of its key.
  lemma LedAnswers(s: System, t: System, key: Key, id: nat)
    requires Leads(START, s) && Leads(s, t) && key in s.shared.ledger && id !in s.callers
    requires id in t.callers && t.callers[id].key == key && t.callers[id].place.Done?
    ensures !t.callers[id].ran && key in t.shared.ledger
    ensures LateReply(s.shared.ledger[key], t.shared.ledger[key], t.callers[id].account, t.callers[id].place.reply)
  {
    hide Inv, LateReply;
    LedFromStart(s);
    ReachableKeepsInv(s);
    var steps :| t == Run(s, steps);
    OutcomeIsReplayedForever(s, key, steps);
    assert IsAnswered(t.callers[id], s.shared.ledger[key], t.shared.ledger[key]);
  }

  lemma LedHasCause(s: System, id: nat)
    requires Leads(START, s) && id in s.callers && s.callers[id].place.Done? && !s.callers[id].ran
    ensures HasCause(s.shared, s.callers[id].key, s.callers[id].account, s.callers[id].place.reply)
  {
    hide HasCause, Inv;
    var steps :| s == Run(START, steps);
    AnswersHaveCauses(steps);
    assert CauseOk(s.shared, s.callers[id]);
  }

  lemma LedFromStart(s: System)
    requires Leads(START, s)
    ensures Reachable(s)
  {
  }

  class Client {
    var ledger: map<Key, Record>
    var unreconciled: set<Account>
    var dropActive: bool
    // Where every thread stands, and the drops started so far.
    var callers: map<nat, Caller>
    var runs: seq<DropRun>
    // The callers that found the permit out.
    ghost var busy: set<nat>

    ghost function View(): System
      reads this
    {
      System(Shared(ledger, unreconciled, dropActive), callers, runs)
    }

    ghost predicate Valid()
      reads this
    {
      Leads(START, View())
    }

    constructor ()
      ensures Valid() && View() == START
    {
      ledger, unreconciled, dropActive := map[], {}, false;
      callers, runs, busy := map[], [], {};
      new;
      LeadsToItself(START);
    }

    method Others(me: nat)
      requires Valid() && me in callers
      modifies this
      ensures Valid() && Leads(old(View()), View())
      ensures me in callers && callers[me] == old(callers[me]) && busy == old(busy)
    {
      hide Apply, Leads;
      LeadsToItself(View());
      var steps: nat := *;
      while steps > 0
        invariant Valid() && Leads(old(View()), View())
        invariant me in callers && callers[me] == old(callers[me]) && busy == old(busy)
      {
        var step: Step := *;
        if step.id != me {
          var next := Apply(System(Shared(ledger, unreconciled, dropActive), callers, runs), step);
          OthersStayPut(View(), step, me);
          LeadsOnward(START, View(), step);
          LeadsOnward(old(View()), View(), step);
          ledger, unreconciled, dropActive := next.shared.ledger, next.shared.unreconciled, next.shared.dropActive;
          callers, runs := next.callers, next.runs;
        }
        steps := steps - 1;
      }
    }

    // The caller's first or second look at the ledger; None lets it go on.
    method Replay(id: nat) returns (stored: Option<Reply>)
      requires Valid() && id in callers && (callers[id].place.AtReplay? || callers[id].place.AtReplayAgain?)
      modifies this`callers
      ensures View() == Apply(old(View()), Advance(id))
      ensures Valid() && Leads(old(View()), View())
      ensures id in callers && callers[id] == old(callers[id]).(place := 
                match stored
                case None => if old(callers[id]).place.AtReplay? then AtEnsure else AtEnsureAgain
                case Some(reply) => if old(callers[id]).place.AtReplay? then Done(reply) else Releasing(reply))
      ensures stored.None? <==> callers[id].key !in ledger
      ensures stored.Some? ==>
                var record := ledger[callers[id].key];
                && (record.account != callers[id].account ==> stored.value == Refused(IdempotencyConflict))
                && (record.account == callers[id].account && record.outcome.None? ==>
                      stored.value == Refused(DropInProgress))
                && (record.account == callers[id].account && record.outcome.Some? ==> stored == record.outcome)
    {
      OneStep(View(), Advance(id));
      var me := callers[id];
      if me.key !in ledger {
        stored := None;
      } else if ledger[me.key].account != me.account {
        stored := Some(Refused(IdempotencyConflict));
      } else {
        match ledger[me.key].outcome
        case Some(outcome) => stored := Some(outcome);
        case None => stored := Some(Refused(DropInProgress));
      }
      var under := me.place.AtReplayAgain?;
      callers := callers[id := me.(place :=
        match stored
        case None => if under then AtEnsureAgain else AtEnsure
        case Some(reply) => if under then Releasing(reply) else Done(reply))];
    }

    // Membership in the unreconciled set, and nothing else, refuses here.
    method EnsureReconciled(id: nat) returns (ok: bool)
      requires Valid() && id in callers && (callers[id].place.AtEnsure? || callers[id].place.AtEnsureAgain?)
      modifies this`callers
      ensures View() == Apply(old(View()), Advance(id))
      ensures Valid() && Leads(old(View()), View())
      ensures id in callers && callers[id] == old(callers[id]).(place := 
                if old(callers[id]).place.AtEnsure?
                then (if ok then AtAcquire else Done(Refused(RecipientUnreconciled)))
                else (if ok then AtReserve else Releasing(Refused(RecipientUnreconciled))))
      ensures ok <==> callers[id].account !in unreconciled
    {
      OneStep(View(), Advance(id));
      var me := callers[id];
      ok := me.account !in unreconciled;
      var refusal := Refused(RecipientUnreconciled);
      callers := callers[id := me.(place :=
        if me.place.AtEnsure? then (if ok then AtAcquire else Done(refusal))
        else (if ok then AtReserve else Releasing(refusal)))];
    }

    method AcquirePermit(id: nat) returns (ok: bool)
      requires Valid() && id in callers && callers[id].place.AtAcquire?
      modifies this`callers, this`dropActive, this`busy
      ensures View() == Apply(old(View()), Advance(id))
      ensures Valid() && Leads(old(View()), View())
      ensures id in callers && callers[id] == old(callers[id]).(place := 
                if ok then AtReplayAgain else Done(Refused(DropInProgress)))
      ensures ok <==> !old(dropActive)
      ensures busy == old(busy) + if old(dropActive) then {id} else {}
    {
      OneStep(View(), Advance(id));
      var me := callers[id];
      ok := !dropActive;
      if ok {
        dropActive := true;
      } else {
        busy := busy + {id};
      }
      callers := callers[id := me.(place := if ok then AtReplayAgain else Done(Refused(DropInProgress)))];
    }

    // The key is taken before anything is submitted; a full ledger refuses
    // rather than forgets.
    method Reserve(id: nat) returns (ok: bool)
      requires Valid() && id in callers && callers[id].place.AtReserve?
      modifies this`callers, this`ledger, this`runs
      ensures View() == Apply(old(View()), Advance(id))
      ensures Valid() && Leads(old(View()), View())
      ensures id in callers && callers[id] == old(callers[id]).(place := 
                if ok then Running else Releasing(Refused(JobLimitReached)), ran := ok || old(callers[id]).ran)
      ensures ok <==> |old(ledger)| < 4096
    {
      OneStep(View(), Advance(id));
      var me := callers[id];
      if |ledger| >= MAX_RECORDS {
        callers := callers[id := me.(place := Releasing(Refused(JobLimitReached)))];
        return false;
      }
      ledger := ledger[me.key := Record(me.account, None)];
      callers := callers[id := Caller(me.key, me.account, Running, true)];
      runs := runs + [DropRun(me.key, me.account)];
      ok := true;
    }

    // The drop runs to its outcome. One that ends unknown has marked its
    // recipient before it returns.
    method RunDrop(id: nat) returns (outcome: Reply)
      requires Valid() && id in callers && callers[id].place.Running?
      modifies this`callers, this`unreconciled
      ensures View() == Apply(old(View()), Finish(id, outcome))
      ensures Valid() && Leads(old(View()), View())
      ensures id in callers && callers[id] == old(callers[id]).(place := Recording(outcome))
    {
      outcome := *;
      OneStep(View(), Finish(id, outcome));
      var me := callers[id];
      if outcome == Refused(OutcomeUnknown) {
        unreconciled := unreconciled + {me.account};
      }
      callers := callers[id := me.(place := Recording(outcome))];
    }

    method RecordOutcome(id: nat, outcome: Reply)
      requires Valid() && id in callers && callers[id].place == Recording(outcome)
      modifies this`callers, this`ledger
      ensures View() == Apply(old(View()), Advance(id))
      ensures Valid() && Leads(old(View()), View())
      ensures id in callers && callers[id] == old(callers[id]).(place := Releasing(outcome))
    {
      OneStep(View(), Advance(id));
      var me := callers[id];
      if me.key in ledger {
        ledger := ledger[me.key := ledger[me.key].(outcome := Some(outcome))];
      }
      callers := callers[id := me.(place := Releasing(outcome))];
    }

    method ReleasePermit(id: nat)
      requires Valid() && id in callers && callers[id].place.Releasing?
      modifies this`callers, this`dropActive
      ensures View() == Apply(old(View()), Advance(id))
      ensures Valid() && Leads(old(View()), View())
      ensures id in callers && callers[id] == old(callers[id]).(place := Done(old(callers[id]).place.reply))
    {
      OneStep(View(), Advance(id));
      var me := callers[id];
      dropActive := false;
      callers := callers[id := me.(place := Done(me.place.reply))];
    }

    method Begin(id: nat, key: Key, account: Account)
      requires Valid() && id !in callers
      modifies this`callers
      ensures View() == Apply(old(View()), Arrive(id, key, account))
      ensures Valid() && Leads(old(View()), View())
      ensures id in callers && callers[id] == Caller(key, account, AtReplay, false)
    {
      OneStep(View(), Arrive(id, key, account));
      callers := callers[id := Caller(key, account, AtReplay, false)];
    }

    // The key is on record for this account.
    ghost predicate OnRecord(key: Key, account: Account)
      reads this`ledger
    {
      key in ledger && ledger[key].account == account
    }

    /**
     * One call, with the other callers acting between any two of its steps,
     * along one of the machine's runs. If the key was on record before the
     * call, the answer is a conflict for another account, and for the same
     * account the outcome there was, the one that came meanwhile, or that the
     * drop is in progress. A call that ran a drop is answered with what the
     * ledger now keeps; one that did not, for a cause, and told that a drop is
     * in progress only if it found the permit out or its key on record.
     */
    method RequestDrop(id: nat, key: Key, account: Account) returns (reply: Reply)
      requires Valid() && id !in callers && id !in busy
      modifies this
      ensures Valid() && Leads(old(View()), View())
      ensures id in callers && callers[id].key == key && callers[id].account == account
      ensures callers[id].place == Done(reply)
      ensures key in old(ledger) && old(ledger)[key].account != account ==> reply == Refused(IdempotencyConflict)
      ensures key in old(ledger) && old(ledger)[key].account == account && old(ledger)[key].outcome.Some? ==>
                Some(reply) == old(ledger)[key].outcome
      ensures key in old(ledger) && old(ledger)[key].account == account && old(ledger)[key].outcome.None? ==>
                reply == Refused(DropInProgress) || (key in ledger && ledger[key].outcome == Some(reply))
      ensures key in old(ledger) ==> !callers[id].ran
      ensures callers[id].ran ==> key in ledger && ledger[key] == Record(account, Some(reply))
      ensures !callers[id].ran ==> HasCause(View().shared, key, account, reply)
      ensures !callers[id].ran && reply == Refused(DropInProgress) ==> id in busy || OnRecord(key, account)
    {
      hide Apply, Leads, Run, HasCause;
      LeadsIsTransitive();
      Begin(id, key, account);
      Others(id);
      reply := Proceed(id);
      LedFromStart(View());
      if callers[id].ran {
        RunsAnswerAsRecorded(View(), id);
      } else {
        LedHasCause(View(), id);
      }
      if key in old(ledger) {
        LedAnswers(old(View()), View(), key, id);
      }
    }

    // From the replay check on; the permit is given back on every way out.
    method Proceed(id: nat) returns (reply: Reply)
      requires Valid() && id in callers && callers[id].place.AtReplay? && !callers[id].ran
      modifies this
      ensures Valid() && Leads(old(View()), View())
      ensures id in callers && callers[id].key == old(callers[id].key)
           && callers[id].account == old(callers[id].account)
      ensures callers[id].place == Done(reply)
      ensures !callers[id].ran && reply == Refused(DropInProgress) ==>
                id in busy || OnRecord(callers[id].key, callers[id].account)
    {
      hide Apply, Leads, Run;
      LeadsIsTransitive();
      var stored := Replay(id);
      if stored.Some? { return stored.value; }
      Others(id);
      var ok := EnsureReconciled(id);
      if !ok { return Refused(RecipientUnreconciled); }
      Others(id);
      ok := AcquirePermit(id);
      if !ok { return Refused(DropInProgress); }
      Others(id);
      reply := UnderPermit(id);
      GiveBack(id);
    }

    // A reply that is owed survives the others and the return of the permit.
    method GiveBack(id: nat)
      requires Valid() && id in callers && callers[id].place.Releasing?
      modifies this
      ensures Valid() && Leads(old(View()), View()) && id in callers && busy == old(busy)
      ensures callers[id] == old(callers[id]).(place := Done(old(callers[id]).place.reply))
      ensures old(OnRecord(callers[id].key, callers[id].account)) ==> OnRecord(callers[id].key, callers[id].account)
    {
      hide Apply, Leads, Run;
      LeadsIsTransitive();
      Others(id);
      ReleasePermit(id);
      LedRemembers(old(View()), View());
    }

    method UnderPermit(id: nat) returns (reply: Reply)
      requires Valid() && id in callers && callers[id].place.AtReplayAgain? && !callers[id].ran
      modifies this
      ensures Valid() && Leads(old(View()), View())
      ensures id in callers && callers[id].key == old(callers[id].key)
           && callers[id].account == old(callers[id].account)
      ensures callers[id].place == Releasing(reply)
      ensures !callers[id].ran && reply == Refused(DropInProgress) ==>
                OnRecord(callers[id].key, callers[id].account)
    {
      hide Apply, Leads, Run;
      LeadsIsTransitive();
      var stored := Replay(id);
      if stored.Some? { return stored.value; }
      Others(id);
      var ok := EnsureReconciled(id);
      if !ok { return Refused(RecipientUnreconciled); }
      Others(id);
      ok := Reserve(id);
      if !ok { return Refused(JobLimitReached); }
      Others(id);
      reply := RunDrop(id);
      Others(id);
      RecordOutcome(id, reply);
    }
  }

  lemma OthersStayPut(s: System, step: Step, me: nat)
    requires me in s.callers && step.id != me
    ensures me in Apply(s, step).callers && Apply(s, step).callers[me] == s.callers[me]
  {
  }
}
