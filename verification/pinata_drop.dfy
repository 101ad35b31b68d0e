/**
 * The proof-of-work drop, from request to verdict (lez-faucet-ffi/src/client.rs).
 *
 * Sequencer stands for everything outside the client: each reading may fail,
 * and before each one any number of other participants may have acted. The
 * verdicts of the client are proved about the log that results, and the
 * theorems of PinataClaims say what that log, and every later one, paid.
 */
module PinataDrops {
  import opened Wrappers
  import opened PinataChain
  import opened PinataClaims
  import opened PinataRuns
  import opened Reconciliation
  import opened Polling
  import ExactU128

  class Sequencer {
    const rules: Rules
    var log: seq<Event>
    var visible: nat
    var clock: nat
    ghost var sent: seq<Tx>
    ghost var sentAt: int
    ghost var calls: seq<Call>

    constructor (rules: Rules)
      ensures Valid() && this.rules == rules && log == [] && clock == 0 && sent == [] && calls == []
    {
      this.rules := rules;
      log, visible, clock, sent, sentAt, calls := [], 0, 0, [], 0, [];
    }

    ghost predicate Valid()
      reads this
    {
      visible <= |log| && Lawful(rules, log)
    }

    // Others act and time passes. The index may fall behind the state, never
    // run ahead of it.
    method Elapse()
      requires Valid()
      modifies this
      ensures Valid() && Extends(old(log), log)
      ensures old(visible) <= visible && old(clock) <= clock && calls == old(calls)
      ensures sent == old(sent) && sentAt == old(sentAt)
    {
      var events: nat := *;
      while events > 0
        invariant Valid() && Extends(old(log), log)
        invariant visible == old(visible) && clock == old(clock) && calls == old(calls)
        invariant sent == old(sent) && sentAt == old(sentAt)
      {
        var event: Event := *;
        if Admissible(rules, log, |log|, event) {
          AdmissibleKeepsLawful(rules, log, event);
          log := log + [event];
        }
        events := events - 1;
      }
      var indexed: nat := *;
      if visible <= indexed <= |log| {
        visible := indexed;
      }
      var passed: int := *;
      if passed > 0 {
        clock := clock + passed;
      }
    }

    method Sleep(span: nat)
      requires Valid()
      modifies this
      ensures Valid() && Extends(old(log), log) && clock >= old(clock) + span && sent == old(sent)
      ensures sentAt == old(sentAt) && calls == old(calls)
    {
      Elapse();
      clock := clock + span;
    }

    // Whether the index knows the transaction; None when it could not be asked.
    method GetTransaction(tx: Tx) returns (found: Option<bool>)
      requires Valid()
      modifies this
      ensures Valid() && Extends(old(log), log) && old(clock) <= clock
      ensures sent == old(sent) && sentAt == old(sentAt)
      ensures found.Some? ==> found.value == (PaidBy(log, visible, tx) > 0)
      ensures calls == old(calls) + [Looked(tx, found)]
    {
      Elapse();
      var answered: bool := *;
      found := if answered then Some(PaidBy(log, visible, tx) > 0) else None;
      calls := calls + [Looked(tx, found)];
    }

    method GetAccount(id: Account) returns (reading: Option<(Eligibility, nat)>)
      requires Valid()
      modifies this
      ensures Valid() && Extends(old(log), log) && old(clock) <= clock
      ensures sent == old(sent) && sentAt == old(sentAt)
      ensures reading.Some? ==> reading.value.1 == BalanceAt(rules, log, |log|, id)
      ensures calls == old(calls) + [ReadAccount(id, reading)]
    {
      Elapse();
      BalanceNeverNegative(rules, log, |log|, id);
      var answered: bool := *;
      var eligibility: Eligibility := *;
      var held: nat := BalanceAt(rules, log, |log|, id);
      reading := if answered then Some((eligibility, held)) else None;
      calls := calls + [ReadAccount(id, reading)];
    }

    // The pool's balance and its current challenge.
    method GetPinata() returns (reading: Option<(nat, Challenge)>)
      requires Valid()
      modifies this
      ensures Valid() && Extends(old(log), log) && old(clock) <= clock
      ensures sent == old(sent) && sentAt == old(sentAt)
      ensures reading.Some? ==> reading.value.1 == ChallengeAt(rules, log, |log|)
      ensures calls == old(calls) + [ReadPinata(reading)]
    {
      Elapse();
      var answered: bool := *;
      var pool: nat := *;
      reading := if answered then Some((pool, ChallengeAt(rules, log, |log|))) else None;
      calls := calls + [ReadPinata(reading)];
    }

    // The programs the sequencer runs are the ones this build was made for.
    method VerifyFingerprint() returns (ok: bool)
      requires Valid()
      modifies this
      ensures Valid() && Extends(old(log), log) && sent == old(sent) && calls == old(calls) + [Verified(ok)]
    {
      Elapse();
      ok := *;
      calls := calls + [Verified(ok)];
    }

    method SendTransaction(tx: Tx) returns (reply: Submission)
      requires Valid()
      modifies this
      ensures Valid() && Extends(old(log), log) && sent == old(sent) + [tx]
      ensures sentAt == clock >= old(clock)
      ensures calls == old(calls) + [Submitted(tx, reply)]
    {
      Elapse();
      sent, sentAt := sent + [tx], clock;
      reply := *;
      calls := calls + [Submitted(tx, reply)];
    }
  }

  datatype Policy = Policy(pollInterval: nat, reconciliationDeadline: nat, maxStaleRetries: nat)

  // What the steps before a submission came to.
  datatype Preparation =
    | Ready(challenge: Challenge, solution: nat)
    | Retry(before: nat)
    | Stop(failure: Failure)

  // What one attempt came to.
  datatype Turn = Finished(outcome: Outcome) | Again(before: nat, submitted: bool)

  datatype Verdict = ProvenCredit | ProvenLoss | Unproven

  // The transactions the attempts handed in, in order.
  ghost function Claims(attempts: seq<Attempt>): seq<Tx> {
    if attempts == [] then [] else Claims(attempts[..|attempts| - 1]) + [attempts[|attempts| - 1].tx]
  }

  ghost predicate AllLost(attempts: seq<Attempt>) {
    forall a <- attempts :: a.fate.Lost?
  }

  lemma NothingSentYet(rules: Rules, log: seq<Event>, recipient: Account)
    ensures DropTrace(rules, log, recipient, []) && AllLost([]) && Claims([]) == []
  {
  }

  lemma ExtendsItself(log: seq<Event>)
    ensures Extends(log, log)
  {
  }

  // Readings taken after the submission that prove its fate.
  lemma CreditIsObserved(rules: Rules, log: seq<Event>, recipient: Account, a: Attempt, includedAt: nat, balanceAt: nat)
    requires Observed(rules, log, recipient, a) && a.sentAt <= includedAt <= balanceAt <= |log|
    requires PaidBy(log, includedAt, a.tx) > 0
    requires BalanceAt(rules, log, balanceAt, recipient) == a.before + rules.prize
    ensures Observed(rules, log, recipient, a.(fate := PinataClaims.Credited(includedAt, balanceAt)))
  {
  }

  lemma LossIsObserved(rules: Rules, log: seq<Event>, recipient: Account, a: Attempt, balanceAt: nat)
    requires Observed(rules, log, recipient, a) && a.sentAt <= balanceAt <= |log|
    requires BalanceAt(rules, log, balanceAt, recipient) == a.before
    requires ChallengeAt(rules, log, |log|) != a.challenge
    ensures Observed(rules, log, recipient, a.(fate := Lost(balanceAt, |log|)))
  {
  }

  lemma LostEndsAs(why: Failure, attempts: seq<Attempt>, prize: nat)
    requires AllLost(attempts) && why !in {SubmissionRejected, OutcomeUnknown}
    ensures EndsAs(Failed(why), attempts, prize)
  {
  }

  lemma LostInThePast(rules: Rules, log: seq<Event>, recipient: Account, attempts: seq<Attempt>)
    requires DropTrace(rules, log, recipient, attempts) && AllLost(attempts)
    ensures forall a <- attempts :: LostAt(a) <= |log|
  {
    forall a <- attempts
      ensures LostAt(a) <= |log|
    {
      var i :| 0 <= i < |attempts| && attempts[i] == a;
      assert Observed(rules, log, recipient, attempts[i]);
    }
  }

  lemma TraceGrows(rules: Rules, log: seq<Event>, later: seq<Event>, recipient: Account,
                   attempts: seq<Attempt>, next: Attempt)
    requires Extends(log, later) && DropTrace(rules, log, recipient, attempts) && AllLost(attempts)
    requires forall a <- attempts :: LostAt(a) <= next.refreshedAt
    requires Observed(rules, later, recipient, next)
    ensures DropTrace(rules, later, recipient, attempts + [next])
  {
    hide Observed;
    TraceSurvivesGrowth(rules, log, later, recipient, attempts);
    var longer := attempts + [next];
    forall i | 0 < i < |longer|
      ensures Follows(longer, i)
    {
      assert longer[i - 1] in attempts;
      if i < |attempts| {
        assert Follows(attempts, i);
      }
    }
  }

  // The balance an attempt starts from was read at this point of the log.
  ghost predicate Anchored(rules: Rules, log: seq<Event>, at: nat, recipient: Account, before: nat) {
    at <= |log| && BalanceAt(rules, log, at, recipient) == before
  }

  lemma StaysAnchored(rules: Rules, log: seq<Event>, later: seq<Event>, at: nat, recipient: Account, before: nat)
    requires Extends(log, later) && Anchored(rules, log, at, recipient, before)
    ensures Anchored(rules, later, at, recipient, before)
  {
    SamePast(rules, log, later, at, recipient, Tx(recipient, 0));
  }

  lemma ClaimsCount(attempts: seq<Attempt>)
    ensures |Claims(attempts)| == |attempts|
  {
    if attempts != [] {
      ClaimsCount(attempts[..|attempts| - 1]);
    }
  }

  // What one more attempt does to the claims and to the end of the drop.
  lemma OneMoreAttempt(earlier: seq<Attempt>, last: Attempt, prize: nat, retries: nat)
    ensures Claims(earlier + [last]) == Claims(earlier) + [last.tx]
    ensures AllLost(earlier) && last.fate.Lost? ==> AllLost(earlier + [last])
    ensures last.fate.Refused? ==> EndsAs(Failed(SubmissionRejected), earlier + [last], prize)
    ensures last.fate.Undecided? ==> EndsAs(Failed(OutcomeUnknown), earlier + [last], prize)
    ensures last.fate.Credited? ==>
              EndsAs(Receipt(last.before, last.before + prize, last.tx, retries), earlier + [last], prize)
  {
    var longer := earlier + [last];
    assert longer[..|longer| - 1] == earlier;
  }

  // Every gate was passed before the solve, and all but the difficulty once
  // more after it: programs, pool and challenge, eligibility and baseline.
  ghost predicate GatesPassed(before: seq<Call>, after: seq<Call>, recipient: Account, baseline: nat,
                              challenge: Challenge, solution: nat, prize: nat) {
    exists first, second | prize <= first && prize <= second ::
      after == before + [ReadPinata(Some((first, challenge))), Solved(challenge, Some(solution)), Verified(true),
                         ReadPinata(Some((second, challenge))), ReadAccount(recipient, Some((Eligible, baseline)))]
  }

  // A retry without a submission has a reason: the challenge moved during the
  // solve, or the baseline did, and then the new one is what was read.
  ghost predicate RetryIsDue(calls: seq<Call>, recipient: Account, baseline: nat, next: nat, prize: nat) {
    calls != [] &&
    var last := calls[|calls| - 1];
    if next == baseline then last.ReadPinata? && last.state.Some?
    else last == ReadAccount(recipient, Some((Eligible, next))) && next + prize <= ExactU128.MAX
  }

  // A drop that stops was given the reason it reports.
  ghost predicate StopIsDue(calls: seq<Call>, failure: Failure, recipient: Account, prize: nat, cancelSeen: bool) {
    if failure.Cancelled? then cancelSeen
    else if failure.OutcomeUnknown? || failure.StaleChallengeExhausted? then true
    else
      calls != [] &&
      var last := calls[|calls| - 1];
      match failure
      case WrongPrograms => last == Verified(false)
      case Unreadable => last == ReadAccount(recipient, None) || last == ReadPinata(None)
      case NotEligible(why) => !why.Eligible? && last.ReadAccount? && last.reading.Some? && last.reading.value.0 == why
      case BalanceOverflow => last.ReadAccount? && last.reading.Some? && last.reading.value.1 + prize > ExactU128.MAX
      case UnsupportedDifficulty =>
        last.ReadPinata? && last.state.Some? && last.state.value.1.difficulty > 3
      case PoolDepleted => last.ReadPinata? && last.state.Some? && last.state.value.0 < prize
      case NoSolution => last.Solved? && last.solution.None?
      case ClaimNotBuilt => last == Built(false)
      case SubmissionRejected => last.Submitted? && last.reply.Rejected?
      case _ => true
  }

  // One round asked for the transaction, then the balance, then the challenge,
  // and saw what it was answered.
  ghost predicate AskedInOrder(before: seq<Call>, after: seq<Call>, recipient: Account, tx: Tx,
                               submitted: Challenge, seen: Observation) {
    exists account: Option<(Eligibility, nat)>, pinata: Option<(nat, Challenge)> ::
      && after == before + [Looked(tx, seen.included), ReadAccount(recipient, account), ReadPinata(pinata)]
      && seen.balance == (if account.Some? then Some(account.value.1) else None)
      && seen.rotated == (if pinata.Some? then Some(pinata.value.1 != submitted) else None)
  }

  // These two speak of more than the last call.
  lemma NoReasonNeeded(calls: seq<Call>, recipient: Account, prize: nat, cancelSeen: bool)
    ensures StopIsDue(calls, OutcomeUnknown, recipient, prize, cancelSeen)
    ensures StopIsDue(calls, StaleChallengeExhausted, recipient, prize, cancelSeen)
  {
  }

  // The last round about this claim proved neither a credit nor a loss, and
  // either the balance was one the claim cannot explain or the time was over.
  ghost predicate LeftOpen(calls: seq<Call>, recipient: Account, a: Attempt, prize: nat, over: bool) {
    exists prior, seen ::
      && AskedInOrder(prior, calls, recipient, a.tx, a.challenge, seen)
      && !ShowsCredit(a.before, prize, seen) && !ShowsLoss(a.before, seen)
      && (over || ShowsForeignChange(a.before, prize, seen))
  }

  class Client {
    const node: Sequencer
    const policy: Policy
    var unreconciled: set<Account>
    // Whether a cancellation was ever seen, and how many solves succeeded.
    ghost var cancelSeen: bool
    ghost var solves: nat
    // The drop as a machine, and every answer it has heard.
    ghost var config: Config
    ghost var heard: seq<Call>

    constructor (node: Sequencer, policy: Policy)
      ensures this.node == node && this.policy == policy && unreconciled == {}
    {
      this.node, this.policy := node, policy;
      unreconciled, cancelSeen, solves := {}, false, 0;
      config, heard := Config(node.rules, "", policy.maxStaleRetries), [];
    }

    // Where the answers so far have led.
    ghost function Now(): Progress
      reads this`config, this`heard
    {
      After(config, heard)
    }

    ghost method Hear(call: Call)
      modifies this`heard
      ensures heard == old(heard) + [call] && Now() == Next(config, old(Now()), call)
    {
      heard := OneMore(config, heard, call);
    }

    // Another thread may ask to cancel at any moment, and a later request for
    // another operation takes the mark away again.
    method IsCancelled() returns (cancelled: bool)
      modifies this`cancelSeen, this`heard
      ensures cancelSeen == (old(cancelSeen) || cancelled)
      ensures Now() == Next(config, old(Now()), Cancelling(cancelled))
    {
      cancelled := *;
      cancelSeen := cancelSeen || cancelled;
      Hear(Cancelling(cancelled));
    }

    // A free stopping point exists only while nothing has been submitted.
    method MustStop(submitted: bool) returns (stop: bool)
      requires Now().place.FreeStop? && Now().submitted == submitted
      modifies this`cancelSeen, this`heard
      ensures stop ==> !submitted && cancelSeen
      ensures Now() == if stop then Fail(old(Now()), Cancelled) else old(Now()).(place := old(Now()).place.next)
    {
      var cancelled := IsCancelled();
      stop := !submitted && cancelled;
    }

    // The scan for a solution, batch by batch: it ends with one that fits, or
    // was cancelled, timed out or used up its budget. Before each batch it asks
    // for a cancellation, and it does not ask whether anything was submitted.
    method Solve(challenge: Challenge) returns (r: Preparation)
      requires Now().place == Batch(challenge) && config.rules == node.rules
      modifies this`cancelSeen, this`solves, this`heard, node`calls
      ensures r.Ready? ==>
                && r.challenge == challenge && node.rules.fits(challenge, r.solution)
                && node.calls == old(node.calls) + [Solved(challenge, Some(r.solution))] && solves == old(solves) + 1
      ensures !r.Retry? && (r.Stop? ==> r.failure in {Cancelled, NoSolution})
      ensures r.Stop? ==> solves == old(solves)
      ensures r == Stop(Cancelled) ==> cancelSeen
      ensures r == Stop(NoSolution) ==> node.calls == old(node.calls) + [Solved(challenge, None)]
      ensures Now() == if r.Ready? then old(Now()).(place := FreeStop(CheckAgain(challenge, r.solution)))
                       else Fail(old(Now()), r.failure)
    {
      hide Run;
      var batches: nat := *;
      while batches > 0
        invariant Now() == old(Now()) && solves == old(solves) && node.calls == old(node.calls)
      {
        var cancelled := IsCancelled();
        if cancelled { return Stop(Cancelled); }
        var solution: nat := *;
        if node.rules.fits(challenge, solution) {
          node.calls := node.calls + [Solved(challenge, Some(solution))];
          solves := solves + 1;
          Hear(Solved(challenge, Some(solution)));
          return Ready(challenge, solution);
        }
        Hear(Scanned);
        batches := batches - 1;
      }
      node.calls := node.calls + [Solved(challenge, None)];
      Hear(Solved(challenge, None));
      r := Stop(NoSolution);
    }

    // Encoding the claim may fail; nothing is sent then.
    method BuildClaim(recipient: Account, solution: nat) returns (tx: Option<Tx>)
      requires Now().place.Encode? && Now().place.solution == solution && config.recipient == recipient
      modifies node`calls, this`heard
      ensures Now() == if tx.Some?
                       then old(Now()).(place := Send(old(Now()).place.challenge, tx.value), submitted := true)
                       else Fail(old(Now()).(submitted := true), ClaimNotBuilt)
      ensures node.calls == old(node.calls) + [Built(tx.Some?)]
      ensures tx.Some? ==> tx.value == Tx(recipient, solution)
      ensures tx.None? ==> StopIsDue(node.calls, ClaimNotBuilt, recipient, node.rules.prize, cancelSeen)
    {
      var encodes: bool := *;
      tx := if encodes then Some(Tx(recipient, solution)) else None;
      node.calls := node.calls + [Built(encodes)];
      Hear(Built(encodes));
    }

    method InspectRecipient(recipient: Account)
      returns (balance: nat, failure: Option<Failure>, ghost reading: Option<(Eligibility, nat)>)
      requires node.Valid()
      modifies node, this`heard
      ensures node.Valid() && Extends(old(node.log), node.log) && node.sent == old(node.sent)
      ensures failure == Ineligible(reading)
      ensures failure.None? ==>
                && balance == reading.value.1 == BalanceAt(node.rules, node.log, |node.log|, recipient)
                && node.calls == old(node.calls) + [ReadAccount(recipient, Some((Eligible, balance)))]
      ensures failure.Some? ==> StopIsDue(node.calls, failure.value, recipient, node.rules.prize, cancelSeen)
      ensures Now() == Next(config, old(Now()), ReadAccount(recipient, reading))
    {
      hide Run, Next;
      var answer := node.GetAccount(recipient);
      Hear(ReadAccount(recipient, answer));
      reading := answer;
      match answer
      case None => balance, failure := 0, Some(Unreadable);
      case Some((Eligible, held)) => balance, failure := held, None;
      case Some((why, held)) => balance, failure := held, Some(NotEligible(why));
    }

    // One read of the pool, with the gates every use of it goes through.
    method ReadPool()
      returns (pool: nat, challenge: Challenge, failure: Option<Failure>, ghost reading: Option<(nat, Challenge)>)
      requires node.Valid()
      modifies node, this`heard
      ensures node.Valid() && Extends(old(node.log), node.log) && node.sent == old(node.sent)
      ensures failure.None? ==>
                && challenge == ChallengeAt(node.rules, node.log, |node.log|) && reading == Some((pool, challenge))
                && node.calls == old(node.calls) + [ReadPinata(Some((pool, challenge)))]
      ensures failure.Some? ==>
                failure.value == Unreadable && node.calls == old(node.calls) + [ReadPinata(None)] && reading.None?
      ensures Now() == Next(config, old(Now()), ReadPinata(reading))
    {
      hide Run, Next;
      var answer := node.GetPinata();
      Hear(ReadPinata(answer));
      reading := answer;
      match answer
      case None => pool, challenge, failure := 0, Challenge(0, ""), Some(Unreadable);
      case Some((balance, current)) => pool, challenge, failure := balance, current, None;
    }

    method VerifyPrograms() returns (ok: bool)
      requires node.Valid()
      modifies node, this`heard
      ensures node.Valid() && Extends(old(node.log), node.log) && node.sent == old(node.sent)
      ensures node.calls == old(node.calls) + [Verified(ok)]
      ensures Now() == Next(config, old(Now()), Verified(ok))
    {
      hide Run, Next;
      ok := node.VerifyFingerprint();
      Hear(Verified(ok));
    }

    // The checks before the first attempt, and the first baseline.
    method OpenDrop(recipient: Account) returns (before: nat, failure: Option<Failure>)
      requires node.Valid() && Now() == START && config.rules == node.rules
      modifies node, this`cancelSeen, this`heard
      ensures Now() == if failure.None? then START.(place := FreeStop(Fetch), before := before)
                       else Fail(START, failure.value)
      ensures node.Valid() && Extends(old(node.log), node.log) && node.sent == old(node.sent)
      ensures failure.None? ==>
                && Anchored(node.rules, node.log, |node.log|, recipient, before)
                && before + node.rules.prize <= ExactU128.MAX
                && node.calls == old(node.calls) + [Verified(true), ReadAccount(recipient, Some((Eligible, before)))]
      ensures failure.Some? ==> failure.value !in {SubmissionRejected, OutcomeUnknown, StaleChallengeExhausted}
      ensures failure.Some? ==> StopIsDue(node.calls, failure.value, recipient, node.rules.prize, cancelSeen)
    {
      hide ChallengeAt, BalanceAt, PaidBy, Lawful, Run, Now, After;
      var stop := MustStop(false);
      if stop { return 0, Some(Cancelled); }
      var verified := VerifyPrograms();
      if !verified { return 0, Some(WrongPrograms); }
      stop := MustStop(false);
      if stop { return 0, Some(Cancelled); }
      ghost var reading;
      before, failure, reading := InspectRecipient(recipient);
      if failure.None? && before + node.rules.prize > ExactU128.MAX {
        failure := Some(BalanceOverflow);
      }
    }

    // Everything between the start of an attempt and its submission. Each gate
    // is passed again after the solve.
    method Prepare(recipient: Account, before: nat, submitted: bool)
      returns (r: Preparation, ghost refreshedAt: nat)
      requires node.Valid() && config.rules == node.rules
      requires Now().place == FreeStop(Fetch) && Now().submitted == submitted && Now().before == before
      modifies node, this`cancelSeen, this`solves, this`heard
      ensures Now() == match r
                       case Ready(challenge, solution) => old(Now()).(place := Encode(challenge, solution))
                       case Retry(current) => TryAgain(config, old(Now()), current)
                       case Stop(why) => Fail(old(Now()), why)
      ensures node.Valid() && Extends(old(node.log), node.log) && node.sent == old(node.sent)
      ensures r.Ready? ==>
                && node.rules.fits(r.challenge, r.solution)
                && |old(node.log)| <= refreshedAt <= |node.log|
                && ChallengeAt(node.rules, node.log, refreshedAt) == r.challenge
                && BalanceAt(node.rules, node.log, |node.log|, recipient) == before
                && r.challenge.difficulty <= 3
                && GatesPassed(old(node.calls), node.calls, recipient, before, r.challenge, r.solution,
                               node.rules.prize)
      ensures r.Retry? ==> RetryIsDue(node.calls, recipient, before, r.before, node.rules.prize)
      ensures r.Retry? ==> r.before == before || r.before + node.rules.prize <= ExactU128.MAX
      ensures r.Retry? && r.before != before ==>
                Anchored(node.rules, node.log, |node.log|, recipient, r.before)
      ensures !r.Stop? ==> solves == old(solves) + 1
      ensures r.Stop? ==> r.failure !in {SubmissionRejected, OutcomeUnknown, StaleChallengeExhausted}
      ensures r.Stop? ==> StopIsDue(node.calls, r.failure, recipient, node.rules.prize, cancelSeen)
    {
      hide ChallengeAt, BalanceAt, Lawful, StopIsDue, RetryIsDue, Run, Next;
      refreshedAt := 0;
      ghost var first, second;
      r, first := FetchAndSolve(recipient, submitted);
      if r.Stop? { return; }
      var due;
      due, refreshedAt, second := Reestablish(recipient, before, submitted, r.challenge, r.solution);
      if due.Some? { r := due.value; }
    }

    // The pool and its challenge, and a solution for it.
    method FetchAndSolve(recipient: Account, submitted: bool) returns (r: Preparation, ghost pool: nat)
      requires node.Valid() && config.rules == node.rules
      requires Now().place == FreeStop(Fetch) && Now().submitted == submitted
      modifies node, this`cancelSeen, this`solves, this`heard
      ensures r.Ready? ==> Now() == old(Now()).(place := FreeStop(CheckAgain(r.challenge, r.solution)))
      ensures r.Stop? ==> Now() == Fail(old(Now()), r.failure)
      ensures node.Valid() && Extends(old(node.log), node.log) && node.sent == old(node.sent) && !r.Retry?
      ensures r.Ready? ==>
                && node.rules.fits(r.challenge, r.solution) && r.challenge.difficulty <= 3
                && pool >= node.rules.prize && solves == old(solves) + 1
                && node.calls == old(node.calls)
                                 + [ReadPinata(Some((pool, r.challenge))), Solved(r.challenge, Some(r.solution))]
      ensures r.Stop? ==> r.failure !in {SubmissionRejected, OutcomeUnknown, StaleChallengeExhausted}
      ensures r.Stop? ==> StopIsDue(node.calls, r.failure, recipient, node.rules.prize, cancelSeen)
    {
      hide ChallengeAt, BalanceAt, Lawful, Run, Now, After;
      pool := 0;
      var stop := MustStop(submitted);
      if stop { return Stop(Cancelled), 0; }
      ghost var reading;
      var held, challenge, failure;
      held, challenge, failure, reading := ReadPool();
      pool := held;
      if failure.Some? { return Stop(failure.value), 0; }
      if challenge.difficulty > MAX_SUPPORTED_DIFFICULTY { return Stop(UnsupportedDifficulty), 0; }
      if held < node.rules.prize { return Stop(PoolDepleted), 0; }
      stop := MustStop(submitted);
      if stop { return Stop(Cancelled), 0; }
      r := Solve(challenge);
    }

    // After the solve: the same gates once more, for this challenge and this
    // baseline. None when the claim may be submitted.
    method Reestablish(recipient: Account, before: nat, submitted: bool, challenge: Challenge, solution: nat)
      returns (due: Option<Preparation>, ghost refreshedAt: nat, ghost pool: nat)
      requires node.Valid() && config.rules == node.rules
      requires Now().place == FreeStop(CheckAgain(challenge, solution))
      requires Now().submitted == submitted && Now().before == before
      modifies node, this`cancelSeen, this`heard
      ensures due.None? ==> Now() == old(Now()).(place := Encode(challenge, solution))
      ensures due.Some? && due.value.Retry? ==> Now() == TryAgain(config, old(Now()), due.value.before)
      ensures due.Some? && due.value.Stop? ==> Now() == Fail(old(Now()), due.value.failure)
      ensures node.Valid() && Extends(old(node.log), node.log) && node.sent == old(node.sent)
      ensures due.None? ==>
                && |old(node.log)| <= refreshedAt <= |node.log|
                && ChallengeAt(node.rules, node.log, refreshedAt) == challenge
                && BalanceAt(node.rules, node.log, |node.log|, recipient) == before
                && pool >= node.rules.prize
                && node.calls == old(node.calls) + [Verified(true), ReadPinata(Some((pool, challenge))),
                                                    ReadAccount(recipient, Some((Eligible, before)))]
      ensures due.Some? ==> !due.value.Ready?
      ensures due.Some? && due.value.Retry? ==>
                RetryIsDue(node.calls, recipient, before, due.value.before, node.rules.prize)
      ensures due.Some? && due.value.Retry? ==>
                due.value.before == before || due.value.before + node.rules.prize <= ExactU128.MAX
      ensures due.Some? && due.value.Retry? && due.value.before != before ==>
                Anchored(node.rules, node.log, |node.log|, recipient, due.value.before)
      ensures due.Some? && due.value.Stop? ==>
                && due.value.failure !in {SubmissionRejected, OutcomeUnknown, StaleChallengeExhausted}
                && StopIsDue(node.calls, due.value.failure, recipient, node.rules.prize, cancelSeen)
    {
      hide ChallengeAt, BalanceAt, Lawful, Run, Now, After, Next, StopIsDue, RetryIsDue, Anchored;
      due, refreshedAt, pool := RefreshPool(recipient, before, submitted, challenge, solution);
      if due.Some? { return; }
      ghost var refreshed := node.log;
      due := RefreshRecipient(recipient, before, submitted, challenge, solution);
      SamePast(node.rules, refreshed, node.log, refreshedAt, recipient, Tx(recipient, 0));
    }

    // The programs and the pool, for a challenge that has been solved.
    method RefreshPool(recipient: Account, before: nat, submitted: bool, challenge: Challenge, solution: nat)
      returns (due: Option<Preparation>, ghost refreshedAt: nat, ghost pool: nat)
      requires node.Valid() && config.rules == node.rules
      requires Now().place == FreeStop(CheckAgain(challenge, solution))
      requires Now().submitted == submitted && Now().before == before
      modifies node, this`cancelSeen, this`heard
      ensures node.Valid() && Extends(old(node.log), node.log) && node.sent == old(node.sent)
      ensures match due
              case None =>
                && Now() == old(Now()).(place := Reread(challenge, solution))
                && refreshedAt == |node.log| && ChallengeAt(node.rules, node.log, refreshedAt) == challenge
                && pool >= node.rules.prize
                && node.calls == old(node.calls) + [Verified(true), ReadPinata(Some((pool, challenge)))]
              case Some(Retry(current)) =>
                && Now() == TryAgain(config, old(Now()), before) && current == before
                && RetryIsDue(node.calls, recipient, before, before, node.rules.prize)
              case Some(Stop(why)) =>
                && Now() == Fail(old(Now()), why) && why in {Cancelled, WrongPrograms, Unreadable, PoolDepleted}
                && StopIsDue(node.calls, why, recipient, node.rules.prize, cancelSeen)
              case Some(Ready(_, _)) => false
    {
      hide ChallengeAt, BalanceAt, Lawful, Run, Now, After, Next;
      refreshedAt, pool := 0, 0;
      var stop := MustStop(submitted);
      if stop { return Some(Stop(Cancelled)), 0, 0; }
      ghost var s := Now();
      var verified := VerifyPrograms();
      CheckAgainStep(config, s, verified);
      if !verified { return Some(Stop(WrongPrograms)), 0, 0; }
      s := Now();
      var held, latest, failure;
      ghost var state;
      held, latest, failure, state := ReadPool();
      RefetchStep(config, s, state);
      if failure.Some? { return Some(Stop(failure.value)), 0, 0; }
      if latest != challenge { return Some(Retry(before)), 0, 0; }
      if held < node.rules.prize { return Some(Stop(PoolDepleted)), 0, 0; }
      due, refreshedAt, pool := None, |node.log|, held;
    }

    // The recipient, and one more stop check before the claim is built.
    method RefreshRecipient(recipient: Account, before: nat, submitted: bool, challenge: Challenge, solution: nat)
      returns (due: Option<Preparation>)
      requires node.Valid() && config.rules == node.rules
      requires Now().place == Reread(challenge, solution)
      requires Now().submitted == submitted && Now().before == before
      modifies node, this`cancelSeen, this`heard
      ensures node.Valid() && Extends(old(node.log), node.log) && node.sent == old(node.sent)
      ensures match due
              case None =>
                && Now() == old(Now()).(place := Encode(challenge, solution))
                && BalanceAt(node.rules, node.log, |node.log|, recipient) == before
                && node.calls == old(node.calls) + [ReadAccount(recipient, Some((Eligible, before)))]
              case Some(Retry(current)) =>
                && Now() == TryAgain(config, old(Now()), current) && current != before
                && current + node.rules.prize <= ExactU128.MAX
                && Anchored(node.rules, node.log, |node.log|, recipient, current)
                && RetryIsDue(node.calls, recipient, before, current, node.rules.prize)
              case Some(Stop(why)) =>
                && Now() == Fail(old(Now()), why)
                && (why.NotEligible? || why in {Cancelled, Unreadable, BalanceOverflow})
                && StopIsDue(node.calls, why, recipient, node.rules.prize, cancelSeen)
              case Some(Ready(_, _)) => false
    {
      hide ChallengeAt, BalanceAt, Lawful, Run, Now, After, Next;
      ghost var s, reading := Now(), None;
      var current, failure;
      current, failure, reading := InspectRecipient(recipient);
      RereadStep(config, s, recipient, reading);
      if failure.Some? { return Some(Stop(failure.value)); }
      if current != before {
        if current + node.rules.prize > ExactU128.MAX { return Some(Stop(BalanceOverflow)); }
        return Some(Retry(current));
      }
      var stop := MustStop(submitted);
      if stop { return Some(Stop(Cancelled)); }
      due := None;
    }

    // The reconciliation deadline after the last submission has passed.
    ghost predicate TimeIsUp()
      reads node
    {
      node.clock >= node.sentAt + policy.reconciliationDeadline
    }

    // Where a verdict leaves the drop.
    ghost function Judged(s: Progress, tx: Tx, verdict: Verdict): Progress
      reads this`config
    {
      match verdict
      case ProvenCredit => s.(place := Ended(Receipt(s.before, s.before + config.rules.prize, tx, s.attempt)))
      case ProvenLoss => TryAgain(config, s.(lost := s.lost + 1), s.before)
      case Unproven => Fail(s, OutcomeUnknown)
    }

    // One round: inclusion first, then the balance, then the challenge.
    method Observe(recipient: Account, tx: Tx, submitted: Challenge)
      returns (seen: Observation, ghost includedAt: nat, ghost balanceAt: nat)
      requires node.Valid() && Now().place == Look(submitted, tx)
      modifies node, this`heard
      ensures Now() == Decide(config, old(Now()), submitted, tx, seen)
      ensures node.Valid() && Extends(old(node.log), node.log)
      ensures old(node.clock) <= node.clock && node.sent == old(node.sent) && node.sentAt == old(node.sentAt)
      ensures |old(node.log)| <= includedAt <= balanceAt <= |node.log|
      ensures AskedInOrder(old(node.calls), node.calls, recipient, tx, submitted, seen)
      ensures seen.included == Some(true) ==> PaidBy(node.log, includedAt, tx) > 0
      ensures seen.balance.Some? ==> seen.balance.value == BalanceAt(node.rules, node.log, balanceAt, recipient)
      ensures seen.rotated.Some? ==>
                seen.rotated.value == (ChallengeAt(node.rules, node.log, |node.log|) != submitted)
    {
      hide ChallengeAt, BalanceAt, PaidBy, Lawful, Run, Now, After, Next, Decide;
      ghost var entry := Now();
      var included := node.GetTransaction(tx);
      Hear(Looked(tx, included));
      includedAt := |node.log|;
      PaidGrows(node.log, node.visible, |node.log|, tx);
      ghost var first := node.log;

      var account := node.GetAccount(recipient);
      Hear(ReadAccount(recipient, account));
      var balance := if account.Some? then Some(account.value.1) else None;
      balanceAt := |node.log|;
      SamePast(node.rules, first, node.log, includedAt, recipient, tx);
      ghost var second := node.log;

      var pinata := node.GetPinata();
      Hear(ReadPinata(pinata));
      var rotated := if pinata.Some? then Some(pinata.value.1 != submitted) else None;
      SamePast(node.rules, second, node.log, includedAt, recipient, tx);
      SamePast(node.rules, second, node.log, balanceAt, recipient, tx);
      seen := Observation(included, balance, rotated);
      RoundDecides(config, entry, submitted, tx, included, recipient, account, pinata);
    }

    /**
     * Poll until the readings prove what became of the claim or the deadline
     * passes, in at most the computed number of rounds. The verdict is backed
     * by readings of the log, recorded in the attempt.
     */
    method Reconcile(recipient: Account, tx: Tx, before: nat, expected: nat, submitted: Challenge,
                     ghost attempt: Attempt)
      returns (verdict: Verdict, ghost judged: Attempt, ghost rounds: nat, ghost last: Observation)
      requires node.Valid() && policy.pollInterval > 0
      requires Observed(node.rules, node.log, recipient, attempt) && attempt.fate.Undecided?
      requires attempt.sentAt <= |node.log|
      requires attempt.tx == tx && attempt.before == before && attempt.challenge == submitted
      requires expected == before + node.rules.prize
      requires Now().place == Look(submitted, tx) && Now().before == before && config.rules == node.rules
      modifies node, this`heard
      ensures Now() == Judged(old(Now()), tx, verdict)
      ensures node.Valid() && Extends(old(node.log), node.log) && node.sent == old(node.sent)
      ensures Observed(node.rules, node.log, recipient, judged)
      ensures judged.(fate := Undecided) == attempt
      ensures verdict.ProvenCredit? <==> judged.fate.Credited?
      ensures verdict.ProvenLoss? <==> judged.fate.Lost?
      ensures verdict.Unproven? <==> judged.fate.Undecided?
      ensures rounds <= RoundBound(policy.pollInterval, policy.reconciliationDeadline)
      ensures exists prior :: AskedInOrder(prior, node.calls, recipient, tx, submitted, last)
      ensures node.sentAt == old(node.sentAt)
      ensures verdict.ProvenCredit? <==> ShowsCredit(before, node.rules.prize, last)
      ensures verdict.ProvenLoss? <==> ShowsLoss(before, last)
      ensures verdict.Unproven? ==>
                || ShowsForeignChange(before, node.rules.prize, last)
                || node.clock >= old(node.clock) + policy.reconciliationDeadline
    {
      hide ChallengeAt, BalanceAt, PaidBy, Lawful, AskedInOrder, Run, Now, After, Classify;
      hide Observed, Decide, Extends, RoundBound, Interval, Slept;
      SomeRounds(policy.pollInterval, policy.reconciliationDeadline);
      NoSleepYet(policy.pollInterval);
      var deadline := node.clock + policy.reconciliationDeadline;
      var interval := policy.pollInterval;
      assert Extends(node.log, node.log) by { ExtendsItself(node.log); }
      judged, rounds, last := attempt, 0, Observation(None, None, None);
      ghost var bound := RoundBound(policy.pollInterval, policy.reconciliationDeadline);
      while true
        invariant node.Valid() && Extends(old(node.log), node.log) && node.sent == old(node.sent)
        invariant Observed(node.rules, node.log, recipient, attempt) && attempt.sentAt <= |node.log|
        invariant interval == Interval(policy.pollInterval, rounds)
        invariant node.clock + policy.reconciliationDeadline >= deadline + Slept(policy.pollInterval, rounds)
        invariant rounds < bound && Now() == old(Now()) && node.sentAt == old(node.sentAt)
        decreases bound - rounds
      {
        ghost var start := node.log;
        var seen;
        ghost var includedAt, balanceAt;
        seen, includedAt, balanceAt := Observe(recipient, tx, submitted);
        GrowsOn(old(node.log), start, node.log);
        ObservedSurvivesGrowth(node.rules, start, node.log, recipient, attempt);
        rounds := rounds + 1;
        last := seen;
        DecidesByReadings(before, node.rules.prize, seen);
        DecidesAsShown(config, old(Now()), submitted, tx, seen);
        match Classify(before, expected, seen) {
          case Credited =>
            CreditIsObserved(node.rules, node.log, recipient, attempt, includedAt, balanceAt);
            return ProvenCredit, attempt.(fate := PinataClaims.Credited(includedAt, balanceAt)), rounds, last;
          case LostRace =>
            LossIsObserved(node.rules, node.log, recipient, attempt, balanceAt);
            return ProvenLoss, attempt.(fate := Lost(balanceAt, |node.log|)), rounds, last;
          case Unattributable =>
            return Unproven, attempt, rounds, last;
          case Continue =>
        }
        Hear(DeadlinePassed(node.clock >= deadline));
        if node.clock >= deadline {
          return Unproven, attempt, rounds, last;
        }
        if rounds >= bound {
          BoundSuffices(policy.pollInterval, policy.reconciliationDeadline, rounds - 1);
        }
        start := node.log;
        node.Sleep(interval);
        GrowsOn(old(node.log), start, node.log);
        ObservedSurvivesGrowth(node.rules, start, node.log, recipient, attempt);
        NextSleep(policy.pollInterval, rounds - 1);
        interval := Min(2 * interval, MAX_INTERVAL);
      }
    }

    /**
     * One press. The trace holds every claim that was handed to the sequencer:
     * all but the last were proved lost before the next was solved, and the
     * outcome says exactly how the last one stands. Nothing sent is left
     * neither proved nor fenced: an unproved claim ends the drop and puts the
     * recipient among the unreconciled.
     */
    method RunPinataDrop(recipient: Account) returns (outcome: Outcome, ghost attempts: seq<Attempt>)
      requires node.Valid() && policy.pollInterval > 0
      modifies node, this
      ensures node.Valid() && Extends(old(node.log), node.log)
      ensures DropTrace(node.rules, node.log, recipient, attempts) && |attempts| <= policy.maxStaleRetries + 1
      ensures node.sent == old(node.sent) + Claims(attempts)
      ensures unreconciled == old(unreconciled) + if outcome == Failed(OutcomeUnknown) then {recipient} else {}
      ensures EndsAs(outcome, attempts, node.rules.prize)
      ensures outcome.Failed? ==> StopIsDue(node.calls, outcome.failure, recipient, node.rules.prize, cancelSeen)
      ensures outcome == Failed(OutcomeUnknown) ==>
                LeftOpen(node.calls, recipient, attempts[|attempts| - 1], node.rules.prize, TimeIsUp())
      ensures outcome == Failed(StaleChallengeExhausted) ==> solves == old(solves) + policy.maxStaleRetries + 1
      ensures outcome.Receipt? ==> outcome.staleRetries <= policy.maxStaleRetries
      ensures config == Config(node.rules, recipient, policy.maxStaleRetries)
      ensures Now().place == Ended(outcome) && Now().sent == Claims(attempts)
      ensures outcome == Failed(Cancelled) && attempts != []
         <==> exists k | 0 <= k < |heard| :: SolverStopped(config, heard, k)
    {
      hide ChallengeAt, BalanceAt, PaidBy, Lawful, DropTrace, LostAt, RetryIsDue, LeftOpen, GatesPassed, StopIsDue,
           AllLost, Claims, EndsAs;
      config, heard := Config(node.rules, recipient, policy.maxStaleRetries), [];
      outcome, attempts := RunAttempts(recipient);
      ClaimsCount(attempts);
      CancelledAfterSending(config, heard, |heard|);
    }

    // Between two attempts: everything sent was proved lost, and the machine
    // stands at the next attempt or, after the last one, at the end.
    ghost predicate Underway(recipient: Account, attempt: nat, before: nat, submitted: bool, attempts: seq<Attempt>,
                             anchoredAt: nat)
      reads this, node
    {
      && DropTrace(node.rules, node.log, recipient, attempts) && AllLost(attempts) && |attempts| <= attempt
      && before + node.rules.prize <= ExactU128.MAX
      && anchoredAt <= |node.log| && Anchored(node.rules, node.log, anchoredAt, recipient, before)
      && if attempt <= policy.maxStaleRetries
         then Now() == Progress(FreeStop(Fetch), attempt, before, submitted, Claims(attempts), |attempts|)
         else Now().place == Ended(Failed(StaleChallengeExhausted)) && Now().sent == Claims(attempts)
    }

    // The end of a drop.
    ghost predicate Concluded(recipient: Account, outcome: Outcome, attempts: seq<Attempt>)
      reads this, node
    {
      && DropTrace(node.rules, node.log, recipient, attempts) && EndsAs(outcome, attempts, node.rules.prize)
      && (outcome.Failed? ==> StopIsDue(node.calls, outcome.failure, recipient, node.rules.prize, cancelSeen))
      && (outcome == Failed(OutcomeUnknown) ==>
            LeftOpen(node.calls, recipient, attempts[|attempts| - 1], node.rules.prize, TimeIsUp()))
      && Now().place == Ended(outcome) && Now().sent == Claims(attempts)
    }

    // The attempts of one press, from the first check to the outcome.
    method RunAttempts(recipient: Account) returns (outcome: Outcome, ghost attempts: seq<Attempt>)
      requires node.Valid() && policy.pollInterval > 0
      requires config == Config(node.rules, recipient, policy.maxStaleRetries) && heard == []
      modifies node, this`cancelSeen, this`solves, this`heard, this`unreconciled
      ensures node.Valid() && Extends(old(node.log), node.log) && |attempts| <= policy.maxStaleRetries + 1
      ensures node.sent == old(node.sent) + Claims(attempts) && Concluded(recipient, outcome, attempts)
      ensures unreconciled == old(unreconciled) + if outcome == Failed(OutcomeUnknown) then {recipient} else {}
      ensures outcome == Failed(StaleChallengeExhausted) ==> solves == old(solves) + policy.maxStaleRetries + 1
      ensures outcome.Receipt? ==> outcome.staleRetries <= policy.maxStaleRetries
    {
      hide ChallengeAt, BalanceAt, Lawful, DropTrace, StopIsDue, LeftOpen, AllLost, Claims, EndsAs, Anchored, Next;
      assert Now() == START;
      hide After, Run, Now;
      attempts := [];
      var submitted := false;
      var before, failure := OpenDrop(recipient);
      ghost var anchoredAt: nat := |node.log|;
      NothingSentYet(node.rules, node.log, recipient);
      if failure.Some? {
        LostEndsAs(failure.value, attempts, node.rules.prize);
        return Failed(failure.value), [];
      }

      for attempt := 0 to policy.maxStaleRetries + 1
        invariant node.Valid() && Extends(old(node.log), node.log)
        invariant Underway(recipient, attempt, before, submitted, attempts, anchoredAt)
        invariant node.sent == old(node.sent) + Claims(attempts)
        invariant unreconciled == old(unreconciled) && solves == old(solves) + attempt
      {
        var turn;
        turn, attempts, anchoredAt := RunAttempt(recipient, attempt, before, submitted, attempts, anchoredAt,
                                                 old(node.sent));
        match turn {
          case Finished(why) => return why, attempts;
          case Again(current, latched) => before, submitted := current, latched;
        }
      }
      NoReasonNeeded(node.calls, recipient, node.rules.prize, cancelSeen);
      LostEndsAs(StaleChallengeExhausted, attempts, node.rules.prize);
      outcome := Failed(StaleChallengeExhausted);
    }

    // One attempt: the end of the drop, or the balance and the latch with which
    // the next one starts.
    method RunAttempt(recipient: Account, attempt: nat, before: nat, submitted: bool, ghost earlier: seq<Attempt>,
                      ghost earlierAnchor: nat, ghost base: seq<Tx>)
      returns (turn: Turn, ghost attempts: seq<Attempt>, ghost anchoredAt: nat)
      requires node.Valid() && policy.pollInterval > 0 && attempt <= policy.maxStaleRetries
      requires config == Config(node.rules, recipient, policy.maxStaleRetries)
      requires Underway(recipient, attempt, before, submitted, earlier, earlierAnchor)
      requires node.sent == base + Claims(earlier)
      modifies node, this`cancelSeen, this`solves, this`heard, this`unreconciled
      ensures node.Valid() && Extends(old(node.log), node.log)
      ensures node.sent == base + Claims(attempts) && |attempts| <= attempt + 1
      ensures unreconciled == old(unreconciled)
                           + if turn == Finished(Failed(OutcomeUnknown)) then {recipient} else {}
      ensures match turn
              case Finished(outcome) =>
                && Concluded(recipient, outcome, attempts) && outcome != Failed(StaleChallengeExhausted)
                && (outcome.Receipt? ==> outcome.staleRetries == attempt)
              case Again(current, latched) =>
                && Underway(recipient, attempt + 1, current, latched, attempts, anchoredAt)
                && solves == old(solves) + 1
    {
      hide ChallengeAt, BalanceAt, Lawful, DropTrace, LostAt, RetryIsDue, LeftOpen, GatesPassed, StopIsDue,
           AllLost, Claims, EndsAs, Anchored, Next, After, Run, Now;
      attempts, anchoredAt := earlier, earlierAnchor;
      ghost var start := node.log;
      var prepared;
      ghost var refreshedAt;
      prepared, refreshedAt := Prepare(recipient, before, submitted);
      StaysAnchored(node.rules, start, node.log, anchoredAt, recipient, before);
      LostInThePast(node.rules, start, recipient, attempts);
      TraceSurvivesGrowth(node.rules, start, node.log, recipient, attempts);
      match prepared {
        case Stop(why) =>
          LostEndsAs(why, attempts, node.rules.prize);
          turn := Finished(Failed(why));
        case Retry(current) =>
          if current != before {
            anchoredAt := |node.log|;
          }
          turn := Again(current, submitted);
        case Ready(challenge, solution) =>
          turn, attempts := ClaimPrize(recipient, attempt, before, challenge, solution, earlier, anchoredAt,
                                       refreshedAt, base);
      }
    }

    // From a solution to the end of the attempt: build the claim, hand it in,
    // and turn the verdict on it into what comes next.
    method ClaimPrize(recipient: Account, attempt: nat, before: nat, challenge: Challenge, solution: nat,
                      ghost earlier: seq<Attempt>, ghost anchoredAt: nat, ghost refreshedAt: nat, ghost base: seq<Tx>)
      returns (turn: Turn, ghost attempts: seq<Attempt>)
      requires node.Valid() && policy.pollInterval > 0 && attempt <= policy.maxStaleRetries
      requires config == Config(node.rules, recipient, policy.maxStaleRetries)
      requires DropTrace(node.rules, node.log, recipient, earlier) && AllLost(earlier) && |earlier| <= attempt
      requires forall a <- earlier :: LostAt(a) <= refreshedAt
      requires node.rules.fits(challenge, solution) && before + node.rules.prize <= ExactU128.MAX
      requires anchoredAt <= refreshedAt <= |node.log|
      requires Anchored(node.rules, node.log, anchoredAt, recipient, before)
      requires ChallengeAt(node.rules, node.log, refreshedAt) == challenge
      requires BalanceAt(node.rules, node.log, |node.log|, recipient) == before
      requires Now().place == Encode(challenge, solution) && Now().before == before && Now().attempt == attempt
      requires Now().sent == Claims(earlier) && Now().lost == |earlier|
      requires node.sent == base + Claims(earlier)
      modifies node, this`heard, this`unreconciled
      ensures node.Valid() && Extends(old(node.log), node.log)
      ensures node.sent == base + Claims(attempts) && |attempts| <= attempt + 1
      ensures unreconciled == old(unreconciled)
                           + if turn == Finished(Failed(OutcomeUnknown)) then {recipient} else {}
      ensures match turn
              case Finished(outcome) =>
                && Concluded(recipient, outcome, attempts) && outcome != Failed(StaleChallengeExhausted)
                && (outcome.Receipt? ==> outcome.staleRetries == attempt)
              case Again(current, latched) =>
                Underway(recipient, attempt + 1, current, latched, attempts, anchoredAt)
    {
      hide ChallengeAt, BalanceAt, Lawful, DropTrace, LostAt, LeftOpen, StopIsDue, AllLost, Claims, EndsAs, Anchored,
           Next, After, Run, Now;
      attempts := earlier;
      ghost var start := node.log;
      var tx := BuildClaim(recipient, solution);
      if tx.None? {
        LostEndsAs(ClaimNotBuilt, attempts, node.rules.prize);
        return Finished(Failed(ClaimNotBuilt)), attempts;
      }
      var verdict;
      verdict, attempts :=
        SubmitAndJudge(recipient, before, challenge, tx.value, attempts, anchoredAt, refreshedAt, attempt);
      StaysAnchored(node.rules, start, node.log, anchoredAt, recipient, before);
      match verdict {
        case None => turn := Finished(Failed(SubmissionRejected));
        case Some(ProvenCredit) => turn := Finished(Receipt(before, before + node.rules.prize, tx.value, attempt));
        case Some(ProvenLoss) => turn := Again(before, true);
        case Some(Unproven) =>
          unreconciled := unreconciled + {recipient};
          NoReasonNeeded(node.calls, recipient, node.rules.prize, cancelSeen);
          turn := Finished(Failed(OutcomeUnknown));
      }
    }

    // Hand one claim to the sequencer and wait for its verdict; None when the
    // sequencer refused it outright. Whatever else the reply was, or if it was
    // lost, the claim may be live.
    method SubmitAndJudge(recipient: Account, before: nat, challenge: Challenge, tx: Tx,
                          ghost earlier: seq<Attempt>, ghost anchoredAt: nat, ghost refreshedAt: nat,
                          ghost retries: nat)
      returns (verdict: Option<Verdict>, ghost attempts: seq<Attempt>)
      requires node.Valid() && policy.pollInterval > 0
      requires DropTrace(node.rules, node.log, recipient, earlier) && AllLost(earlier)
      requires forall a <- earlier :: LostAt(a) <= refreshedAt
      requires node.rules.fits(challenge, tx.solution) && tx.winner == recipient
      requires anchoredAt <= refreshedAt <= |node.log|
      requires Anchored(node.rules, node.log, anchoredAt, recipient, before)
      requires Now().place == Send(challenge, tx) && Now().before == before && config.rules == node.rules
      requires ChallengeAt(node.rules, node.log, refreshedAt) == challenge
      requires BalanceAt(node.rules, node.log, |node.log|, recipient) == before
      modifies node, this`heard
      ensures var s := old(Now()).(sent := old(Now()).sent + [tx]);
              Now() == if verdict.Some? then Judged(s, tx, verdict.value) else Fail(s, SubmissionRejected)
      ensures node.Valid() && Extends(old(node.log), node.log)
      ensures DropTrace(node.rules, node.log, recipient, attempts)
      ensures node.sent == old(node.sent) + [tx]
      ensures |attempts| == |earlier| + 1 && attempts[..|earlier|] == earlier
      ensures var last := attempts[|earlier|];
              && tx == last.tx && last.before == before && last.challenge == challenge
              && match verdict
                 case None => last.fate.Refused?
                 case Some(ProvenCredit) => last.fate.Credited?
                 case Some(ProvenLoss) => last.fate.Lost?
                 case Some(Unproven) =>
                   && last.fate.Undecided?
                   && LeftOpen(node.calls, recipient, last, node.rules.prize, TimeIsUp())
      ensures verdict.None? ==> node.calls == old(node.calls) + [Submitted(tx, Rejected)]
      ensures verdict.None? ==> StopIsDue(node.calls, SubmissionRejected, recipient, node.rules.prize, cancelSeen)
      ensures Claims(attempts) == Claims(earlier) + [tx]
      ensures verdict == Some(ProvenLoss) ==> AllLost(attempts)
      ensures verdict == None ==> EndsAs(Failed(SubmissionRejected), attempts, node.rules.prize)
      ensures verdict == Some(Unproven) ==> EndsAs(Failed(OutcomeUnknown), attempts, node.rules.prize)
      ensures verdict == Some(ProvenCredit) ==>
                EndsAs(Receipt(before, before + node.rules.prize, tx, retries), attempts, node.rules.prize)
    {
      hide ChallengeAt, BalanceAt, PaidBy, Lawful, AskedInOrder, Run, Now, After, AllLost, Claims, EndsAs, DropTrace;
      ghost var sent := Attempt(tx, challenge, before, anchoredAt, refreshedAt, |node.log|, |node.log|, Undecided);
      ghost var start := node.log;
      var reply := node.SendTransaction(tx);
      Hear(Submitted(tx, reply));
      ObservedSurvivesGrowth(node.rules, start, node.log, recipient, sent);
      if reply.Rejected? {
        verdict, attempts := None, earlier + [sent.(fate := Refused)];
        TraceGrows(node.rules, start, node.log, recipient, earlier, sent.(fate := Refused));
        OneMoreAttempt(earlier, sent.(fate := Refused), node.rules.prize, retries);
        return;
      }
      var judgement;
      ghost var judged, rounds, last;
      judgement, judged, rounds, last := Reconcile(recipient, tx, before, before + node.rules.prize, challenge, sent);
      verdict, attempts := Some(judgement), earlier + [judged];
      TraceGrows(node.rules, start, node.log, recipient, earlier, judged);
      OneMoreAttempt(earlier, judged, node.rules.prize, retries);
    }
  }

  // How a drop's outcome describes the last claim it sent.
  ghost predicate EndsAs(outcome: Outcome, attempts: seq<Attempt>, prize: nat) {
    var sent := attempts != [];
    var fate := if sent then attempts[|attempts| - 1].fate else Lost(0, 0);
    match outcome
    case Receipt(before, after, tx, staleRetries) =>
      && sent && fate.Credited? && tx == attempts[|attempts| - 1].tx
      && before == attempts[|attempts| - 1].before && after == before + prize
    case Failed(SubmissionRejected) => sent && fate.Refused?
    case Failed(OutcomeUnknown) => sent && fate.Undecided?
    case Failed(_) => fate.Lost?
  }

  /**
   * What a press is worth. Take the outcome RunPinataDrop returned and any log
   * the chain grows to afterwards. Under the chain assumptions, and if no claim
   * landed between a balance reading and the challenge reading after it, the
   * claims of the drop were paid exactly once when there is a receipt, at most
   * once when the last claim was refused or its outcome is unknown, and never
   * under any other failure, cancellation included.
   */
  lemma PressPaysWhatItSays(rules: Rules, log: seq<Event>, later: seq<Event>, recipient: Account,
                            outcome: Outcome, attempts: seq<Attempt>)
    requires DropTrace(rules, log, recipient, attempts) && EndsAs(outcome, attempts, rules.prize)
    requires Extends(log, later) && Assumptions(rules, later, recipient, attempts)
    requires Landed(later, attempts, |attempts|) == 0
    ensures outcome.Receipt? ==> Credits(later, attempts, |attempts|) == 1
    ensures outcome in {Failed(SubmissionRejected), Failed(OutcomeUnknown)} ==>
              Credits(later, attempts, |attempts|) <= 1
    ensures outcome.Failed? && outcome.failure !in {SubmissionRejected, OutcomeUnknown} ==>
              Credits(later, attempts, |attempts|) == 0
  {
    hide DropTrace, Assumptions, Credits, Landed;
    TraceSurvivesGrowth(rules, log, later, recipient, attempts);
    AtMostOneCredit(rules, later, recipient, attempts);
  }
}
