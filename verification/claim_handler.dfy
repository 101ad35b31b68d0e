/**
 * The POST handler as the code runs it (claimd/src/http.rs:340-488): look for
 * the row, the pause file and the time, pass four counting queries, see that
 * the hot account can pay, insert. Other handlers and the worker act between
 * any two of its statements, so it is a handler of ClaimLimits under every
 * interleaving.
 */
module ClaimHandler {
  import opened Wrappers
  import opened ClaimLedger
  import opened ClaimLimits

  // What nobody else's step takes away: this handler, and every row's id and
  // recipient.
  ghost predicate Keeps(s: Front, t: Front, h: nat) {
    && (h in s.handlers ==> h in t.handlers && t.handlers[h] == s.handlers[h])
    && RowsStay(s.rows, t.rows)
  }

  ghost predicate RowsStay(before: Rows, after: Rows) {
    forall id | id in before :: id in after && after[id].recipient == before[id].recipient
  }

  predicate IsOf(step: Step, h: nat) {
    (step.Enter? || step.Advance? || step.Refuse?) && step.h == h
  }

  lemma OthersKeep(limits: Limits, s: Front, step: Step, h: nat)
    requires !IsOf(step, h)
    ensures Keeps(s, Apply(limits, s, step), h)
  {
    hide CountSince, Counted;
  }

  predicate SameClaim(before: Handler, after: Handler) {
    after.id == before.id && after.recipient == before.recipient && after.ipHash == before.ipHash
  }

  // ---- what a handler asks, and what it hears -------------------------------------------

  /**
   * A ledger statement fails or not. A gate shows the rows its counting query
   * found, unless one of its statements fails. The hot account may be out of
   * reach. The count of the pending claims is a statement too.
   */
  datatype Check =
    | Statement(failed: bool)
    | PauseFile(there: bool)
    | Gate(seen: Option<Rows>, now: int)
    | HotBalance(reading: Option<nat>)
    | Funds(hot: nat, reserve: nat, pending: Option<nat>)

  // The checks of one POST: a look at the ledger, the pause file, four gates at
  // one time, the hot balance, the pending claims, the insert, the row again.
  ghost predicate InOrder(checks: seq<Check>, from: nat) {
    && from <= |checks| <= from + 10
    && forall place: nat | from + place < |checks| :: IsAsked(checks, from, place)
  }

  ghost predicate IsAsked(checks: seq<Check>, from: nat, place: nat)
    requires from + place < |checks|
  {
    var check := checks[from + place];
    match place
    case 0 | 8 | 9 => check.Statement?
    case 1 => check.PauseFile?
    case 2 | 3 | 4 | 5 => check.Gate? && checks[from + 2].Gate? && check.now == checks[from + 2].now
    case 6 => check.HotBalance?
    case 7 => check.Funds? && checks[from + 6] == HotBalance(Some(check.hot))
    case _ => false
  }

  // The prize once for this claim and once for each pending one, and the
  // reserve for the fee, capped at 2^128 - 1.
  predicate Covers(hot: nat, prize: nat, pending: nat, reserve: nat) {
    var needed := prize * (pending + 1) + reserve;
    hot >= 340282366920938463463374607431768211455 || hot >= needed
  }

  // Why the claim is refused after a check, if it is.
  ghost function Told(limits: Limits, prize: nat, recipient: Recipient, ipHash: string, checks: seq<Check>,
                      from: nat, place: nat): Option<Refusal>
    requires from + place < |checks|
  {
    match checks[from + place]
    case Statement(failed) => if failed then Some(LedgerFailed) else None
    case PauseFile(there) => if there then Some(Paused) else None
    case Gate(seen, now) =>
      if seen.None? then Some(LedgerFailed)
      else if place >= 2 && IsFull(limits, seen.value, recipient, ipHash, now, place - 2)
      then Some(RateLimited(place - 2))
      else None
    case HotBalance(reading) => if reading.None? then Some(SequencerUnreachable) else None
    case Funds(hot, reserve, pending) =>
      if pending.None? then Some(LedgerFailed)
      else if Covers(hot, prize, pending.value, reserve) then None
      else Some(HotBalanceTooLow)
  }

  // All of the first `count` checks let the claim go on.
  ghost predicate WentWell(limits: Limits, prize: nat, recipient: Recipient, ipHash: string, checks: seq<Check>,
                           from: nat, count: nat) {
    && InOrder(checks, from) && from + count <= |checks|
    && forall place: nat | place < count :: Told(limits, prize, recipient, ipHash, checks, from, place).None?
  }

  /**
   * The answer has its cause: the last check refuses it and none before did,
   * or all went well and either the first look found the row or all ten were
   * made.
   */
  ghost predicate HasCause(limits: Limits, prize: nat, recipient: Recipient, ipHash: string, checks: seq<Check>,
                           from: nat, answer: Answer) {
    && from < |checks|
    && WentWell(limits, prize, recipient, ipHash, checks, from, |checks| - from - 1)
    && match Told(limits, prize, recipient, ipHash, checks, from, |checks| - from - 1)
       case Some(why) => answer == Refused(why)
       case None => !answer.Refused? && (|checks| == from + 1 || |checks| == from + 10)
  }

  // One more check in its place: those before it went as well as they did.
  lemma OneMore(limits: Limits, prize: nat, recipient: Recipient, ipHash: string, checks: seq<Check>,
                longer: seq<Check>, from: nat, count: nat)
    requires WentWell(limits, prize, recipient, ipHash, checks, from, count) && |checks| == from + count
    requires checks <= longer && |longer| == from + count + 1 && IsAsked(longer, from, count)
    ensures WentWell(limits, prize, recipient, ipHash, longer, from, count)
    ensures Told(limits, prize, recipient, ipHash, longer, from, count).None? ==>
              WentWell(limits, prize, recipient, ipHash, longer, from, count + 1)
  {
    hide IsFull, Covers;
    forall place: nat | from + place < |longer|
      ensures IsAsked(longer, from, place)
    {
      assert place < count ==> IsAsked(checks, from, place);
    }
    forall place: nat | place < count
      ensures Told(limits, prize, recipient, ipHash, longer, from, place).None?
    {
      assert Told(limits, prize, recipient, ipHash, checks, from, place).None?;
    }
  }

  lemma NothingAsked(limits: Limits, prize: nat, recipient: Recipient, ipHash: string, checks: seq<Check>)
    ensures WentWell(limits, prize, recipient, ipHash, checks, |checks|, 0)
  {
  }

  class ClaimService {
    const limits: Limits
    const prize: nat
    const ledger: Ledger
    var handlers: map<nat, Handler>
    // The checks made by the handler whose code runs here, in order.
    ghost var checks: seq<Check>

    ghost function View(): Front
      reads this, ledger
    {
      Front(ledger.rows, handlers)
    }

    ghost predicate Valid()
      reads this, ledger
    {
      Reachable(limits, View())
    }

    constructor (limits: Limits, prize: nat, ledger: Ledger)
      requires ledger.rows == map[]
      ensures Valid() && this.limits == limits && this.prize == prize && this.ledger == ledger
      ensures handlers == map[] && checks == []
    {
      this.limits, this.prize, this.ledger := limits, prize, ledger;
      handlers, checks := map[], [];
      new;
      StartIsReachable(limits);
    }

    method Others(h: nat)
      requires Valid()
      modifies this, ledger
      ensures Valid() && Keeps(old(View()), View(), h) && checks == old(checks)
    {
      hide Apply, Reachable, Run;
      var more: nat := *;
      while more > 0
        invariant Valid() && Keeps(old(View()), View(), h) && checks == old(checks)
      {
        var step: Step := *;
        if !IsOf(step, h) {
          OthersKeep(limits, View(), step, h);
          ReachableStep(limits, View(), step);
          var t := Apply(limits, Front(ledger.rows, handlers), step);
          ledger.rows, handlers := t.rows, t.handlers;
        }
        more := more - 1;
      }
    }

    ghost predicate IsAt(h: nat, place: Place)
      reads this
    {
      h in handlers && handlers[h].place == place
    }

    // The first checks of the handler's POST, made and gone well.
    ghost predicate HasPassed(h: nat, from: nat, count: nat)
      reads this
    {
      && h in handlers && |checks| == from + count
      && WentWell(limits, prize, handlers[h].recipient, handlers[h].ipHash, checks, from, count)
    }

    ghost predicate IsAnswered(h: nat, from: nat, answer: Answer)
      reads this
    {
      && IsAt(h, Answered(answer))
      && HasCause(limits, prize, handlers[h].recipient, handlers[h].ipHash, checks, from, answer)
    }

    // ---- one statement at a time -----------------------------------------------------------

    method Fails() returns (failed: bool)
      modifies this`checks
      ensures checks == old(checks) + [Statement(failed)]
    {
      failed := *;
      checks := checks + [Statement(failed)];
    }

    method IsPaused() returns (there: bool)
      modifies this`checks
      ensures checks == old(checks) + [PauseFile(there)]
    {
      there := *;
      checks := checks + [PauseFile(there)];
    }

    method ReadHot() returns (reading: Option<nat>)
      modifies this`checks
      ensures checks == old(checks) + [HotBalance(reading)]
    {
      reading := *;
      checks := checks + [HotBalance(reading)];
    }

    // The claims that are queued or submitted; None when the statement fails.
    method CountPending(hot: nat, reserve: nat) returns (pending: Option<nat>)
      modifies this`checks
      ensures checks == old(checks) + [Funds(hot, reserve, pending)]
      ensures pending.None? || pending.value == |set id | id in ledger.rows && IsPending(ledger.rows[id])|
    {
      var failed: bool := *;
      pending := if failed then None else Some(|set id | id in ledger.rows && IsPending(ledger.rows[id])|);
      checks := checks + [Funds(hot, reserve, pending)];
    }

    method Enter(h: nat, id: RequestId, recipient: Recipient, ipHash: string)
      requires Valid() && h !in handlers
      modifies this`handlers
      ensures View() == Apply(limits, old(View()), ClaimLimits.Enter(h, id, recipient, ipHash)) && Valid()
      ensures IsAt(h, AtLookup) && SameClaim(Handler(id, recipient, ipHash, 0, AtLookup), handlers[h])
    {
      hide Reachable, Run;
      ReachableStep(limits, View(), ClaimLimits.Enter(h, id, recipient, ipHash));
      handlers := handlers[h := Handler(id, recipient, ipHash, 0, AtLookup)];
    }

    // Nothing is recorded of a claim that is refused.
    method Refuse(h: nat, why: Refusal) returns (answer: Answer)
      requires Valid() && h in handlers && !handlers[h].place.Answered? && !why.RateLimited?
      modifies this`handlers
      ensures View() == Apply(limits, old(View()), ClaimLimits.Refuse(h, why)) && Valid()
      ensures answer == Refused(why) && IsAt(h, Answered(answer)) && ledger.rows == old(ledger.rows)
      ensures SameClaim(old(handlers)[h], handlers[h])
    {
      hide Reachable, Run;
      ReachableStep(limits, View(), ClaimLimits.Refuse(h, why));
      answer := Refused(why);
      handlers := handlers[h := handlers[h].(place := Answered(answer))];
    }

    // An id with a row is answered from that row.
    method LookUp(h: nat) returns (answer: Option<Answer>)
      requires Valid() && IsAt(h, AtLookup)
      modifies this`handlers
      ensures View() == Apply(limits, old(View()), Advance(h, 0)) && Valid()
      ensures IsAt(h, if answer.Some? then Answered(answer.value) else AtClock)
      ensures SameClaim(old(handlers)[h], handlers[h])
      ensures answer.Some? <==> handlers[h].id in ledger.rows
      ensures answer.Some? ==>
                answer.value == if ledger.rows[handlers[h].id].recipient == handlers[h].recipient
                                then Found(ledger.rows[handlers[h].id]) else Conflict
    {
      hide Reachable, Run;
      ReachableStep(limits, View(), Advance(h, 0));
      var c := handlers[h];
      if c.id !in ledger.rows {
        answer := None;
      } else if ledger.rows[c.id].recipient != c.recipient {
        answer := Some(Conflict);
      } else {
        answer := Some(Found(ledger.rows[c.id]));
      }
      handlers := handlers[h := c.(place := if answer.Some? then Answered(answer.value) else AtClock)];
    }

    method ReadClock(h: nat) returns (now: int)
      requires Valid() && IsAt(h, AtClock)
      modifies this`handlers
      ensures View() == Apply(limits, old(View()), Advance(h, now)) && Valid()
      ensures IsAt(h, AtGate(0)) && handlers[h].now == now
      ensures SameClaim(old(handlers)[h], handlers[h])
    {
      hide Reachable, Run;
      now := *;
      ReachableStep(limits, View(), Advance(h, now));
      handlers := handlers[h := handlers[h].(now := now, place := AtGate(0))];
    }

    // Refuses exactly at a full window, unless a statement fails.
    method PassGate(h: nat, gate: nat) returns (answer: Option<Answer>)
      requires Valid() && IsAt(h, AtGate(gate)) && gate < 4
      modifies this`handlers, this`checks
      ensures Valid() && IsAt(h, if answer.Some? then Answered(answer.value) else AtGate(gate + 1))
      ensures SameClaim(old(handlers)[h], handlers[h]) && handlers[h].now == old(handlers)[h].now
      ensures var failed := answer == Some(Refused(LedgerFailed));
              && checks == old(checks) + [Gate(if failed then None else Some(ledger.rows), handlers[h].now)]
              && (failed || answer == if IsFull(limits, ledger.rows, handlers[h].recipient, handlers[h].ipHash,
                                                handlers[h].now, gate)
                                      then Some(Refused(RateLimited(gate))) else None)
    {
      hide Reachable, Run, CountSince, IsFull;
      var c := handlers[h];
      var failed: bool := *;
      checks := checks + [Gate(if failed then None else Some(ledger.rows), c.now)];
      if failed {
        var refused := Refuse(h, LedgerFailed);
        return Some(refused);
      }
      ReachableStep(limits, View(), Advance(h, 0));
      GatesSeeTheirLimits(limits, ledger.rows, c, gate);
      var full := CountSince(ledger.rows, GateScope(gate, c), c.now - Window(gate)) >= Limit(limits, gate);
      answer := if full then Some(Refused(RateLimited(gate))) else None;
      handlers := handlers[h := c.(place := if full then Answered(answer.value) else AtGate(gate + 1))];
    }

    // The primary key decides a race; either way there is a row afterwards.
    method Insert(h: nat)
      requires Valid() && IsAt(h, AtGate(GATES))
      modifies this`handlers, ledger
      ensures View() == Apply(limits, old(View()), Advance(h, 0)) && Valid()
      ensures IsAt(h, AtReread) && SameClaim(old(handlers)[h], handlers[h])
      ensures var c := old(handlers)[h];
              ledger.rows == if c.id in old(ledger.rows) then old(ledger.rows)
                             else old(ledger.rows)[c.id := QueuedRow(c.recipient, c.ipHash, c.now)]
    {
      hide Reachable, Run;
      ReachableStep(limits, View(), Advance(h, 0));
      var c := handlers[h];
      if c.id !in ledger.rows {
        ledger.rows := ledger.rows[c.id := QueuedRow(c.recipient, c.ipHash, c.now)];
      }
      handlers := handlers[h := c.(place := AtReread)];
    }

    // The winner of the race is answered with its own row, the loser with the
    // winner's or with a conflict.
    method ReadBack(h: nat) returns (answer: Answer)
      requires Valid() && IsAt(h, AtReread) && handlers[h].id in ledger.rows
      modifies this`handlers
      ensures View() == Apply(limits, old(View()), Advance(h, 0)) && Valid()
      ensures IsAt(h, Answered(answer)) && SameClaim(old(handlers)[h], handlers[h])
      ensures var row := ledger.rows[handlers[h].id];
              answer == if row.recipient == handlers[h].recipient then Found(row) else Conflict
    {
      hide Reachable, Run;
      ReachableStep(limits, View(), Advance(h, 0));
      var c := handlers[h];
      var row := ledger.rows[c.id];
      answer := if row.recipient == c.recipient then Found(row) else Conflict;
      handlers := handlers[h := c.(place := Answered(answer))];
    }

    // ---- a claim ---------------------------------------------------------------------------

    /**
     * One POST. Whatever the others do meanwhile, it ends answered. An id that
     * has a row is answered at the first look, whatever the limits and the
     * pause file say. Any other claim is checked in full, in order, and is
     * refused by the first check that goes against it and by nothing else. The
     * answer stands: a row is the row of its id and for its recipient, and a
     * conflict means the id is another recipient's.
     */
    method Claim(h: nat, id: RequestId, recipient: Recipient, ipHash: string) returns (answer: Answer)
      requires Valid() && h !in handlers
      modifies this, ledger
      ensures Valid() && IsAt(h, Answered(answer)) && old(checks) <= checks
      ensures HasCause(limits, prize, recipient, ipHash, checks, |old(checks)|, answer)
      ensures id in old(ledger.rows) ==> |checks| == |old(checks)| + 1
      ensures answer.Found? ==>
                id in ledger.rows && ledger.rows[id].recipient == recipient
                && ledger.rows[id].createdAt == answer.row.createdAt
      ensures answer.Conflict? ==> id in ledger.rows && ledger.rows[id].recipient != recipient
    {
      hide Apply, Reachable, Run, HasCause, WentWell;
      Enter(h, id, recipient, ipHash);
      Others(h);
      answer := Decide(h);
      ReachableAnswers(limits, View());
      assert AnswerStands(ledger.rows, handlers[h]);
    }

    method Decide(h: nat) returns (answer: Answer)
      requires Valid() && IsAt(h, AtLookup)
      modifies this, ledger
      ensures Valid() && IsAnswered(h, |old(checks)|, answer) && old(checks) <= checks
      ensures SameClaim(old(handlers)[h], handlers[h])
      ensures old(handlers)[h].id in old(ledger.rows) ==> |checks| == |old(checks)| + 1
    {
      hide Apply, Reachable, Run, IsFull, Covers, WentWell;
      ghost var from, before, c := |checks|, checks, handlers[h];
      NothingAsked(limits, prize, c.recipient, c.ipHash, checks);
      var failed := Fails();
      OneMore(limits, prize, c.recipient, c.ipHash, before, checks, from, 0);
      if failed {
        answer := Refuse(h, LedgerFailed);
        return;
      }
      var found := LookUp(h);
      if found.Some? { return found.value; }
      before := checks;
      var there := IsPaused();
      OneMore(limits, prize, c.recipient, c.ipHash, before, checks, from, 1);
      if there {
        answer := Refuse(h, Paused);
        return;
      }
      Others(h);
      var now := ReadClock(h);
      var stopped := PassGates(h, from);
      if stopped.Some? { return stopped.value; }
      answer := FundAndInsert(h, from);
    }

    // The four counting queries, in order; None when all let it through.
    method PassGates(h: nat, ghost from: nat) returns (answer: Option<Answer>)
      requires Valid() && IsAt(h, AtGate(0)) && HasPassed(h, from, 2)
      modifies this, ledger
      ensures Valid() && old(checks) <= checks && h in handlers && SameClaim(old(handlers)[h], handlers[h])
      ensures match answer
              case Some(refused) => IsAnswered(h, from, refused)
              case None => IsAt(h, AtGate(4)) && HasPassed(h, from, 6)
    {
      hide Apply, Reachable, Run, IsFull, Covers, WentWell;
      for gate := 0 to 4
        invariant Valid() && IsAt(h, AtGate(gate)) && HasPassed(h, from, 2 + gate)
        invariant old(checks) <= checks && SameClaim(old(handlers)[h], handlers[h])
        invariant forall i | from + 2 <= i < |checks| :: checks[i].Gate? && checks[i].now == handlers[h].now
      {
        Others(h);
        ghost var before, c := checks, handlers[h];
        answer := PassGate(h, gate);
        OneMore(limits, prize, c.recipient, c.ipHash, before, checks, from, 2 + gate);
        if answer.Some? { return; }
      }
      answer := None;
    }

    // The hot balance must cover this claim and the pending ones; then the row
    // is inserted and read back.
    method FundAndInsert(h: nat, ghost from: nat) returns (answer: Answer)
      requires Valid() && IsAt(h, AtGate(4)) && HasPassed(h, from, 6)
      modifies this, ledger
      ensures Valid() && old(checks) <= checks && IsAnswered(h, from, answer)
      ensures SameClaim(old(handlers)[h], handlers[h])
    {
      hide Apply, Reachable, Run, IsFull, Covers, WentWell;
      Others(h);
      ghost var before, c := checks, handlers[h];
      var hot := ReadHot();
      OneMore(limits, prize, c.recipient, c.ipHash, before, checks, from, 6);
      if hot.None? {
        answer := Refuse(h, SequencerUnreachable);
        return;
      }
      Others(h);
      var reserve: nat := *;
      before := checks;
      var pending := CountPending(hot.value, reserve);
      OneMore(limits, prize, c.recipient, c.ipHash, before, checks, from, 7);
      if pending.None? {
        answer := Refuse(h, LedgerFailed);
        return;
      }
      if !Covers(hot.value, prize, pending.value, reserve) {
        answer := Refuse(h, HotBalanceTooLow);
        return;
      }
      Others(h);
      answer := InsertAndRead(h, from);
    }

    // A failed statement may leave the row behind or not.
    method InsertAndRead(h: nat, ghost from: nat) returns (answer: Answer)
      requires Valid() && IsAt(h, AtGate(4)) && HasPassed(h, from, 8)
      modifies this, ledger
      ensures Valid() && old(checks) <= checks && IsAnswered(h, from, answer)
      ensures SameClaim(old(handlers)[h], handlers[h])
    {
      hide Apply, Reachable, Run, IsFull, Covers, WentWell;
      ghost var before, c := checks, handlers[h];
      var failed := Fails();
      OneMore(limits, prize, c.recipient, c.ipHash, before, checks, from, 8);
      if failed {
        answer := Refuse(h, LedgerFailed);
        return;
      }
      Insert(h);
      Others(h);
      before := checks;
      failed := Fails();
      OneMore(limits, prize, c.recipient, c.ipHash, before, checks, from, 9);
      if failed {
        answer := Refuse(h, LedgerFailed);
        return;
      }
      ReachableAnswers(limits, View());
      assert AnswerStands(ledger.rows, handlers[h]);
      answer := ReadBack(h);
    }
  }

  lemma ReachableAnswers(limits: Limits, s: Front)
    requires Reachable(limits, s)
    ensures AnswersStand(s)
  {
    hide Run;
    var steps :| s == Run(limits, START, steps);
    AnswersAlwaysStand(limits, steps);
  }
}
