/**
 * The client's side of a claim-service drop as the code runs it
 * (lez-faucet-ffi/src/client.rs:1318-1519): ask once, then the reconciliation
 * loop. The service, its handlers and the chain act between any two of its
 * calls, so it is the client of ClaimDrops under every interleaving.
 */
module ClaimDropClient {
  import opened Wrappers
  import opened ClaimLedger
  import opened Reconciliation
  import opened ClaimDrops
  import opened Polling
  import P = Payouts

  datatype ClaimAnswer = Recorded(row: Row) | TurnedDown | NoUsableAnswer

  datatype StatusAnswer = Got(row: Row) | UnknownJob | NoAnswer

  // One question the client asked, and its answer.
  datatype Call =
    | Posted(answer: ClaimAnswer)
    | AskedStatus(status: StatusAnswer)
    | AskedInclusion(hash: Hash, included: Option<bool>)
    | ReadBalance(balance: Option<nat>)

  // One round of the reconciliation: what the service answered, if it was
  // asked; the hash held after that and the unknown-key answers in a row; and
  // the two reads of the chain, unless the answer ended the drop.
  datatype Round = Round(asked: Option<StatusAnswer>, hash: Option<Hash>, missing: nat, seen: Option<Observation>)

  // ---- what a round is ---------------------------------------------------------------

  // The calls of a round, in their order: the status first, then the inclusion
  // of the hash if one is held, then the balance.
  ghost function CallsOf(round: Round): seq<Call> {
    (if round.asked.Some? then [AskedStatus(round.asked.value)] else [])
    + (if round.seen.None? then []
       else (if round.hash.Some? then [AskedInclusion(round.hash.value, round.seen.value.included)] else [])
            + [ReadBalance(round.seen.value.balance)])
  }

  ghost function Log(rounds: seq<Round>): seq<Call> {
    if rounds == [] then [] else Log(rounds[..|rounds| - 1]) + CallsOf(rounds[|rounds| - 1])
  }

  // The row a round goes by: the first answer's, or the one it was told of.
  function RecordOf(first: Option<Row>, asked: Option<StatusAnswer>): Option<Row> {
    match asked
    case None => first
    case Some(Got(row)) => Some(row)
    case Some(_) => None
  }

  // The row has this transaction hash, and it is one: 64 hex digits.
  ghost predicate Names(record: Option<Row>, hash: Hash) {
    && record.Some? && record.value.txHash == Some(hash) && |hash| == 64
    && forall k | 0 <= k < |hash| :: '0' <= hash[k] <= '9' || 'a' <= hash[k] <= 'f' || 'A' <= hash[k] <= 'F'
  }

  // The first valid hash is kept; before there is one, none is held.
  ghost predicate HoldsFirst(record: Option<Row>, before: Option<Hash>, after: Option<Hash>) {
    if before.Some? then after == before
    else if after.Some? then Names(record, after.value)
    else forall hash :: !Names(record, hash)
  }

  // So the code latches a hash, and keeps it when there is no row.
  lemma LatchesFirst(row: Row, hash: Option<Hash>)
    ensures HoldsFirst(Some(row), hash, Latched(hash, row))
  {
  }

  lemma NothingToHold(record: Option<Row>, hash: Option<Hash>)
    ensures record.None? ==> HoldsFirst(record, hash, hash)
  {
  }

  // The round needs no reads: the row failed without a hash, or the key was
  // unknown a third time in a row and no hash is held.
  ghost predicate IsOver(record: Option<Row>, round: Round) {
    || (record.Some? && record.value.status.Failed? && round.hash.None?)
    || (round.asked == Some(UnknownJob) && round.hash.None? && round.missing >= 3)
  }

  // A round after another: the service is asked unless its first answer is
  // still at hand.
  ghost predicate RoundOk(first: Option<Row>, previous: Option<Round>, round: Round) {
    var hash, missing := if previous.Some? then previous.value.hash else None,
                         if previous.Some? then previous.value.missing else 0;
    && (round.asked.None? <==> previous.None? && first.Some?)
    && HoldsFirst(RecordOf(first, round.asked), hash, round.hash)
    && round.missing == (match round.asked
                         case Some(Got(_)) => 0
                         case Some(UnknownJob) => missing + 1
                         case _ => missing)
    && (round.seen.None? <==> IsOver(RecordOf(first, round.asked), round))
    && (round.seen.Some? ==>
          round.seen.value.rotated.None? && (round.hash.None? ==> round.seen.value.included.None?))
  }

  // A round that settles nothing.
  ghost predicate IsOpen(q: Request, round: Round) {
    && round.seen.Some?
    && !ShowsCredit(q.before, q.prize, round.seen.value) && !ShowsForeignChange(q.before, q.prize, round.seen.value)
  }

  function RoundBefore(rounds: seq<Round>, i: nat): Option<Round>
    requires i <= |rounds|
  {
    if i == 0 then None else Some(rounds[i - 1])
  }

  // Rounds one after another, none of which settled anything.
  ghost predicate AllOpen(q: Request, first: Option<Row>, rounds: seq<Round>) {
    forall i | 0 <= i < |rounds| :: RoundOk(first, RoundBefore(rounds, i), rounds[i]) && IsOpen(q, rounds[i])
  }

  // How the last round ended the drop.
  ghost predicate Concludes(q: Request, first: Option<Row>, last: Round, outcome: Outcome, timeIsUp: bool) {
    var record := RecordOf(first, last.asked);
    match outcome
    case Refused => false
    case NotRecorded => last.seen.None? && last.asked == Some(UnknownJob)
    case Rejected => last.seen.None? && record.Some? && record.value.errorCode != Some(OutcomeUnknown)
    case Paid(hash, balance) =>
      && last.seen.Some? && ShowsCredit(q.before, q.prize, last.seen.value)
      && last.hash == Some(hash) && balance == q.before + q.prize
    case Unknown =>
      if last.seen.None? then record.Some? && record.value.errorCode == Some(OutcomeUnknown)
      else
        && !ShowsCredit(q.before, q.prize, last.seen.value)
        && (timeIsUp || ShowsForeignChange(q.before, q.prize, last.seen.value))
  }

  // The whole reconciliation: rounds that settle nothing, and one that does or
  // comes when the time is up.
  ghost predicate Reconciled(q: Request, first: Option<Row>, rounds: seq<Round>, outcome: Outcome, timeIsUp: bool) {
    && rounds != []
    && var n := |rounds| - 1;
       && AllOpen(q, first, rounds[..n]) && RoundOk(first, RoundBefore(rounds, n), rounds[n])
       && Concludes(q, first, rounds[n], outcome, timeIsUp)
  }

  lemma OneMoreOpen(q: Request, first: Option<Row>, rounds: seq<Round>, round: Round)
    requires AllOpen(q, first, rounds) && RoundOk(first, RoundBefore(rounds, |rounds|), round) && IsOpen(q, round)
    ensures AllOpen(q, first, rounds + [round])
  {
    hide RoundOk, IsOpen;
    var longer := rounds + [round];
    forall i | 0 <= i < |longer|
      ensures RoundOk(first, RoundBefore(longer, i), longer[i]) && IsOpen(q, longer[i])
    {
      assert i < |rounds| ==> RoundBefore(longer, i) == RoundBefore(rounds, i) && longer[i] == rounds[i];
    }
  }

  lemma OneLastRound(q: Request, first: Option<Row>, rounds: seq<Round>, round: Round, outcome: Outcome, timeIsUp: bool)
    requires AllOpen(q, first, rounds) && RoundOk(first, RoundBefore(rounds, |rounds|), round)
    requires Concludes(q, first, round, outcome, timeIsUp)
    ensures Reconciled(q, first, rounds + [round], outcome, timeIsUp)
  {
    hide RoundOk, IsOpen, AllOpen, Concludes;
    var longer := rounds + [round];
    assert longer[..|longer| - 1] == rounds && RoundBefore(longer, |rounds|) == RoundBefore(rounds, |rounds|);
  }

  lemma LogGrows(rounds: seq<Round>, round: Round)
    ensures Log(rounds + [round]) == Log(rounds) + CallsOf(round)
  {
    hide CallsOf;
    var longer := rounds + [round];
    assert longer[..|longer| - 1] == rounds;
  }

  class ClaimDrop {
    const request: Request
    const pollInterval: nat
    const reconciliationDeadline: nat
    // The world: the service, the fate of the POST, and the time.
    var service: P.Service
    var post: Post
    var clock: nat
    ghost var place: ClaimDrops.Place
    ghost var late: bool
    ghost var served: bool
    ghost var calls: seq<Call>
    var twice: bool

    ghost function View(): Joint
      reads this
    {
      Joint(service, post, place, late, served, twice)
    }

    ghost predicate Valid()
      reads this
    {
      Reachable(request, View())
    }

    constructor (request: Request, pollInterval: nat, reconciliationDeadline: nat)
      ensures Valid() && place == Asking && this.request == request && calls == []
      ensures this.pollInterval == pollInterval && this.reconciliationDeadline == reconciliationDeadline
    {
      this.request, this.pollInterval, this.reconciliationDeadline := request, pollInterval, reconciliationDeadline;
      service, post, clock := P.START, InFlight, 0;
      place, late, served, twice, calls := Asking, false, false, false, [];
      new;
      StartIsReachable(request);
    }

    // Everyone but the client acts.
    method Elapse()
      requires Valid()
      modifies this`service, this`post, this`served, this`twice
      ensures Valid() && old(service.landed) <= service.landed
    {
      hide Reachable, Run;
      var more: nat := *;
      while more > 0
        invariant Valid() && old(service.landed) <= service.landed
      {
        ghost var before := View();
        if * {
          var step: P.Step := *;
          ghost var after := Reach(request, before, Others(step));
          LandedOnlyGrows(request.prize, service, step);
          twice := twice || IsDuplicate(request, service, step);
          service := P.Apply(request.prize, service, step);
        } else if * {
          var insert: bool, answered: bool, ipHash: string, now: int := *, *, *, *;
          if post.InFlight? {
            ghost var after := Reach(request, before, HandlePost(insert, answered, ipHash, now));
            var next :=
              Handled(request, Joint(service, post, Asking, false, false, twice), insert, answered, ipHash, now);
            service, post, served := next.service, next.post, after.served;
          }
        } else if post.InFlight? {
          ghost var after := Reach(request, before, DropPost);
          post := NeverArrives;
        }
        more := more - 1;
      }
    }

    // The POST. A lost reply and a failing service are one and the same.
    method Claim() returns (answer: ClaimAnswer)
      requires Valid() && place == Asking
      modifies this
      ensures Valid()
      ensures place == match answer
                       case Recorded(row) => Polling(Some(row), None, 0)
                       case TurnedDown => Done(Refused)
                       case NoUsableAnswer => Polling(None, None, 0)
      ensures clock == old(clock) && calls == old(calls) + [Posted(answer)]
    {
      hide Reachable, Run;
      Elapse();
      var arrives: bool := *;
      ghost var after;
      if arrives && post.Resolved? {
        after := Reach(request, View(), ReceiveReply);
        match post.reply {
          case Answer(row) => answer := Recorded(row);
          case Refusal => answer := TurnedDown;
          case Trouble => answer := NoUsableAnswer;
        }
        place := after.place;
      } else {
        after := Reach(request, View(), LoseReply);
        answer := NoUsableAnswer;
        place, late := after.place, after.late;
      }
      calls := calls + [Posted(answer)];
    }

    method Status(ghost hash: Option<Hash>, ghost missing: nat) returns (answer: StatusAnswer)
      requires Valid() && place == Polling(None, hash, missing)
      modifies this
      ensures Valid()
      ensures place == match answer
                       case Got(row) => Polling(Some(row), hash, 0)
                       case NoAnswer => Looking(hash, missing)
                       case UnknownJob =>
                         if hash.None? && missing + 1 >= NOT_RECORDED_CONFIRMATIONS
                         then Done(NotRecorded) else Looking(hash, missing + 1)
      ensures clock == old(clock) && calls == old(calls) + [AskedStatus(answer)]
    {
      hide Reachable, Run;
      Elapse();
      var answered: bool := *;
      ghost var after;
      if answered {
        after := Reach(request, View(), ReadStatus);
        answer := if request.id in service.rows then Got(service.rows[request.id]) else UnknownJob;
      } else {
        after := Reach(request, View(), MissStatus);
        answer := NoAnswer;
      }
      place, calls := after.place, calls + [AskedStatus(answer)];
    }

    // The two reads of a round, inclusion first, and what they prove.
    method Observe(hash: Option<Hash>, ghost missing: nat) returns (seen: Observation)
      requires Valid() && place == Looking(hash, missing)
      modifies this
      ensures Valid() && seen.rotated.None? && clock == old(clock)
      ensures place == AfterReads(request, hash, missing, seen.included, seen.balance)
      ensures hash.None? ==> seen.included.None?
      ensures calls == old(calls) + (if hash.Some? then [AskedInclusion(hash.value, seen.included)] else [])
                                 + [ReadBalance(seen.balance)]
    {
      hide Reachable, Run;
      Elapse();
      var included: Option<bool> := *;
      if hash.None? || (included == Some(true) && hash.value !in service.landed) {
        included := None;
      }
      if hash.Some? {
        calls := calls + [AskedInclusion(hash.value, included)];
      }
      Elapse();
      var balance: Option<nat> := *;
      ghost var after := Reach(request, View(), Judge(included, balance));
      place, calls := after.place, calls + [ReadBalance(balance)];
      seen := Observation(included, balance, None);
    }

    method Sleep(span: nat)
      modifies this`clock
      ensures clock >= old(clock) + span
    {
      var longer: int := *;
      clock := clock + span + if longer > 0 then longer else 0;
    }

    /**
     * Ends in the place of the machine that matches its outcome, after at most
     * RoundBound rounds. The POST is not repeated; the calls are those of the
     * rounds, in which the service is asked unless its first answer is at hand,
     * the chain for the hash if one is held, and the balance always; and the
     * outcome is the one the last round's answers give.
     */
    method Reconcile(first: Option<Row>) returns (outcome: Outcome, ghost rounds: seq<Round>)
      requires Valid() && place == Polling(first, None, 0) && pollInterval > 0
      modifies this
      ensures Valid() && place == Done(outcome)
      ensures |rounds| <= RoundBound(pollInterval, reconciliationDeadline)
      ensures calls == old(calls) + Log(rounds)
      ensures Reconciled(request, first, rounds, outcome, clock >= old(clock) + reconciliationDeadline)
    {
      hide Reachable, Run, RoundBound, Interval, Slept, Classify, AllOpen, RoundOk, IsOpen, Reconciled, Concludes, Log,
           CallsOf;
      var deadline := clock + reconciliationDeadline;
      var interval := pollInterval;
      var record := first;
      var txHash: Option<Hash> := None;
      var notRecorded: nat := 0;
      rounds := [];
      SomeRounds(pollInterval, reconciliationDeadline);
      NoSleepYet(pollInterval);
      NoRoundsYet(request, first);
      ghost var bound := RoundBound(pollInterval, reconciliationDeadline);
      while true
        invariant Valid() && place == Polling(record, txHash, notRecorded)
        invariant record == (if rounds == [] then first else None) && AllOpen(request, first, rounds)
        invariant txHash == (if rounds == [] then None else rounds[|rounds| - 1].hash)
        invariant notRecorded == (if rounds == [] then 0 else rounds[|rounds| - 1].missing)
        invariant calls == old(calls) + Log(rounds)
        invariant interval == Interval(pollInterval, |rounds|)
        invariant clock + reconciliationDeadline >= deadline + Slept(pollInterval, |rounds|)
        invariant |rounds| < bound
        decreases bound - |rounds|
      {
        var over;
        ghost var round, earlier := Round(None, None, 0, None), rounds;
        txHash, notRecorded, over, round := RunRound(record, txHash, notRecorded, clock >= deadline, first,
                                                     RoundBefore(rounds, |rounds|));
        LogGrows(earlier, round);
        rounds := rounds + [round];
        if over.Some? {
          OneLastRound(request, first, earlier, round, over.value, clock >= deadline);
          return over.value, rounds;
        }
        OneMoreOpen(request, first, earlier, round);
        if |rounds| >= bound {
          BoundSuffices(pollInterval, reconciliationDeadline, |rounds| - 1);
        }
        record := None;
        Sleep(interval);
        NextSleep(pollInterval, |earlier|);
        interval := Min(2 * interval, MAX_INTERVAL);
      }
    }

    // One round: the service, the chain, and what they settle. A round that
    // settles nothing ends the drop only when the time is up.
    method RunRound(record: Option<Row>, hash: Option<Hash>, missing: nat, timeIsUp: bool,
                    ghost first: Option<Row>, ghost previous: Option<Round>)
      returns (latched: Option<Hash>, unknown: nat, over: Option<Outcome>, ghost round: Round)
      requires Valid() && place == Polling(record, hash, missing)
      requires record == if previous.None? then first else None
      requires hash == (if previous.None? then None else previous.value.hash)
      requires missing == (if previous.None? then 0 else previous.value.missing)
      modifies this
      ensures Valid() && clock == old(clock) && calls == old(calls) + CallsOf(round)
      ensures RoundOk(first, previous, round) && latched == round.hash && unknown == round.missing
      ensures over.None? ==> place == Polling(None, latched, unknown) && IsOpen(request, round) && !timeIsUp
      ensures over.Some? ==> place == Done(over.value) && Concludes(request, first, round, over.value, timeIsUp)
    {
      hide Reachable, Run, AfterReads, IsTxHash, Classify;
      ghost var asked;
      latched, unknown, over, asked := Learn(record, hash, missing);
      round := Round(asked, latched, unknown, None);
      if over.Some? { return; }
      var seen := Observe(latched, unknown);
      round := round.(seen := Some(seen));
      DecidesByReadings(request.before, request.prize, seen);
      match Classify(request.before, request.before + request.prize, seen) {
        case Credited =>
          AfterCredited(request, latched, unknown, seen);
          over := Some(Paid(latched.value, request.before + request.prize));
        case Unattributable =>
          AfterUnattributable(request, latched, unknown, seen);
          over := Some(Unknown);
        case _ =>
          AfterUndecided(request, latched, unknown, seen);
      }
      if over.None? && timeIsUp {
        StopAsking();
        over := Some(Unknown);
      }
    }

    // Ask the service unless its first answer is still at hand, keep the first
    // valid hash, and stop on an answer that ends the drop.
    method Learn(record: Option<Row>, hash: Option<Hash>, missing: nat)
      returns (latched: Option<Hash>, unknown: nat, over: Option<Outcome>, ghost asked: Option<StatusAnswer>)
      requires Valid() && place == Polling(record, hash, missing)
      modifies this
      ensures Valid() && clock == old(clock)
      ensures calls == old(calls) + if asked.Some? then [AskedStatus(asked.value)] else []
      ensures over.None? ==> place == Looking(latched, unknown)
      ensures over.Some? ==> place == Done(over.value)
      ensures asked.None? <==> record.Some?
      ensures HoldsFirst(RecordOf(record, asked), hash, latched)
      ensures unknown == match asked
                         case Some(Got(_)) => 0
                         case Some(UnknownJob) => missing + 1
                         case _ => missing
      ensures over.Some? <==> IsOver(RecordOf(record, asked), Round(asked, latched, unknown, None))
      ensures over.Some? ==> Concludes(request, record, Round(asked, latched, unknown, None), over.value, false)
    {
      hide Reachable, Run, IsTxHash, HoldsFirst;
      NothingToHold(None, hash);
      latched, unknown, over, asked := hash, missing, None, None;
      var latest := record;
      if record.None? {
        var answer := Status(hash, missing);
        asked := Some(answer);
        match answer {
          case Got(row) =>
            unknown := 0;
            latest := Some(row);
          case UnknownJob =>
            unknown := unknown + 1;
            if hash.None? && unknown >= NOT_RECORDED_CONFIRMATIONS {
              over := Some(NotRecorded);
              return;
            }
          case NoAnswer =>
        }
      }
      if latest.None? { return; }
      var row := latest.value;
      if latched.None? && row.txHash.Some? && IsTxHash(row.txHash.value) {
        latched := row.txHash;
      }
      LatchesFirst(row, hash);
      Take();
      if row.status.Failed? && latched.None? {
        over := Some(if row.errorCode == Some(OutcomeUnknown) then Unknown else Rejected);
      }
    }

    // The time is up.
    ghost method StopAsking()
      requires Valid() && place.Polling? && place.record.None?
      modifies this`place
      ensures Valid() && place == Done(Unknown)
    {
      hide Reachable, Run;
      var after := Reach(request, View(), ClaimDrops.GiveUp);
      place := after.place;
    }

    // What the record says, taken into account.
    ghost method Take()
      requires Valid() && place.Polling? && place.record.Some?
      modifies this`place
      ensures Valid() && place == AfterRecord(old(place).record.value, old(place).hash, old(place).missing)
    {
      hide Reachable, Run;
      var after := Reach(request, View(), TakeRecord);
      place := after.place;
    }

    /**
     * One drop through the claim service, from the POST to its outcome: refused
     * exactly if the service answered so, and otherwise what the reconciliation
     * comes to, starting from the row of the answer if there was one. With
     * OutcomesAreTrue this says what the outcome is worth on the chain.
     */
    method RunClaimApiDrop() returns (outcome: Outcome, ghost answer: ClaimAnswer, ghost rounds: seq<Round>)
      requires Valid() && place == Asking && pollInterval > 0
      modifies this
      ensures Valid() && place == Done(outcome)
      ensures calls == old(calls) + [Posted(answer)] + Log(rounds)
      ensures |rounds| <= RoundBound(pollInterval, reconciliationDeadline)
      ensures var timeIsUp := clock >= old(clock) + reconciliationDeadline;
              match answer
              case TurnedDown => outcome == Refused && rounds == []
              case Recorded(row) => Reconciled(request, Some(row), rounds, outcome, timeIsUp)
              case NoUsableAnswer => Reconciled(request, None, rounds, outcome, timeIsUp)
    {
      hide Reachable, Run, Reconciled, RoundBound;
      rounds := [];
      var answered := Claim();
      answer := answered;
      match answered {
        case Recorded(row) => outcome, rounds := Reconcile(Some(row));
        case TurnedDown => outcome := Refused;
        case NoUsableAnswer => outcome, rounds := Reconcile(None);
      }
    }
  }

  lemma NoRoundsYet(q: Request, first: Option<Row>)
    ensures AllOpen(q, first, []) && Log([]) == []
  {
  }

  // The three ways a round's reads can leave the client.
  lemma AfterCredited(q: Request, hash: Option<Hash>, missing: nat, seen: Observation)
    requires seen.rotated.None? && Classify(q.before, q.before + q.prize, seen).Credited?
    ensures AfterReads(q, hash, missing, seen.included, seen.balance)
         == Done(if hash.None? then Unknown else Paid(hash.value, q.before + q.prize))
    ensures seen.balance.Some?
  {
  }

  lemma AfterUnattributable(q: Request, hash: Option<Hash>, missing: nat, seen: Observation)
    requires seen.rotated.None? && Classify(q.before, q.before + q.prize, seen).Unattributable?
    ensures AfterReads(q, hash, missing, seen.included, seen.balance) == Done(Unknown)
  {
  }

  lemma AfterUndecided(q: Request, hash: Option<Hash>, missing: nat, seen: Observation)
    requires seen.rotated.None?
    requires var d := Classify(q.before, q.before + q.prize, seen); d.Continue? || d.LostRace?
    ensures AfterReads(q, hash, missing, seen.included, seen.balance) == Polling(None, hash, missing)
  {
  }

  lemma LandedOnlyGrows(prize: nat, s: P.Service, step: P.Step)
    ensures s.landed <= P.Apply(prize, s, step).landed
  {
    hide P.NextPlace, P.Bump;
  }
}
