/**
 * The payout service as a state machine (claimd/src/worker.rs:41-263).
 *
 * One serial worker drains the ledger; handlers insert rows at any time; the
 * process may die between any two of its steps, and during a send; every
 * ledger statement may fail. The chain keeps its contract
 * (claimd/src/chain.rs:9-22): a send that reports Rejected,
 * InsufficientFunds or Rpc moved nothing; after one that reports an unknown
 * outcome the transaction is either accepted or not, and its hash is lost.
 */
module Payouts {
  import opened Wrappers
  import opened ClaimLedger
  import opened FiniteSets
  import ExactU128

  const SEND_ATTEMPTS: nat := 6

  // Where the worker stands; a place that owes the ledger a write is named
  // after what it has to write.
  datatype Place =
    | Idle
    | Picked(id: RequestId)
    | Sending(id: RequestId, attempt: nat)
    | MustMark(id: RequestId, hash: Hash)
    | MustFailUnknown(id: RequestId)
    | MustFail(id: RequestId, code: FailureCode, after: Option<nat>)
    | Marked(id: RequestId, hash: Hash)
    | Polling(id: RequestId, hash: Hash, before: Option<nat>)
    | Found(id: RequestId, hash: Hash, before: Option<nat>)
    | MustInclude(id: RequestId, balance: nat)

  // accepted says which row each transaction the sequencer took pays; landed
  // are those in a block. sends counts the sends that may have been accepted,
  // faults the crashes and failed writes that struck after such a send and
  // before the ledger knew of it.
  datatype Service = Service(rows: Rows, place: Place, accepted: map<Hash, RequestId>, landed: set<Hash>,
                             sends: map<RequestId, nat>, faults: map<RequestId, nat>)

  datatype SendReply =
    | Sent(hash: Hash) | RpcError | InsufficientFunds | Rejected
    | Unknown(accepted: Option<Hash>)

  datatype Step =
    | Insert(id: RequestId, recipient: Recipient, ipHash: string, now: int)
    | Land(hash: Hash)
    | Pick(next: RequestId)
    | Refuse(code: FailureCode)
    | Baseline(before: nat)
    | Resume
    | Send(reply: SendReply)
    | Write
    | WriteFails
    | Reload
    | SeeIncluded
    | GiveUp
    | ReadAfter(after: Option<nat>)
    | Crash
    | CrashInSend(taken: Option<Hash>)

  function Tally(m: map<RequestId, nat>, id: RequestId): nat {
    if id in m then m[id] else 0
  }

  function Bump(m: map<RequestId, nat>, id: RequestId): map<RequestId, nat> {
    m[id := Tally(m, id) + 1]
  }

  function Expected(before: nat, prize: nat): nat {
    if before + prize > ExactU128.MAX then ExactU128.MAX else before + prize
  }

  const START := Service(map[], Idle, map[], {}, map[], map[])

  // The sequencer takes a transaction it has not seen.
  function Accept(s: Service, id: RequestId, hash: Hash): Service {
    s.(accepted := s.accepted[hash := id])
  }

  function AfterSend(s: Service, id: RequestId, attempt: nat, reply: SendReply): Service {
    match reply
    case Sent(hash) =>
      if hash in s.accepted then s
      else Accept(s, id, hash).(place := MustMark(id, hash), sends := Bump(s.sends, id))
    case Unknown(Some(hash)) =>
      if hash in s.accepted then s
      else Accept(s, id, hash).(place := MustFailUnknown(id), sends := Bump(s.sends, id))
    case Unknown(None) => s.(place := MustFailUnknown(id), sends := Bump(s.sends, id))
    case RpcError =>
      s.(place := if attempt < SEND_ATTEMPTS then Sending(id, attempt + 1) else MustFail(id, InternalError, None))
    case InsufficientFunds => s.(place := MustFail(id, HotBalanceLow, None))
    case Rejected => s.(place := MustFail(id, SubmissionRejected, None))
  }

  function AfterWrite(s: Service): Service {
    match s.place
    case MustMark(id, hash) => s.(rows := WithSubmission(s.rows, id, hash), place := Marked(id, hash))
    case MustFailUnknown(id) => s.(rows := WithFailure(s.rows, id, OutcomeUnknown, None), place := Idle)
    case MustFail(id, code, after) => s.(rows := WithFailure(s.rows, id, code, after), place := Idle)
    case MustInclude(id, balance) => s.(rows := WithInclusion(s.rows, id, balance), place := Idle)
    case _ => s
  }

  // The process dies, or leaves its claim after a failed statement.
  function Dropped(s: Service): Service {
    if s.place.MustMark? || s.place.MustFailUnknown?
    then s.(place := Idle, faults := Bump(s.faults, s.place.id))
    else s.(place := Idle)
  }

  // The worker goes on without writing or sending: it picks a claim, decides
  // against it, resumes it, or learns something about it.
  function NextPlace(prize: nat, s: Service, step: Step): Place {
    match step
    case Pick(next) => if s.place.Idle? && IsNextPending(s.rows, next) then Picked(next) else s.place
    case Refuse(code) => if HasFreshClaim(s) && !code.OutcomeUnknown? then MustFail(s.place.id, code, None) else s.place
    case Resume =>
      if s.place.Picked? && s.place.id in s.rows && s.rows[s.place.id].txHash.Some?
      then Polling(s.place.id, s.rows[s.place.id].txHash.value, s.rows[s.place.id].balanceBefore)
      else s.place
    case Reload =>
      if s.place.Marked? && s.place.id in s.rows
      then Polling(s.place.id, s.place.hash, s.rows[s.place.id].balanceBefore)
      else s.place
    case SeeIncluded =>
      if s.place.Polling? && s.place.hash in s.landed then Found(s.place.id, s.place.hash, s.place.before) else s.place
    case GiveUp => if s.place.Polling? then MustFail(s.place.id, OutcomeUnknown, None) else s.place
    case ReadAfter(after) =>
      if !s.place.Found? then s.place
      else if after.Some? && s.place.before.Some? && after.value == Expected(s.place.before.value, prize)
      then MustInclude(s.place.id, after.value)
      else MustFail(s.place.id, OutcomeUnknown, after)
    case _ => s.place
  }

  predicate HasFreshClaim(s: Service) {
    s.place.Picked? && s.place.id in s.rows && s.rows[s.place.id].txHash.None?
  }

  function Inserted(s: Service, id: RequestId, row: Row): Service {
    if id in s.rows then s else s.(rows := s.rows[id := row])
  }

  function Landed(s: Service, hash: Hash): Service {
    if hash in s.accepted then s.(landed := s.landed + {hash}) else s
  }

  function Based(s: Service, before: nat): Service {
    if HasFreshClaim(s)
    then s.(rows := WithBefore(s.rows, s.place.id, before), place := Sending(s.place.id, 1))
    else s
  }

  function Died(s: Service, taken: Option<Hash>): Service {
    if !s.place.Sending? || (taken.Some? && taken.value in s.accepted) then s
    else
      var t := if taken.Some? then Accept(s, s.place.id, taken.value) else s;
      t.(place := Idle, sends := Bump(s.sends, s.place.id), faults := Bump(s.faults, s.place.id))
  }

  // A step that is not enabled changes nothing.
  function Apply(prize: nat, s: Service, step: Step): Service {
    match step
    case Insert(id, recipient, ipHash, now) => Inserted(s, id, QueuedRow(recipient, ipHash, now))
    case Land(hash) => Landed(s, hash)
    case Baseline(before) => Based(s, before)
    case Send(reply) => if s.place.Sending? then AfterSend(s, s.place.id, s.place.attempt, reply) else s
    case Write => AfterWrite(s)
    case WriteFails => Dropped(s)
    case Crash => Dropped(s)
    case CrashInSend(taken) => Died(s, taken)
    case _ => s.(place := NextPlace(prize, s, step))
  }

  function Run(prize: nat, s: Service, steps: seq<Step>): Service
    decreases |steps|
  {
    if steps == [] then s else Apply(prize, Run(prize, s, steps[..|steps| - 1]), steps[|steps| - 1])
  }

  // ---- invariant -----------------------------------------------------------------------

  // What a row of each status holds.
  predicate RowOk(prize: nat, row: Row) {
    && (row.status.Queued? ==> row.txHash.None? && row.balanceAfter.None? && row.errorCode.None?)
    && (row.status.Submitted? ==> row.txHash.Some? && row.balanceAfter.None? && row.errorCode.None?)
    && (row.status.Included? ==>
          row.txHash.Some? && row.errorCode.None? && row.balanceBefore.Some?
          && row.balanceAfter == Some(Expected(row.balanceBefore.value, prize)))
    && (row.status.Failed? ==> row.errorCode.Some? && (row.txHash.Some? ==> row.errorCode == Some(OutcomeUnknown)))
    && (row.txHash.Some? ==> row.balanceBefore.Some?)
  }

  // A stored hash is one of this row's accepted transactions, and an included
  // row's is in a block.
  predicate HashOk(s: Service, id: RequestId, row: Row) {
    && (row.txHash.Some? ==> row.txHash.value in s.accepted && s.accepted[row.txHash.value] == id)
    && (row.status.Included? ==> row.txHash.Some? && row.txHash.value in s.landed)
  }

  predicate PlaceOk(prize: nat, s: Service) {
    match s.place
    case Idle => true
    case Picked(id) => id in s.rows && IsPending(s.rows[id])
    case Sending(id, attempt) =>
      id in s.rows && s.rows[id].status.Queued? && s.rows[id].balanceBefore.Some? && 1 <= attempt <= SEND_ATTEMPTS
    case MustMark(id, hash) =>
      && id in s.rows && s.rows[id].status.Queued? && s.rows[id].balanceBefore.Some?
      && hash in s.accepted && s.accepted[hash] == id
    case MustFailUnknown(id) => id in s.rows && s.rows[id].status.Queued?
    case MustFail(id, code, after) =>
      id in s.rows && IsPending(s.rows[id]) && (code.OutcomeUnknown? <==> s.rows[id].status.Submitted?)
    case Marked(id, hash) => id in s.rows && s.rows[id].status.Submitted? && s.rows[id].txHash == Some(hash)
    case Polling(id, hash, before) => PollsOk(s, id, hash, before)
    case Found(id, hash, before) => PollsOk(s, id, hash, before) && hash in s.landed
    case MustInclude(id, balance) =>
      && id in s.rows && s.rows[id].status.Submitted? && s.rows[id].txHash.Some? && s.rows[id].txHash.value in s.landed
      && s.rows[id].balanceBefore.Some? && balance == Expected(s.rows[id].balanceBefore.value, prize)
  }

  predicate PollsOk(s: Service, id: RequestId, hash: Hash, before: Option<nat>) {
    id in s.rows && s.rows[id].status.Submitted? && s.rows[id].txHash == Some(hash)
      && s.rows[id].balanceBefore == before
  }

  // The ledger knows of one possibly accepted send of the row, or the worker
  // is about to tell it.
  predicate KnowsOfSend(s: Service, id: RequestId) {
    || (id in s.rows && (s.rows[id].txHash.Some? || s.rows[id].errorCode == Some(OutcomeUnknown)))
    || ((s.place.MustMark? || s.place.MustFailUnknown?) && s.place.id == id)
  }

  predicate SendsOk(s: Service, id: RequestId) {
    Tally(s.sends, id) <= Tally(s.faults, id) + if KnowsOfSend(s, id) then 1 else 0
  }

  ghost predicate Inv(prize: nat, s: Service) {
    && (forall id | id in s.rows :: RowOk(prize, s.rows[id]) && HashOk(s, id, s.rows[id]))
    && PlaceOk(prize, s)
    && (forall id :: SendsOk(s, id))
    && (forall hash | hash in s.accepted :: Tally(s.sends, s.accepted[hash]) > 0)
    && (forall id | id in s.sends :: id in s.rows)
  }

  // ---- every step keeps it -----------------------------------------------------------------

  lemma PickedRowIsOk(prize: nat, s: Service, id: RequestId)
    requires Inv(prize, s) && id in s.rows
    ensures RowOk(prize, s.rows[id]) && HashOk(s, id, s.rows[id])
  {
  }

  lemma NextPlaceKeeps(prize: nat, s: Service, step: Step)
    requires Inv(prize, s)
    ensures Inv(prize, s.(place := NextPlace(prize, s, step)))
  {
    hide SendsOk, Expected;
    var t := s.(place := NextPlace(prize, s, step));
    if !t.place.Idle? && t.place.id in s.rows {
      PickedRowIsOk(prize, s, t.place.id);
    }
    assert PlaceOk(prize, t);
    SamePlaceSends(s, t);
  }

  lemma SamePlaceSends(s: Service, t: Service)
    requires t == s.(place := t.place) && (forall id :: SendsOk(s, id))
    requires t.place == s.place || !(s.place.MustMark? || s.place.MustFailUnknown?)
    ensures forall id :: SendsOk(t, id)
  {
    forall id
      ensures SendsOk(t, id)
    {
      assert SendsOk(s, id);
    }
  }

  lemma InsertedKeeps(prize: nat, s: Service, id: RequestId, row: Row)
    requires Inv(prize, s) && row.status.Queued? && RowOk(prize, row)
    ensures Inv(prize, Inserted(s, id, row))
  {
    hide Expected;
    var t := Inserted(s, id, row);
    forall other
      ensures SendsOk(t, other)
    {
      assert SendsOk(s, other);
    }
  }

  lemma LandedKeeps(prize: nat, s: Service, hash: Hash)
    requires Inv(prize, s)
    ensures Inv(prize, Landed(s, hash))
  {
    hide Expected;
    var t := Landed(s, hash);
    forall id
      ensures SendsOk(t, id)
    {
      assert SendsOk(s, id);
    }
  }

  lemma BasedKeeps(prize: nat, s: Service, before: nat)
    requires Inv(prize, s)
    ensures Inv(prize, Based(s, before))
  {
    hide Expected;
    var t := Based(s, before);
    if HasFreshClaim(s) {
      PickedRowIsOk(prize, s, s.place.id);
    }
    forall id
      ensures SendsOk(t, id)
    {
      assert SendsOk(s, id);
    }
  }

  // A send that may have been accepted, known to the worker or lost with it.
  lemma TakenKeeps(prize: nat, s: Service, t: Service, id: RequestId, taken: Option<Hash>)
    requires Inv(prize, s) && s.place.Sending? && s.place.id == id
    requires taken.Some? ==> taken.value !in s.accepted
    requires t.rows == s.rows && t.landed == s.landed && t.sends == Bump(s.sends, id)
    requires t.accepted == if taken.Some? then s.accepted[taken.value := id] else s.accepted
    requires PlaceOk(prize, t) && (t.place.Idle? || t.place.id == id)
    requires if t.place.MustMark?
         || t.place.MustFailUnknown? then t.faults == s.faults else t.faults == Bump(s.faults, id)
    ensures Inv(prize, t)
  {
    hide Expected;
    PickedRowIsOk(prize, s, id);
    forall other
      ensures SendsOk(t, other)
    {
      assert SendsOk(s, other);
    }
  }

  lemma AfterSendKeeps(prize: nat, s: Service, reply: SendReply)
    requires Inv(prize, s) && s.place.Sending?
    ensures Inv(prize, AfterSend(s, s.place.id, s.place.attempt, reply))
  {
    hide Expected, SendsOk, Bump;
    var id := s.place.id;
    var t := AfterSend(s, id, s.place.attempt, reply);
    match reply
    case Sent(hash) => if hash !in s.accepted { TakenKeeps(prize, s, t, id, Some(hash)); }
    case Unknown(taken) => if taken.None? || taken.value !in s.accepted { TakenKeeps(prize, s, t, id, taken); }
    case _ => SamePlaceSends(s, t);
  }

  // The worker writes the row it stands at and moves on.
  lemma WrittenKeeps(prize: nat, s: Service, t: Service, id: RequestId)
    requires Inv(prize, s) && !s.place.Idle? && s.place.id == id && id in s.rows
    requires id in t.rows && t == s.(rows := s.rows[id := t.rows[id]], place := t.place)
    requires RowOk(prize, t.rows[id]) && HashOk(t, id, t.rows[id]) && PlaceOk(prize, t) && SendsOk(t, id)
    requires t.place.Idle? || t.place.id == id
    ensures Inv(prize, t)
  {
    hide RowOk, PlaceOk;
    forall other
      ensures SendsOk(t, other)
    {
      assert SendsOk(s, other);
    }
  }

  lemma AfterWriteKeeps(prize: nat, s: Service)
    requires Inv(prize, s)
    ensures Inv(prize, AfterWrite(s))
  {
    hide Expected, Tally;
    if s.place.MustMark? || s.place.MustFailUnknown? || s.place.MustFail? || s.place.MustInclude? {
      PickedRowIsOk(prize, s, s.place.id);
      assert SendsOk(s, s.place.id);
      WrittenKeeps(prize, s, AfterWrite(s), s.place.id);
    }
  }

  lemma DroppedKeeps(prize: nat, s: Service)
    requires Inv(prize, s)
    ensures Inv(prize, Dropped(s))
  {
    hide Expected, RowOk;
    var t := Dropped(s);
    forall id
      ensures SendsOk(t, id)
    {
      assert SendsOk(s, id);
    }
  }

  lemma DiedKeeps(prize: nat, s: Service, taken: Option<Hash>)
    requires Inv(prize, s)
    ensures Inv(prize, Died(s, taken))
  {
    hide Expected, RowOk, SendsOk, Bump;
    if s.place.Sending? && (taken.None? || taken.value !in s.accepted) {
      TakenKeeps(prize, s, Died(s, taken), s.place.id, taken);
    }
  }

  lemma ApplyKeeps(prize: nat, s: Service, step: Step)
    requires Inv(prize, s)
    ensures Inv(prize, Apply(prize, s, step))
  {
    hide Inv, NextPlace, Inserted, Landed, Based, AfterSend, AfterWrite, Dropped, Died;
    match step
    case Insert(id, recipient, ipHash, now) => InsertedKeeps(prize, s, id, QueuedRow(recipient, ipHash, now));
    case Land(hash) => LandedKeeps(prize, s, hash);
    case Baseline(before) => BasedKeeps(prize, s, before);
    case Send(reply) => if s.place.Sending? { AfterSendKeeps(prize, s, reply); }
    case Write => AfterWriteKeeps(prize, s);
    case WriteFails => DroppedKeeps(prize, s);
    case Crash => DroppedKeeps(prize, s);
    case CrashInSend(taken) => DiedKeeps(prize, s, taken);
    case _ => NextPlaceKeeps(prize, s, step);
  }

  lemma {:induction false} RunKeeps(prize: nat, s: Service, steps: seq<Step>)
    requires Inv(prize, s)
    ensures Inv(prize, Run(prize, s, steps))
    decreases |steps|
  {
    hide Inv, Apply;
    if steps != [] {
      RunKeeps(prize, s, steps[..|steps| - 1]);
      ApplyKeeps(prize, Run(prize, s, steps[..|steps| - 1]), steps[|steps| - 1]);
    }
  }

  // ---- what holds on every run ----------------------------------------------------------------

  ghost predicate Reachable(prize: nat, s: Service) {
    exists steps :: s == Run(prize, START, steps)
  }

  lemma ReachableKeepsInv(prize: nat, s: Service)
    requires Reachable(prize, s)
    ensures Inv(prize, s)
  {
    hide Run;
    var steps :| s == Run(prize, START, steps);
    RunKeeps(prize, START, steps);
  }

  /**
   * The ledger on every reachable state: what each status holds, that a stored
   * hash is one of the row's own accepted transactions, and that an included
   * row is in a block and shows exactly one prize, saturating.
   */
  lemma LedgerIsConsistent(prize: nat, s: Service, id: RequestId)
    requires Reachable(prize, s) && id in s.rows
    ensures RowOk(prize, s.rows[id]) && HashOk(s, id, s.rows[id])
  {
    ReachableKeepsInv(prize, s);
  }

  // The branch for rows that are neither queued without a hash nor submitted
  // with one is never taken.
  lemma InconsistentRowIsUnreachable(prize: nat, s: Service)
    requires Reachable(prize, s) && s.place.Picked?
    ensures s.place.id in s.rows
    ensures var row := s.rows[s.place.id];
            (row.status.Queued? && row.txHash.None?) || (row.status.Submitted? && row.txHash.Some?)
  {
    ReachableKeepsInv(prize, s);
    PickedRowIsOk(prize, s, s.place.id);
  }

  /**
   * However often the service dies or loses a write, the sends of one row that
   * may have been accepted number at most one more than the faults that struck
   * between such a send and the write after it; no more than the faults while
   * the row is queued and the worker owes it nothing, or once it failed with a
   * code other than outcome_unknown.
   */
  lemma PossibleSendsAreBounded(prize: nat, s: Service, id: RequestId)
    requires Reachable(prize, s)
    ensures Tally(s.sends, id) <= Tally(s.faults, id) + 1
    ensures !KnowsOfSend(s, id) ==> Tally(s.sends, id) <= Tally(s.faults, id)
  {
    ReachableKeepsInv(prize, s);
    assert SendsOk(s, id);
  }

  // A row that failed before it reached the chain, in a service that had no
  // such fault, has no transaction anywhere.
  lemma CleanFailureMovedNothing(prize: nat, s: Service, id: RequestId, hash: Hash)
    requires Reachable(prize, s) && id in s.rows && s.rows[id].status.Failed? && s.rows[id].txHash.None?
    requires s.rows[id].errorCode != Some(OutcomeUnknown) && Tally(s.faults, id) == 0
    ensures hash in s.accepted ==> s.accepted[hash] != id
  {
    ReachableKeepsInv(prize, s);
    PickedRowIsOk(prize, s, id);
    assert SendsOk(s, id);
    if s.place.MustMark? || s.place.MustFailUnknown? {
      PickedRowIsOk(prize, s, s.place.id);
    }
  }

  // The transactions the sequencer took for the row.
  function AcceptedOf(s: Service, id: RequestId): set<Hash> {
    set hash | hash in s.accepted && s.accepted[hash] == id
  }

  lemma ApplyCountsAccepted(prize: nat, s: Service, step: Step, id: RequestId)
    requires |AcceptedOf(s, id)| <= Tally(s.sends, id)
    ensures |AcceptedOf(Apply(prize, s, step), id)| <= Tally(Apply(prize, s, step).sends, id)
  {
    hide NextPlace, Inserted, Landed, AfterWrite, Based;
    var t := Apply(prize, s, step);
    AcceptedGrowsByOne(prize, s, step);
    if t.accepted == s.accepted {
      assert AcceptedOf(t, id) == AcceptedOf(s, id);
    } else {
      var hash :| t.accepted == s.accepted[hash := s.place.id];
      SubsetIsSmaller(AcceptedOf(t, id), if id == s.place.id then AcceptedOf(s, id) + {hash} else AcceptedOf(s, id));
    }
  }

  lemma AcceptedGrowsByOne(prize: nat, s: Service, step: Step)
    ensures var t := Apply(prize, s, step);
            || (t.accepted == s.accepted && forall id :: Tally(t.sends, id) >= Tally(s.sends, id))
            || (s.place.Sending? && t.sends == Bump(s.sends, s.place.id)
                && exists hash :: hash !in s.accepted && t.accepted == s.accepted[hash := s.place.id])
  {
    hide NextPlace, AfterSend, Bump, Tally;
    if step.Send? && s.place.Sending? {
      SendTakesOne(s, step.reply);
    } else if step.CrashInSend? {
      CrashTakesOne(s, step.taken);
    }
  }

  // The sequencer takes nothing, or this one transaction for the row.
  predicate TakesOne(s: Service, t: Service, taken: Option<Hash>)
    requires s.place.Sending?
  {
    if taken.None? then t.accepted == s.accepted && t.sends in {s.sends, Bump(s.sends, s.place.id)}
    else
      && taken.value !in s.accepted && t.accepted == s.accepted[taken.value := s.place.id]
      && t.sends == Bump(s.sends, s.place.id)
  }

  lemma SendTakesOne(s: Service, reply: SendReply)
    requires s.place.Sending?
    ensures exists taken :: TakesOne(s, AfterSend(s, s.place.id, s.place.attempt, reply), taken)
    ensures forall id :: Tally(AfterSend(s, s.place.id, s.place.attempt, reply).sends, id) >= Tally(s.sends, id)
  {
    var taken := match reply
                 case Sent(hash) => Some(hash)
                 case Unknown(hash) => hash
                 case _ => None;
    assert TakesOne(s, AfterSend(s, s.place.id, s.place.attempt, reply),
                    if taken.Some? && taken.value in s.accepted then None else taken);
  }

  lemma CrashTakesOne(s: Service, taken: Option<Hash>)
    ensures forall id :: Tally(Died(s, taken).sends, id) >= Tally(s.sends, id)
    ensures Died(s, taken).accepted != s.accepted ==>
              s.place.Sending? && TakesOne(s, Died(s, taken), taken)
  {
  }

  lemma {:induction false} RunCountsAccepted(prize: nat, steps: seq<Step>, id: RequestId)
    ensures |AcceptedOf(Run(prize, START, steps), id)| <= Tally(Run(prize, START, steps).sends, id)
    decreases |steps|
  {
    hide Apply;
    if steps == [] {
      assert AcceptedOf(START, id) == {};
    } else {
      RunCountsAccepted(prize, steps[..|steps| - 1], id);
      ApplyCountsAccepted(prize, Run(prize, START, steps[..|steps| - 1]), steps[|steps| - 1], id);
    }
  }

  // However the service fails, one row is paid at most once more than it was
  // struck by such faults.
  lemma PaymentsAreBounded(prize: nat, s: Service, id: RequestId)
    requires Reachable(prize, s)
    ensures |AcceptedOf(s, id)| <= Tally(s.faults, id) + 1
  {
    hide Run;
    var steps :| s == Run(prize, START, steps);
    RunCountsAccepted(prize, steps, id);
    PossibleSendsAreBounded(prize, s, id);
  }

  // What no step takes back from a row.
  predicate Preserves(s: Service, t: Service, id: RequestId)
    requires id in s.rows
  {
    && id in t.rows
    && t.rows[id].recipient == s.rows[id].recipient && t.rows[id].createdAt == s.rows[id].createdAt
    && (s.rows[id].txHash.Some? ==> t.rows[id].txHash == s.rows[id].txHash && Tally(t.sends, id) == Tally(s.sends, id))
    && (IsTerminal(s.rows[id].status) ==> t.rows[id] == s.rows[id] && Tally(t.sends, id) == Tally(s.sends, id))
  }

  lemma ApplyPreserves(prize: nat, s: Service, step: Step, id: RequestId)
    requires Inv(prize, s) && id in s.rows
    ensures Preserves(s, Apply(prize, s, step), id)
  {
    hide SendsOk, Expected, RowOk, HashOk, NextPlace, KnowsOfSend;
    if !s.place.Idle? {
      SendingRowHasNoHash(prize, s);
    }
  }

  // Where the worker stands says what the ledger has for its row.
  lemma SendingRowHasNoHash(prize: nat, s: Service)
    requires Inv(prize, s) && !s.place.Idle?
    ensures s.place.id in s.rows && !IsTerminal(s.rows[s.place.id].status)
    ensures s.place.Sending? || s.place.MustMark? || s.place.MustFailUnknown? ==> s.rows[s.place.id].txHash.None?
  {
    PickedRowIsOk(prize, s, s.place.id);
  }

  // The worker is about to sign for this row.
  predicate IsSigning(s: Service, id: RequestId) {
    s.place.Sending? && s.place.id == id
  }

  /**
   * For good: the recipient of a row never changes, a stored hash never
   * changes, a terminal row never changes; and for a row with a hash or in a
   * terminal state the worker never stands at a send again, so nothing is
   * signed for it, accepted or refused.
   */
  lemma {:induction false} RunPreserves(prize: nat, s: Service, steps: seq<Step>, id: RequestId)
    requires Inv(prize, s) && id in s.rows
    ensures Preserves(s, Run(prize, s, steps), id)
    ensures s.rows[id].txHash.Some? || IsTerminal(s.rows[id].status) ==> !IsSigning(Run(prize, s, steps), id)
    decreases |steps|
  {
    hide Inv, Apply;
    RunKeeps(prize, s, steps);
    if IsSigning(Run(prize, s, steps), id) {
      SendingRowHasNoHash(prize, Run(prize, s, steps));
    }
    if steps != [] {
      var before := Run(prize, s, steps[..|steps| - 1]);
      RunKeeps(prize, s, steps[..|steps| - 1]);
      RunPreserves(prize, s, steps[..|steps| - 1], id);
      ApplyPreserves(prize, before, steps[|steps| - 1], id);
    }
  }

  lemma ReachableStep(prize: nat, s: Service, step: Step)
    requires Reachable(prize, s)
    ensures Reachable(prize, Apply(prize, s, step))
  {
    hide Apply;
    var steps :| s == Run(prize, START, steps);
    var longer := steps + [step];
    assert longer[..|longer| - 1] == steps;
    assert Apply(prize, s, step) == Run(prize, START, longer);
  }

  lemma StartIsReachable(prize: nat)
    ensures Reachable(prize, START)
  {
    assert START == Run(prize, START, []);
  }

  // The worker picks the one row there is and its send is accepted.
  lemma PickAndSend(s: Service, id: RequestId, hash: Hash, row: Row) returns (t: Service)
    requires Reachable(1, s) && s.rows == map[id := row] && row.status.Queued? && row.txHash.None?
    requires row.balanceBefore == Some(0) && s.place.Idle? && hash !in s.accepted
    ensures Reachable(1, t)
    ensures t == s.(place := MustMark(id, hash), accepted := s.accepted[hash := id], sends := Bump(s.sends, id))
  {
    hide Run, Reachable, Bump;
    var a := Apply(1, s, Pick(id));
    ReachableStep(1, s, Pick(id));
    assert a == s.(place := Picked(id));
    var b := Apply(1, a, Baseline(0));
    ReachableStep(1, a, Baseline(0));
    assert s.rows[id := row.(balanceBefore := Some(0))] == s.rows;
    assert b == s.(place := Sending(id, 1));
    t := Apply(1, b, Send(Sent(hash)));
    ReachableStep(1, b, Send(Sent(hash)));
  }

  lemma QueuedWithBaseline(id: RequestId, row: Row) returns (t: Service)
    requires row == QueuedRow("r", "i", 0).(balanceBefore := Some(0))
    ensures Reachable(1, t) && t == START.(rows := map[id := row])
  {
    hide Run, Reachable;
    StartIsReachable(1);
    var a := Apply(1, START, Insert(id, "r", "i", 0));
    ReachableStep(1, START, Insert(id, "r", "i", 0));
    assert a == START.(rows := map[id := QueuedRow("r", "i", 0)]);
    var b := Apply(1, a, Pick(id));
    ReachableStep(1, a, Pick(id));
    assert b == a.(place := Picked(id));
    var c := Apply(1, b, Baseline(0));
    ReachableStep(1, b, Baseline(0));
    t := Apply(1, c, Crash);
    ReachableStep(1, c, Crash);
    assert t.rows == map[id := row];
  }

  ghost predicate PaidTwiceWithOneFault(s: Service, id: RequestId) {
    && s.accepted == map["a" := id, "b" := id]
    && Tally(s.sends, id) == 2 && Tally(s.faults, id) == 1
  }

  // The bound is met: one crash between a send and its mark, and on restart
  // the row is paid again.
  lemma CrashPaysTwice(id: RequestId)
    ensures exists s :: Reachable(1, s) && PaidTwiceWithOneFault(s, id)
  {
    hide Run, Reachable;
    var row := QueuedRow("r", "i", 0).(balanceBefore := Some(0));
    var waiting := QueuedWithBaseline(id, row);
    var sent := PickAndSend(waiting, id, "a", row);
    var crashed := Apply(1, sent, Crash);
    ReachableStep(1, sent, Crash);
    assert crashed.rows == map[id := row] && crashed.accepted == map["a" := id];
    var again := PickAndSend(crashed, id, "b", row);
    assert PaidTwiceWithOneFault(again, id);
  }
}
