/**
 * The payout worker's own loops (claimd/src/worker.rs:41-263).
 *
 * Each method makes the steps of Payouts that the code makes, with handlers
 * inserting rows and the chain making progress in between, so every state it
 * passes through is a reachable one there.
 */
module PayoutWorker {
  import opened Wrappers
  import opened ClaimLedger
  import opened Payouts
  import opened Polling
  import opened FiniteSets

  const READ_ATTEMPTS: nat := 6
  const READ_BACKOFF: nat := 5

  datatype TxStatus = Pending | IncludedInBlock

  // One question the worker asked the chain, and its answer; None when it failed.
  datatype Call =
    | AskedFees(reserve: nat)
    | AskedBalance(account: Recipient, balance: Option<nat>)
    | HandedIn(id: RequestId, reply: SendReply)
    | Polled(hash: Hash, poll: Sighting)

  datatype Sighting = Sighting(status: Option<TxStatus>, at: int)

  // A balance, tried a number of times.
  datatype Read = Read(balance: Option<nat>, tries: nat)

  // All that one claim asked of the chain: the reserve and the hot balance, the
  // recipient's balance, the sends, the polls, and the balance afterwards.
  datatype Course = Course(reserve: nat, hot: Option<Read>, before: Option<Read>, replies: seq<SendReply>,
                           polls: seq<Sighting>, after: Option<Read>)

  const NOTHING := Course(0, None, None, [], [], None)

  // ---- what a course looks like in the log ---------------------------------------

  ghost function FailedReads(account: Recipient, n: nat): seq<Call> {
    if n == 0 then [] else FailedReads(account, n - 1) + [AskedBalance(account, None)]
  }

  ghost function ReadLog(account: Recipient, read: Option<Read>): seq<Call> {
    if read.None? || read.value.tries == 0 then []
    else FailedReads(account, read.value.tries - 1) + [AskedBalance(account, read.value.balance)]
  }

  ghost function SendLog(id: RequestId, replies: seq<SendReply>): seq<Call> {
    if replies == [] then [] else SendLog(id, replies[..|replies| - 1]) + [HandedIn(id, replies[|replies| - 1])]
  }

  ghost function PollLog(hash: Hash, polls: seq<Sighting>): seq<Call> {
    if polls == [] then [] else PollLog(hash, polls[..|polls| - 1]) + [Polled(hash, polls[|polls| - 1])]
  }

  ghost function AdmitLog(recipient: Recipient, course: Course): seq<Call> {
    (if course.hot.Some? then [AskedFees(course.reserve)] + ReadLog("hot", course.hot) else [])
    + ReadLog(recipient, course.before)
  }

  ghost function AwaitLog(recipient: Recipient, hash: Hash, course: Course): seq<Call> {
    PollLog(hash, course.polls) + ReadLog(recipient, course.after)
  }

  ghost function CourseLog(id: RequestId, recipient: Recipient, hash: Hash, course: Course): seq<Call> {
    AdmitLog(recipient, course) + SendLog(id, course.replies) + AwaitLog(recipient, hash, course)
  }

  lemma NoReadNoLog(account: Recipient)
    ensures ReadLog(account, None) == [] && ReadOk(None)
  {
  }

  lemma NoRepliesNoLog(id: RequestId)
    ensures SendLog(id, []) == []
  {
  }

  lemma NoPollsNoLog(hash: Hash)
    ensures PollLog(hash, []) == []
  {
  }

  lemma OneMoreReply(id: RequestId, replies: seq<SendReply>, reply: SendReply)
    ensures SendLog(id, replies + [reply]) == SendLog(id, replies) + [HandedIn(id, reply)]
  {
    var longer := replies + [reply];
    assert longer[..|longer| - 1] == replies;
  }

  lemma OneMorePoll(hash: Hash, polls: seq<Sighting>, poll: Sighting)
    ensures PollLog(hash, polls + [poll]) == PollLog(hash, polls) + [Polled(hash, poll)]
  {
    var longer := polls + [poll];
    assert longer[..|longer| - 1] == polls;
  }

  // ---- what a course must be --------------------------------------------------------

  // A read gives up only after six tries.
  ghost predicate ReadOk(read: Option<Read>) {
    read.Some? ==> 1 <= read.value.tries <= 6 && (read.value.balance.None? ==> read.value.tries == 6)
  }

  predicate Got(read: Option<Read>) {
    read.Some? && read.value.balance.Some?
  }

  // The hot account covers the prize and the reserve, whose sum is capped at
  // 2^128 - 1.
  predicate Covers(hot: Option<Read>, reserve: nat, prize: nat) {
    && Got(hot)
    && (hot.value.balance.value >= prize + reserve
        || hot.value.balance.value >= 340282366920938463463374607431768211455)
  }

  // The recipient is read only after the hot account was found to cover the
  // claim.
  ghost predicate AdmitOk(course: Course, prize: nat) {
    && course.hot.Some? && ReadOk(course.hot) && ReadOk(course.before)
    && (course.before.Some? <==> Covers(course.hot, course.reserve, prize))
  }

  // At most six sends, repeated only after an error that moved nothing.
  ghost predicate RepliesOk(replies: seq<SendReply>) {
    && |replies| <= 6 && (forall i | 0 <= i < |replies| - 1 :: replies[i].RpcError?)
    && (replies != [] && replies[|replies| - 1].RpcError? ==> |replies| == 6)
  }

  predicate SawInclusion(polls: seq<Sighting>) {
    polls != [] && polls[|polls| - 1].status == Some(IncludedInBlock)
  }

  predicate WasSent(replies: seq<SendReply>) {
    replies != [] && replies[|replies| - 1].Sent?
  }

  // Polls go on until the inclusion is seen or the window is over; then, and
  // only if it was seen, the recipient's balance is read.
  ghost predicate AwaitOk(course: Course, pollSecs: nat) {
    && (forall i | 0 <= i < |course.polls| - 1 :: course.polls[i].status != Some(IncludedInBlock))
    && (course.after.Some? <==> SawInclusion(course.polls)) && ReadOk(course.after)
    && (course.polls != [] && !SawInclusion(course.polls) ==>
          course.polls[|course.polls| - 1].at >= course.polls[0].at + pollSecs)
  }

  // A claim that had no hash: admission, sends, and polls once it is sent. Only
  // a failed ledger statement (not ok) cuts it short.
  ghost predicate FreshCourse(course: Course, prize: nat, pollSecs: nat, ok: bool) {
    && AdmitOk(course, prize) && RepliesOk(course.replies) && AwaitOk(course, pollSecs)
    && (course.replies != [] ==> Got(course.before)) && (ok && Got(course.before) ==> course.replies != [])
    && (course.polls != [] ==> WasSent(course.replies)) && (ok && WasSent(course.replies) ==> course.polls != [])
  }

  // A claim that had a hash is only polled for.
  ghost predicate ResumedCourse(course: Course, pollSecs: nat) {
    course.hot.None? && course.before.None? && course.replies == [] && course.polls != [] && AwaitOk(course, pollSecs)
  }

  // The balance is the one before plus the prize, capped at 2^128 - 1.
  predicate ShowsPrize(before: Option<nat>, after: Option<Read>, prize: nat) {
    && before.Some? && Got(after)
    && after.value.balance.value
       == if before.value + prize > 340282366920938463463374607431768211455
          then 340282366920938463463374607431768211455 else before.value + prize
  }

  lemma CoversTheSum(hot: Option<Read>, reserve: nat, prize: nat)
    ensures Covers(hot, reserve, prize) <==> Got(hot) && hot.value.balance.value >= Expected(prize, reserve)
  {
  }

  lemma ShowsTheSum(before: Option<nat>, after: Option<Read>, prize: nat)
    ensures ShowsPrize(before, after, prize)
       <==> before.Some? && Got(after) && after.value.balance.value == Expected(before.value, prize)
  {
  }

  // How an included row is closed by the balance read, which it keeps.
  predicate ClosedAfter(row: Row, before: Option<nat>, after: Option<Read>, prize: nat) {
    && (Got(after) ==> row.balanceAfter == after.value.balance)
    && if ShowsPrize(before, after, prize) then row.status.Included?
       else row.status.Failed? && row.errorCode == Some(OutcomeUnknown)
  }

  // How the row of a claim is closed by its course.
  predicate ClosedBy(row: Row, course: Course, prize: nat) {
    if course.polls != [] then
      if SawInclusion(course.polls) then ClosedAfter(row, row.balanceBefore, course.after, prize)
      else row.status.Failed? && row.errorCode == Some(OutcomeUnknown)
    else
      && row.status.Failed?
      && row.errorCode
         == Some(if course.replies != [] then
                   match course.replies[|course.replies| - 1]
                   case RpcError => InternalError
                   case InsufficientFunds => HotBalanceLow
                   case Rejected => SubmissionRejected
                   case _ => OutcomeUnknown
                 else if Got(course.hot) && course.before.None? then HotBalanceLow
                 else InternalError)
  }

  // Sends change nothing about the admission.
  lemma SameAdmission(recipient: Recipient, course: Course, replies: seq<SendReply>)
    ensures AdmitLog(recipient, course.(replies := replies)) == AdmitLog(recipient, course)
  {
  }

  // A course that stops before the polls.
  lemma SubmittedOnly(id: RequestId, recipient: Recipient, hash: Hash, course: Course, prize: nat, pollSecs: nat,
                      ok: bool)
    requires AdmitOk(course, prize) && RepliesOk(course.replies) && course.polls == [] && course.after.None?
    requires (course.replies != [] ==> Got(course.before)) && (ok && Got(course.before) ==> course.replies != [])
    ensures CourseLog(id, recipient, hash, course) == AdmitLog(recipient, course) + SendLog(id, course.replies)
    ensures !(ok && WasSent(course.replies)) ==> FreshCourse(course, prize, pollSecs, ok)
    ensures FreshCourse(course, prize, pollSecs, false)
  {
    hide AdmitLog, SendLog, AdmitOk, RepliesOk;
  }

  // And one that goes on to them.
  lemma SubmittedAndPolled(id: RequestId, recipient: Recipient, hash: Hash, before: Course, course: Course,
                           prize: nat, pollSecs: nat, ok: bool)
    requires AdmitOk(before, prize) && RepliesOk(before.replies) && WasSent(before.replies)
    requires Got(before.before)
    requires course.(polls := [], after := None) == before && course.polls != [] && AwaitOk(course, pollSecs)
    ensures CourseLog(id, recipient, hash, course)
         == AdmitLog(recipient, before) + SendLog(id, before.replies) + AwaitLog(recipient, hash, course)
    ensures FreshCourse(course, prize, pollSecs, ok)
  {
    hide SendLog, ReadLog, PollLog, RepliesOk, Covers, ReadOk;
  }

  lemma OnlyPolls(id: RequestId, recipient: Recipient, hash: Hash, course: Course, pollSecs: nat)
    requires course.(polls := [], after := None) == NOTHING && course.polls != [] && AwaitOk(course, pollSecs)
    ensures CourseLog(id, recipient, hash, course) == AwaitLog(recipient, hash, course)
    ensures ResumedCourse(course, pollSecs)
  {
  }

  lemma RefusedIsClosed(row: Row, course: Course, prize: nat)
    requires course.replies == [] && course.polls == [] && row.status.Failed?
    requires row.errorCode == Some(if Got(course.hot) && course.before.None? then HotBalanceLow else InternalError)
    ensures ClosedBy(row, course, prize)
  {
  }

  lemma UnsentIsClosed(row: Row, course: Course, prize: nat)
    requires course.replies != [] && course.polls == [] && row.status.Failed?
    requires row.errorCode == Some(match course.replies[|course.replies| - 1]
                                   case RpcError => InternalError
                                   case InsufficientFunds => HotBalanceLow
                                   case Rejected => SubmissionRejected
                                   case _ => OutcomeUnknown)
    ensures ClosedBy(row, course, prize)
  {
  }

  class Chain {
    var accepted: map<Hash, RequestId>
    var landed: set<Hash>
    var clock: nat
    ghost var calls: seq<Call>

    constructor ()
      ensures accepted == map[] && landed == {} && calls == []
    {
      accepted, landed, clock, calls := map[], {}, 0, [];
    }

    // The reserve for fees at the quoted price, or at the fallback's.
    method FeeReserve() returns (reserve: nat)
      modifies this`calls
      ensures calls == old(calls) + [AskedFees(reserve)]
    {
      reserve := *;
      calls := calls + [AskedFees(reserve)];
    }

    method Balance(account: Recipient) returns (balance: Option<nat>)
      modifies this`calls
      ensures calls == old(calls) + [AskedBalance(account, balance)]
    {
      balance := *;
      calls := calls + [AskedBalance(account, balance)];
    }

    // A transaction the sequencer takes is one it has not seen before.
    method Submit(id: RequestId) returns (reply: SendReply)
      modifies this`accepted, this`calls
      ensures calls == old(calls) + [HandedIn(id, reply)]
      ensures reply.Sent? ==> reply.hash !in old(accepted) && accepted == old(accepted)[reply.hash := id]
      ensures reply.Unknown? && reply.accepted.Some? ==>
                reply.accepted.value !in old(accepted) && accepted == old(accepted)[reply.accepted.value := id]
      ensures !reply.Sent? && !(reply.Unknown? && reply.accepted.Some?) ==> accepted == old(accepted)
    {
      reply := *;
      match reply {
        case Sent(hash) =>
          if hash in accepted {
            reply := RpcError;
          } else {
            accepted := accepted[hash := id];
          }
        case Unknown(Some(hash)) =>
          if hash in accepted {
            reply := Unknown(None);
          } else {
            accepted := accepted[hash := id];
          }
        case _ =>
      }
      calls := calls + [HandedIn(id, reply)];
    }

    method Poll(hash: Hash) returns (status: Option<TxStatus>)
      modifies this`calls
      ensures calls == old(calls) + [Polled(hash, Sighting(status, clock))]
      ensures status == Some(IncludedInBlock) ==> hash in landed
    {
      status := *;
      if hash !in landed && status == Some(IncludedInBlock) {
        status := Some(Pending);
      }
      calls := calls + [Polled(hash, Sighting(status, clock))];
    }

    method Sleep(span: nat)
      modifies this`clock
      ensures clock >= old(clock) + span
    {
      var longer: int := *;
      clock := clock + span + if longer > 0 then longer else 0;
    }
  }

  // Rows that were there are still there, as they were.
  ghost predicate Kept(before: Rows, after: Rows) {
    forall id | id in before :: id in after && after[id] == before[id]
  }

  ghost predicate KeptExcept(before: Rows, after: Rows, id: RequestId) {
    && (id in before ==> id in after)
    && forall other | other in before && other != id :: other in after && after[other] == before[other]
  }

  lemma KeptThroughout()
    ensures forall a, b, c, id | KeptExcept(a, b, id) && KeptExcept(b, c, id) :: KeptExcept(a, c, id)
    ensures forall a, b, id | KeptExcept(a, b, id) && id in a :: id in b
    ensures forall a, id :: KeptExcept(a, a, id)
  {
  }

  // The steps that only move the worker.
  predicate Thinks(step: Step) {
    step.Pick? || step.Refuse? || step.Resume? || step.Reload? || step.SeeIncluded? || step.GiveUp? || step.ReadAfter?
  }

  // At most one more possible send of this row, none of any other.
  ghost predicate SentAtMostOnce(before: map<RequestId, nat>, after: map<RequestId, nat>, id: RequestId) {
    after == before || after == Bump(before, id)
  }

  ghost predicate IsClosed(rows: Rows, id: RequestId) {
    id in rows && IsTerminal(rows[id].status)
  }

  predicate FailedAs(rows: Rows, id: RequestId, code: FailureCode) {
    id in rows && rows[id].status.Failed? && rows[id].errorCode == Some(code)
  }

  // The stored baseline of the row is what it was.
  predicate SameBefore(before: Rows, after: Rows, id: RequestId)
    requires id in before
  {
    id in after && after[id].balanceBefore == before[id].balanceBefore
  }

  class Worker {
    const prize: nat
    const pollSecs: nat
    const pollIntervalSecs: nat
    const ledger: Ledger
    const chain: Chain
    ghost var place: Place
    ghost var sends: map<RequestId, nat>
    ghost var faults: map<RequestId, nat>

    ghost function View(): Service
      reads this, ledger, chain
    {
      Service(ledger.rows, place, chain.accepted, chain.landed, sends, faults)
    }

    ghost predicate Valid()
      reads this, ledger, chain
    {
      Reachable(prize, View())
    }

    // The interval is positive by the service's configuration check.
    constructor (prize: nat, pollSecs: nat, pollIntervalSecs: nat, ledger: Ledger, chain: Chain)
      requires ledger.rows == map[] && chain.accepted == map[] && chain.landed == {}
      ensures Valid() && place == Idle && this.ledger == ledger && this.chain == chain
      ensures this.prize == prize && this.pollSecs == pollSecs && this.pollIntervalSecs == pollIntervalSecs
    {
      this.prize, this.pollSecs, this.pollIntervalSecs := prize, pollSecs, pollIntervalSecs;
      this.ledger, this.chain := ledger, chain;
      place, sends, faults := Idle, map[], map[];
      new;
      StartIsReachable(prize);
    }

    // Handlers insert rows and transactions land.
    method Others(ghost id: RequestId)
      requires Valid()
      modifies ledger, chain
      ensures Valid() && Kept(old(ledger.rows), ledger.rows) && KeptExcept(old(ledger.rows), ledger.rows, id)
      ensures id in old(ledger.rows) ==> id in ledger.rows && ledger.rows[id] == old(ledger.rows)[id]
      ensures chain.clock == old(chain.clock)
      ensures chain.accepted == old(chain.accepted) && old(chain.landed) <= chain.landed
      ensures chain.calls == old(chain.calls)
      ensures old(ledger.failures) <= ledger.failures
    {
      hide Reachable, Run;
      var more: nat := *;
      while more > 0
        invariant Valid() && Kept(old(ledger.rows), ledger.rows) && chain.clock == old(chain.clock)
        invariant chain.accepted == old(chain.accepted) && old(chain.landed) <= chain.landed
        invariant chain.calls == old(chain.calls)
        invariant old(ledger.failures) <= ledger.failures
      {
        if * {
          var other: RequestId, recipient: Recipient, ipHash: string := *, *, *;
          var now: int := *;
          ReachableStep(prize, View(), Insert(other, recipient, ipHash, now));
          var ok, row := ledger.InsertQueued(other, recipient, ipHash, now);
        } else {
          var hash: Hash := *;
          if hash in chain.accepted {
            ReachableStep(prize, View(), Land(hash));
            chain.landed := chain.landed + {hash};
          }
        }
        more := more - 1;
      }
    }

    // A step of the worker that neither writes nor sends.
    ghost method Decide(step: Step)
      requires Valid() && Thinks(step)
      modifies this`place
      ensures place == NextPlace(prize, old(View()), step)
      ensures Valid()
    {
      hide Reachable, Run, NextPlace;
      ReachableStep(prize, View(), step);
      place := NextPlace(prize, View(), step);
    }

    // A balance read is retried a few times.
    method ReadBalance(account: Recipient) returns (balance: Option<nat>, ghost read: Option<Read>)
      modifies chain`clock, chain`calls
      ensures read.Some? && ReadOk(read) && read.value.balance == balance
      ensures chain.calls == old(chain.calls) + ReadLog(account, read)
      ensures chain.clock >= old(chain.clock) + 5 * (read.value.tries - 1)
    {
      balance, read := None, None;
      for attempt := 1 to READ_ATTEMPTS + 1
        invariant balance.None? && chain.calls == old(chain.calls) + FailedReads(account, attempt - 1)
        invariant attempt > READ_ATTEMPTS ==> read == Some(Read(None, READ_ATTEMPTS))
        invariant chain.clock >= old(chain.clock) + READ_BACKOFF * (Min(attempt, READ_ATTEMPTS) - 1)
      {
        ghost var earlier := chain.calls;
        balance := chain.Balance(account);
        read := Some(Read(balance, attempt));
        assert chain.calls == old(chain.calls) + (FailedReads(account, attempt - 1) + [AskedBalance(account, balance)]);
        if balance.Some? { return; }
        if attempt < READ_ATTEMPTS {
          chain.Sleep(READ_BACKOFF);
        }
      }
    }

    method RecordBaseline(id: RequestId, before: nat) returns (ok: bool)
      requires Valid() && place == Picked(id) && id in ledger.rows && ledger.rows[id].txHash.None?
      modifies ledger, this`place
      ensures Valid()
      ensures ledger.rows == if ok then WithBefore(old(ledger.rows), id, before) else old(ledger.rows)
      ensures place == if ok then Sending(id, 1) else Idle
      ensures ok ==> ledger.rows[id].balanceBefore == Some(before)
      ensures KeptExcept(old(ledger.rows), ledger.rows, id)
      ensures ledger.failures == old(ledger.failures) + if ok then 0 else 1
    {
      hide Reachable, Run;
      ReachableStep(prize, View(), Baseline(before));
      ReachableStep(prize, View(), WriteFails);
      ok := ledger.SetBalanceBefore(id, before);
      place := if ok then Sending(id, 1) else Idle;
    }

    method MarkSubmitted(id: RequestId, hash: Hash) returns (ok: bool)
      requires Valid() && place == MustMark(id, hash)
      modifies ledger, this`place, this`faults
      ensures Valid()
      ensures ok ==> ledger.rows == WithSubmission(old(ledger.rows), id, hash)
      ensures ok ==> place == Marked(id, hash) && faults == old(faults)
      ensures !ok ==> ledger.rows == old(ledger.rows) && place == Idle && faults == Bump(old(faults), id)
      ensures id in old(ledger.rows) ==> SameBefore(old(ledger.rows), ledger.rows, id)
      ensures KeptExcept(old(ledger.rows), ledger.rows, id)
      ensures ledger.failures == old(ledger.failures) + if ok then 0 else 1
    {
      hide Reachable, Run;
      ReachableStep(prize, View(), Write);
      ReachableStep(prize, View(), WriteFails);
      ok := ledger.MarkSubmitted(id, hash);
      place := if ok then Marked(id, hash) else Idle;
      faults := if ok then faults else Bump(faults, id);
    }

    method MarkIncluded(id: RequestId, balance: nat) returns (ok: bool)
      requires Valid() && place == MustInclude(id, balance)
      modifies ledger, this`place
      ensures Valid() && place == Idle
      ensures ledger.rows == if ok then WithInclusion(old(ledger.rows), id, balance) else old(ledger.rows)
      ensures KeptExcept(old(ledger.rows), ledger.rows, id)
      ensures ok && id in old(ledger.rows) ==> IsClosed(ledger.rows, id) && ledger.rows[id].status.Included?
      ensures id in old(ledger.rows) ==> SameBefore(old(ledger.rows), ledger.rows, id)
      ensures ok && id in old(ledger.rows) ==> ledger.rows[id].balanceAfter == Some(balance)
      ensures ledger.failures == old(ledger.failures) + if ok then 0 else 1
    {
      hide Reachable, Run;
      ReachableStep(prize, View(), Write);
      ReachableStep(prize, View(), WriteFails);
      ok := ledger.MarkIncluded(id, balance);
      place := Idle;
    }

    // A failure is written with or without a balance; one that cannot be
    // written after an unknown send is a fault.
    method Fail(id: RequestId, code: FailureCode, after: Option<nat>) returns (ok: bool)
      requires Valid()
      requires || place == MustFail(id, code, after)
               || (place == MustFailUnknown(id) && code.OutcomeUnknown? && after.None?)
      modifies ledger, this`place, this`faults
      ensures Valid() && place == Idle
      ensures ledger.rows == if ok then WithFailure(old(ledger.rows), id, code, after) else old(ledger.rows)
      ensures KeptExcept(old(ledger.rows), ledger.rows, id)
      ensures ok && id in old(ledger.rows) ==> IsClosed(ledger.rows, id) && FailedAs(ledger.rows, id, code)
      ensures ok && after.Some? && id in old(ledger.rows) ==> ledger.rows[id].balanceAfter == after
      ensures id in old(ledger.rows) ==> SameBefore(old(ledger.rows), ledger.rows, id)
      ensures ledger.failures == old(ledger.failures) + if ok then 0 else 1
      ensures faults == if ok || old(place).MustFail? then old(faults) else Bump(old(faults), id)
    {
      hide Reachable, Run;
      ReachableStep(prize, View(), Write);
      ReachableStep(prize, View(), WriteFails);
      ok := ledger.MarkFailed(id, code, after);
      faults := if ok || place.MustFail? then faults else Bump(faults, id);
      place := Idle;
    }

    // One send, and where it leaves the worker.
    method Send(id: RequestId, ghost attempt: nat) returns (reply: SendReply)
      requires Valid() && place == Sending(id, attempt)
      modifies chain`accepted, chain`calls, this`place, this`sends
      ensures Valid() && chain.calls == old(chain.calls) + [HandedIn(id, reply)]
      ensures sends == if reply.Sent? || reply.Unknown? then Bump(old(sends), id) else old(sends)
      ensures place == match reply
                       case Sent(hash) => MustMark(id, hash)
                       case Unknown(_) => MustFailUnknown(id)
                       case RpcError =>
                         if attempt < SEND_ATTEMPTS then Sending(id, attempt + 1) else MustFail(id, InternalError, None)
                       case InsufficientFunds => MustFail(id, HotBalanceLow, None)
                       case Rejected => MustFail(id, SubmissionRejected, None)
    {
      hide Reachable, Run;
      ghost var before := View();
      reply := chain.Submit(id);
      ReachableStep(prize, before, Payouts.Send(reply));
      ghost var after := Apply(prize, before, Payouts.Send(reply));
      place, sends := after.place, after.sends;
    }

    // The claim fails before anything was sent.
    method RefuseClaim(id: RequestId, code: FailureCode, ghost course: Course) returns (ok: bool)
      requires Valid() && place == Picked(id) && id in ledger.rows && ledger.rows[id].txHash.None?
      requires course.replies == [] && course.polls == []
      requires code == if Got(course.hot) && course.before.None? then HotBalanceLow else InternalError
      modifies ledger, this`place, this`faults
      ensures Valid() && place == Idle && KeptExcept(old(ledger.rows), ledger.rows, id) && faults == old(faults)
      ensures ok ==> IsClosed(ledger.rows, id) && id in ledger.rows && ClosedBy(ledger.rows[id], course, prize)
      ensures ledger.failures == old(ledger.failures) + if ok then 0 else 1
    {
      hide Reachable, Run, KeptExcept, IsClosed, WithFailure, ClosedBy;
      Decide(Refuse(code));
      ok := Fail(id, code, None);
      if ok {
        RefusedIsClosed(ledger.rows[id], course, prize);
      }
    }

    // Check the hot balance and record the recipient's, or fail the claim.
    method Admit(id: RequestId) returns (ok: bool, ready: bool, ghost course: Course)
      requires Valid() && place == Picked(id) && id in ledger.rows && ledger.rows[id].txHash.None?
      modifies ledger, chain, this`place, this`faults
      ensures Valid() && KeptExcept(old(ledger.rows), ledger.rows, id) && faults == old(faults)
      ensures chain.calls == old(chain.calls) + AdmitLog(old(ledger.rows[id]).recipient, course)
      ensures AdmitOk(course, prize) && course.replies == [] && course.polls == [] && course.after.None?
      ensures ready ==>
                && ok && place == Sending(id, 1) && Got(course.before) && id in ledger.rows
                && ledger.rows[id].balanceBefore == course.before.value.balance
      ensures !ready ==> place == Idle && (ok ==> !Got(course.before) && IsClosed(ledger.rows, id))
      ensures !ready && ok ==> id in ledger.rows && ClosedBy(ledger.rows[id], course, prize)
      ensures old(ledger.failures) <= ledger.failures && (ok || old(ledger.failures) < ledger.failures)
    {
      hide Reachable, Run, KeptExcept, IsClosed, WithFailure, WithBefore, ReadLog, ClosedBy, Covers, Expected, ReadOk;
      KeptThroughout();
      ready := false;
      var recipient := ledger.rows[id].recipient;
      Others(id);
      var reserve := chain.FeeReserve();
      var hot, before;
      ghost var reading;
      hot, reading := ReadBalance("hot");
      course := NOTHING.(reserve := reserve, hot := reading);
      NoReadNoLog(recipient);
      CoversTheSum(reading, reserve, prize);
      if hot.None? || hot.value < Expected(prize, reserve) {
        var code := if hot.None? then InternalError else HotBalanceLow;
        ok := RefuseClaim(id, code, course);
        return;
      }
      before, reading := ReadBalance(recipient);
      course := course.(before := reading);
      if before.None? {
        ok := RefuseClaim(id, InternalError, course);
        return;
      }
      ok := RecordBaseline(id, before.value);
      ready := ok;
    }

    // Check the balances, record the baseline, sign and send. A hash means the
    // row is marked; none means it failed for good.
    method Submit(id: RequestId) returns (ok: bool, hash: Option<Hash>, ghost course: Course)
      requires Valid() && place == Picked(id) && id in ledger.rows && ledger.rows[id].txHash.None?
      modifies ledger, chain, this`place, this`sends, this`faults
      ensures Valid() && KeptExcept(old(ledger.rows), ledger.rows, id)
      ensures SentAtMostOnce(old(sends), sends, id) && (ok ==> faults == old(faults))
      ensures chain.calls
           == old(chain.calls) + AdmitLog(old(ledger.rows[id]).recipient, course) + SendLog(id, course.replies)
      ensures AdmitOk(course, prize) && RepliesOk(course.replies) && course.polls == [] && course.after.None?
      ensures (course.replies != [] ==> Got(course.before)) && (ok && Got(course.before) ==> course.replies != [])
      ensures ok ==> (hash.Some? <==> WasSent(course.replies))
      ensures hash.Some? ==> ok && course.replies[|course.replies| - 1] == Sent(hash.value)
      ensures ok && hash.Some? ==>
                && place == Marked(id, hash.value) && id in ledger.rows
                && ledger.rows[id].balanceBefore == course.before.value.balance
      ensures !(ok && hash.Some?) ==> place == Idle
      ensures ok && hash.None? ==>
                IsClosed(ledger.rows, id) && id in ledger.rows && ClosedBy(ledger.rows[id], course, prize)
      ensures old(ledger.failures) <= ledger.failures && (ok || old(ledger.failures) < ledger.failures)
    {
      hide Reachable, Run, KeptExcept, IsClosed, ReadOk, ReadLog, SendLog, Covers, ClosedBy, AdmitLog;
      KeptThroughout();
      hash := None;
      var ready;
      ok, ready, course := Admit(id);
      NoRepliesNoLog(id);
      if !ready { return; }
      ghost var replies;
      ok, hash, replies := SendClaim(id, course);
      SameAdmission(old(ledger.rows[id]).recipient, course, replies);
      course := course.(replies := replies);
    }

    // Send until the sequencer answers for good, at most six times.
    method SendClaim(id: RequestId, ghost admission: Course)
      returns (ok: bool, hash: Option<Hash>, ghost replies: seq<SendReply>)
      requires Valid() && place == Sending(id, 1) && id in ledger.rows
      requires admission.polls == [] && Got(admission.before)
      modifies ledger, chain, this`place, this`sends, this`faults
      ensures Valid() && KeptExcept(old(ledger.rows), ledger.rows, id)
      ensures SentAtMostOnce(old(sends), sends, id) && (ok ==> faults == old(faults))
      ensures chain.calls == old(chain.calls) + SendLog(id, replies) && replies != [] && RepliesOk(replies)
      ensures ok ==> (hash.Some? <==> WasSent(replies))
      ensures hash.Some? ==> ok && replies[|replies| - 1] == Sent(hash.value)
      ensures ok && hash.Some? ==> place == Marked(id, hash.value)
      ensures id in ledger.rows && ledger.rows[id].balanceBefore == old(ledger.rows[id]).balanceBefore
      ensures !(ok && hash.Some?) ==> place == Idle
      ensures ok && hash.None? ==>
                IsClosed(ledger.rows, id) && ClosedBy(ledger.rows[id], admission.(replies := replies), prize)
      ensures old(ledger.failures) <= ledger.failures && (ok || old(ledger.failures) < ledger.failures)
    {
      hide Reachable, Run, KeptExcept, Kept, WithFailure, WithSubmission, Bump, SendLog, ClosedBy, IsClosed;
      KeptThroughout();
      NoRepliesNoLog(id);
      hash, replies := None, [];
      var attempt: nat := 0;
      while true
        invariant Valid() && place == Sending(id, attempt + 1) && attempt == |replies| < SEND_ATTEMPTS
        invariant KeptExcept(old(ledger.rows), ledger.rows, id)
        invariant sends == old(sends) && faults == old(faults) && old(ledger.failures) <= ledger.failures
        invariant forall i | 0 <= i < |replies| :: replies[i].RpcError?
        invariant chain.calls == old(chain.calls) + SendLog(id, replies)
        invariant id in ledger.rows && ledger.rows[id].balanceBefore == old(ledger.rows[id]).balanceBefore
        decreases SEND_ATTEMPTS - attempt
      {
        Others(id);
        attempt := attempt + 1;
        var reply := Send(id, attempt);
        OneMoreReply(id, replies, reply);
        replies := replies + [reply];
        Others(id);
        if reply.Sent? {
          ok := MarkSubmitted(id, reply.hash);
          return ok, if ok then Some(reply.hash) else None, replies;
        }
        if !reply.RpcError? || attempt >= SEND_ATTEMPTS {
          ok := FailSend(id, reply, admission.(replies := replies));
          return;
        }
        chain.Sleep(READ_BACKOFF);
      }
    }

    // The sequencer answered for good, and without a hash.
    method FailSend(id: RequestId, reply: SendReply, ghost course: Course) returns (ok: bool)
      requires Valid() && id in ledger.rows && !reply.Sent? && course.polls == []
      requires course.replies != [] && course.replies[|course.replies| - 1] == reply
      requires place == match reply
                        case Unknown(_) => MustFailUnknown(id)
                        case InsufficientFunds => MustFail(id, HotBalanceLow, None)
                        case Rejected => MustFail(id, SubmissionRejected, None)
                        case _ => MustFail(id, InternalError, None)
      modifies ledger, this`place, this`faults
      ensures Valid() && place == Idle && KeptExcept(old(ledger.rows), ledger.rows, id)
      ensures id in ledger.rows && SameBefore(old(ledger.rows), ledger.rows, id)
      ensures ok ==> faults == old(faults) && IsClosed(ledger.rows, id) && ClosedBy(ledger.rows[id], course, prize)
      ensures ledger.failures == old(ledger.failures) + if ok then 0 else 1
    {
      hide Reachable, Run, KeptExcept, WithFailure, ClosedBy, IsClosed, Bump;
      KeptThroughout();
      var code := match reply
                  case Unknown(_) => OutcomeUnknown
                  case InsufficientFunds => HotBalanceLow
                  case Rejected => SubmissionRejected
                  case _ => InternalError;
      ok := Fail(id, code, None);
      if ok {
        UnsentIsClosed(ledger.rows[id], course, prize);
      }
    }

    // Included: the row closes as paid if the balance shows exactly that.
    method CloseIncluded(id: RequestId, recipient: Recipient, hash: Hash, before: Option<nat>)
      returns (ok: bool, ghost after: Option<Read>)
      requires Valid() && place == Polling(id, hash, before) && hash in chain.landed && id in ledger.rows
      requires ledger.rows[id].balanceBefore == before
      modifies ledger, chain, this`place, this`faults
      ensures Valid() && place == Idle && KeptExcept(old(ledger.rows), ledger.rows, id)
      ensures faults == old(faults) && (ok ==> IsClosed(ledger.rows, id))
      ensures after.Some? && ReadOk(after) && chain.calls == old(chain.calls) + ReadLog(recipient, after)
      ensures id in ledger.rows && ledger.rows[id].balanceBefore == before
      ensures ok ==> ClosedAfter(ledger.rows[id], before, after, prize)
      ensures old(ledger.failures) <= ledger.failures && (ok || old(ledger.failures) < ledger.failures)
    {
      hide Reachable, Run, KeptExcept, IsClosed, WithFailure, WithInclusion, ReadLog, ShowsPrize, Expected, ReadOk;
      KeptThroughout();
      Decide(SeeIncluded);
      var balance;
      balance, after := ReadBalance(recipient);
      ShowsTheSum(before, after, prize);
      Others(id);
      Decide(ReadAfter(balance));
      if balance.Some? && before.Some? && balance.value == Expected(before.value, prize) {
        ok := MarkIncluded(id, balance.value);
      } else {
        ok := Fail(id, OutcomeUnknown, balance);
      }
    }

    // The window is over.
    method CloseUnseen(id: RequestId, hash: Hash, before: Option<nat>) returns (ok: bool)
      requires Valid() && place == Polling(id, hash, before) && id in ledger.rows
      requires ledger.rows[id].balanceBefore == before
      modifies ledger, this`place, this`faults
      ensures Valid() && place == Idle && KeptExcept(old(ledger.rows), ledger.rows, id)
      ensures faults == old(faults) && (ok ==> IsClosed(ledger.rows, id) && FailedAs(ledger.rows, id, OutcomeUnknown))
      ensures id in ledger.rows && ledger.rows[id].balanceBefore == before
      ensures old(ledger.failures) <= ledger.failures && (ok || old(ledger.failures) < ledger.failures)
    {
      hide Reachable, Run, KeptExcept, IsClosed, WithFailure;
      Decide(GiveUp);
      ok := Fail(id, OutcomeUnknown, None);
    }

    // Poll until the transaction is in a block or the window is over, then
    // close the row either way.
    method AwaitInclusion(id: RequestId, recipient: Recipient, hash: Hash, before: Option<nat>, ghost earlier: Course)
      returns (ok: bool, ghost course: Course)
      requires Valid() && place == Polling(id, hash, before) && id in ledger.rows && pollIntervalSecs > 0
      requires ledger.rows[id].balanceBefore == before && earlier.polls == [] && earlier.after.None?
      modifies ledger, chain, this`place, this`faults
      ensures Valid() && place == Idle && KeptExcept(old(ledger.rows), ledger.rows, id)
      ensures faults == old(faults) && (ok ==> IsClosed(ledger.rows, id))
      ensures course.(polls := [], after := None) == earlier && course.polls != [] && AwaitOk(course, pollSecs)
      ensures chain.calls == old(chain.calls) + AwaitLog(recipient, hash, course)
      ensures |course.polls| <= CeilDiv(pollSecs, pollIntervalSecs) + 1
      ensures id in ledger.rows && ledger.rows[id].balanceBefore == before
      ensures ok ==> ClosedBy(ledger.rows[id], course, prize)
      ensures old(ledger.failures) <= ledger.failures && (ok || old(ledger.failures) < ledger.failures)
    {
      hide Reachable, Run, KeptExcept, Kept, IsClosed, CeilDiv, ReadLog, PollLog, ShowsPrize;
      KeptThroughout();
      course := earlier;
      var deadline := chain.clock + pollSecs;
      ghost var start := chain.clock;
      ghost var bound := CeilDiv(pollSecs, pollIntervalSecs) + 1;
      NoPollsNoLog(hash);
      NoReadNoLog(recipient);
      while true
        invariant Valid() && place == Polling(id, hash, before)
        invariant KeptExcept(old(ledger.rows), ledger.rows, id) && id in ledger.rows && faults == old(faults)
        invariant ledger.rows[id].balanceBefore == before && old(ledger.failures) <= ledger.failures
        invariant course == earlier.(polls := course.polls)
        invariant forall i | 0 <= i < |course.polls| :: course.polls[i].status != Some(IncludedInBlock)
        invariant chain.calls == old(chain.calls) + PollLog(hash, course.polls)
        invariant if course.polls == [] then chain.clock == start else course.polls[0].at == start
        invariant |course.polls| < bound
        invariant chain.clock + pollSecs >= deadline + |course.polls| * pollIntervalSecs
        decreases bound - |course.polls|
      {
        Others(id);
        var status := chain.Poll(hash);
        ghost var poll, polls := Sighting(status, chain.clock), course.polls;
        OneMorePoll(hash, polls, poll);
        course := course.(polls := polls + [poll]);
        if status == Some(IncludedInBlock) {
          ghost var after;
          ok, after := CloseIncluded(id, recipient, hash, before);
          course := course.(after := after);
          return;
        }
        if chain.clock >= deadline {
          ok := CloseUnseen(id, hash, before);
          return;
        }
        PollsRemain(pollSecs, pollIntervalSecs, |polls|, chain.clock, deadline);
        chain.Sleep(pollIntervalSecs);
        NextProduct(|course.polls|, pollIntervalSecs);
      }
    }

    /**
     * One claim, to the end. What it asked of the chain is its course, and
     * unless a ledger statement fails the row is closed by that course and by
     * nothing else: a claim without a hash is admitted, sent and polled for, one
     * with a hash is only polled for. No fault occurred then, and no other row
     * was touched; at most one send may have been accepted, and none if the row
     * already had a hash.
     */
    method Process(id: RequestId) returns (ok: bool, ghost course: Course, ghost hash: Hash)
      requires Valid() && place == Picked(id) && pollIntervalSecs > 0
      modifies ledger, chain, this`place, this`sends, this`faults
      ensures Valid() && place == Idle && KeptExcept(old(ledger.rows), ledger.rows, id)
      ensures ok ==> IsClosed(ledger.rows, id) && faults == old(faults)
      ensures SentAtMostOnce(old(sends), sends, id)
      ensures old(ledger.failures) <= ledger.failures && (ok || old(ledger.failures) < ledger.failures)
      ensures id in old(ledger.rows) && (old(ledger.rows[id]).txHash.Some? ==> sends == old(sends))
      ensures chain.calls == old(chain.calls) + CourseLog(id, old(ledger.rows[id]).recipient, hash, course)
      ensures if old(ledger.rows[id]).txHash.None? then FreshCourse(course, prize, pollSecs, ok)
              else ResumedCourse(course, pollSecs) && old(ledger.rows[id]).txHash == Some(hash)
      ensures WasSent(course.replies) ==> course.replies[|course.replies| - 1] == Sent(hash)
      ensures |course.polls| <= CeilDiv(pollSecs, pollIntervalSecs) + 1
      ensures ok ==> id in ledger.rows && ClosedBy(ledger.rows[id], course, prize)
      ensures ok && Got(course.before) && course.polls != [] ==>
                ledger.rows[id].balanceBefore == course.before.value.balance
    {
      hide Reachable, Run, KeptExcept, IsClosed, FreshCourse, ResumedCourse, CourseLog, ClosedBy, CeilDiv;
      InconsistentRowIsUnreachable(prize, View());
      var claim := ledger.rows[id];
      if claim.status.Queued? && claim.txHash.None? {
        ok, course, hash := ProcessFresh(id);
      } else if claim.txHash.Some? {
        hash := claim.txHash.value;
        Decide(Resume);
        ok, course := AwaitInclusion(id, claim.recipient, claim.txHash.value, claim.balanceBefore, NOTHING);
        OnlyPolls(id, claim.recipient, hash, course, pollSecs);
      } else {
        assert false;
        ok := false;
      }
    }

    // A claim that was never sent.
    method ProcessFresh(id: RequestId) returns (ok: bool, ghost course: Course, ghost hash: Hash)
      requires Valid() && place == Picked(id) && pollIntervalSecs > 0
      requires id in ledger.rows && ledger.rows[id].txHash.None?
      modifies ledger, chain, this`place, this`sends, this`faults
      ensures Valid() && place == Idle && KeptExcept(old(ledger.rows), ledger.rows, id)
      ensures ok ==> IsClosed(ledger.rows, id) && faults == old(faults)
      ensures SentAtMostOnce(old(sends), sends, id)
      ensures old(ledger.failures) <= ledger.failures && (ok || old(ledger.failures) < ledger.failures)
      ensures chain.calls == old(chain.calls) + CourseLog(id, old(ledger.rows[id]).recipient, hash, course)
      ensures FreshCourse(course, prize, pollSecs, ok)
      ensures WasSent(course.replies) ==> course.replies[|course.replies| - 1] == Sent(hash)
      ensures |course.polls| <= CeilDiv(pollSecs, pollIntervalSecs) + 1
      ensures ok ==> id in ledger.rows && ClosedBy(ledger.rows[id], course, prize)
      ensures ok && Got(course.before) && course.polls != [] ==>
                ledger.rows[id].balanceBefore == course.before.value.balance
    {
      hide Reachable, Run, KeptExcept, Kept, IsClosed, AdmitOk, RepliesOk, AwaitOk, AdmitLog, SendLog, AwaitLog,
           ClosedBy, CeilDiv, CourseLog, FreshCourse;
      KeptThroughout();
      var recipient := ledger.rows[id].recipient;
      var sent;
      ok, sent, course := Submit(id);
      ghost var submitted := course;
      hash := if WasSent(course.replies) then course.replies[|course.replies| - 1].hash else "";
      SubmittedOnly(id, recipient, hash, course, prize, pollSecs, ok);
      if !ok || sent.None? { return; }
      Others(id);
      var row;
      ok, row := ledger.Get(id);
      if !ok {
        Leave();
        return;
      }
      MarkedRowIsThere(prize, View());
      Decide(Reload);
      ok, course := AwaitInclusion(id, recipient, sent.value, row.value.balanceBefore, submitted);
      SubmittedAndPolled(id, recipient, hash, submitted, course, prize, pollSecs, ok);
    }

    // A read failed after the mark: the claim is left submitted.
    ghost method Leave()
      requires Valid() && place.Marked?
      modifies this`place
      ensures Valid() && place == Idle
    {
      hide Reachable, Run;
      ReachableStep(prize, View(), WriteFails);
      place := Idle;
    }

    /**
     * The worker's loop for a number of rounds. A round finds nothing pending,
     * hits a failed statement, or closes a row that was open. One round that
     * finds nothing pending means that every row there was at first is closed.
     * So the queue drains: unless a statement fails or a row is inserted, as
     * many rounds as there were open rows close every one of them.
     */
    method DrainQueue(rounds: nat) returns (closed: nat, errors: nat, idle: nat)
      requires Valid() && place == Idle && pollIntervalSecs > 0
      modifies ledger, chain, this`place, this`sends, this`faults
      ensures Valid() && place == Idle
      ensures closed + errors + idle == rounds
      ensures |Closed(ledger.rows)| >= |Closed(old(ledger.rows))| + closed
      ensures errors <= ledger.failures - old(ledger.failures) && (errors == 0 ==> faults == old(faults))
      ensures idle > 0 ==> AllClosed(old(ledger.rows), ledger.rows)
      ensures ledger.failures == old(ledger.failures) && ledger.rows.Keys == old(ledger.rows.Keys) ==>
                (rounds >= |Open(old(ledger.rows))| ==> AllClosed(old(ledger.rows), ledger.rows))
    {
      hide Reachable, Run, KeptExcept, Kept, IsClosed, Closed, SentAtMostOnce, AllClosed, AllThere, Open;
      KeptThroughout();
      closed, errors, idle := 0, 0, 0;
      ThereAtFirst(ledger.rows);
      for round := 0 to rounds
        invariant Valid() && place == Idle && closed + errors + idle == round
        invariant |Closed(ledger.rows)| >= |Closed(old(ledger.rows))| + closed
        invariant errors <= ledger.failures - old(ledger.failures) && (errors == 0 ==> faults == old(faults))
        invariant AllThere(old(ledger.rows), ledger.rows)
        invariant idle > 0 ==> AllClosed(old(ledger.rows), ledger.rows)
      {
        ghost var before := ledger.rows;
        var ok, next := ledger.NextPending();
        if !ok {
          errors := errors + 1;
        } else if next.None? {
          idle := idle + 1;
          IdleMeansClosed(old(ledger.rows), ledger.rows);
          Others(0);
          KeptStaysClosed(before, ledger.rows);
          KeptStillClosed(old(ledger.rows), before, ledger.rows);
        } else {
          Decide(Pick(next.value));
          ghost var course, hash;
          ok, course, hash := Process(next.value);
          PickedWasOpen(before, next.value);
          StillClosed(old(ledger.rows), before, ledger.rows, next.value);
          if ok {
            closed := closed + 1;
            OneMoreClosed(before, ledger.rows, next.value);
          } else {
            errors := errors + 1;
            ClosedOnlyGrows(before, ledger.rows, next.value);
          }
        }
      }
      if idle == 0 && errors == 0 && ledger.rows.Keys == old(ledger.rows.Keys) && rounds >= |Open(old(ledger.rows))| {
        AllCountedOut(old(ledger.rows), ledger.rows);
      }
    }
  }

  ghost predicate AllThere(first: Rows, rows: Rows) {
    forall id | id in first :: id in rows
  }

  // Every row there was at first is done with.
  ghost predicate AllClosed(first: Rows, rows: Rows) {
    forall id | id in first :: IsClosed(rows, id)
  }

  lemma IdleMeansClosed(first: Rows, rows: Rows)
    requires AllThere(first, rows) && forall id | id in rows :: !IsPending(rows[id])
    ensures AllClosed(first, rows)
  {
  }

  lemma ThereAtFirst(rows: Rows)
    ensures AllThere(rows, rows)
  {
  }

  lemma KeptStillClosed(first: Rows, before: Rows, after: Rows)
    requires AllThere(first, before) && Kept(before, after)
    ensures AllThere(first, after)
    ensures AllClosed(first, before) ==> AllClosed(first, after)
  {
  }

  lemma StillClosed(first: Rows, before: Rows, after: Rows, id: RequestId)
    requires AllThere(first, before) && KeptExcept(before, after, id)
    requires id in before ==> !IsTerminal(before[id].status) || after[id] == before[id]
    ensures AllThere(first, after)
    ensures AllClosed(first, before) ==> AllClosed(first, after)
  {
  }

  // The rows that are done with.
  ghost function Closed(rows: Rows): set<RequestId> {
    set id | id in rows && IsTerminal(rows[id].status)
  }

  ghost function Open(rows: Rows): set<RequestId> {
    set id | id in rows && !IsTerminal(rows[id].status)
  }

  // With no row added, closing as many as were open closes all.
  lemma AllCountedOut(first: Rows, rows: Rows)
    requires rows.Keys == first.Keys && |Closed(rows)| >= |Closed(first)| + |Open(first)|
    ensures AllClosed(first, rows)
  {
    assert first.Keys == Closed(first) + Open(first);
    assert Closed(first) * Open(first) == {};
    LargeSubsetIsAll(Closed(rows), rows.Keys);
    forall id | id in first
      ensures IsClosed(rows, id)
    {
      assert id in Closed(rows);
    }
  }

  lemma PickedWasOpen(rows: Rows, id: RequestId)
    requires IsNextPending(rows, id)
    ensures id in rows && !IsTerminal(rows[id].status)
  {
  }

  lemma MarkedRowIsThere(prize: nat, s: Service)
    requires Reachable(prize, s) && s.place.Marked?
    ensures s.place.id in s.rows
  {
    ReachableKeepsInv(prize, s);
  }

  lemma ClosedOnlyGrows(before: Rows, after: Rows, id: RequestId)
    requires KeptExcept(before, after, id)
    requires id in before ==> !IsTerminal(before[id].status) || after[id] == before[id]
    ensures |Closed(after)| >= |Closed(before)|
  {
    SubsetIsSmaller(Closed(before), Closed(after));
  }

  lemma KeptStaysClosed(before: Rows, after: Rows)
    requires Kept(before, after)
    ensures |Closed(after)| >= |Closed(before)|
  {
    SubsetIsSmaller(Closed(before), Closed(after));
  }

  lemma OneMoreClosed(before: Rows, after: Rows, id: RequestId)
    requires KeptExcept(before, after, id) && id in before && !IsTerminal(before[id].status) && IsClosed(after, id)
    ensures |Closed(after)| >= |Closed(before)| + 1
  {
    assert id !in Closed(before);
    SubsetIsSmaller(Closed(before) + {id}, Closed(after));
  }

  lemma NextProduct(n: nat, interval: nat)
    requires n > 0
    ensures n * interval == (n - 1) * interval + interval
  {
  }

  // As long as the deadline is ahead, polls remain.
  lemma PollsRemain(window: nat, interval: nat, slept: nat, clock: nat, deadline: nat)
    requires interval > 0 && clock + window >= deadline + slept * interval && clock < deadline
    ensures slept + 1 < CeilDiv(window, interval) + 1
  {
    if slept >= CeilDiv(window, interval) {
      FixedIntervalSuffices(window, interval, slept);
    }
  }
}
