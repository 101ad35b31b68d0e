/**
 * A drop through the claim service, client and service together
 * (lez-faucet-ffi/src/client.rs:1270-1519, claimd/src/worker.rs,
 * claimd/src/http.rs:340-431).
 *
 * The service is the machine of Payouts. The client asks once under its key;
 * from then on it only reads, rows from the service and evidence from the
 * chain. The POST may be handled at any time or never, its reply may be lost,
 * and every read may fail. What the client concludes is proved about the service and the
 * chain of every later state.
 */
module ClaimDrops {
  import opened Wrappers
  import opened ClaimLedger
  import opened Reconciliation
  import FiniteSets
  import P = Payouts

  const NOT_RECORDED_CONFIRMATIONS: nat := 3

  // One request: its key, the recipient it names, the prize, and the balance
  // read before asking.
  datatype Request = Request(id: RequestId, recipient: Recipient, prize: nat, before: nat)

  // What a POST comes to: the row, a refusal that recorded nothing, or an
  // answer that says neither.
  datatype Reply = Answer(row: Row) | Refusal | Trouble

  datatype Post = InFlight | Resolved(reply: Reply) | NeverArrives

  datatype Outcome = Refused | NotRecorded | Rejected | Paid(hash: Hash, balance: nat) | Unknown

  datatype Place =
    | Asking
    | Polling(record: Option<Row>, hash: Option<Hash>, missing: nat)
    | Looking(hash: Option<Hash>, missing: nat)
    | Done(outcome: Outcome)

  // late: the client stopped waiting for its POST while it could still be
  // handled. served: that POST inserted the row of the key. twice: another POST
  // for the same key and recipient did.
  datatype Joint = Joint(service: P.Service, post: Post, place: Place, late: bool, served: bool, twice: bool)

  datatype Step =
    | Others(step: P.Step)
    | HandlePost(insert: bool, answered: bool, ipHash: string, now: int)
    | DropPost
    | ReceiveReply
    | LoseReply
    | ReadStatus
    | MissStatus
    | TakeRecord
    | Judge(included: Option<bool>, balance: Option<nat>)
    | GiveUp

  // A transaction hash as the client accepts it.
  predicate IsTxHash(hash: Hash) {
    |hash| == 64 && forall k | 0 <= k < |hash| ::
      '0' <= hash[k] <= '9' || 'a' <= hash[k] <= 'f' || 'A' <= hash[k] <= 'F'
  }

  function Latched(hash: Option<Hash>, row: Row): Option<Hash> {
    if hash.Some? then hash
    else if row.txHash.Some? && IsTxHash(row.txHash.value) then row.txHash
    else None
  }

  // ---- the service's side of the POST -------------------------------------------------

  // Idempotency first; a new row only if every gate lets it through. If the row
  // came between this POST's look-up and its gates, those may still refuse it.
  function Handled(q: Request, j: Joint, insert: bool, answered: bool, ipHash: string, now: int): Joint {
    if q.id in j.service.rows then
      var row := j.service.rows[q.id];
      j.(post := Resolved(if row.recipient != q.recipient || (j.twice && !insert) then Refusal
                          else if answered then Answer(row)
                          else Trouble))
    else if insert then
      var row := QueuedRow(q.recipient, ipHash, now);
      j.(service := P.Inserted(j.service, q.id, row), post := Resolved(if answered then Answer(row) else Trouble),
         served := true)
    else j.(post := Resolved(if answered then Refusal else Trouble))
  }

  // ---- the client ------------------------------------------------------------------------

  // A failed row without a hash ends the drop: rejected, or unknown if that is
  // the code the row carries.
  function AfterRecord(row: Row, hash: Option<Hash>, missing: nat): Place {
    var latched := Latched(hash, row);
    if row.status.Failed? && latched.None?
    then Done(if row.errorCode == Some(OutcomeUnknown) then Unknown else Rejected)
    else Looking(latched, missing)
  }

  function AfterReads(q: Request, hash: Option<Hash>, missing: nat,
                      included: Option<bool>, balance: Option<nat>): Place
  {
    match Classify(q.before, q.before + q.prize, Observation(included, balance, None))
    case Credited => if hash.Some? && balance.Some? then Done(Paid(hash.value, balance.value)) else Done(Unknown)
    case Unattributable => Done(Unknown)
    case LostRace => Polling(None, hash, missing)
    case Continue => Polling(None, hash, missing)
  }

  // The chain answers for the hash the client holds.
  predicate CanRead(j: Joint, included: Option<bool>) {
    j.place.Looking? && match included
                        case None => true
                        case Some(yes) => j.place.hash.Some? && (yes ==> j.place.hash.value in j.service.landed)
  }

  // Somebody else's POST for this recipient inserts the row of this key.
  predicate IsDuplicate(q: Request, s: P.Service, step: P.Step) {
    step.Insert? && step.id == q.id && step.recipient == q.recipient && q.id !in s.rows
  }

  function Moved(q: Request, j: Joint, step: P.Step): Joint {
    j.(service := P.Apply(q.prize, j.service, step), twice := j.twice || IsDuplicate(q, j.service, step))
  }

  // A step that is not enabled changes nothing.
  function Apply(q: Request, j: Joint, step: Step): Joint {
    match step
    case Others(other) => Moved(q, j, other)
    case HandlePost(insert, answered, ipHash, now) =>
      if j.post.InFlight? then Handled(q, j, insert, answered, ipHash, now) else j
    case DropPost => if j.post.InFlight? then j.(post := NeverArrives) else j
    case ReceiveReply =>
      if !j.place.Asking? || !j.post.Resolved? then j
      else match j.post.reply {
        case Answer(row) => j.(place := Polling(Some(row), None, 0))
        case Refusal => j.(place := Done(Refused))
        case Trouble => j.(place := Polling(None, None, 0))
      }
    case LoseReply =>
      if j.place.Asking? then j.(place := Polling(None, None, 0), late := j.post.InFlight?) else j
    case ReadStatus =>
      if !j.place.Polling? || j.place.record.Some? then j
      else if q.id in j.service.rows then j.(place := Polling(Some(j.service.rows[q.id]), j.place.hash, 0))
      else if j.place.hash.None?
        && j.place.missing + 1 >= NOT_RECORDED_CONFIRMATIONS then j.(place := Done(NotRecorded))
      else j.(place := Looking(j.place.hash, j.place.missing + 1))
    case MissStatus =>
      if j.place.Polling? && j.place.record.None? then j.(place := Looking(j.place.hash, j.place.missing)) else j
    case TakeRecord =>
      if j.place.Polling? && j.place.record.Some?
      then j.(place := AfterRecord(j.place.record.value, j.place.hash, j.place.missing))
      else j
    case Judge(included, balance) =>
      if CanRead(j, included) then j.(place := AfterReads(q, j.place.hash, j.place.missing, included, balance)) else j
    case GiveUp => if j.place.Polling? && j.place.record.None? then j.(place := Done(Unknown)) else j
  }

  const START := Joint(P.START, InFlight, Asking, false, false, false)

  function Run(q: Request, steps: seq<Step>): Joint
    decreases |steps|
  {
    if steps == [] then START else Apply(q, Run(q, steps[..|steps| - 1]), steps[|steps| - 1])
  }

  ghost predicate Reachable(q: Request, j: Joint) {
    exists steps :: j == Run(q, steps)
  }

  lemma Reach(q: Request, j: Joint, step: Step) returns (k: Joint)
    requires Reachable(q, j)
    ensures k == Apply(q, j, step) && Reachable(q, k)
  {
    hide Apply;
    k := Apply(q, j, step);
    var steps :| j == Run(q, steps);
    var longer := steps + [step];
    assert longer[..|longer| - 1] == steps;
    assert k == Run(q, longer);
  }

  lemma StartIsReachable(q: Request)
    ensures Reachable(q, START)
  {
    assert START == Run(q, []);
  }

  // ---- invariant --------------------------------------------------------------------------

  // A row as the client once saw it: the hash it showed is one of the key's,
  // and a row seen terminal is still that row.
  predicate SeenRow(q: Request, s: P.Service, row: Row) {
    && P.RowOk(q.prize, row) && q.id in s.rows && s.rows[q.id].recipient == row.recipient
    && (row.txHash.Some? ==> row.txHash.value in s.accepted && s.accepted[row.txHash.value] == q.id)
    && (IsTerminal(row.status) ==> s.rows[q.id] == row)
  }

  predicate OwnHash(q: Request, s: P.Service, hash: Option<Hash>) {
    hash.Some? ==> hash.value in s.accepted && s.accepted[hash.value] == q.id
  }

  // No row under the key pays this recipient.
  predicate Unserved(q: Request, s: P.Service) {
    q.id in s.rows ==> s.rows[q.id].recipient != q.recipient
  }

  predicate PostOk(q: Request, j: Joint) {
    j.post.Resolved? ==>
      match j.post.reply
      case Answer(row) => SeenRow(q, j.service, row) && row.recipient == q.recipient
      case Refusal => j.twice || Unserved(q, j.service)
      case Trouble => true
  }

  predicate OutcomeOk(q: Request, j: Joint, outcome: Outcome) {
    match outcome
    case Refused => (j.twice || Unserved(q, j.service)) && j.post.Resolved?
    case NotRecorded => j.late || j.twice || Unserved(q, j.service)
    case Rejected =>
      && q.id in j.service.rows && j.service.rows[q.id].status.Failed? && j.service.rows[q.id].txHash.None?
      && j.service.rows[q.id].errorCode != Some(OutcomeUnknown)
    case Paid(hash, balance) =>
      OwnHash(q, j.service, Some(hash)) && hash in j.service.landed && balance == q.before + q.prize
    case Unknown => true
  }

  predicate PlaceOk(q: Request, j: Joint) {
    match j.place
    case Asking => !j.late
    case Polling(record, hash, missing) =>
      && (record.Some? ==> SeenRow(q, j.service, record.value)) && OwnHash(q, j.service, hash)
    case Looking(hash, missing) => OwnHash(q, j.service, hash)
    case Done(outcome) => OutcomeOk(q, j, outcome)
  }

  // The row of the key names this recipient exactly if a POST for it got in.
  predicate RecipientOk(q: Request, j: Joint) {
    && (j.served || j.twice ==> q.id in j.service.rows)
    && (q.id in j.service.rows ==> (j.service.rows[q.id].recipient == q.recipient <==> j.served || j.twice))
  }

  ghost predicate Inv(q: Request, j: Joint) {
    && P.Inv(q.prize, j.service) && PostOk(q, j) && PlaceOk(q, j) && RecipientOk(q, j)
    && (!j.place.Asking? && !j.late ==> !j.post.InFlight?)
  }

  // ---- every step keeps it -----------------------------------------------------------------

  // What the client holds on to survives every step of the service.
  predicate Carries(q: Request, s: P.Service, t: P.Service, duplicate: bool) {
    && (q.id in s.rows ==> P.Preserves(s, t, q.id))
    && (forall hash | hash in s.accepted :: hash in t.accepted && t.accepted[hash] == s.accepted[hash])
    && s.landed <= t.landed
    && (Unserved(q, s) && !duplicate ==> Unserved(q, t))
    && (duplicate ==> q.id in t.rows && t.rows[q.id].recipient == q.recipient)
  }

  // Only an insert makes the row of the key.
  lemma NewRowIsInserted(q: Request, s: P.Service, step: P.Step)
    requires q.id !in s.rows
    ensures var t := P.Apply(q.prize, s, step);
            q.id in t.rows <==> step.Insert? && step.id == q.id
    ensures step.Insert? && step.id == q.id ==> P.Apply(q.prize, s, step).rows[q.id].recipient == step.recipient
  {
    hide P.NextPlace, P.Bump;
  }

  lemma TakenStaysTaken(prize: nat, s: P.Service, step: P.Step)
    ensures var t := P.Apply(prize, s, step);
            && (forall hash | hash in s.accepted :: hash in t.accepted && t.accepted[hash] == s.accepted[hash])
            && s.landed <= t.landed
  {
    hide P.NextPlace, P.Bump;
  }

  lemma ServiceCarries(q: Request, s: P.Service, step: P.Step)
    requires P.Inv(q.prize, s)
    ensures Carries(q, s, P.Apply(q.prize, s, step), IsDuplicate(q, s, step))
  {
    hide P.SendsOk, P.RowOk, P.HashOk, P.NextPlace, P.KnowsOfSend, P.Inv, P.Bump, P.Apply;
    if q.id in s.rows {
      P.ApplyPreserves(q.prize, s, step, q.id);
    } else {
      NewRowIsInserted(q, s, step);
    }
    TakenStaysTaken(q.prize, s, step);
  }

  lemma CarriedPlaceIsOk(q: Request, j: Joint, k: Joint, duplicate: bool)
    requires Carries(q, j.service, k.service, duplicate) && k == j.(service := k.service, twice := j.twice || duplicate)
    requires PlaceOk(q, j) && PostOk(q, j) && RecipientOk(q, j)
    ensures PlaceOk(q, k) && PostOk(q, k) && RecipientOk(q, k)
  {
    hide P.RowOk;
  }

  lemma OthersKeep(q: Request, j: Joint, step: P.Step)
    requires Inv(q, j)
    ensures Inv(q, Moved(q, j, step))
  {
    hide P.Apply, P.Inv, Carries, PlaceOk, PostOk, RecipientOk, IsDuplicate;
    P.ApplyKeeps(q.prize, j.service, step);
    ServiceCarries(q, j.service, step);
    CarriedPlaceIsOk(q, j, Moved(q, j, step), IsDuplicate(q, j.service, step));
  }

  // A row of the ledger is as good as seen.
  lemma LedgerRowIsSeen(q: Request, s: P.Service)
    requires P.Inv(q.prize, s) && q.id in s.rows
    ensures SeenRow(q, s, s.rows[q.id])
  {
    P.PickedRowIsOk(q.prize, s, q.id);
  }

  lemma HandledKeeps(q: Request, j: Joint, insert: bool, answered: bool, ipHash: string, now: int)
    requires Inv(q, j) && j.post.InFlight?
    ensures Inv(q, Handled(q, j, insert, answered, ipHash, now))
  {
    hide P.Inv, P.RowOk;
    var t := Handled(q, j, insert, answered, ipHash, now);
    var row := QueuedRow(q.recipient, ipHash, now);
    QueuedRowIsOk(q.prize, row);
    P.InsertedKeeps(q.prize, j.service, q.id, row);
    if q.id in j.service.rows {
      LedgerRowIsSeen(q, j.service);
    }
  }

  lemma QueuedRowIsOk(prize: nat, row: Row)
    requires row == QueuedRow(row.recipient, row.ipHash, row.createdAt)
    ensures P.RowOk(prize, row)
  {
  }

  lemma RecordKeeps(q: Request, j: Joint)
    requires Inv(q, j) && j.place.Polling? && j.place.record.Some?
    ensures PlaceOk(q, j.(place := AfterRecord(j.place.record.value, j.place.hash, j.place.missing)))
  {
    hide P.Inv, IsTxHash;
  }

  lemma ReadsKeep(q: Request, j: Joint, included: Option<bool>, balance: Option<nat>)
    requires Inv(q, j) && CanRead(j, included)
    ensures PlaceOk(q, j.(place := AfterReads(q, j.place.hash, j.place.missing, included, balance)))
  {
    hide P.Inv;
  }

  lemma ApplyKeeps(q: Request, j: Joint, step: Step)
    requires Inv(q, j)
    ensures Inv(q, Apply(q, j, step))
  {
    hide P.Inv, P.RowOk, P.Apply, Handled, AfterRecord, AfterReads, Moved;
    match step
    case Others(other) => OthersKeep(q, j, other);
    case HandlePost(insert, answered, ipHash, now) =>
      if j.post.InFlight? { HandledKeeps(q, j, insert, answered, ipHash, now); }
    case TakeRecord => if j.place.Polling? && j.place.record.Some? { RecordKeeps(q, j); }
    case Judge(included, balance) => if CanRead(j, included) { ReadsKeep(q, j, included, balance); }
    case ReadStatus => if q.id in j.service.rows { LedgerRowIsSeen(q, j.service); }
    case _ =>
  }

  lemma {:induction false} RunKeeps(q: Request, steps: seq<Step>)
    ensures Inv(q, Run(q, steps))
    decreases |steps|
  {
    hide Apply, Inv;
    if steps == [] {
      StartIsOk(q);
    } else {
      RunKeeps(q, steps[..|steps| - 1]);
      ApplyKeeps(q, Run(q, steps[..|steps| - 1]), steps[|steps| - 1]);
    }
  }

  lemma StartIsOk(q: Request)
    ensures Inv(q, START)
  {
  }

  // The service of a joint run is a run of the service.
  lemma {:induction false} ServiceIsReachable(q: Request, steps: seq<Step>)
    ensures P.Reachable(q.prize, Run(q, steps).service)
    decreases |steps|
  {
    hide Apply, P.Reachable;
    if steps == [] {
      P.StartIsReachable(q.prize);
    } else {
      ServiceIsReachable(q, steps[..|steps| - 1]);
      ServiceSteps(q, Run(q, steps[..|steps| - 1]), steps[|steps| - 1]);
    }
  }

  lemma ServiceSteps(q: Request, j: Joint, step: Step)
    requires P.Reachable(q.prize, j.service)
    ensures P.Reachable(q.prize, Apply(q, j, step).service)
  {
    hide P.Reachable;
    if step.Others? {
      hide P.Apply;
      P.ReachableStep(q.prize, j.service, step.step);
    } else if step.HandlePost? {
      P.ReachableStep(q.prize, j.service, P.Insert(q.id, q.recipient, step.ipHash, step.now));
    }
  }

  // ---- what the outcomes mean ------------------------------------------------------------------

  // No transaction under the key pays the recipient.
  predicate NothingPaid(q: Request, s: P.Service) {
    forall hash | hash in s.accepted && s.accepted[hash] == q.id ::
      q.id in s.rows && s.rows[q.id].recipient != q.recipient
  }

  lemma UnservedIsUnpaid(q: Request, s: P.Service)
    requires P.Inv(q.prize, s) && Unserved(q, s)
    ensures NothingPaid(q, s)
  {
    hide P.SendsOk, P.RowOk, P.HashOk, P.PlaceOk;
  }

  /**
   * End to end, over any interleaving of client, handlers, worker and chain,
   * and at any later moment. Let no crash or failed write strike between a send
   * for this key and its mark. Then the key has at most one accepted
   * transaction; a drop that ended paid has exactly the one it names, in a
   * block, and the balance it read was the one before plus the prize; a drop
   * that ended rejected has none. A drop that ended refused has none for its
   * recipient unless another POST for the same key and recipient got in, and
   * one that ended not recorded has none unless that happened or the client
   * gave its POST up while it could still be handled.
   */
  lemma OutcomesAreTrue(q: Request, steps: seq<Step>)
    requires P.Tally(Run(q, steps).service.faults, q.id) == 0
    ensures var j := Run(q, steps);
            && |P.AcceptedOf(j.service, q.id)| <= 1
            && (j.place == Done(Rejected) ==> P.AcceptedOf(j.service, q.id) == {})
            && (j.place == Done(Refused) && !j.twice ==> NothingPaid(q, j.service))
            && (j.place == Done(NotRecorded) && !j.twice && !j.late ==> NothingPaid(q, j.service))
    ensures var j := Run(q, steps);
            j.place.Done? && j.place.outcome.Paid? ==>
              var paid := j.place.outcome;
              && P.AcceptedOf(j.service, q.id) == {paid.hash} && paid.hash in j.service.landed
              && paid.balance == q.before + q.prize
  {
    hide Run, P.Inv, P.Reachable, NothingPaid;
    var j := Run(q, steps);
    RunKeeps(q, steps);
    ServiceIsReachable(q, steps);
    P.PaymentsAreBounded(q.prize, j.service, q.id);
    if j.place == Done(Rejected) {
      RejectedIsUnpaid(q, j.service);
    } else if j.place == Done(Refused) || j.place == Done(NotRecorded) {
      if Unserved(q, j.service) {
        UnservedIsUnpaid(q, j.service);
      }
    } else if j.place.Done? && j.place.outcome.Paid? {
      OnlyMember(P.AcceptedOf(j.service, q.id), j.place.outcome.hash);
    }
  }

  /**
   * Whom the receipt pays. The named transaction pays the recipient of the
   * key's row, and that is this request's recipient if and only if a POST for
   * this key and recipient inserted the row. Every record the client can be
   * holding names the row's recipient, so one look at it would tell.
   */
  lemma PaidIsOursExactlyWhenServed(q: Request, steps: seq<Step>)
    ensures var j := Run(q, steps);
            j.place.Done? && j.place.outcome.Paid? ==>
              var hash := j.place.outcome.hash;
              && hash in j.service.accepted && j.service.accepted[hash] == q.id && q.id in j.service.rows
              && (j.service.rows[q.id].recipient == q.recipient <==> j.served || j.twice)
    ensures var j := Run(q, steps);
            j.place.Polling? && j.place.record.Some? ==>
              q.id in j.service.rows && j.place.record.value.recipient == j.service.rows[q.id].recipient
    ensures var j := Run(q, steps);
            j.post.Resolved? && j.post.reply.Answer? ==> j.served || j.twice
  {
    hide Run, P.RowOk, P.HashOk, P.PlaceOk, P.SendsOk;
    RunKeeps(q, steps);
    var j := Run(q, steps);
    if j.place.Done? && j.place.outcome.Paid? {
      AcceptedHasRow(q, j.service, j.place.outcome.hash);
    }
  }

  lemma AcceptedHasRow(q: Request, s: P.Service, hash: Hash)
    requires P.Inv(q.prize, s) && hash in s.accepted && s.accepted[hash] == q.id
    ensures q.id in s.rows
  {
    hide P.RowOk, P.HashOk, P.PlaceOk, P.SendsOk;
    assert P.Tally(s.sends, s.accepted[hash]) > 0;
  }

  lemma RejectedIsUnpaid(q: Request, s: P.Service)
    requires P.Reachable(q.prize, s) && P.Tally(s.faults, q.id) == 0
    requires q.id in s.rows && s.rows[q.id].status.Failed? && s.rows[q.id].txHash.None?
    requires s.rows[q.id].errorCode != Some(OutcomeUnknown)
    ensures NothingPaid(q, s) && P.AcceptedOf(s, q.id) == {}
  {
    hide P.Reachable;
    forall hash | hash in s.accepted
      ensures s.accepted[hash] != q.id
    {
      P.CleanFailureMovedNothing(q.prize, s, q.id, hash);
    }
  }

  lemma OnlyMember(hashes: set<Hash>, hash: Hash)
    requires |hashes| <= 1 && hash in hashes
    ensures hashes == {hash}
  {
    forall other | other in hashes
      ensures other == hash
    {
      if other != hash {
        FiniteSets.SubsetIsSmaller({hash, other}, hashes);
      }
    }
  }

  // Even with faults and late requests a receipt is never for a transaction
  // that is not on chain for this key, and one key is paid at most once more
  // than there were faults.
  lemma ReceiptsAreAlwaysReal(q: Request, steps: seq<Step>)
    ensures var j := Run(q, steps);
            && |P.AcceptedOf(j.service, q.id)| <= P.Tally(j.service.faults, q.id) + 1
            && (j.place.Done? && j.place.outcome.Paid? ==>
                  var paid := j.place.outcome;
                  && paid.hash in P.AcceptedOf(j.service, q.id) && paid.hash in j.service.landed
                  && paid.balance == q.before + q.prize)
  {
    hide Run, P.Inv, P.Reachable;
    var j := Run(q, steps);
    RunKeeps(q, steps);
    ServiceIsReachable(q, steps);
    P.PaymentsAreBounded(q.prize, j.service, q.id);
  }
}
