/**
 * The job registry of the core module as a state machine
 * (faucet-module/src/lez_faucet_module.cpp:938-1102, 1155-1421).
 *
 * Any number of callers start jobs, cancel, poll and acknowledge; each job has
 * a worker thread. Every step below is one critical section or one atomic, and
 * they interleave freely. Reconfiguration and shutdown appear here only through
 * what they do to the client pointer and the stopping flag, which may change at
 * any moment; JobHandles looks at them closely.
 */
module JobRegistry {
  import opened Wrappers
  import opened Envelopes
  import opened JsonValues
  import FiniteSets

  type Key = string
  type Account = string
  type JobId = nat
  type Handle = nat

  const MAX_RETAINED: nat := 128
  const NOT_CONFIGURED := "The faucet client is not configured."
  const NO_RESULT := "The faucet returned no result."

  // maker says which caller made the job; the code does not keep that.
  datatype Job = Job(operation: Operation, key: Key, token: nat, status: Status, phase: Option<string>,
                     result: Option<Json>, error: Option<Json>, cancelRequested: bool, maker: nat)

  // No job id yet: reserved by a caller that has not published it.
  datatype Tombstone = Tombstone(account: Account, jobId: Option<JobId>, status: Status)

  datatype Refusal = Stopping | NotConfigured | IdempotencyConflict | DropInProgress | JobLimitReached

  datatype Reply = Started(id: JobId) | Replayed(id: JobId) | Refused(why: Refusal)

  datatype CallerPlace =
    | AtGate | AtClient | AtClaim | AtSlot | AtStart | AtStartClient | AtInsert
    | AtSpawn(id: JobId) | AtPublish(id: JobId)
    | MustRelease(why: Refusal) | MustAbandon(why: Refusal) | Answered(reply: Reply)

  datatype Caller = Caller(operation: Operation, key: Key, account: Account, place: CallerPlace)

  datatype WorkerPlace =
    | ToBegin | ToCheck | ToLoad | InCall(client: Handle)
    | ToSettle(ran: bool, raw: string) | ToRelease | ToRecord | Finished

  datatype Holder = HeldByCaller(c: nat) | HeldByWorker(id: JobId)

  // All the job records there ever were, and which are still in the table.
  datatype Table = Table(jobs: map<JobId, Job>, retained: set<JobId>, nextId: JobId, nextToken: nat)

  // holder says who is to give the drop slot back; the code keeps only active.
  datatype Slot = Slot(active: bool, holder: Option<Holder>)

  // owner says who claimed a key that has no job yet; the code keeps only the
  // tombstones.
  datatype Keys = Keys(stones: map<Key, Tombstone>, owner: map<Key, nat>)

  // calls are the foreign drop calls made so far, in order.
  datatype Registry = Registry(
    stopping: bool, client: Option<Handle>, table: Table, slot: Slot, keys: Keys,
    callers: map<nat, Caller>, workers: map<JobId, WorkerPlace>, calls: seq<JobId>)

  const START := Registry(false, None, Table(map[], {}, 1, 1), Slot(false, None), Keys(map[], map[]), map[], map[], [])

  datatype Step =
    | Arrive(c: nat, operation: Operation, key: Key, account: Account)
    | Go(c: nat)
    | Work(id: JobId)
    | Return(id: JobId, raw: string)
    | Cancel(id: JobId)
    | Flag(id: JobId)
    | PhasePolled(id: JobId, phase: string)
    | Acknowledge(id: JobId)
    | SetStopping(stopping: bool)
    | SetClient(client: Option<Handle>)

  predicate IsDrop(operation: Operation) {
    operation.RequestDrop?
  }

  // ---- callers ------------------------------------------------------------------------

  // What a caller of a key that is taken is told.
  function TakenReply(stone: Tombstone, account: Account): Reply {
    if stone.account != account then Refused(IdempotencyConflict)
    else if stone.jobId.None? then Refused(DropInProgress)
    else Replayed(stone.jobId.value)
  }

  // A start that failed: a drop gives back its slot and then its key.
  function StartFailed(operation: Operation, why: Refusal): CallerPlace {
    if IsDrop(operation) then MustRelease(why) else Answered(Refused(why))
  }

  // Where a caller's step takes it.
  function CallerNext(s: Registry, me: Caller): CallerPlace {
    match me.place
    case AtGate => if s.stopping then Answered(Refused(Stopping)) else AtClient
    case AtClient => if s.client.None? then Answered(Refused(NotConfigured)) else AtClaim
    case AtClaim => if me.key in s.keys.stones then Answered(TakenReply(s.keys.stones[me.key], me.account)) else AtSlot
    case AtSlot => if s.slot.active then MustAbandon(DropInProgress) else AtStart
    case AtStart => if s.stopping then StartFailed(me.operation, Stopping) else AtStartClient
    case AtStartClient => if s.client.None? then StartFailed(me.operation, NotConfigured) else AtInsert
    case AtInsert => if HasRoom(s.table) then AtSpawn(s.table.nextId) else StartFailed(me.operation, JobLimitReached)
    case AtSpawn(id) => if IsDrop(me.operation) then AtPublish(id) else Answered(Started(id))
    case AtPublish(id) => Answered(Started(id))
    case MustRelease(why) => MustAbandon(why)
    case MustAbandon(why) => Answered(Refused(why))
    case Answered(_) => me.place
  }

  predicate HasRoom(table: Table) {
    |table.retained| < MAX_RETAINED
  }

  // A new key is claimed; a published one stays; one under which nothing ran
  // is forgotten.
  function KeysNext(keys: Keys, c: nat, me: Caller): Keys {
    match me.place
    case AtClaim =>
      if me.key in keys.stones then keys
      else Keys(keys.stones[me.key := Tombstone(me.account, None, Queued)], keys.owner[me.key := c])
    case AtPublish(id) =>
      var status := if me.key in keys.stones then keys.stones[me.key].status else Queued;
      Keys(keys.stones[me.key := Tombstone(me.account, Some(id), status)], keys.owner - {me.key})
    case MustAbandon(_) =>
      var unpublished := me.key in keys.stones && keys.stones[me.key].jobId.None?;
      Keys(if unpublished then keys.stones - {me.key} else keys.stones, keys.owner - {me.key})
    case _ => keys
  }

  // The slot is taken if it is free, handed to the worker with the spawn, and
  // given back when the start fails.
  function SlotNext(slot: Slot, c: nat, me: Caller): Slot {
    match me.place
    case AtSlot => if slot.active then slot else Slot(true, Some(HeldByCaller(c)))
    case AtSpawn(id) => if IsDrop(me.operation) then slot.(holder := Some(HeldByWorker(id))) else slot
    case MustRelease(_) => Slot(false, None)
    case _ => slot
  }

  // Ids and tokens are used up even by a start the table has no room for.
  function TableNext(table: Table, c: nat, me: Caller): Table {
    if !me.place.AtInsert? then table
    else
      var drop := IsDrop(me.operation);
      var job := Job(me.operation, me.key, if drop then table.nextToken else 0, Queued, None, None, None, false, c);
      Table(if HasRoom(table) then table.jobs[table.nextId := job] else table.jobs,
            if HasRoom(table) then table.retained + {table.nextId} else table.retained,
            table.nextId + 1, if drop then table.nextToken + 1 else table.nextToken)
  }

  function WorkersNext(workers: map<JobId, WorkerPlace>, me: Caller): map<JobId, WorkerPlace> {
    if me.place.AtSpawn? then workers[me.place.id := ToBegin] else workers
  }

  function Gone(s: Registry, c: nat): Registry
    requires c in s.callers
  {
    var me := s.callers[c];
    s.(callers := s.callers[c := me.(place := CallerNext(s, me))],
       keys := KeysNext(s.keys, c, me), slot := SlotNext(s.slot, c, me),
       table := TableNext(s.table, c, me), workers := WorkersNext(s.workers, me))
  }

  // ---- workers --------------------------------------------------------------------------

  function Settling(job: Job, ran: bool, raw: string): Job {
    var settled := Settle(job.operation, ran, raw);
    job.(status := settled.status, phase := if settled.phase.Some? then settled.phase else job.phase,
         result := settled.result, error := settled.error)
  }

  function WithJob(table: Table, id: JobId, job: Job): Table {
    table.(jobs := table.jobs[id := job])
  }

  // What a worker does next with its job, apart from the call itself.
  function NextPlace(s: Registry, job: Job, place: WorkerPlace): WorkerPlace {
    var stop := job.cancelRequested || s.stopping;
    match place
    case ToBegin => if stop then ToSettle(false, "") else if IsDrop(job.operation) then ToCheck else ToLoad
    case ToCheck => if stop then ToSettle(true, ErrorEnvelope("cancelled", CANCELLED_EARLY)) else ToLoad
    case ToLoad =>
      if s.client.None? then ToSettle(true, ErrorEnvelope("not_configured", NOT_CONFIGURED)) else InCall(s.client.value)
    case InCall(_) => place
    case ToSettle(_, _) => if IsDrop(job.operation) then ToRelease else Finished
    case ToRelease => ToRecord
    case ToRecord => Finished
    case Finished => Finished
  }

  function NextJob(s: Registry, job: Job, place: WorkerPlace): Job {
    match place
    case ToBegin => if job.cancelRequested || s.stopping then job else job.(status := Running)
    case ToSettle(ran, raw) => Settling(job, ran, raw)
    case _ => job
  }

  function StatusRecorded(keys: Keys, key: Key, status: Status): Keys {
    if key in keys.stones then keys.(stones := keys.stones[key := keys.stones[key].(status := status)]) else keys
  }

  function Worked(s: Registry, id: JobId): Registry
    requires id in s.workers && id in s.table.jobs
  {
    var job, place := s.table.jobs[id], s.workers[id];
    var next := NextPlace(s, job, place);
    s.(workers := s.workers[id := next],
       table := WithJob(s.table, id, NextJob(s, job, place)),
       calls := if place.ToLoad? && next.InCall? && IsDrop(job.operation) then s.calls + [id] else s.calls,
       slot := if place.ToRelease? then Slot(false, None) else s.slot,
       keys := if place.ToRecord? then StatusRecorded(s.keys, job.key, job.status) else s.keys)
  }

  function Returned(s: Registry, id: JobId, raw: string): Registry
    requires id in s.workers && s.workers[id].InCall?
  {
    s.(workers := s.workers[id := ToSettle(true, if raw == "" then ErrorEnvelope("internal_error",
      NO_RESULT) else raw)])
  }

  // ---- everyone else ----------------------------------------------------------------------

  // Only a job that has not finished can be changed from outside its worker.
  function Touched(table: Table, id: JobId, cancel: bool, status: Option<Status>, phase: Option<string>): Table {
    if id in table.jobs && !IsTerminal(table.jobs[id].status) then
      var job := table.jobs[id];
      WithJob(table, id, job.(cancelRequested := cancel || job.cancelRequested,
                              status := if status.Some? then status.value else job.status,
                              phase := if phase.Some? then phase else job.phase))
    else table
  }

  function Arrived(s: Registry, c: nat, operation: Operation, key: Key, account: Account): map<nat, Caller> {
    if c in s.callers then s.callers
    else s.callers[c := Caller(operation, key, account, if IsDrop(operation) then AtGate else AtStart)]
  }

  function Released(table: Table, id: JobId): Table {
    if id in table.jobs && IsTerminal(table.jobs[id].status) then table.(retained := table.retained - {id}) else table
  }

  // A step that is not enabled changes nothing.
  function Apply(s: Registry, step: Step): Registry {
    match step
    case Arrive(c, operation, key, account) => s.(callers := Arrived(s, c, operation, key, account))
    case Go(c) => if c in s.callers then Gone(s, c) else s
    case Work(id) => if id in s.workers && id in s.table.jobs then Worked(s, id) else s
    case Return(id, raw) => if id in s.workers && s.workers[id].InCall? then Returned(s, id, raw) else s
    case Cancel(id) => s.(table := Touched(s.table, id, true, Some(Cancelling), None))
    case Flag(id) => s.(table := Touched(s.table, id, true, None, None))
    case PhasePolled(id, phase) => s.(table := Touched(s.table, id, false, None, Some(phase)))
    case Acknowledge(id) => s.(table := Released(s.table, id))
    case SetStopping(stopping) => s.(stopping := stopping)
    case SetClient(client) => s.(client := client)
  }

  function Run(s: Registry, steps: seq<Step>): Registry
    decreases |steps|
  {
    if steps == [] then s else Apply(Run(s, steps[..|steps| - 1]), steps[|steps| - 1])
  }

  // ---- invariant ---------------------------------------------------------------------------

  predicate CallerHolds(me: Caller) {
    IsDrop(me.operation)
    && (me.place.AtStart? || me.place.AtStartClient? || me.place.AtInsert? || me.place.AtSpawn?
      || me.place.MustRelease?)
  }

  predicate CallerOwns(me: Caller) {
    IsDrop(me.operation) && (me.place.AtSlot? || me.place.MustAbandon? || me.place.AtPublish? || CallerHolds(me))
  }

  predicate WorkerHolds(operation: Operation, place: WorkerPlace) {
    IsDrop(operation) && !place.ToRecord? && !place.Finished?
  }

  predicate IsDone(place: WorkerPlace) {
    place.ToRelease? || place.ToRecord? || place.Finished?
  }

  // The slot is out exactly while its holder has it to give back.
  predicate SlotOk(slot: Slot) {
    slot.active <==> slot.holder.Some?
  }

  predicate CallerHolderOk(slot: Slot, callers: map<nat, Caller>, c: nat) {
    slot.holder == Some(HeldByCaller(c)) <==> c in callers && CallerHolds(callers[c])
  }

  predicate WorkerHolderOk(slot: Slot, jobs: map<JobId, Job>, workers: map<JobId, WorkerPlace>, id: JobId) {
    slot.holder == Some(HeldByWorker(id)) <==>
      id in workers && id in jobs && WorkerHolds(jobs[id].operation, workers[id])
  }

  predicate CallerOk(keys: Keys, jobs: map<JobId, Job>, workers: map<JobId, WorkerPlace>, c: nat, me: Caller) {
    && (CallerOwns(me) ==>
          && me.key in keys.owner && keys.owner[me.key] == c
          && me.key in keys.stones && keys.stones[me.key].jobId.None? && keys.stones[me.key].account == me.account)
    && (me.place.AtSpawn? || me.place.AtPublish? ==>
          me.place.id in jobs && jobs[me.place.id].key == me.key && jobs[me.place.id].operation == me.operation)
    && (me.place.AtSpawn? ==> me.place.id !in workers)
    && (!IsDrop(me.operation) ==>
          me.place.AtStart? || me.place.AtStartClient? || me.place.AtInsert? || me.place.AtSpawn? || me.place.Answered?)
  }

  // A caller about to spawn is the only one with that job.
  predicate SpawnsDiffer(callers: map<nat, Caller>, a: nat, b: nat)
    requires a in callers && b in callers
  {
    callers[a].place.AtSpawn? && callers[a].place == callers[b].place ==> a == b
  }

  predicate OwnerOk(keys: Keys, callers: map<nat, Caller>, key: Key) {
    key in keys.owner ==>
      keys.owner[key] in callers && CallerOwns(callers[keys.owner[key]]) && callers[keys.owner[key]].key == key
  }

  predicate StoneOk(keys: Keys, jobs: map<JobId, Job>, key: Key) {
    key in keys.stones ==>
      var stone := keys.stones[key];
      && (stone.jobId.None? ==> key in keys.owner)
      && (stone.jobId.Some? ==>
            stone.jobId.value in jobs && jobs[stone.jobId.value].key == key
            && IsDrop(jobs[stone.jobId.value].operation) && key !in keys.owner)
  }

  // Every drop job is its key's: published, or in the hands of the one caller
  // that claimed the key.
  predicate JobKeyOk(keys: Keys, callers: map<nat, Caller>, id: JobId, job: Job) {
    IsDrop(job.operation) ==>
      && job.key in keys.stones
      && if keys.stones[job.key].jobId.Some? then keys.stones[job.key].jobId == Some(id)
         else job.key in keys.owner && keys.owner[job.key] in callers
              && callers[keys.owner[job.key]].place in {AtSpawn(id), AtPublish(id)}
  }

  predicate JobOk(table: Table, workers: map<JobId, WorkerPlace>, id: JobId)
    requires id in table.jobs
  {
    var job := table.jobs[id];
    && id < table.nextId && (IsDrop(job.operation) ==> 0 < job.token < table.nextToken)
    && (IsTerminal(job.status) <==> id in workers && IsDone(workers[id]))
  }

  predicate WorkerOk(jobs: map<JobId, Job>, workers: map<JobId, WorkerPlace>, id: JobId)
    requires id in workers
  {
    id in jobs && (IsDrop(jobs[id].operation) || !(workers[id].ToRelease? || workers[id].ToRecord?
      || workers[id].ToCheck?))
  }

  // Tokens are never reused: later drops have greater ones.
  predicate TokensRise(jobs: map<JobId, Job>, a: JobId, b: JobId)
    requires a in jobs && b in jobs
  {
    a < b && IsDrop(jobs[a].operation) && IsDrop(jobs[b].operation) ==> jobs[a].token < jobs[b].token
  }

  // A finished job shows what some outcome of its worker settles to.
  ghost predicate IsSettled(job: Job) {
    IsTerminal(job.status) ==>
      exists ran, raw ::
        var settled := Settle(job.operation, ran, raw);
        job.status == settled.status && job.result == settled.result && job.error == settled.error
  }

  // A job's worker makes its foreign call once.
  predicate HasCalled(jobs: map<JobId, Job>, workers: map<JobId, WorkerPlace>, id: JobId) {
    id in workers && id in jobs && IsDrop(jobs[id].operation)
    && !workers[id].ToBegin? && !workers[id].ToCheck? && !workers[id].ToLoad?
  }

  predicate CallsDiffer(calls: seq<JobId>) {
    forall i, j | 0 <= i < j < |calls| :: calls[i] != calls[j]
  }

  predicate RetainedOk(table: Table) {
    |table.retained| <= MAX_RETAINED && table.retained <= table.jobs.Keys && table.nextToken > 0
  }

  ghost predicate Inv(s: Registry) {
    && SlotOk(s.slot) && RetainedOk(s.table) && CallsDiffer(s.calls)
    && (forall c :: CallerHolderOk(s.slot, s.callers, c))
    && (forall id :: WorkerHolderOk(s.slot, s.table.jobs, s.workers, id))
    && (forall c | c in s.callers :: CallerOk(s.keys, s.table.jobs, s.workers, c, s.callers[c]))
    && (forall a, b | a in s.callers && b in s.callers :: SpawnsDiffer(s.callers, a, b))
    && (forall key :: OwnerOk(s.keys, s.callers, key))
    && (forall key :: StoneOk(s.keys, s.table.jobs, key))
    && (forall id | id in s.table.jobs :: JobKeyOk(s.keys, s.callers, id, s.table.jobs[id]))
    && (forall id | id in s.table.jobs :: JobOk(s.table, s.workers, id))
    && (forall id | id in s.workers :: WorkerOk(s.table.jobs, s.workers, id))
    && (forall i | 0 <= i < |s.calls| :: HasCalled(s.table.jobs, s.workers, s.calls[i]))
    && (forall a, b | a in s.table.jobs && b in s.table.jobs :: TokensRise(s.table.jobs, a, b))
    && (forall id | id in s.table.jobs :: IsSettled(s.table.jobs[id]))
  }

  // ---- every step keeps it: callers --------------------------------------------------------

  // The next job id is new.
  predicate NextIsNew(s: Registry) {
    s.table.nextId !in s.table.jobs && s.table.nextId !in s.workers
  }

  lemma NextIdIsNew(s: Registry)
    requires Inv(s)
    ensures NextIsNew(s)
  {
    hide CallerHolderOk, WorkerHolderOk, CallerOk, OwnerOk, StoneOk, JobKeyOk;
    var next := s.table.nextId;
    assert next in s.table.jobs ==> JobOk(s.table, s.workers, next);
    assert next in s.workers ==> WorkerOk(s.table.jobs, s.workers, next);
  }

  // One caller's step, seen from each part of the invariant.
  predicate CallerView(s: Registry, c: nat) {
    && c in s.callers && SlotOk(s.slot) && CallerHolderOk(s.slot, s.callers, c) && NextIsNew(s) && s.table.nextToken > 0
    && CallerOk(s.keys, s.table.jobs, s.workers, c, s.callers[c])
  }

  lemma GoneCallerHolder(s: Registry, c: nat, d: nat)
    requires CallerView(s, c) && CallerHolderOk(s.slot, s.callers, d)
    ensures SlotOk(Gone(s, c).slot) && CallerHolderOk(Gone(s, c).slot, Gone(s, c).callers, d)
  {
  }

  lemma GoneWorkerHolder(s: Registry, c: nat, id: JobId)
    requires CallerView(s, c) && WorkerHolderOk(s.slot, s.table.jobs, s.workers, id)
    ensures WorkerHolderOk(Gone(s, c).slot, Gone(s, c).table.jobs, Gone(s, c).workers, id)
  {
  }

  lemma GoneCaller(s: Registry, c: nat, d: nat)
    requires CallerView(s, c) && d in s.callers && CallerOk(s.keys, s.table.jobs, s.workers, d, s.callers[d])
    requires SpawnsDiffer(s.callers, c, d)
    ensures var t := Gone(s, c); d in t.callers && CallerOk(t.keys, t.table.jobs, t.workers, d, t.callers[d])
  {
  }

  lemma GoneOwner(s: Registry, c: nat, key: Key)
    requires CallerView(s, c) && OwnerOk(s.keys, s.callers, key)
    ensures OwnerOk(Gone(s, c).keys, Gone(s, c).callers, key)
  {
  }

  lemma GoneStone(s: Registry, c: nat, key: Key)
    requires CallerView(s, c) && StoneOk(s.keys, s.table.jobs, key)
    ensures StoneOk(Gone(s, c).keys, Gone(s, c).table.jobs, key)
  {
  }

  lemma GoneJob(s: Registry, c: nat, id: JobId)
    requires CallerView(s, c) && id in Gone(s, c).table.jobs
    requires id in s.table.jobs ==> JobOk(s.table, s.workers, id)
    ensures JobOk(Gone(s, c).table, Gone(s, c).workers, id)
  {
  }

  lemma GoneJobKey(s: Registry, c: nat, id: JobId)
    requires CallerView(s, c) && id in Gone(s, c).table.jobs
    requires id in s.table.jobs ==> JobKeyOk(s.keys, s.callers, id, s.table.jobs[id])
    ensures var t := Gone(s, c); JobKeyOk(t.keys, t.callers, id, t.table.jobs[id])
  {
    hide SlotNext, WorkersNext, SlotOk, CallerHolderOk, StartFailed, TakenReply;
    if id in s.table.jobs {
      GoneOldJobKey(s, c, id);
    }
  }

  lemma OldJobIsKept(s: Registry, c: nat, id: JobId)
    requires c in s.callers && NextIsNew(s) && id in s.table.jobs
    ensures id in Gone(s, c).table.jobs && Gone(s, c).table.jobs[id] == s.table.jobs[id]
  {
    hide CallerNext, KeysNext, SlotNext, WorkersNext;
  }

  // The job in question was there before the step.
  lemma GoneOldJobKey(s: Registry, c: nat, id: JobId)
    requires CallerView(s, c) && id in s.table.jobs
    requires JobKeyOk(s.keys, s.callers, id, s.table.jobs[id])
    ensures var t := Gone(s, c); id in t.table.jobs && JobKeyOk(t.keys, t.callers, id, t.table.jobs[id])
  {
    hide SlotNext, WorkersNext, TableNext, SlotOk, CallerHolderOk, StartFailed, TakenReply, NextIsNew;
    OldJobIsKept(s, c, id);
    var me, key := s.callers[c], s.table.jobs[id].key;
    if key != me.key {
      assert KeysNext(s.keys, c, me).owner - {me.key} == s.keys.owner - {me.key};
    }
  }

  lemma GoneWorker(s: Registry, c: nat, id: JobId)
    requires CallerView(s, c) && id in Gone(s, c).workers
    requires id in s.workers ==> WorkerOk(s.table.jobs, s.workers, id)
    ensures WorkerOk(Gone(s, c).table.jobs, Gone(s, c).workers, id)
  {
  }

  lemma GoneSpawns(s: Registry, c: nat, a: nat, b: nat)
    requires CallerView(s, c) && a in s.callers && b in s.callers
    requires SpawnsDiffer(s.callers, a, b)
    requires CallerOk(s.keys, s.table.jobs, s.workers, a, s.callers[a])
    requires CallerOk(s.keys, s.table.jobs, s.workers, b, s.callers[b])
    ensures SpawnsDiffer(Gone(s, c).callers, a, b)
  {
  }

  lemma GoneCalled(s: Registry, c: nat, id: JobId)
    requires CallerView(s, c) && HasCalled(s.table.jobs, s.workers, id)
    ensures HasCalled(Gone(s, c).table.jobs, Gone(s, c).workers, id)
  {
  }

  lemma GoneTokens(s: Registry, c: nat, a: JobId, b: JobId)
    requires CallerView(s, c) && a in Gone(s, c).table.jobs && b in Gone(s, c).table.jobs
    requires a in s.table.jobs ==> JobOk(s.table, s.workers, a)
    requires b in s.table.jobs ==> JobOk(s.table, s.workers, b)
    requires a in s.table.jobs && b in s.table.jobs ==> TokensRise(s.table.jobs, a, b)
    ensures TokensRise(Gone(s, c).table.jobs, a, b)
  {
  }

  lemma GoneSettled(s: Registry, c: nat, id: JobId)
    requires CallerView(s, c) && id in Gone(s, c).table.jobs
    requires id in s.table.jobs ==> IsSettled(s.table.jobs[id])
    ensures IsSettled(Gone(s, c).table.jobs[id])
  {
    hide Settle;
  }

  lemma GoneRetained(s: Registry, c: nat)
    requires c in s.callers && RetainedOk(s.table)
    ensures RetainedOk(Gone(s, c).table)
  {
  }

  lemma GoneKeeps(s: Registry, c: nat)
    requires Inv(s) && c in s.callers
    ensures Inv(Gone(s, c))
  {
    hide Gone, SlotOk, RetainedOk, CallsDiffer, CallerHolderOk, WorkerHolderOk, CallerOk, SpawnsDiffer, OwnerOk,
         StoneOk,
         JobKeyOk, JobOk, WorkerOk, HasCalled, NextIsNew, CallerView, TokensRise, IsSettled;
    NextIdIsNew(s);
    SeenByCaller(s, c);
    GoneFrame(s, c);
    GoneRetained(s, c);
    var t := Gone(s, c);
    forall d ensures CallerHolderOk(t.slot, t.callers, d) { GoneCallerHolder(s, c, d); }
    forall id ensures WorkerHolderOk(t.slot, t.table.jobs, t.workers, id) { GoneWorkerHolder(s, c, id); }
    forall d | d in t.callers
      ensures CallerOk(t.keys, t.table.jobs, t.workers, d, t.callers[d])
    { GoneCaller(s, c, d); }
    forall a, b | a in t.callers && b in t.callers ensures SpawnsDiffer(t.callers, a, b) { GoneSpawns(s, c, a, b); }
    forall key ensures OwnerOk(t.keys, t.callers, key) { GoneOwner(s, c, key); }
    forall key ensures StoneOk(t.keys, t.table.jobs, key) { GoneStone(s, c, key); }
    forall id | id in t.table.jobs ensures JobKeyOk(t.keys, t.callers, id, t.table.jobs[id]) { GoneJobKey(s, c, id); }
    forall id | id in t.table.jobs ensures JobOk(t.table, t.workers, id) { GoneJob(s, c, id); }
    forall id | id in t.workers ensures WorkerOk(t.table.jobs, t.workers, id) { GoneWorker(s, c, id); }
    forall i | 0 <= i < |t.calls|
      ensures HasCalled(t.table.jobs, t.workers, t.calls[i])
    { GoneCalled(s, c, s.calls[i]); }
    forall a, b | a in t.table.jobs && b in t.table.jobs
      ensures TokensRise(t.table.jobs, a, b)
    { GoneTokens(s, c, a, b); }
    forall id | id in t.table.jobs ensures IsSettled(t.table.jobs[id]) { GoneSettled(s, c, id); }
    GoneCallerHolder(s, c, c);
  }

  lemma GoneFrame(s: Registry, c: nat)
    requires c in s.callers
    ensures Gone(s, c).callers.Keys == s.callers.Keys && Gone(s, c).calls == s.calls
  {
  }

  lemma SeenByCaller(s: Registry, c: nat)
    requires Inv(s) && NextIsNew(s) && c in s.callers
    ensures CallerView(s, c)
  {
    hide WorkerHolderOk, OwnerOk, StoneOk, JobKeyOk, JobOk, WorkerOk, HasCalled, NextIsNew, SpawnsDiffer, CallsDiffer;
  }

  // ---- every step keeps it: workers -------------------------------------------------------------

  predicate WorkerView(s: Registry, id: JobId) {
    && id in s.workers && id in s.table.jobs
    && WorkerOk(s.table.jobs, s.workers, id) && JobOk(s.table, s.workers, id)
    && WorkerHolderOk(s.slot, s.table.jobs, s.workers, id)
  }

  lemma JobKeepsItself(s: Registry, job: Job, place: WorkerPlace)
    ensures var next := NextJob(s, job, place);
            && next.operation == job.operation && next.key == job.key
            && next.token == job.token && next.maker == job.maker
            && (IsTerminal(next.status) <==>
                  place.ToSettle? || (IsTerminal(job.status) && !(place.ToBegin? && next != job)))
  {
    hide Settle;
  }

  // The parts of the invariant that do not look into a job's status.
  lemma WorkedSlot(s: Registry, id: JobId, other: JobId)
    requires WorkerView(s, id) && SlotOk(s.slot) && WorkerHolderOk(s.slot, s.table.jobs, s.workers, other)
    ensures SlotOk(Worked(s, id).slot)
         && WorkerHolderOk(Worked(s, id).slot, Worked(s, id).table.jobs, Worked(s, id).workers, other)
  {
    hide NextJob;
    JobKeepsItself(s, s.table.jobs[id], s.workers[id]);
  }

  lemma WorkedCallerHolder(s: Registry, id: JobId, c: nat)
    requires WorkerView(s, id) && CallerHolderOk(s.slot, s.callers, c)
    ensures CallerHolderOk(Worked(s, id).slot, Worked(s, id).callers, c)
  {
    hide NextJob;
  }

  lemma WorkedCaller(s: Registry, id: JobId, c: nat)
    requires WorkerView(s, id) && c in s.callers && CallerOk(s.keys, s.table.jobs, s.workers, c, s.callers[c])
    ensures var t := Worked(s, id); CallerOk(t.keys, t.table.jobs, t.workers, c, t.callers[c])
  {
    hide NextJob, NextPlace;
    JobKeepsItself(s, s.table.jobs[id], s.workers[id]);
  }

  lemma WorkedKeys(s: Registry, id: JobId, key: Key)
    requires WorkerView(s, id) && OwnerOk(s.keys, s.callers, key) && StoneOk(s.keys, s.table.jobs, key)
    ensures var t := Worked(s, id); OwnerOk(t.keys, t.callers, key) && StoneOk(t.keys, t.table.jobs, key)
  {
    hide NextJob, NextPlace;
    JobKeepsItself(s, s.table.jobs[id], s.workers[id]);
  }

  lemma WorkedJob(s: Registry, id: JobId, other: JobId)
    requires WorkerView(s, id) && other in s.table.jobs && JobOk(s.table, s.workers, other)
    ensures JobOk(Worked(s, id).table, Worked(s, id).workers, other)
  {
    hide NextJob;
    JobKeepsItself(s, s.table.jobs[id], s.workers[id]);
  }

  lemma WorkedJobKey(s: Registry, id: JobId, other: JobId)
    requires WorkerView(s, id) && other in s.table.jobs && JobKeyOk(s.keys, s.callers, other, s.table.jobs[other])
    ensures var t := Worked(s, id); JobKeyOk(t.keys, t.callers, other, t.table.jobs[other])
  {
    hide NextJob, NextPlace;
    JobKeepsItself(s, s.table.jobs[id], s.workers[id]);
  }

  lemma WorkedWorker(s: Registry, id: JobId, other: JobId)
    requires WorkerView(s, id) && other in s.workers && WorkerOk(s.table.jobs, s.workers, other)
    ensures WorkerOk(Worked(s, id).table.jobs, Worked(s, id).workers, other)
  {
    hide NextJob;
    JobKeepsItself(s, s.table.jobs[id], s.workers[id]);
  }

  lemma WorkedCalls(s: Registry, id: JobId, other: JobId)
    requires WorkerView(s, id)
    requires HasCalled(s.table.jobs, s.workers, other) || (|Worked(s, id).calls| > |s.calls| && other == id)
    ensures HasCalled(Worked(s, id).table.jobs, Worked(s, id).workers, other)
  {
    hide NextJob;
    JobKeepsItself(s, s.table.jobs[id], s.workers[id]);
  }

  // The worker that makes its call has not made one.
  lemma WorkedCallsDiffer(s: Registry, id: JobId)
    requires WorkerView(s, id) && CallsDiffer(s.calls)
    requires forall i | 0 <= i < |s.calls| :: HasCalled(s.table.jobs, s.workers, s.calls[i])
    ensures CallsDiffer(Worked(s, id).calls)
    ensures Worked(s, id).calls == s.calls || Worked(s, id).calls == s.calls + [id]
  {
    hide NextJob;
    if Worked(s, id).calls != s.calls {
      assert !HasCalled(s.table.jobs, s.workers, id);
    }
  }

  lemma WorkedTokens(s: Registry, id: JobId, a: JobId, b: JobId)
    requires WorkerView(s, id) && a in s.table.jobs && b in s.table.jobs && TokensRise(s.table.jobs, a, b)
    ensures TokensRise(Worked(s, id).table.jobs, a, b)
  {
    hide NextJob, NextPlace;
    JobKeepsItself(s, s.table.jobs[id], s.workers[id]);
  }

  lemma WorkedSettled(s: Registry, id: JobId, other: JobId)
    requires WorkerView(s, id) && other in s.table.jobs && IsSettled(s.table.jobs[other])
    ensures IsSettled(Worked(s, id).table.jobs[other])
  {
    hide NextPlace, Settle;
  }

  lemma WorkedFrame(s: Registry, id: JobId)
    requires WorkerView(s, id) && RetainedOk(s.table)
    ensures Worked(s, id).callers == s.callers && Worked(s, id).workers.Keys == s.workers.Keys
    ensures Worked(s, id).table.jobs.Keys == s.table.jobs.Keys && RetainedOk(Worked(s, id).table)
  {
    hide NextJob, NextPlace;
  }

  lemma WorkedKeeps(s: Registry, id: JobId)
    requires Inv(s) && id in s.workers && id in s.table.jobs
    ensures Inv(Worked(s, id))
  {
    hide Worked, SlotOk, RetainedOk, CallsDiffer, CallerHolderOk, WorkerHolderOk, CallerOk, SpawnsDiffer, OwnerOk,
         StoneOk,
         JobKeyOk, JobOk, WorkerOk, HasCalled, WorkerView, TokensRise, IsSettled;
    SeenByWorker(s, id);
    WorkedFrame(s, id);
    WorkedCallsDiffer(s, id);
    WorkedSlot(s, id, id);
    var t := Worked(s, id);
    forall c ensures CallerHolderOk(t.slot, t.callers, c) { WorkedCallerHolder(s, id, c); }
    forall other ensures WorkerHolderOk(t.slot, t.table.jobs, t.workers, other) { WorkedSlot(s, id, other); }
    forall c | c in t.callers
      ensures CallerOk(t.keys, t.table.jobs, t.workers, c, t.callers[c])
    { WorkedCaller(s, id, c); }
    forall key ensures OwnerOk(t.keys, t.callers, key) { WorkedKeys(s, id, key); }
    forall key ensures StoneOk(t.keys, t.table.jobs, key) { WorkedKeys(s, id, key); }
    forall other | other in t.table.jobs
      ensures JobKeyOk(t.keys, t.callers, other, t.table.jobs[other])
    { WorkedJobKey(s, id, other); }
    forall other | other in t.table.jobs ensures JobOk(t.table, t.workers, other) { WorkedJob(s, id, other); }
    forall other | other in t.workers ensures WorkerOk(t.table.jobs, t.workers, other) { WorkedWorker(s, id, other); }
    forall i | 0 <= i < |t.calls|
      ensures HasCalled(t.table.jobs, t.workers, t.calls[i])
    { WorkedCalls(s, id, t.calls[i]); }
    forall a, b | a in t.table.jobs && b in t.table.jobs
      ensures TokensRise(t.table.jobs, a, b)
    { WorkedTokens(s, id, a, b); }
    forall other | other in t.table.jobs ensures IsSettled(t.table.jobs[other]) { WorkedSettled(s, id, other); }
  }

  lemma SeenByWorker(s: Registry, id: JobId)
    requires Inv(s) && id in s.workers && id in s.table.jobs
    ensures WorkerView(s, id)
  {
    hide OwnerOk, StoneOk, JobKeyOk, HasCalled, SpawnsDiffer, CallsDiffer, CallerOk, CallerHolderOk;
  }

  // ---- every step keeps it: everyone else --------------------------------------------------------

  lemma ReturnedKeeps(s: Registry, id: JobId, raw: string)
    requires Inv(s) && id in s.workers && s.workers[id].InCall?
    ensures Inv(Returned(s, id, raw))
  {
    hide SlotOk, RetainedOk, CallsDiffer, CallerHolderOk, SpawnsDiffer, OwnerOk, StoneOk, JobKeyOk, TokensRise,
         IsSettled;
    var t := Returned(s, id, raw);
    forall c | c in t.callers ensures CallerOk(t.keys, t.table.jobs, t.workers, c, t.callers[c]) {
      assert CallerOk(s.keys, s.table.jobs, s.workers, c, s.callers[c]);
    }
    forall other ensures WorkerHolderOk(t.slot, t.table.jobs, t.workers, other) {
      assert WorkerHolderOk(s.slot, s.table.jobs, s.workers, other);
    }
    forall other | other in t.table.jobs
      ensures JobOk(t.table, t.workers, other)
    { assert JobOk(s.table, s.workers, other); }
  }

  // A job that has not finished is changed in what the invariant does not
  // look at, and stays unfinished.
  lemma TouchedJob(table: Table, id: JobId, cancel: bool, status: Option<Status>, phase: Option<string>, other: JobId)
    requires other in table.jobs && (status.Some? ==> !IsTerminal(status.value))
    ensures var t := Touched(table, id, cancel, status, phase);
            && t.jobs.Keys == table.jobs.Keys && t.retained == table.retained
            && t.nextId == table.nextId && t.nextToken == table.nextToken
            && t.jobs[other].operation == table.jobs[other].operation && t.jobs[other].key == table.jobs[other].key
            && t.jobs[other].token == table.jobs[other].token && t.jobs[other].maker == table.jobs[other].maker
            && IsTerminal(t.jobs[other].status) == IsTerminal(table.jobs[other].status)
            && (IsTerminal(table.jobs[other].status) ==> t.jobs[other] == table.jobs[other])
  {
  }

  // The table changes only in that way.
  predicate Looks(s: Registry, table: Table) {
    && table.jobs.Keys == s.table.jobs.Keys && table.retained <= s.table.retained
    && table.nextId == s.table.nextId && table.nextToken == s.table.nextToken
    && forall id | id in table.jobs ::
         var before, after := s.table.jobs[id], table.jobs[id];
         && after.operation == before.operation && after.key == before.key && after.token == before.token
         && after.maker == before.maker
         && IsTerminal(after.status) == IsTerminal(before.status)
         && (IsTerminal(before.status) ==> after == before)
  }

  lemma LooksKeeps(s: Registry, table: Table)
    requires Inv(s) && Looks(s, table)
    ensures Inv(s.(table := table))
  {
    hide SlotOk, CallsDiffer, CallerHolderOk, SpawnsDiffer, OwnerOk, Settle;
    var t := s.(table := table);
    FiniteSets.SubsetIsSmaller(table.retained, s.table.retained);
    forall id
      ensures WorkerHolderOk(t.slot, t.table.jobs, t.workers, id)
    { assert WorkerHolderOk(s.slot, s.table.jobs, s.workers, id); }
    forall c | c in t.callers ensures CallerOk(t.keys, t.table.jobs, t.workers, c, t.callers[c]) {
      assert CallerOk(s.keys, s.table.jobs, s.workers, c, s.callers[c]);
    }
    forall key ensures StoneOk(t.keys, t.table.jobs, key) { assert StoneOk(s.keys, s.table.jobs, key); }
    forall id | id in t.table.jobs ensures JobKeyOk(t.keys, t.callers, id, t.table.jobs[id]) {
      assert JobKeyOk(s.keys, s.callers, id, s.table.jobs[id]);
    }
    forall id | id in t.table.jobs ensures JobOk(t.table, t.workers, id) { assert JobOk(s.table, s.workers, id); }
    forall id | id in t.workers
      ensures WorkerOk(t.table.jobs, t.workers, id)
    { assert WorkerOk(s.table.jobs, s.workers, id); }
    forall i | 0 <= i < |t.calls| ensures HasCalled(t.table.jobs, t.workers, t.calls[i]) {
      assert HasCalled(s.table.jobs, s.workers, s.calls[i]);
    }
    forall a, b | a in t.table.jobs && b in t.table.jobs ensures TokensRise(t.table.jobs, a, b) {
      assert TokensRise(s.table.jobs, a, b);
    }
    forall id | id in t.table.jobs ensures IsSettled(t.table.jobs[id]) { assert IsSettled(s.table.jobs[id]); }
  }

  lemma TouchedKeeps(s: Registry, id: JobId, cancel: bool, status: Option<Status>, phase: Option<string>)
    requires Inv(s) && (status.Some? ==> !IsTerminal(status.value))
    ensures Inv(s.(table := Touched(s.table, id, cancel, status, phase)))
  {
    hide Inv, Touched;
    var table := Touched(s.table, id, cancel, status, phase);
    TouchedFrame(s.table, id, cancel, status, phase);
    forall other | other in s.table.jobs
      ensures IsTerminal(table.jobs[other].status) == IsTerminal(s.table.jobs[other].status)
    {
      TouchedJob(s.table, id, cancel, status, phase, other);
    }
    forall other | other in s.table.jobs
      ensures table.jobs[other].operation == s.table.jobs[other].operation
           && table.jobs[other].key == s.table.jobs[other].key
           && table.jobs[other].token == s.table.jobs[other].token
           && table.jobs[other].maker == s.table.jobs[other].maker
           && (IsTerminal(s.table.jobs[other].status) ==> table.jobs[other] == s.table.jobs[other])
    {
      TouchedJob(s.table, id, cancel, status, phase, other);
    }
    LooksKeeps(s, table);
  }

  lemma TouchedFrame(table: Table, id: JobId, cancel: bool, status: Option<Status>, phase: Option<string>)
    ensures var t := Touched(table, id, cancel, status, phase);
            t.jobs.Keys == table.jobs.Keys && t.retained == table.retained
            && t.nextId == table.nextId && t.nextToken == table.nextToken
  {
  }

  lemma ReleasedKeeps(s: Registry, id: JobId)
    requires Inv(s)
    ensures Inv(s.(table := Released(s.table, id)))
  {
    hide Inv;
    LooksKeeps(s, Released(s.table, id));
  }

  lemma ArrivedKeeps(s: Registry, c: nat, operation: Operation, key: Key, account: Account)
    requires Inv(s)
    ensures Inv(s.(callers := Arrived(s, c, operation, key, account)))
  {
    hide SlotOk, RetainedOk, CallsDiffer, WorkerHolderOk, StoneOk, JobOk, WorkerOk, HasCalled, TokensRise, IsSettled;
    var t := s.(callers := Arrived(s, c, operation, key, account));
    forall d ensures CallerHolderOk(t.slot, t.callers, d) { assert CallerHolderOk(s.slot, s.callers, d); }
    forall d | d in t.callers ensures CallerOk(t.keys, t.table.jobs, t.workers, d, t.callers[d]) {
      if d in s.callers { assert CallerOk(s.keys, s.table.jobs, s.workers, d, s.callers[d]); }
    }
    forall a, b | a in t.callers && b in t.callers ensures SpawnsDiffer(t.callers, a, b) {
      if a in s.callers && b in s.callers { assert SpawnsDiffer(s.callers, a, b); }
    }
    forall k ensures OwnerOk(t.keys, t.callers, k) { assert OwnerOk(s.keys, s.callers, k); }
    forall id | id in t.table.jobs ensures JobKeyOk(t.keys, t.callers, id, t.table.jobs[id]) {
      assert JobKeyOk(s.keys, s.callers, id, s.table.jobs[id]);
    }
  }

  lemma WorldKeeps(s: Registry, stopping: bool, client: Option<Handle>)
    requires Inv(s)
    ensures Inv(s.(stopping := stopping, client := client))
  {
    hide SlotOk, RetainedOk, CallsDiffer, CallerHolderOk, WorkerHolderOk, CallerOk, SpawnsDiffer, OwnerOk, StoneOk,
         JobKeyOk, JobOk, WorkerOk, HasCalled, TokensRise, IsSettled;
  }

  lemma ApplyKeeps(s: Registry, step: Step)
    requires Inv(s)
    ensures Inv(Apply(s, step))
  {
    hide Inv, Gone, Worked, Returned, Touched, Released, Arrived;
    match step
    case Arrive(c, operation, key, account) => ArrivedKeeps(s, c, operation, key, account);
    case Go(c) => if c in s.callers { GoneKeeps(s, c); }
    case Work(id) => if id in s.workers && id in s.table.jobs { WorkedKeeps(s, id); }
    case Return(id, raw) => if id in s.workers && s.workers[id].InCall? { ReturnedKeeps(s, id, raw); }
    case Cancel(id) => TouchedKeeps(s, id, true, Some(Cancelling), None);
    case Flag(id) => TouchedKeeps(s, id, true, None, None);
    case PhasePolled(id, phase) => TouchedKeeps(s, id, false, None, Some(phase));
    case Acknowledge(id) => ReleasedKeeps(s, id);
    case SetStopping(stopping) => WorldKeeps(s, stopping, s.client);
    case SetClient(client) => WorldKeeps(s, s.stopping, client);
  }

  lemma {:induction false} RunKeeps(s: Registry, steps: seq<Step>)
    requires Inv(s)
    ensures Inv(Run(s, steps))
    decreases |steps|
  {
    hide Inv, Apply;
    if steps != [] {
      RunKeeps(s, steps[..|steps| - 1]);
      ApplyKeeps(Run(s, steps[..|steps| - 1]), steps[|steps| - 1]);
    }
  }

  // ---- what holds on every run -------------------------------------------------------------------

  ghost predicate Reachable(s: Registry) {
    exists steps :: s == Run(START, steps)
  }

  lemma ReachableKeepsInv(s: Registry)
    requires Reachable(s)
    ensures Inv(s)
  {
    hide Run;
    var steps :| s == Run(START, steps);
    StartIsOk();
    RunKeeps(START, steps);
  }

  lemma StartIsOk()
    ensures Inv(START)
  {
  }

  // Two drop jobs never have one key.
  lemma OneJobPerKey(s: Registry, a: JobId, b: JobId)
    requires Inv(s) && a in s.table.jobs && b in s.table.jobs && a != b
    requires IsDrop(s.table.jobs[a].operation) && IsDrop(s.table.jobs[b].operation)
    ensures s.table.jobs[a].key != s.table.jobs[b].key
  {
    hide SlotOk, RetainedOk, CallsDiffer, CallerHolderOk, WorkerHolderOk, CallerOk, SpawnsDiffer, JobOk, WorkerOk,
         HasCalled,
         TokensRise, IsSettled;
    assert JobKeyOk(s.keys, s.callers, a, s.table.jobs[a]) && JobKeyOk(s.keys, s.callers, b, s.table.jobs[b]);
  }

  /**
   * The foreign drop call is made at most once for each request key, however
   * the callers, cancels, acknowledgements, reconfigurations and shutdowns
   * interleave.
   */
  lemma OneForeignCallPerKey(s: Registry, i: nat, j: nat)
    requires Reachable(s) && i < j < |s.calls|
    ensures s.calls[i] in s.table.jobs && s.calls[j] in s.table.jobs
    ensures s.table.jobs[s.calls[i]].key != s.table.jobs[s.calls[j]].key
  {
    hide Run, SlotOk, RetainedOk, CallerHolderOk, WorkerHolderOk, CallerOk, SpawnsDiffer, JobOk, WorkerOk,
         TokensRise, IsSettled, OwnerOk, StoneOk, JobKeyOk;
    ReachableKeepsInv(s);
    assert HasCalled(s.table.jobs, s.workers, s.calls[i]) && HasCalled(s.table.jobs, s.workers, s.calls[j]);
    OneJobPerKey(s, s.calls[i], s.calls[j]);
  }

  // And at most one of them is in flight.
  lemma OneForeignCallAtATime(s: Registry, a: JobId, b: JobId)
    requires Reachable(s) && a in s.table.jobs && b in s.table.jobs && a in s.workers && b in s.workers
    requires IsDrop(s.table.jobs[a].operation) && IsDrop(s.table.jobs[b].operation)
    requires s.workers[a].InCall? && s.workers[b].InCall?
    ensures a == b
  {
    hide Run, SlotOk, RetainedOk, CallsDiffer, CallerHolderOk, CallerOk, SpawnsDiffer, JobOk, WorkerOk, HasCalled,
         TokensRise, IsSettled, OwnerOk, StoneOk, JobKeyOk;
    ReachableKeepsInv(s);
    assert WorkerHolderOk(s.slot, s.table.jobs, s.workers, a) && WorkerHolderOk(s.slot, s.table.jobs, s.workers, b);
  }

  // The slot never leaks: while it is out, one caller on its way to a spawn or
  // one worker that has not released it yet will give it back, and nobody
  // else thinks it is theirs.
  lemma SlotIsAccountedFor(s: Registry)
    requires Reachable(s)
    ensures s.slot.active <==>
              || (exists c :: c in s.callers && CallerHolds(s.callers[c]))
              || (exists id :: id in s.workers && id in s.table.jobs
                               && WorkerHolds(s.table.jobs[id].operation, s.workers[id]))
  {
    hide Run, RetainedOk, CallsDiffer, CallerOk, SpawnsDiffer, JobOk, WorkerOk, HasCalled,
         TokensRise, IsSettled, OwnerOk, StoneOk, JobKeyOk;
    ReachableKeepsInv(s);
    if s.slot.active {
      match s.slot.holder.value
      case HeldByCaller(c) => assert CallerHolderOk(s.slot, s.callers, c);
      case HeldByWorker(id) => assert WorkerHolderOk(s.slot, s.table.jobs, s.workers, id);
    } else {
      forall c ensures !(c in s.callers && CallerHolds(s.callers[c])) {
        assert CallerHolderOk(s.slot, s.callers, c);
      }
      forall id
        ensures !(id in s.workers && id in s.table.jobs && WorkerHolds(s.table.jobs[id].operation, s.workers[id]))
      {
        assert WorkerHolderOk(s.slot, s.table.jobs, s.workers, id);
      }
    }
  }

  // The table never holds more than its limit, and tokens are never reused.
  lemma RetainedAreBounded(s: Registry, a: JobId, b: JobId)
    requires Reachable(s) && a in s.table.jobs && b in s.table.jobs && a < b
    requires IsDrop(s.table.jobs[a].operation) && IsDrop(s.table.jobs[b].operation)
    ensures |s.table.retained| <= 128 && 0 < s.table.jobs[a].token < s.table.jobs[b].token
  {
    hide Run, SlotOk, CallsDiffer, CallerHolderOk, WorkerHolderOk, CallerOk, SpawnsDiffer, WorkerOk, HasCalled,
         IsSettled, OwnerOk, StoneOk, JobKeyOk;
    ReachableKeepsInv(s);
    assert JobOk(s.table, s.workers, a) && TokensRise(s.table.jobs, a, b);
  }

  // A job is shown as succeeded only on a structural success whose money
  // fields are all in range.
  lemma SucceededJobsReportedSuccess(s: Registry, id: JobId)
    requires Reachable(s) && id in s.table.jobs && s.table.jobs[id].status.Succeeded?
    ensures exists raw :: ReportsSuccess(s.table.jobs[id].operation, raw)
    ensures s.table.jobs[id].result.Some? && s.table.jobs[id].error.None?
  {
    hide Run, Settle, ReportsSuccess, SlotOk, RetainedOk, CallsDiffer, CallerHolderOk, WorkerHolderOk, CallerOk,
         SpawnsDiffer,
         JobOk, WorkerOk, HasCalled, TokensRise, OwnerOk, StoneOk, JobKeyOk;
    ReachableKeepsInv(s);
    var job := s.table.jobs[id];
    assert IsSettled(job);
    var ran, raw :| var settled := Settle(job.operation, ran, raw);
                    job.status == settled.status && job.result == settled.result && job.error == settled.error;
    SucceedsExactly(job.operation, ran, raw);
  }

  // Whatever a finished job shows, some text its worker came back with says so,
  // or its worker never ran.
  lemma FinishedJobsShowTheirText(s: Registry, id: JobId)
    requires Reachable(s) && id in s.table.jobs && IsTerminal(s.table.jobs[id].status)
    ensures var job := s.table.jobs[id];
            exists ran, raw :: IsSettledBy(job.operation, ran, raw, job.status, job.result, job.error)
  {
    hide Run, Settle, IsSettledBy, SlotOk, RetainedOk, CallsDiffer, CallerHolderOk, WorkerHolderOk, CallerOk,
         SpawnsDiffer,
         JobOk, WorkerOk, HasCalled, TokensRise, OwnerOk, StoneOk, JobKeyOk;
    ReachableKeepsInv(s);
    var job := s.table.jobs[id];
    assert IsSettled(job);
    var ran, raw :| var settled := Settle(job.operation, ran, raw);
                    job.status == settled.status && job.result == settled.result && job.error == settled.error;
    SettlesByText(job.operation, ran, raw);
  }

  // What no step takes back.
  predicate Preserves(s: Registry, t: Registry) {
    && (forall key | key in s.keys.stones && s.keys.stones[key].jobId.Some? ::
          key in t.keys.stones && t.keys.stones[key].jobId == s.keys.stones[key].jobId
          && t.keys.stones[key].account == s.keys.stones[key].account)
    && (forall id | id in s.table.jobs && IsTerminal(s.table.jobs[id].status) ::
          id in t.table.jobs && t.table.jobs[id] == s.table.jobs[id])
    && (forall id | id in s.table.jobs :: id in t.table.jobs && SameRequest(s.table.jobs[id], t.table.jobs[id]))
    && (forall c | c in s.callers :: c in t.callers && SameCaller(s.callers[c], t.callers[c]))
  }

  // What a job was asked for, and by whom, never changes; nor does a caller's
  // request.
  predicate SameRequest(a: Job, b: Job) {
    a.operation == b.operation && a.key == b.key && a.token == b.token && a.maker == b.maker
  }

  predicate SameCaller(a: Caller, b: Caller) {
    a.operation == b.operation && a.key == b.key && a.account == b.account
  }

  lemma GonePreserves(s: Registry, c: nat)
    requires CallerView(s, c)
    requires forall key :: StoneOk(s.keys, s.table.jobs, key)
    ensures Preserves(s, Gone(s, c))
  {
    hide CallerHolderOk, SlotOk;
    assert StoneOk(s.keys, s.table.jobs, s.callers[c].key);
  }

  lemma WorkedPreserves(s: Registry, id: JobId)
    requires WorkerView(s, id)
    ensures Preserves(s, Worked(s, id))
  {
    hide Settle;
  }

  lemma TouchedPreserves(s: Registry, id: JobId, cancel: bool, status: Option<Status>, phase: Option<string>)
    ensures Preserves(s, s.(table := Touched(s.table, id, cancel, status, phase)))
  {
  }

  lemma WorldPreserves(s: Registry, step: Step)
    requires !step.Go? && !step.Work? && !step.Cancel? && !step.Flag? && !step.PhasePolled?
    ensures Preserves(s, Apply(s, step))
  {
  }

  lemma ApplyPreserves(s: Registry, step: Step)
    requires Inv(s)
    ensures Preserves(s, Apply(s, step))
  {
    hide Gone, Worked, Touched, Returned, Released, Arrived, Preserves, SlotOk, RetainedOk, CallsDiffer,
         CallerHolderOk, WorkerHolderOk, CallerOk, SpawnsDiffer, OwnerOk, StoneOk, JobKeyOk, JobOk, WorkerOk,
         HasCalled, TokensRise, IsSettled, NextIsNew, CallerView, WorkerView;
    if step.Go? && step.c in s.callers {
      NextIdIsNew(s);
      SeenByCaller(s, step.c);
      GonePreserves(s, step.c);
    } else if step.Work? && step.id in s.workers && step.id in s.table.jobs {
      SeenByWorker(s, step.id);
      WorkedPreserves(s, step.id);
    } else if step.Go? || step.Work? {
      NothingIsLost(s);
    } else {
      match step
      case Cancel(id) => TouchedPreserves(s, id, true, Some(Cancelling), None);
      case Flag(id) => TouchedPreserves(s, id, true, None, None);
      case PhasePolled(id, phase) => TouchedPreserves(s, id, false, None, Some(phase));
      case _ => WorldPreserves(s, step);
    }
  }

  lemma NothingIsLost(s: Registry)
    ensures Preserves(s, s)
  {
  }

  /**
   * For good: a job id once published under a key stays there, for the same
   * account; and a finished job, acknowledged or not, keeps its status, phase,
   * result and error whatever cancels, polls, returns or shutdowns follow.
   */
  lemma {:induction false} RunPreserves(s: Registry, steps: seq<Step>)
    requires Inv(s)
    ensures Preserves(s, Run(s, steps))
    decreases |steps|
  {
    hide Inv, Apply;
    if steps != [] {
      RunPreserves(s, steps[..|steps| - 1]);
      RunKeeps(s, steps[..|steps| - 1]);
      ApplyPreserves(Run(s, steps[..|steps| - 1]), steps[|steps| - 1]);
    }
  }

  // ---- an early cancel ------------------------------------------------------------------------

  // Cancelled before its worker looked: on the way to an end without a call.
  ghost predicate IsStopped(s: Registry, id: JobId) {
    && id in s.table.jobs && id in s.workers && id !in s.calls && s.table.jobs[id].cancelRequested
    && match s.workers[id]
       case ToBegin => true
       case ToCheck => IsDrop(s.table.jobs[id].operation)
       case ToSettle(ran, raw) => ran ==> SaysCode(raw, "cancelled")
       case ToRelease | ToRecord | Finished => s.table.jobs[id].status == Cancelled
       case _ => false
  }

  lemma WorkKeepsStopped(s: Registry, id: JobId)
    requires IsStopped(s, id)
    ensures IsStopped(Worked(s, id), id)
  {
    hide Settle, SaysCode, ErrorEnvelope;
    var place := s.workers[id];
    if place.ToSettle? {
      SettlesByText(s.table.jobs[id].operation, place.ran, place.raw);
    } else if place.ToCheck? {
      CancelIsSaid();
    }
  }

  lemma CancelIsSaid()
    ensures SaysCode(ErrorEnvelope("cancelled", CANCELLED_EARLY), "cancelled")
  {
    MessagesDecideNothing(RequestDrop, "cancelled", CANCELLED_EARLY);
  }

  // Nobody else brings a cancelled job back.
  lemma OthersKeepStopped(s: Registry, step: Step, id: JobId)
    requires Inv(s) && IsStopped(s, id) && !(step.Work? && step.id == id)
    ensures IsStopped(Apply(s, step), id)
  {
    hide Inv, Settle, SaysCode, ErrorEnvelope, CallerNext, KeysNext, SlotNext, NextPlace, NextJob;
    if step.Go? && step.c in s.callers {
      NextIdIsNew(s);
      SeenByCaller(s, step.c);
    } else if step.Work? && step.id in s.workers && step.id in s.table.jobs {
      JobKeepsItself(s, s.table.jobs[step.id], s.workers[step.id]);
    }
  }

  /**
   * A job cancelled ahead of its last check stays stopped: on every run from
   * there it makes no foreign call, so nothing of it is ever submitted, and it
   * can only end as cancelled.
   */
  lemma {:induction false} EarlyCancelNeverCalls(s: Registry, steps: seq<Step>, id: JobId)
    requires Inv(s) && IsStopped(s, id)
    ensures IsStopped(Run(s, steps), id)
    decreases |steps|
  {
    hide Inv, IsStopped, Apply;
    if steps != [] {
      var t, step := Run(s, steps[..|steps| - 1]), steps[|steps| - 1];
      EarlyCancelNeverCalls(s, steps[..|steps| - 1], id);
      RunKeeps(s, steps[..|steps| - 1]);
      StoppedStays(t, step, id);
    }
  }

  lemma StoppedStays(s: Registry, step: Step, id: JobId)
    requires Inv(s) && IsStopped(s, id)
    ensures IsStopped(Apply(s, step), id)
  {
    hide Inv, Worked, SaysCode;
    if step == Work(id) {
      WorkKeepsStopped(s, id);
    } else {
      OthersKeepStopped(s, step, id);
    }
  }
}
