/**
 * The core module's own methods, as they take their locks
 * (faucet-module/src/lez_faucet_module.cpp:938-1102, 1155-1421).
 *
 * Each small method is one critical section or one atomic; between two of them
 * Others lets every other thread act. So `requestDrop` is proved to be a caller,
 * and the worker's thread function a worker, of the machine in JobRegistry.
 */
module JobModule {
  import opened Wrappers
  import opened Envelopes
  import opened JsonValues
  import opened JobRegistry
  import opened JobReplies

  lemma ReachableStep(s: Registry, step: Step)
    requires Reachable(s)
    ensures Reachable(Apply(s, step)) && Preserves(s, Apply(s, step))
  {
    hide Apply, Inv, Preserves;
    ReachableKeepsInv(s);
    ApplyPreserves(s, step);
    var steps :| s == Run(START, steps);
    var longer := steps + [step];
    assert longer[..|longer| - 1] == steps;
    assert Apply(s, step) == Run(START, longer);
  }

  // Nothing published and nothing finished is taken back, over any stretch.
  lemma NothingIsTakenBack()
    ensures forall s, t, u | Preserves(s, t) && Preserves(t, u) :: Preserves(s, u)
    ensures forall s :: Preserves(s, s)
  {
  }

  lemma StartIsReachable()
    ensures Reachable(START)
  {
    assert START == Run(START, []);
  }

  // The steps that thread c, or the worker of job id, takes itself.
  predicate IsMine(step: Step, c: Option<nat>, id: Option<JobId>) {
    match step
    case Arrive(d, _, _, _) => c == Some(d)
    case Go(d) => c == Some(d)
    case Work(other) => id == Some(other)
    case Return(other, _) => id == Some(other)
    case _ => false
  }

  // Nobody else moves this caller or this worker.
  predicate StaysPut(s: Registry, t: Registry, c: Option<nat>, id: Option<JobId>) {
    && (c.Some? && c.value in s.callers ==> c.value in t.callers && t.callers[c.value] == s.callers[c.value])
    && (id.Some? && id.value in s.workers ==> id.value in t.workers && t.workers[id.value] == s.workers[id.value])
    && (id.Some? && id.value in s.table.jobs ==>
          id.value in t.table.jobs && t.table.jobs[id.value].operation == s.table.jobs[id.value].operation
          && t.table.jobs[id.value].key == s.table.jobs[id.value].key)
  }

  lemma OthersStayPut(s: Registry, step: Step, c: Option<nat>, id: Option<JobId>)
    requires Inv(s) && !IsMine(step, c, id)
    ensures StaysPut(s, Apply(s, step), c, id)
  {
    hide Inv, CallerNext, KeysNext, SlotNext, NextPlace, NextJob;
    if step.Go? && step.c in s.callers {
      NextIdIsNew(s);
      SeenByCaller(s, step.c);
    } else if step.Work? && step.id in s.workers && step.id in s.table.jobs {
      JobKeepsItself(s, s.table.jobs[step.id], s.workers[step.id]);
    }
  }

  lemma StaysPutThrough(s: Registry, t: Registry, u: Registry, c: Option<nat>, id: Option<JobId>)
    requires StaysPut(s, t, c, id) && StaysPut(t, u, c, id)
    ensures StaysPut(s, u, c, id)
  {
  }

  lemma PutSame(s: Registry, t: Registry, c: Option<nat>, id: Option<JobId>)
    requires StaysPut(s, t, c, id)
    ensures c.Some? && c.value in s.callers ==> c.value in t.callers && t.callers[c.value] == s.callers[c.value]
    ensures id.Some? && id.value in s.workers ==> id.value in t.workers && t.workers[id.value] == s.workers[id.value]
    ensures id.Some? && id.value in s.table.jobs ==>
              id.value in t.table.jobs && t.table.jobs[id.value].operation == s.table.jobs[id.value].operation
  {
  }

  lemma StaysPutAtFirst(s: Registry, c: Option<nat>, id: Option<JobId>)
    ensures StaysPut(s, s, c, id)
  {
  }

  lemma InsertionOnly(s: Registry, c: nat)
    requires c in s.callers && s.callers[c].place.AtInsert?
    ensures Gone(s, c) == s.(callers := Gone(s, c).callers, table := TableNext(s.table, c, s.callers[c]))
  {
  }

  // A caller's request is what it was.
  lemma RequestIsKept(s: Registry, t: Registry, c: nat)
    requires Preserves(s, t) && c in s.callers
    ensures c in t.callers && SameCaller(s.callers[c], t.callers[c])
  {
  }

  // So is a key that stands for a job.
  lemma PublishedIsKept(s: Registry, t: Registry, key: Key, account: Account, id: JobId)
    requires Preserves(s, t) && Published(s.keys, key, account, id)
    ensures Published(t.keys, key, account, id)
  {
  }

  predicate IsLive(status: Status) {
    status.Queued? || status.Running? || status.Cancelling?
  }

  class LezFaucetModule {
    var stopping: bool
    var client: Option<Handle>
    var jobs: map<JobId, Job>
    var retained: set<JobId>
    var nextJobId: JobId
    var nextToken: nat
    var dropActive: bool
    var tombstones: map<Key, Tombstone>
    // Where every thread stands, and what only the proof keeps track of.
    var callers: map<nat, Caller>
    var workers: map<JobId, WorkerPlace>
    var calls: seq<JobId>
    var holder: Option<Holder>
    var owner: map<Key, nat>

    function View(): Registry
      reads this
    {
      Registry(stopping, client, Table(jobs, retained, nextJobId, nextToken), Slot(dropActive, holder),
               Keys(tombstones, owner), callers, workers, calls)
    }

    ghost predicate Valid()
      reads this
    {
      Reachable(View())
    }

    constructor ()
      ensures Valid() && View() == START
    {
      stopping, client, jobs, retained, nextJobId, nextToken := false, None, map[], {}, 1, 1;
      dropActive, tombstones, callers, workers, calls := false, map[], map[], map[], [];
      holder, owner := None, map[];
      new;
      StartIsReachable();
    }

    method Become(t: Registry)
      modifies this
      ensures View() == t
    {
      BecomeTable(t);
      dropActive, holder := t.slot.active, t.slot.holder;
      tombstones, owner := t.keys.stones, t.keys.owner;
      callers, workers, calls := t.callers, t.workers, t.calls;
    }

    method BecomeTable(t: Registry)
      modifies this`stopping, this`client, this`jobs, this`retained, this`nextJobId, this`nextToken
      ensures stopping == t.stopping && client == t.client && Table(jobs, retained, nextJobId, nextToken) == t.table
    {
      stopping, client := t.stopping, t.client;
      jobs, retained := t.table.jobs, t.table.retained;
      nextJobId, nextToken := t.table.nextId, t.table.nextToken;
    }

    method Others(c: Option<nat>, id: Option<JobId>)
      requires Valid()
      modifies this
      ensures Valid() && StaysPut(old(View()), View(), c, id) && Preserves(old(View()), View())
      ensures c.Some? && c.value in old(callers) ==> c.value in callers && callers[c.value] == old(callers)[c.value]
      ensures id.Some? && id.value in old(workers) ==>
                id.value in workers && workers[id.value] == old(workers)[id.value]
      ensures id.Some? && id.value in old(jobs) ==>
                id.value in jobs && jobs[id.value].operation == old(jobs)[id.value].operation
    {
      hide Apply, Reachable, Run, Inv, StaysPut, View, Preserves;
      NothingIsTakenBack();
      SeesCallers();
      var now := View();
      StaysPutAtFirst(now, c, id);
      var more: nat := *;
      while more > 0
        invariant Reachable(now) && StaysPut(old(View()), now, c, id) && Preserves(old(View()), now)
      {
        var step: Step := *;
        if !IsMine(step, c, id) {
          ReachableKeepsInv(now);
          OthersStayPut(now, step, c, id);
          StaysPutThrough(old(View()), now, Apply(now, step), c, id);
          ReachableStep(now, step);
          now := Apply(now, step);
        }
        more := more - 1;
      }
      PutSame(old(View()), now, c, id);
      Become(now);
      SeesCallers();
    }

    lemma SeesCallers()
      ensures View().callers == callers && View().workers == workers && View().table.jobs == jobs
      ensures View().keys == Keys(tombstones, owner)
    {
    }

    // ---- requestDrop ------------------------------------------------------------------

    ghost predicate IsAt(c: nat, place: CallerPlace)
      reads this
    {
      c in callers && IsDrop(callers[c].operation) && callers[c].place == place
    }

    method Move(c: nat, place: CallerPlace)
      requires c in callers
      modifies this`callers
      ensures callers == old(callers)[c := old(callers)[c].(place := place)]
    {
      callers := callers[c := callers[c].(place := place)];
    }

    method CheckStopping(c: nat) returns (stop: bool)
      requires Valid() && (IsAt(c, AtGate) || IsAt(c, AtStart))
      modifies this`callers
      ensures View() == Apply(old(View()), Go(c)) && Valid() && stop == stopping
      ensures Preserves(old(View()), View())
      ensures IsAt(c, if old(callers)[c].place.AtGate? then (if stop then Answered(Refused(Stopping)) else AtClient)
                      else (if stop then MustRelease(Stopping) else AtStartClient))
    {
      hide Reachable, Run, Preserves;
      ReachableStep(View(), Go(c));
      stop := stopping;
      var me := callers[c];
      Move(c, if me.place.AtGate? then (if stop then Answered(Refused(Stopping)) else AtClient)
              else (if stop then MustRelease(Stopping) else AtStartClient));
    }

    method CheckClient(c: nat) returns (configured: bool)
      requires Valid() && (IsAt(c, AtClient) || IsAt(c, AtStartClient))
      modifies this`callers
      ensures View() == Apply(old(View()), Go(c)) && Valid() && configured == client.Some?
      ensures Preserves(old(View()), View())
      ensures IsAt(c, if old(callers)[c].place.AtClient?
                      then (if configured then AtClaim else Answered(Refused(NotConfigured)))
                      else (if configured then AtInsert else MustRelease(NotConfigured)))
    {
      hide Reachable, Run, Preserves;
      ReachableStep(View(), Go(c));
      configured := client.Some?;
      var me := callers[c];
      Move(c, if me.place.AtClient? then (if configured then AtClaim else Answered(Refused(NotConfigured)))
              else (if configured then AtInsert else MustRelease(NotConfigured)));
    }

    // A key without a tombstone becomes this caller's; any other is answered
    // from the tombstone.
    method ClaimKey(c: nat) returns (taken: Option<Reply>)
      requires Valid() && IsAt(c, AtClaim)
      modifies this`callers, this`tombstones, this`owner
      ensures View() == Apply(old(View()), Go(c)) && Valid()
      ensures Preserves(old(View()), View())
      ensures c in callers && callers[c] == old(callers)[c].(place := callers[c].place)
      ensures taken.None? <==> callers[c].key !in old(tombstones)
      ensures IsAt(c, if taken.Some? then Answered(taken.value) else AtSlot)
      ensures taken.Some? ==>
                var stone := old(tombstones)[callers[c].key];
                taken.value == if stone.account != callers[c].account then Refused(IdempotencyConflict)
                               else if stone.jobId.None? then Refused(DropInProgress)
                               else Replayed(stone.jobId.value)
    {
      hide Reachable, Run, Preserves;
      ReachableStep(View(), Go(c));
      var me := callers[c];
      if me.key in tombstones {
        var stone := tombstones[me.key];
        var reply: Reply;
        if stone.account != me.account {
          reply := Refused(IdempotencyConflict);
        } else if stone.jobId.None? {
          reply := Refused(DropInProgress);
        } else {
          reply := Replayed(stone.jobId.value);
        }
        taken := Some(reply);
        Move(c, Answered(reply));
      } else {
        taken := None;
        tombstones := tombstones[me.key := Tombstone(me.account, None, Queued)];
        owner := owner[me.key := c];
        Move(c, AtSlot);
      }
    }

    method ReserveDropSlot(c: nat) returns (ok: bool)
      requires Valid() && IsAt(c, AtSlot)
      modifies this`callers, this`dropActive, this`holder
      ensures View() == Apply(old(View()), Go(c)) && Valid() && ok == !old(dropActive)
      ensures Preserves(old(View()), View())
      ensures IsAt(c, if ok then AtStart else MustAbandon(DropInProgress))
    {
      hide Reachable, Run, Preserves;
      ReachableStep(View(), Go(c));
      ok := !dropActive;
      if ok {
        dropActive, holder := true, Some(HeldByCaller(c));
      }
      Move(c, if ok then AtStart else MustAbandon(DropInProgress));
    }

    // The job gets its id and its token; a full table refuses it.
    method InsertJob(c: nat) returns (id: Option<JobId>)
      requires Valid() && IsAt(c, AtInsert)
      modifies this`callers, this`jobs, this`retained, this`nextJobId, this`nextToken
      ensures View() == Apply(old(View()), Go(c)) && Valid()
      ensures Preserves(old(View()), View())
      ensures id.Some? <==> |old(retained)| < 128
      ensures IsAt(c, if id.Some? then AtSpawn(id.value) else MustRelease(JobLimitReached))
    {
      hide Reachable, Run, Preserves, KeysNext, SlotNext, WorkersNext;
      ReachableStep(View(), Go(c));
      InsertionOnly(View(), c);
      id := Allocate(c, callers[c]);
      Move(c, if id.Some? then AtSpawn(id.value) else MustRelease(JobLimitReached));
    }

    method Allocate(c: nat, me: Caller) returns (id: Option<JobId>)
      requires me.place.AtInsert? && IsDrop(me.operation)
      modifies this`jobs, this`retained, this`nextJobId, this`nextToken
      ensures Table(jobs, retained, nextJobId, nextToken)
           == TableNext(Table(old(jobs), old(retained), old(nextJobId), old(nextToken)), c, me)
      ensures id == if |old(retained)| < 128 then Some(old(nextJobId)) else None
    {
      var newId, token := nextJobId, nextToken;
      nextJobId, nextToken := nextJobId + 1, nextToken + 1;
      if |retained| >= MAX_RETAINED { return None; }
      jobs := jobs[newId := Job(me.operation, me.key, token, Queued, None, None, None, false, c)];
      retained := retained + {newId};
      id := Some(newId);
    }

    method SpawnWorker(c: nat, id: JobId)
      requires Valid() && IsAt(c, AtSpawn(id))
      modifies this`callers, this`workers, this`holder
      ensures View() == Apply(old(View()), Go(c)) && Valid()
      ensures Preserves(old(View()), View())
      ensures IsAt(c, AtPublish(id))
    {
      hide Reachable, Run, Preserves;
      ReachableStep(View(), Go(c));
      workers := workers[id := ToBegin];
      holder := Some(HeldByWorker(id));
      Move(c, AtPublish(id));
    }

    method RememberRequestKey(c: nat, id: JobId)
      requires Valid() && IsAt(c, AtPublish(id))
      modifies this`callers, this`tombstones, this`owner
      ensures View() == Apply(old(View()), Go(c)) && Valid()
      ensures Preserves(old(View()), View())
      ensures IsAt(c, Answered(Started(id)))
    {
      hide Reachable, Run, Preserves;
      ReachableStep(View(), Go(c));
      var me := callers[c];
      var status := if me.key in tombstones then tombstones[me.key].status else Queued;
      tombstones := tombstones[me.key := Tombstone(me.account, Some(id), status)];
      owner := owner - {me.key};
      Move(c, Answered(Started(id)));
    }

    method ReleaseDropSlot(c: nat, why: Refusal)
      requires Valid() && IsAt(c, MustRelease(why))
      modifies this`callers, this`dropActive, this`holder
      ensures View() == Apply(old(View()), Go(c)) && Valid()
      ensures Preserves(old(View()), View())
      ensures IsAt(c, MustAbandon(why))
    {
      hide Reachable, Run, Preserves;
      ReachableStep(View(), Go(c));
      dropActive, holder := false, None;
      Move(c, MustAbandon(why));
    }

    // A reservation under which no job ever started may go.
    method AbandonReservation(c: nat, why: Refusal)
      requires Valid() && IsAt(c, MustAbandon(why))
      modifies this`callers, this`tombstones, this`owner
      ensures View() == Apply(old(View()), Go(c)) && Valid()
      ensures Preserves(old(View()), View())
      ensures IsAt(c, Answered(Refused(why)))
    {
      hide Reachable, Run, Preserves;
      ReachableStep(View(), Go(c));
      var me := callers[c];
      if me.key in tombstones && tombstones[me.key].jobId.None? {
        tombstones := tombstones - {me.key};
      }
      owner := owner - {me.key};
      Move(c, Answered(Refused(why)));
    }

    method Arrive(c: nat, key: Key, account: Account)
      requires Valid() && c !in callers
      modifies this`callers
      ensures View() == Apply(old(View()), JobRegistry.Arrive(c, RequestDrop, key, account)) && Valid()
      ensures Preserves(old(View()), View())
      ensures IsAt(c, AtGate) && callers[c].key == key && callers[c].account == account
    {
      hide Reachable, Run, Preserves;
      ReachableStep(View(), JobRegistry.Arrive(c, RequestDrop, key, account));
      callers := callers[c := Caller(RequestDrop, key, account, AtGate)];
    }

    // What an answer to this request means: see AnswersMeanWhatTheySay.
    ghost predicate IsMeant(c: nat, key: Key, account: Account, reply: Reply)
      reads this
    {
      && IsAt(c, Answered(reply)) && callers[c].key == key && callers[c].account == account
      && match reply
         case Started(id) =>
           && Published(View().keys, key, account, id) && id in jobs && jobs[id].key == key && jobs[id].maker == c
         case Replayed(id) =>
           && Published(View().keys, key, account, id) && id in jobs && jobs[id].key == key
           && forall other: nat | other in jobs :: jobs[other].maker != c
         case Refused(_) => forall other: nat | other in jobs :: jobs[other].maker != c
    }

    /**
     * One call, with every other thread acting between any two of its steps. It
     * is answered with a job this call made, with the job an earlier use of the
     * key made for the same account, or with a refusal under which nothing ran.
     * If the key stood for a job before the call, it is told of that one.
     */
    method Request(c: nat, key: Key, account: Account) returns (reply: Reply)
      requires Valid() && c !in callers
      modifies this
      ensures Valid() && Preserves(old(View()), View()) && IsMeant(c, key, account, reply)
      ensures forall of, id: nat | Published(old(View()).keys, key, of, id) ::
                LateReply(account, of, id, reply)
    {
      hide Apply, Reachable, Run, StaysPut, View, Preserves, Published, LateReply, IsMeant;
      NothingIsTakenBack();
      Arrive(c, key, account);
      ghost var mine := View();
      SeesCallers();
      Others(Some(c), None);
      var stop := CheckStopping(c);
      if stop {
        reply := Refused(Stopping);
        GateRefuses(account, reply);
      } else {
        Others(Some(c), None);
        var ok := CheckClient(c);
        if !ok {
          reply := Refused(NotConfigured);
          GateRefuses(account, reply);
        } else {
          Others(Some(c), None);
          KnowsItsRequest(c, mine, key, account);
          StillPublished(old(View()), key);
          reply := RequestKey(c);
        }
      }
      KnowsItsRequest(c, mine, key, account);
      AnswerIsMeant(c, key, account, reply);
    }

    lemma StillPublished(s: Registry, key: Key)
      requires Preserves(s, View())
      ensures forall of, id: nat | Published(s.keys, key, of, id) :: Published(View().keys, key, of, id)
    {
      hide Preserves;
      forall of, id: nat | Published(s.keys, key, of, id)
        ensures Published(View().keys, key, of, id)
      {
        PublishedIsKept(s, View(), key, of, id);
      }
    }

    lemma GateRefuses(account: Account, reply: Reply)
      requires reply == Refused(Stopping) || reply == Refused(NotConfigured)
      ensures forall of, id: nat :: LateReply(account, of, id, reply)
    {
    }

    lemma KnowsItsRequest(c: nat, mine: Registry, key: Key, account: Account)
      requires Preserves(mine, View()) && c in mine.callers
      requires mine.callers[c].key == key && mine.callers[c].account == account
      ensures c in callers && callers[c].key == key && callers[c].account == account
    {
      hide Preserves;
      RequestIsKept(mine, View(), c);
    }

    lemma AnswerIsMeant(c: nat, key: Key, account: Account, reply: Reply)
      requires Valid() && IsAt(c, Answered(reply)) && callers[c].key == key && callers[c].account == account
      ensures IsMeant(c, key, account, reply)
    {
      hide Reachable;
      AnswersMeanWhatTheySay(View(), c);
    }

    // Past the gate: claim the key, take the slot, start the job and publish it.
    method RequestKey(c: nat) returns (reply: Reply)
      requires Valid() && IsAt(c, AtClaim)
      modifies this
      ensures Valid() && Preserves(old(View()), View()) && IsAt(c, Answered(reply))
      ensures forall of, id: nat | Published(old(View()).keys, old(callers)[c].key, of, id) ::
                LateReply(old(callers)[c].account, of, id, reply)
    {
      hide Apply, Reachable, Run, StaysPut, View, Preserves, Published, LateReply;
      NothingIsTakenBack();
      SeesCallers();
      var taken := ClaimKey(c);
      if taken.Some? {
        reply := taken.value;
        TakenIsLate(old(View()), old(callers)[c], reply);
        return;
      }
      NeverPublished(old(View()), old(callers)[c].key);
      Others(Some(c), None);
      var ok := ReserveDropSlot(c);
      if !ok {
        Others(Some(c), None);
        AbandonReservation(c, DropInProgress);
        return Refused(DropInProgress);
      }
      Others(Some(c), None);
      reply := StartJob(c);
      Others(Some(c), None);
      match reply {
        case Started(id) =>
          RememberRequestKey(c, id);
        case Refused(why) =>
          ReleaseDropSlot(c, why);
          Others(Some(c), None);
          AbandonReservation(c, why);
        case Replayed(_) =>
          assert false;
      }
    }

    lemma TakenIsLate(s: Registry, me: Caller, reply: Reply)
      requires me.key in s.keys.stones && reply == TakenReply(s.keys.stones[me.key], me.account)
      ensures forall of, id: nat | Published(s.keys, me.key, of, id) :: LateReply(me.account, of, id, reply)
    {
    }

    lemma NeverPublished(s: Registry, key: Key)
      requires key !in s.keys.stones
      ensures forall of, id: nat :: !Published(s.keys, key, of, id)
    {
    }

    lemma StartedItsOwnJob(c: nat)
      requires Valid() && c in callers && callers[c].place.AtPublish?
      ensures var id := callers[c].place.id; id in jobs && jobs[id].key == callers[c].key && jobs[id].maker == c
    {
      hide Reachable;
      PublishesItsOwnJob(View(), c);
    }

    // Under the slot: either the worker exists, or the slot is to be given back.
    method StartJob(c: nat) returns (reply: Reply)
      requires Valid() && IsAt(c, AtStart)
      modifies this
      ensures Valid() && !reply.Replayed? && Preserves(old(View()), View())
      ensures reply.Started? ==> IsAt(c, AtPublish(reply.id))
      ensures reply.Started? ==>
                reply.id in jobs && jobs[reply.id].key == callers[c].key && jobs[reply.id].maker == c
      ensures reply.Refused? ==> IsAt(c, MustRelease(reply.why))
    {
      hide Apply, Reachable, Run, StaysPut, View, Preserves;
      NothingIsTakenBack();
      var stop := CheckStopping(c);
      if stop { return Refused(Stopping); }
      Others(Some(c), None);
      var ok := CheckClient(c);
      if !ok { return Refused(NotConfigured); }
      Others(Some(c), None);
      var id := InsertJob(c);
      if id.None? { return Refused(JobLimitReached); }
      Others(Some(c), None);
      SpawnWorker(c, id.value);
      reply := Started(id.value);
      StartedItsOwnJob(c);
    }

    // ---- the worker thread -----------------------------------------------------------------

    ghost predicate WorksAt(id: JobId, place: WorkerPlace)
      reads this
    {
      id in workers && id in jobs && workers[id] == place
    }

    // The last look at the cancel flag that costs nothing.
    method BeginWork(id: JobId) returns (ran: bool)
      requires Valid() && WorksAt(id, ToBegin)
      modifies this`workers, this`jobs
      ensures View() == Apply(old(View()), Work(id)) && Valid()
      ensures Preserves(old(View()), View())
      ensures jobs.Keys == old(jobs).Keys && id in jobs && jobs[id].operation == old(jobs)[id].operation
      ensures WorksAt(id, if !ran then ToSettle(false, "") else if IsDrop(jobs[id].operation) then ToCheck else ToLoad)
      ensures ran <==> !old(jobs)[id].cancelRequested && !stopping
    {
      hide Reachable, Run, Settle, Preserves;
      ReachableStep(View(), Work(id));
      var job := jobs[id];
      ran := !job.cancelRequested && !stopping;
      if ran {
        jobs := jobs[id := job.(status := Running)];
      }
      workers := workers[id := if !ran then ToSettle(false, "") else if IsDrop(job.operation) then ToCheck else ToLoad];
    }

    method CheckCancelled(id: JobId) returns (stop: bool)
      requires Valid() && WorksAt(id, ToCheck)
      modifies this`workers
      ensures View() == Apply(old(View()), Work(id)) && Valid()
      ensures Preserves(old(View()), View())
      ensures WorksAt(id, if stop then ToSettle(true, ErrorEnvelope("cancelled", CANCELLED_EARLY)) else ToLoad)
      ensures stop <==> jobs[id].cancelRequested || stopping
    {
      hide Reachable, Run, Settle, Preserves;
      ReachableStep(View(), Work(id));
      stop := jobs[id].cancelRequested || stopping;
      workers := workers[id := if stop then ToSettle(true, ErrorEnvelope("cancelled", CANCELLED_EARLY)) else ToLoad];
    }

    // Load the client and enter the foreign call, if there is a client.
    method EnterCall(id: JobId) returns (entered: bool)
      requires Valid() && WorksAt(id, ToLoad)
      modifies this`workers, this`calls
      ensures View() == Apply(old(View()), Work(id)) && Valid()
      ensures Preserves(old(View()), View())
      ensures entered == client.Some?
      ensures WorksAt(id, if entered then InCall(client.value)
                          else ToSettle(true, ErrorEnvelope("not_configured", NOT_CONFIGURED)))
    {
      hide Reachable, Run, Settle, Preserves;
      ReachableStep(View(), Work(id));
      entered := client.Some?;
      if entered && IsDrop(jobs[id].operation) {
        calls := calls + [id];
      }
      workers := workers[id := if entered then InCall(client.value)
                               else ToSettle(true, ErrorEnvelope("not_configured", NOT_CONFIGURED))];
    }

    method LeaveCall(id: JobId) returns (raw: string)
      requires Valid() && id in workers && id in jobs && workers[id].InCall?
      modifies this`workers
      ensures Valid() && WorksAt(id, ToSettle(true, raw)) && Preserves(old(View()), View())
    {
      hide Reachable, Run, Settle, Preserves;
      raw := *;
      ReachableStep(View(), Return(id, raw));
      if raw == "" {
        raw := ErrorEnvelope("internal_error", NO_RESULT);
      }
      workers := workers[id := ToSettle(true, raw)];
    }

    // The job's outcome, once and for all: what the text its worker came back
    // with says, and nothing else of the job or of any other.
    method SettleJob(id: JobId, ran: bool, raw: string)
      requires Valid() && WorksAt(id, ToSettle(ran, raw))
      modifies this`workers, this`jobs
      ensures View() == Apply(old(View()), Work(id)) && Valid()
      ensures Preserves(old(View()), View())
      ensures id in jobs && jobs == old(jobs)[id := jobs[id]]
      ensures IsSettledBy(jobs[id].operation, ran, raw, jobs[id].status, jobs[id].result, jobs[id].error)
      ensures PhaseLeft(ran, raw, old(jobs)[id].phase, jobs[id].phase)
      ensures var (was, job) := (old(jobs)[id], jobs[id]);
              && job.operation == was.operation && job.key == was.key && job.token == was.token
              && job.cancelRequested == was.cancelRequested
      ensures WorksAt(id, if IsDrop(jobs[id].operation) then ToRelease else Finished)
    {
      hide Reachable, Run, Settle, Preserves, IsSettledBy;
      ReachableStep(View(), Work(id));
      var job := jobs[id];
      SettlesByText(job.operation, ran, raw);
      jobs := jobs[id := Settling(job, ran, raw)];
      workers := workers[id := if IsDrop(job.operation) then ToRelease else Finished];
    }

    method ReleaseSlotAfter(id: JobId)
      requires Valid() && WorksAt(id, ToRelease)
      modifies this`workers, this`dropActive, this`holder
      ensures View() == Apply(old(View()), Work(id)) && Valid() && WorksAt(id, ToRecord)
      ensures Preserves(old(View()), View())
    {
      hide Reachable, Run, Settle, Preserves;
      ReachableStep(View(), Work(id));
      assert jobs[id := jobs[id]] == jobs;
      dropActive, holder := false, None;
      workers := workers[id := ToRecord];
    }

    method RecordTombstoneStatus(id: JobId)
      requires Valid() && WorksAt(id, ToRecord)
      modifies this`workers, this`tombstones
      ensures View() == Apply(old(View()), Work(id)) && Valid() && WorksAt(id, Finished)
      ensures Preserves(old(View()), View())
    {
      hide Reachable, Run, Settle, Preserves;
      ReachableStep(View(), Work(id));
      assert jobs[id := jobs[id]] == jobs;
      var job := jobs[id];
      if job.key in tombstones {
        tombstones := tombstones[job.key := tombstones[job.key].(status := job.status)];
      }
      workers := workers[id := Finished];
    }

    /**
     * A worker's thread, from its first look at the cancel flag to its last
     * write, with every other thread acting in between. It ends finished, and
     * by RunPreserves its job keeps the outcome it settled.
     */
    method RunWorker(id: JobId)
      requires Valid() && WorksAt(id, ToBegin)
      modifies this
      ensures Valid() && WorksAt(id, Finished) && Preserves(old(View()), View())
    {
      hide Apply, Reachable, Run, StaysPut, View, Preserves, Settling, ErrorEnvelope;
      NothingIsTakenBack();
      Others(None, Some(id));
      var ran := BeginWork(id);
      var raw := "";
      if ran {
        Others(None, Some(id));
        raw := DoWork(id);
      }
      Others(None, Some(id));
      SettleJob(id, ran, raw);
      if workers[id].ToRelease? {
        Others(None, Some(id));
        ReleaseSlotAfter(id);
        Others(None, Some(id));
        RecordTombstoneStatus(id);
      }
    }

    // What the job does: the check of a drop, then the foreign call.
    method DoWork(id: JobId) returns (raw: string)
      requires Valid() && (WorksAt(id, ToCheck) || WorksAt(id, ToLoad))
      modifies this
      ensures Valid() && WorksAt(id, ToSettle(true, raw)) && Preserves(old(View()), View())
    {
      hide Apply, Reachable, Run, StaysPut, View, Preserves, ErrorEnvelope;
      NothingIsTakenBack();
      if workers[id].ToCheck? {
        var stop := CheckCancelled(id);
        if stop { return ErrorEnvelope("cancelled", CANCELLED_EARLY); }
        Others(None, Some(id));
      }
      var entered := EnterCall(id);
      if !entered { return ErrorEnvelope("not_configured", NOT_CONFIGURED); }
      Others(None, Some(id));
      raw := LeaveCall(id);
    }

    // ---- the other calls --------------------------------------------------------------------

    // A cancel asks the worker of a job that has not finished to stop, and hands
    // out the token that stops its drop; it changes nothing else.
    method Cancel(id: JobId) returns (token: nat)
      requires Valid()
      modifies this`jobs
      ensures View() == Apply(old(View()), JobRegistry.Cancel(id)) && Valid()
      ensures Preserves(old(View()), View())
      ensures if id in old(jobs) && IsLive(old(jobs)[id].status)
              then token == old(jobs)[id].token
                && jobs == old(jobs)[id := old(jobs)[id].(cancelRequested := true, status := Cancelling)]
              else token == 0 && jobs == old(jobs)
    {
      hide Reachable, Run, Preserves;
      ReachableStep(View(), JobRegistry.Cancel(id));
      token := 0;
      if id in jobs && !IsTerminal(jobs[id].status) {
        token := jobs[id].token;
        jobs := jobs[id := jobs[id].(cancelRequested := true, status := Cancelling)];
      }
    }

    // A phase that comes back late is dropped.
    method RefreshJobPhase(id: JobId)
      requires Valid()
      modifies this
      ensures Valid() && Preserves(old(View()), View())
    {
      hide Reachable, Run, Apply, StaysPut, View, Preserves;
      NothingIsTakenBack();
      if id !in jobs || !IsDrop(jobs[id].operation) || jobs[id].token == 0 || IsTerminal(jobs[id].status) { return; }
      Others(None, None);
      var phase: Option<string> := *;
      if phase.Some? {
        StorePhase(id, phase.value);
      }
    }

    method StorePhase(id: JobId, phase: string)
      requires Valid()
      modifies this`jobs
      ensures View() == Apply(old(View()), PhasePolled(id, phase)) && Valid()
      ensures Preserves(old(View()), View())
      ensures jobs == if id in old(jobs) && IsLive(old(jobs)[id].status)
                      then old(jobs)[id := old(jobs)[id].(phase := Some(phase))] else old(jobs)
    {
      hide Reachable, Run, Preserves;
      ReachableStep(View(), PhasePolled(id, phase));
      if id in jobs && !IsTerminal(jobs[id].status) {
        jobs := jobs[id := jobs[id].(phase := Some(phase))];
      }
    }

    // Only a finished job leaves the table; its tombstone stays.
    method JobResultAck(id: JobId) returns (ok: bool)
      requires Valid()
      modifies this`retained
      ensures View() == Apply(old(View()), Acknowledge(id)) && Valid()
      ensures Preserves(old(View()), View())
      ensures ok <==> id in old(retained) && id in jobs && !IsLive(jobs[id].status)
      ensures retained == if ok then old(retained) - {id} else old(retained)
      ensures tombstones == old(tombstones)
    {
      hide Reachable, Run, Preserves;
      ReachableStep(View(), Acknowledge(id));
      ok := id in retained && id in jobs && IsTerminal(jobs[id].status);
      if id in jobs && IsTerminal(jobs[id].status) {
        retained := retained - {id};
      }
    }
  }
}
