/**
 * What an answer of the core module means to the caller that gets it
 * (faucet-module/src/lez_faucet_module.cpp:938-1102, 1155-1421).
 *
 * The answers of JobRegistry are read against the registry itself: an accepted
 * key names one job, the job names the caller that made it, and a caller that
 * is refused has made none.
 */
module JobReplies {
  import opened Wrappers
  import opened JobRegistry

  // ---- what an answer names -----------------------------------------------------------

  // The key stands for this job, and for no other account.
  predicate Published(keys: Keys, key: Key, account: Account, id: JobId) {
    key in keys.stones && keys.stones[key].account == account && keys.stones[key].jobId == Some(id)
  }

  // The place of a caller that has made this job.
  predicate Made(place: CallerPlace, id: JobId) {
    place == AtSpawn(id) || place == AtPublish(id) || place == Answered(Started(id))
  }

  // A job belongs to the caller that made it.
  predicate MakerOk(jobs: map<JobId, Job>, callers: map<nat, Caller>, id: JobId)
    requires id in jobs
  {
    var job := jobs[id];
    && job.maker in callers && Made(callers[job.maker].place, id)
    && callers[job.maker].key == job.key && callers[job.maker].operation == job.operation
  }

  // A caller that made a job is the one the job names, and an accepted drop's
  // key stands for the job of the answer.
  predicate ReplyOk(keys: Keys, jobs: map<JobId, Job>, c: nat, me: Caller) {
    && (me.place.AtSpawn? || me.place.AtPublish? ==> me.place.id in jobs && jobs[me.place.id].maker == c)
    && (me.place.Answered? && !me.place.reply.Refused? ==>
          var id := me.place.reply.id;
          && id in jobs && jobs[id].key == me.key
          && (IsDrop(me.operation) ==> Published(keys, me.key, me.account, id))
          && (me.place.reply.Started? ==> jobs[id].maker == c))
  }

  ghost predicate RepliesOk(s: Registry) {
    && (forall id: nat | id in s.table.jobs :: MakerOk(s.table.jobs, s.callers, id))
    && (forall c: nat | c in s.callers :: ReplyOk(s.keys, s.table.jobs, c, s.callers[c]))
  }

  lemma GoneMaker(s: Registry, c: nat, id: JobId)
    requires CallerView(s, c) && id in Gone(s, c).table.jobs
    requires id in s.table.jobs ==> MakerOk(s.table.jobs, s.callers, id)
    ensures MakerOk(Gone(s, c).table.jobs, Gone(s, c).callers, id)
  {
    hide KeysNext, SlotNext, WorkersNext, SlotOk, CallerHolderOk;
  }

  lemma GoneReply(s: Registry, c: nat, d: nat)
    requires CallerView(s, c) && d in s.callers && ReplyOk(s.keys, s.table.jobs, d, s.callers[d])
    requires ReplyOk(s.keys, s.table.jobs, c, s.callers[c])
    requires StoneOk(s.keys, s.table.jobs, s.callers[c].key)
    ensures var t := Gone(s, c); d in t.callers && ReplyOk(t.keys, t.table.jobs, d, t.callers[d])
  {
    hide SlotNext, WorkersNext, SlotOk, CallerHolderOk;
  }

  lemma GoneKeepsReplies(s: Registry, c: nat)
    requires Inv(s) && RepliesOk(s) && c in s.callers
    ensures RepliesOk(Gone(s, c))
  {
    hide Inv, Gone, CallerView, MakerOk, ReplyOk, StoneOk;
    NextIdIsNew(s);
    SeenByCaller(s, c);
    GoneFrame(s, c);
    StonesAreOk(s);
    var t := Gone(s, c);
    forall id: nat | id in t.table.jobs ensures MakerOk(t.table.jobs, t.callers, id) { GoneMaker(s, c, id); }
    forall d: nat | d in t.callers ensures ReplyOk(t.keys, t.table.jobs, d, t.callers[d]) { GoneReply(s, c, d); }
  }

  lemma StonesAreOk(s: Registry)
    requires Inv(s)
    ensures forall key :: StoneOk(s.keys, s.table.jobs, key)
  {
  }

  // A step of a worker or of anybody else makes no job, moves no caller and
  // takes nothing back.
  predicate IsQuiet(s: Registry, t: Registry) {
    && Preserves(s, t) && t.table.jobs.Keys == s.table.jobs.Keys
    && forall c: nat | c in t.callers ::
         (c in s.callers && t.callers[c] == s.callers[c])
         || (c !in s.callers && (t.callers[c].place.AtGate? || t.callers[c].place.AtStart?))
  }

  lemma QuietKeepsReplies(s: Registry, t: Registry)
    requires RepliesOk(s) && IsQuiet(s, t)
    ensures RepliesOk(t)
  {
    forall id: nat | id in t.table.jobs ensures MakerOk(t.table.jobs, t.callers, id) {
      assert MakerOk(s.table.jobs, s.callers, id);
    }
    forall c: nat | c in t.callers ensures ReplyOk(t.keys, t.table.jobs, c, t.callers[c]) {
      if c in s.callers {
        assert ReplyOk(s.keys, s.table.jobs, c, s.callers[c]);
      }
    }
  }

  lemma OthersAreQuiet(s: Registry, step: Step)
    requires Inv(s) && !step.Go?
    ensures IsQuiet(s, Apply(s, step))
  {
    hide Inv, Preserves, NextPlace, NextJob, StatusRecorded;
    ApplyPreserves(s, step);
  }

  lemma ApplyKeepsReplies(s: Registry, step: Step)
    requires Inv(s) && RepliesOk(s)
    ensures RepliesOk(Apply(s, step))
  {
    hide Inv, RepliesOk, IsQuiet, Gone;
    if step.Go? {
      if step.c in s.callers {
        GoneKeepsReplies(s, step.c);
      }
    } else {
      OthersAreQuiet(s, step);
      QuietKeepsReplies(s, Apply(s, step));
    }
  }

  lemma {:induction false} RunKeepsReplies(steps: seq<Step>)
    ensures Inv(Run(START, steps)) && RepliesOk(Run(START, steps))
    decreases |steps|
  {
    hide Inv, Apply, RepliesOk;
    StartIsOk();
    RunKeeps(START, steps);
    if steps == [] {
      assert RepliesOk(START) by { NobodyIsAnswered(); }
    } else {
      RunKeepsReplies(steps[..|steps| - 1]);
      ApplyKeepsReplies(Run(START, steps[..|steps| - 1]), steps[|steps| - 1]);
    }
  }

  lemma NobodyIsAnswered()
    ensures RepliesOk(START)
  {
  }

  /**
   * What the answers mean, on every run. An accepted drop's key stands for the
   * job of the answer, under the caller's account; a started job was made by
   * this caller, and a replayed one by the caller that used the key first. A
   * caller that is refused, or told of an earlier job, has made none.
   */
  lemma AnswersMeanWhatTheySay(s: Registry, c: nat)
    requires Reachable(s) && c in s.callers && IsDrop(s.callers[c].operation) && s.callers[c].place.Answered?
    ensures var me := s.callers[c];
            match me.place.reply
            case Started(id) =>
              && Published(s.keys, me.key, me.account, id) && id in s.table.jobs
              && s.table.jobs[id].key == me.key && s.table.jobs[id].maker == c
              && (forall other: nat | other in s.table.jobs && s.table.jobs[other].maker == c :: other == id)
            case Replayed(id) =>
              && Published(s.keys, me.key, me.account, id) && id in s.table.jobs
              && s.table.jobs[id].key == me.key && s.table.jobs[id].maker != c
              && (forall other: nat | other in s.table.jobs :: s.table.jobs[other].maker != c)
            case Refused(_) =>
              forall other: nat | other in s.table.jobs :: s.table.jobs[other].maker != c
  {
    hide Inv, Run, ReplyOk, MakerOk;
    var steps :| s == Run(START, steps);
    RunKeepsReplies(steps);
    assert ReplyOk(s.keys, s.table.jobs, c, s.callers[c]);
    forall other: nat | other in s.table.jobs && s.table.jobs[other].maker == c
      ensures s.callers[c].place == Answered(Started(other))
    {
      assert MakerOk(s.table.jobs, s.callers, other);
      AnsweredMaker(s, other);
    }
    AnsweredReply(s, c);
  }

  lemma AnsweredMaker(s: Registry, id: JobId)
    requires id in s.table.jobs && MakerOk(s.table.jobs, s.callers, id)
    requires s.table.jobs[id].maker in s.callers ==> s.callers[s.table.jobs[id].maker].place.Answered?
    ensures s.table.jobs[id].maker in s.callers && s.callers[s.table.jobs[id].maker].place == Answered(Started(id))
  {
  }

  lemma AnsweredReply(s: Registry, c: nat)
    requires c in s.callers && ReplyOk(s.keys, s.table.jobs, c, s.callers[c])
    requires IsDrop(s.callers[c].operation) && s.callers[c].place.Answered?
    ensures var me := s.callers[c];
            !me.place.reply.Refused? ==>
              && Published(s.keys, me.key, me.account, me.place.reply.id) && me.place.reply.id in s.table.jobs
              && s.table.jobs[me.place.reply.id].key == me.key
              && (me.place.reply.Started? ==> s.table.jobs[me.place.reply.id].maker == c)
  {
  }

  // The job a caller is about to publish is its own, under its own key.
  lemma PublishesItsOwnJob(s: Registry, c: nat)
    requires Reachable(s) && c in s.callers && s.callers[c].place.AtPublish?
    ensures var id := s.callers[c].place.id;
            id in s.table.jobs && s.table.jobs[id].key == s.callers[c].key && s.table.jobs[id].maker == c
  {
    hide Run, SlotOk, RetainedOk, CallsDiffer, CallerHolderOk, WorkerHolderOk, SpawnsDiffer, OwnerOk, StoneOk,
         JobKeyOk, JobOk, WorkerOk, HasCalled, TokensRise, IsSettled, MakerOk;
    var steps :| s == Run(START, steps);
    RunKeepsReplies(steps);
    assert ReplyOk(s.keys, s.table.jobs, c, s.callers[c]);
    assert CallerOk(s.keys, s.table.jobs, s.workers, c, s.callers[c]);
  }

  // ---- a key that was used stays used ----------------------------------------------------

  // The answers left to a caller of a key that stands for this job.
  predicate LateReply(asker: Account, account: Account, id: JobId, reply: Reply) {
    || reply == Refused(Stopping) || reply == Refused(NotConfigured)
    || reply == if asker == account then Replayed(id) else Refused(IdempotencyConflict)
  }

  predicate LateCaller(s: Registry, c: nat, key: Key, account: Account, id: JobId) {
    c in s.callers && IsDrop(s.callers[c].operation) && s.callers[c].key == key ==>
      var place := s.callers[c].place;
      || place.AtGate? || place.AtClient? || place.AtClaim?
      || (place.Answered? && LateReply(s.callers[c].account, account, id, place.reply))
  }

  lemma ApplyKeepsLate(s: Registry, step: Step, c: nat, key: Key, account: Account, id: JobId)
    requires Inv(s) && LateCaller(s, c, key, account, id) && Published(s.keys, key, account, id)
    ensures LateCaller(Apply(s, step), c, key, account, id) && Published(Apply(s, step).keys, key, account, id)
  {
    hide Inv, KeysNext, SlotNext, TableNext, WorkersNext, NextPlace, NextJob, Touched, StatusRecorded;
    ApplyPreserves(s, step);
  }

  /**
   * Once a key stands for a job it does so for good: whoever asks with it
   * later, on any run, is told of that job if the account is the same and is
   * refused for the conflict if not, unless the module is stopping or not
   * configured when it looks.
   */
  lemma {:induction false} JobIsReplayedForever(s: Registry, steps: seq<Step>, c: nat, key: Key, account: Account,
                                                id: JobId)
    requires Inv(s) && Published(s.keys, key, account, id) && c !in s.callers
    ensures LateCaller(Run(s, steps), c, key, account, id) && Published(Run(s, steps).keys, key, account, id)
    decreases |steps|
  {
    hide Inv, Apply;
    if steps != [] {
      RunKeeps(s, steps[..|steps| - 1]);
      JobIsReplayedForever(s, steps[..|steps| - 1], c, key, account, id);
      ApplyKeepsLate(Run(s, steps[..|steps| - 1]), steps[|steps| - 1], c, key, account, id);
    }
  }
}
