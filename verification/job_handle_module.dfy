/**
 * `configure`, `shutdown`, `jobResultAck` and `joinAllWorkers` as the code runs
 * them (faucet-module/src/lez_faucet_module.cpp:853-914, 1067-1148, 1301-1350),
 * with the workers acting between any two of their steps: each is a run of the
 * API thread of JobHandles.
 */
module JobHandleModule {
  import opened Wrappers
  import opened JobHandles

  // ---- the workers only go on ------------------------------------------------------------

  predicate IsWorkers(step: Step) {
    step.BeginWork? || step.LoadClient? || step.Return? || step.Settle? || step.Exit?
  }

  // How many of its own steps a worker has left, at most.
  function Rank(worker: Worker): nat {
    match worker
    case Waiting => 5
    case Ready => 4
    case Holding(_) => 3
    case Returned => 2
    case Settled => 1
    case Exited => 0
  }

  // The workers have acted and nothing else has.
  predicate WorkersOnly(m: Module, t: Module) {
    && t == m.(workers := t.workers) && t.workers.Keys == m.workers.Keys
    && forall id: nat | id in m.workers :: Rank(t.workers[id]) <= Rank(m.workers[id])
  }

  lemma WorkersGoOn(m: Module, step: Step)
    requires IsWorkers(step)
    ensures WorkersOnly(m, Apply(m, step))
  {
  }

  lemma WorkersOnlyTwice(m: Module, t: Module, u: Module)
    requires WorkersOnly(m, t) && WorkersOnly(t, u)
    ensures WorkersOnly(m, u)
  {
  }

  lemma ReachableStep(m: Module, step: Step)
    requires Reachable(m)
    ensures Reachable(Apply(m, step))
  {
    hide Apply;
    var steps :| m == Run(START, steps);
    var longer := steps + [step];
    assert longer[..|longer| - 1] == steps;
    assert Apply(m, step) == Run(START, longer);
  }

  lemma StartIsReachable()
    ensures Reachable(START)
  {
    assert START == Run(START, []);
  }

  // What a worker does next once the module is stopping, whatever it was at.
  function LastStep(id: JobId, worker: Worker): Step {
    match worker
    case Waiting => BeginWork(id, true)
    case Ready => LoadClient(id, true)
    case Holding(_) => Return(id)
    case Returned => Settle(id)
    case Settled => Exit(id)
    case Exited => Exit(id)
  }

  lemma LastStepIsProgress(m: Module, id: JobId)
    requires id in m.workers && !m.workers[id].Exited?
    ensures var t := Apply(m, LastStep(id, m.workers[id]));
            WorkersOnly(m, t) && Rank(t.workers[id]) < Rank(m.workers[id])
  {
    WorkersGoOn(m, LastStep(id, m.workers[id]));
  }

  datatype Reply = Configured | ModuleStopping | DropInProgress | NotCreated

  class HandleModule {
    var stopping: bool
    var client: Option<Handle>
    var nextHandle: Handle
    var destroyed: seq<Handle>
    var workers: map<JobId, Worker>
    var retained: set<JobId>
    // Where the API call in progress stands.
    ghost var api: Api

    ghost function View(): Module
      reads this
    {
      Module(stopping, client, nextHandle, destroyed, workers, retained, api)
    }

    ghost predicate Valid()
      reads this
    {
      Reachable(View())
    }

    constructor ()
      ensures Valid() && View() == START
    {
      stopping, client, nextHandle, destroyed, workers, retained := false, None, 0, [], map[], {};
      api := Free;
      new;
      StartIsReachable();
    }

    // The workers act.
    method Elapse()
      requires Valid()
      modifies this`workers
      ensures Valid() && WorkersOnly(old(View()), View())
    {
      hide Reachable, Run, Apply, WorkersOnly;
      ghost var start := View();
      assert WorkersOnly(start, start) by { Unmoved(start); }
      var more: nat := *;
      while more > 0
        invariant Valid() && WorkersOnly(start, View())
      {
        var step: Step := *;
        if IsWorkers(step) {
          ghost var before := View();
          Take(step);
          WorkersOnlyTwice(start, before, View());
        }
        more := more - 1;
      }
    }

    lemma Unmoved(m: Module)
      ensures WorkersOnly(m, m)
    {
    }

    // One step of a worker.
    method Take(step: Step)
      requires Valid() && IsWorkers(step)
      modifies this`workers
      ensures Valid() && View() == Apply(old(View()), step) && WorkersOnly(old(View()), View())
    {
      hide Reachable, Run;
      ReachableStep(View(), step);
      WorkersGoOn(View(), step);
      if step.id in workers {
        var next :=
          WorkerNext(Module(stopping, client, nextHandle, destroyed, workers, retained, Free), step, workers[step.id]);
        workers := workers[step.id := next];
      }
    }

    // ---- the API thread ---------------------------------------------------------------

    ghost method At(step: Step, place: Api)
      requires Valid() && Apply(View(), step) == View().(api := place)
      modifies this`api
      ensures Valid() && View() == Apply(old(View()), step)
    {
      hide Reachable, Run, Apply;
      ReachableStep(View(), step);
      api := place;
    }

    // No retained job is still on its way.
    method AnyLive() returns (live: bool)
      ensures live <==> !AllSettled(View())
    {
      live := exists id | id in retained :: id in workers && !IsSettled(workers[id]);
    }

    /**
     * Refused while the module is stopping or a job is live. Otherwise the new
     * handle is installed and the old one destroyed, or nothing is installed
     * and a handle that came with a failure is destroyed.
     */
    method Configure() returns (reply: Reply)
      requires Valid() && api.Free?
      modifies this
      ensures Valid() && api.Free? && !stopping && retained == old(retained)
      ensures reply == DropInProgress ==> client == old(client) && destroyed == old(destroyed)
      ensures reply == Configured ==>
                && client == Some(old(nextHandle)) && nextHandle == old(nextHandle) + 1
                && destroyed == old(destroyed) + (if old(client).Some? then [old(client).value] else [])
                && AllSettled(View())
      ensures reply == NotCreated ==>
                && client == old(client) && AllSettled(View())
                && destroyed == old(destroyed) + (if nextHandle > old(nextHandle) then [old(nextHandle)] else [])
      ensures reply != ModuleStopping
    {
      hide Reachable, Run, RetainedOk, HandleOk, DestroyedOnce;
      NeverLeftStopping(View());
      if stopping { return ModuleStopping; }
      Elapse();
      var live := AnyLive();
      if live { return DropInProgress; }
      At(JobHandles.Configure, Configuring);
      Elapse();
      reply := Create();
    }

    // The foreign call that makes a client, and what becomes of its handle.
    method Create() returns (reply: Reply)
      requires Valid() && api.Configuring? && AllSettled(View()) && !stopping
      modifies this
      ensures Valid() && api.Free? && !stopping && retained == old(retained) && AllSettled(View())
      ensures reply in {Configured, NotCreated}
      ensures reply == Configured ==>
                && client == Some(old(nextHandle)) && nextHandle == old(nextHandle) + 1
                && destroyed == old(destroyed) + (if old(client).Some? then [old(client).value] else [])
      ensures reply == NotCreated ==>
                && client == old(client)
                && destroyed == old(destroyed) + (if nextHandle > old(nextHandle) then [old(nextHandle)] else [])
    {
      hide Reachable, Run;
      var ok: bool, handle: bool := *, *;
      ReachableStep(View(), CreateClient(ok, handle));
      if !handle {
        api := Free;
        return NotCreated;
      }
      var made := nextHandle;
      nextHandle, api := nextHandle + 1, if ok then Installing(made) else Discarding(made);
      if !ok {
        Destroy(Some(made), false);
        return NotCreated;
      }
      var previous := Exchange(Some(made));
      Destroy(previous, false);
      reply := Configured;
    }

    // The client pointer is swapped in one step.
    method Exchange(next: Option<Handle>) returns (previous: Option<Handle>)
      requires Valid()
      requires (api.Installing? && next == Some(api.made)) || (api.Emptying? && next.None?)
      modifies this`client, this`api
      ensures Valid() && View() == Apply(old(View()), Proceed) && previous == old(client) && client == next
    {
      hide Reachable, Run;
      ReachableStep(View(), Proceed);
      previous := client;
      client := next;
      api := if api.Installing? then Replacing(previous) else Closing(previous, api.final);
    }

    // The handle in hand goes; a shutdown clears the stopping flag after it.
    method Destroy(handle: Option<Handle>, rearm: bool)
      requires Valid() && InHand(api) == handle
      requires if rearm then api == Closing(handle, false) else api.Discarding? || api.Replacing?
      modifies this`destroyed, this`stopping, this`api
      ensures Valid() && View() == Apply(old(View()), Proceed)
    {
      hide Reachable, Run;
      ReachableStep(View(), Proceed);
      if handle.Some? {
        destroyed := destroyed + [handle.value];
      }
      if rearm {
        stopping := false;
      }
      api := Free;
    }

    /**
     * Wait for one worker: it has finitely many steps left, its foreign call
     * among them, and the others may act before each.
     */
    method Join(id: JobId)
      requires Valid() && id in workers
      modifies this`workers
      ensures Valid() && WorkersOnly(old(View()), View()) && id in workers && workers[id].Exited?
    {
      hide Reachable, Run, Apply;
      ghost var start := View();
      assert WorkersOnly(start, start);
      while !workers[id].Exited?
        invariant Valid() && WorkersOnly(start, View()) && id in workers
        decreases Rank(workers[id])
      {
        ghost var before := View();
        Elapse();
        WorkersOnlyTwice(start, before, View());
        if !workers[id].Exited? {
          before := View();
          LastStepIsProgress(before, id);
          Take(LastStep(id, workers[id]));
          WorkersOnlyTwice(start, before, View());
        }
      }
    }

    /**
     * Mark stopping, then wait for every retained worker. Afterwards all of them
     * have left, and the client is still the one it was.
     */
    method JoinAllWorkers(final: bool)
      requires Valid() && api.Free?
      modifies this`stopping, this`workers, this`api
      ensures Valid() && api == Emptying(final) && stopping && AllJoined(View())
    {
      hide Reachable, Run, WorkersOnly, RetainedOk, HandleOk, DestroyedOnce, FlagsOk, WorkerOk;
      ReachableStep(View(), JobHandles.Shutdown(final));
      stopping, api := true, Joining(final);
      ghost var start := View();
      assert WorkersOnly(start, start) by { Unmoved(start); }
      var left := retained;
      while left != {}
        invariant Valid() && WorkersOnly(start, View()) && left <= retained == start.retained
        invariant View() == start.(workers := workers)
        invariant forall id: nat | id in retained - left && id in workers :: workers[id].Exited?
        decreases left
      {
        var id :| id in left;
        ghost var before := View();
        if id in workers {
          Join(id);
          WorkersOnlyTwice(start, before, View());
          ExitedStays(before, View());
        }
        left := left - {id};
      }
      At(Proceed, Emptying(final));
    }

    lemma ExitedStays(m: Module, t: Module)
      requires WorkersOnly(m, t)
      ensures t == m.(workers := t.workers) && t.workers.Keys == m.workers.Keys
      ensures forall id: nat | id in m.workers && m.workers[id].Exited? :: t.workers[id].Exited?
    {
      forall id: nat | id in m.workers && m.workers[id].Exited?
        ensures t.workers[id].Exited?
      {
        assert Rank(t.workers[id]) <= Rank(m.workers[id]);
      }
    }

    /**
     * Shutdown completes from any idle state, whatever the workers are at: it
     * joins them, destroys the client's handle if there is one, and leaves the
     * module without a client or a running worker, ready to be configured.
     */
    method Shutdown() returns (alreadyStopping: bool, clientDestroyed: bool)
      requires Valid() && api.Free?
      modifies this
      ensures Valid() && !alreadyStopping && clientDestroyed == old(client).Some?
      ensures api.Free? && !stopping && client.None? && retained == old(retained) && nextHandle == old(nextHandle)
      ensures destroyed == old(destroyed) + (if old(client).Some? then [old(client).value] else [])
      ensures CanConfigure(View()) && forall id: nat | id in workers :: IsSettled(workers[id])
    {
      hide Reachable, Run, RetainedOk, HandleOk, DestroyedOnce;
      NeverLeftStopping(View());
      alreadyStopping := stopping;
      JoinAllWorkers(false);
      var previous := Exchange(None);
      NobodyIsLeft();
      clientDestroyed := previous.Some?;
      Destroy(previous, true);
    }

    lemma NobodyIsLeft()
      requires Valid() && api.Closing?
      ensures forall id: nat | id in workers :: IsSettled(workers[id])
    {
      hide Reachable, HandleOk, DestroyedOnce, RetainedOk;
      ReachableKeepsInv(View());
      forall id: nat | id in workers
        ensures IsSettled(workers[id])
      {
        assert WorkerOk(View(), id);
      }
    }

    // A settled job leaves the table and its thread is joined.
    method JobResultAck(id: JobId) returns (ok: bool)
      requires Valid() && api.Free?
      modifies this
      ensures Valid() && api.Free? && client == old(client) && destroyed == old(destroyed)
      ensures retained == if ok then old(retained) - {id} else old(retained)
      ensures ok ==> id in workers && workers[id].Exited?
    {
      hide Reachable, Run;
      Elapse();
      ok := id in retained && id in workers && IsSettled(workers[id]);
      if !ok { return; }
      ReachableStep(View(), JobHandles.Acknowledge(id));
      retained, api := retained - {id}, Acknowledging(id);
      Join(id);
      At(Proceed, Free);
    }
  }
}
