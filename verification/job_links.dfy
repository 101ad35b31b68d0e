/**
 * The workers of JobRegistry are those of JobHandles: each step of a worker in
 * the one is none, one or two of its steps in the other, so what JobHandles
 * says of a worker inside a foreign call is said of the registry's
 * (faucet-module/src/lez_faucet_module.cpp:1155-1290, 1352-1382).
 */
module JobLinks {
  import opened Wrappers
  import opened Envelopes
  import R = JobRegistry
  import H = JobHandles

  function Seen(place: R.WorkerPlace): H.Worker {
    match place
    case ToBegin => H.Waiting
    case ToCheck => H.Ready
    case ToLoad => H.Ready
    case InCall(client) => H.Holding(client)
    case ToSettle(_, _) => H.Returned
    case ToRelease => H.Settled
    case ToRecord => H.Settled
    case Finished => H.Exited
  }

  // The module as JobHandles sees it through one worker of the registry.
  predicate Agrees(s: R.Registry, m: H.Module, id: R.JobId) {
    && id in s.workers && id in s.table.jobs && id in m.workers
    && m.stopping == s.stopping && m.client == s.client && m.workers[id] == Seen(s.workers[id])
  }

  // The steps a worker's step in the registry stands for.
  function HandleSteps(s: R.Registry, id: R.JobId): seq<H.Step>
    requires id in s.workers && id in s.table.jobs
  {
    var job := s.table.jobs[id];
    match s.workers[id]
    case ToBegin => [H.BeginWork(id, job.cancelRequested)]
    case ToCheck => if job.cancelRequested || s.stopping then [H.LoadClient(id, true)] else []
    case ToLoad => [H.LoadClient(id, false)]
    case InCall(_) => []
    case ToSettle(_, _) => if R.IsDrop(job.operation) then [H.Settle(id)] else [H.Settle(id), H.Exit(id)]
    case ToRelease => []
    case ToRecord => [H.Exit(id)]
    case Finished => []
  }

  lemma RunOne(m: H.Module, step: H.Step)
    ensures H.Run(m, [step]) == H.Apply(m, step)
  {
    assert [step][..0] == [];
  }

  lemma RunTwo(m: H.Module, one: H.Step, two: H.Step)
    ensures H.Run(m, [one, two]) == H.Apply(H.Apply(m, one), two)
  {
    hide H.Apply;
    assert [one, two][..1] == [one];
    RunOne(m, one);
  }

  lemma WorkedPlace(s: R.Registry, id: R.JobId)
    requires id in s.workers && id in s.table.jobs
    ensures id in R.Worked(s, id).workers
    ensures R.Worked(s, id).workers[id] == R.NextPlace(s, s.table.jobs[id], s.workers[id])
  {
    hide R.NextPlace, R.NextJob, R.StatusRecorded;
  }

  /**
   * A worker's step in the registry is those steps of JobHandles, and they
   * change nothing but that worker.
   */
  lemma WorkerStepIsHandleSteps(s: R.Registry, m: H.Module, id: R.JobId)
    requires Agrees(s, m, id)
    ensures H.Run(m, HandleSteps(s, id)) == m.(workers := m.workers[id := Seen(R.Worked(s, id).workers[id])])
  {
    hide H.Run, R.Worked, H.Proceeded, H.Created, H.AllSettled;
    WorkedPlace(s, id);
    var steps := HandleSteps(s, id);
    if |steps| == 0 {
      assert steps == [] && H.Run(m, steps) == m by { RunNone(m); }
      assert m.workers[id := m.workers[id]] == m.workers;
    } else if |steps| == 1 {
      RunOne(m, steps[0]);
      assert steps == [steps[0]];
    } else {
      RunTwo(m, steps[0], steps[1]);
      assert steps == [steps[0], steps[1]];
    }
  }

  lemma RunNone(m: H.Module)
    ensures H.Run(m, []) == m
  {
  }

  // So is the return of its foreign call.
  lemma ReturnIsHandleReturn(s: R.Registry, m: H.Module, id: R.JobId, raw: string)
    requires Agrees(s, m, id) && s.workers[id].InCall?
    ensures H.Apply(m, H.Return(id)) == m.(workers := m.workers[id := Seen(R.Returned(s, id, raw).workers[id])])
  {
  }

  /**
   * A registry worker inside a foreign call holds the installed handle, and no
   * handle that was destroyed, if its module is one JobHandles can reach.
   */
  lemma RegistryCallsAreOnLiveHandles(s: R.Registry, m: H.Module, id: R.JobId)
    requires Agrees(s, m, id) && H.Reachable(m) && s.workers[id].InCall?
    ensures s.client == Some(s.workers[id].client) && s.workers[id].client !in m.destroyed
  {
    hide H.Reachable;
    H.NoCallOnDestroyedHandle(m, id);
  }
}
