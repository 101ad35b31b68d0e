/**
 * The life of the foreign client handle
 * (faucet-module/src/lez_faucet_module.cpp:800-914, 1066-1151, 1301-1350).
 *
 * The module's API calls come one at a time; the workers they started run
 * freely beside them. An API call that waits is a place of its own, so the
 * workers' steps fall between any two of its steps. Creating and destroying a
 * handle and every foreign call on one are visible here.
 */
module JobHandles {
  import opened Wrappers
  import FiniteSets

  type JobId = nat
  type Handle = nat

  const MAX_RETAINED: nat := 128

  // A worker holds a handle from loading it until its foreign call returns; its
  // job is terminal from Settled on.
  datatype Worker = Waiting | Ready | Holding(client: Handle) | Returned | Settled | Exited

  datatype Api =
    | Free
    | Configuring
    | Installing(made: Handle)
    | Discarding(made: Handle)
    | Replacing(previous: Option<Handle>)
    | Acknowledging(id: JobId)
    | Joining(final: bool)
    | Emptying(final: bool)
    | Closing(previous: Option<Handle>, final: bool)
    | Gone

  datatype Module = Module(stopping: bool, client: Option<Handle>, nextHandle: Handle, destroyed: seq<Handle>,
                           workers: map<JobId, Worker>, retained: set<JobId>, api: Api)

  const START := Module(false, None, 0, [], map[], {}, Free)

  datatype Step =
    | StartJob(id: JobId)
    | BeginWork(id: JobId, cancelled: bool)
    | LoadClient(id: JobId, cancelled: bool)
    | Return(id: JobId)
    | Settle(id: JobId)
    | Exit(id: JobId)
    | Configure
    | CreateClient(ok: bool, handle: bool)
    | Acknowledge(id: JobId)
    | Shutdown(final: bool)
    | Proceed

  predicate IsSettled(worker: Worker) {
    worker.Settled? || worker.Exited?
  }

  predicate AllSettled(m: Module) {
    forall id | id in m.retained && id in m.workers :: IsSettled(m.workers[id])
  }

  predicate AllJoined(m: Module) {
    forall id | id in m.retained && id in m.workers :: m.workers[id].Exited?
  }

  function Turned(m: Module, id: JobId, worker: Worker): Module {
    m.(workers := m.workers[id := worker])
  }

  function Destroyed(m: Module, handle: Option<Handle>, api: Api): Module {
    m.(destroyed := if handle.Some? then m.destroyed + [handle.value] else m.destroyed, api := api)
  }

  // ---- the API thread ------------------------------------------------------------------

  // The next step of the call in progress; a join waits.
  function Proceeded(m: Module): Module {
    match m.api
    case Installing(made) => m.(client := Some(made), api := Replacing(m.client))
    case Discarding(made) => Destroyed(m, Some(made), Free)
    case Replacing(previous) => Destroyed(m, previous, Free)
    case Acknowledging(id) => if id in m.workers && !m.workers[id].Exited? then m else m.(api := Free)
    case Joining(final) => if AllJoined(m) then m.(api := Emptying(final)) else m
    case Emptying(final) => m.(client := None, api := Closing(m.client, final))
    case Closing(previous, final) =>
      Destroyed(m, previous, if final then Gone else Free).(stopping := final)
    case _ => m
  }

  // The new handle, or what is left of a failure.
  function Created(m: Module, ok: bool, handle: bool): Module {
    if !handle then m.(api := Free)
    else m.(nextHandle := m.nextHandle + 1, api := if ok then Installing(m.nextHandle) else Discarding(m.nextHandle))
  }

  // ---- the workers ----------------------------------------------------------------------

  function WorkerNext(m: Module, step: Step, worker: Worker): Worker {
    match step
    case BeginWork(_, cancelled) =>
      if !worker.Waiting? then worker else if cancelled || m.stopping then Returned else Ready
    case LoadClient(_, cancelled) =>
      if !worker.Ready? then worker
      else if cancelled || m.client.None? then Returned
      else Holding(m.client.value)
    case Return(_) => if worker.Holding? then Returned else worker
    case Settle(_) => if worker.Returned? then Settled else worker
    case Exit(_) => if worker.Settled? then Exited else worker
    case _ => worker
  }

  // A step that is not enabled changes nothing.
  function Apply(m: Module, step: Step): Module {
    match step
    case StartJob(id) =>
      if m.api.Free? && !m.stopping && m.client.Some? && id !in m.workers && |m.retained| < MAX_RETAINED
      then m.(workers := m.workers[id := Waiting], retained := m.retained + {id})
      else m
    case Configure => if m.api.Free? && !m.stopping && AllSettled(m) then m.(api := Configuring) else m
    case CreateClient(ok, handle) => if m.api.Configuring? then Created(m, ok, handle) else m
    case Acknowledge(id) =>
      if m.api.Free? && id in m.retained && id in m.workers && IsSettled(m.workers[id])
      then m.(retained := m.retained - {id}, api := Acknowledging(id))
      else m
    case Shutdown(final) => if m.api.Free? then m.(stopping := true, api := Joining(final)) else m
    case Proceed => Proceeded(m)
    case _ => if step.id in m.workers then Turned(m, step.id, WorkerNext(m, step, m.workers[step.id])) else m
  }

  function Run(m: Module, steps: seq<Step>): Module
    decreases |steps|
  {
    if steps == [] then m else Apply(Run(m, steps[..|steps| - 1]), steps[|steps| - 1])
  }

  // ---- invariant --------------------------------------------------------------------------

  // The handle an API call has in hand beside the installed one.
  function InHand(api: Api): Option<Handle> {
    match api
    case Installing(made) => Some(made)
    case Discarding(made) => Some(made)
    case Replacing(previous) => previous
    case Closing(previous, _) => previous
    case _ => None
  }

  // Calls that touch a handle have waited for the workers first.
  predicate Alone(api: Api) {
    api.Configuring? || api.Installing? || api.Discarding? || api.Replacing? || api.Emptying? || api.Closing?
      || api.Gone?
  }

  // A handle is installed, in hand, or destroyed, and only one of them.
  predicate HandleOk(m: Module, h: Handle) {
    && (m.client == Some(h) ==> h < m.nextHandle && InHand(m.api) != Some(h) && h !in m.destroyed)
    && (InHand(m.api) == Some(h) ==> h < m.nextHandle && h !in m.destroyed)
    && (h in m.destroyed ==> h < m.nextHandle)
    && (h < m.nextHandle ==> m.client == Some(h) || InHand(m.api) == Some(h) || h in m.destroyed)
  }

  predicate WorkerOk(m: Module, id: JobId)
    requires id in m.workers
  {
    && (m.workers[id].Holding? ==> m.client == Some(m.workers[id].client))
    && (id !in m.retained || Alone(m.api) ==> IsSettled(m.workers[id]))
  }

  predicate RetainedOk(m: Module) {
    m.retained <= m.workers.Keys && |m.retained| <= MAX_RETAINED
  }

  predicate FlagsOk(m: Module) {
    && (m.stopping <==> m.api.Joining? || m.api.Emptying? || m.api.Closing? || m.api.Gone?)
    && (m.api.Closing? || m.api.Gone? ==> m.client.None?)
  }

  predicate DestroyedOnce(destroyed: seq<Handle>) {
    forall i, j | 0 <= i < j < |destroyed| :: destroyed[i] != destroyed[j]
  }

  ghost predicate Inv(m: Module) {
    && RetainedOk(m) && FlagsOk(m) && DestroyedOnce(m.destroyed)
    && (forall h :: HandleOk(m, h)) && forall id | id in m.workers :: WorkerOk(m, id)
  }

  lemma ApplyKeepsHandles(m: Module, step: Step, h: Handle)
    requires FlagsOk(m) && HandleOk(m, h)
    requires m.api.Installing? ==> HandleOk(m, m.api.made)
    ensures HandleOk(Apply(m, step), h)
  {
  }

  lemma ApplyKeepsFlags(m: Module, step: Step)
    requires FlagsOk(m)
    ensures FlagsOk(Apply(m, step))
  {
    hide WorkerNext, AllSettled, AllJoined;
  }

  lemma ApplyKeepsRetained(m: Module, step: Step)
    requires RetainedOk(m)
    ensures RetainedOk(Apply(m, step))
  {
    hide Proceeded, Created, WorkerNext, AllSettled;
    ProceedKeepsWorkers(m);
    if step.Acknowledge? {
      FiniteSets.SubsetIsSmaller(m.retained - {step.id}, m.retained);
    }
  }

  lemma ProceedKeepsWorkers(m: Module)
    ensures Proceeded(m).workers == m.workers && Proceeded(m).retained == m.retained
    ensures forall ok, handle ::
              Created(m, ok, handle).workers == m.workers && Created(m, ok, handle).retained == m.retained
  {
    hide AllJoined;
  }

  // What is destroyed next is the handle in hand, if any.
  lemma ApplyDestroys(m: Module, step: Step)
    ensures Apply(m, step).destroyed == m.destroyed
         || (InHand(m.api).Some? && Apply(m, step).destroyed == m.destroyed + [InHand(m.api).value])
  {
    hide WorkerNext;
  }

  lemma DestroyedStaysOnce(destroyed: seq<Handle>, h: Handle)
    requires DestroyedOnce(destroyed) && h !in destroyed
    ensures DestroyedOnce(destroyed + [h])
  {
  }

  lemma ApplyKeepsWorker(m: Module, step: Step, id: JobId)
    requires Inv(m) && id in Apply(m, step).workers
    ensures WorkerOk(Apply(m, step), id)
  {
    hide HandleOk;
    if id in m.workers {
      assert WorkerOk(m, id);
    }
  }

  lemma ApplyKeeps(m: Module, step: Step)
    requires Inv(m)
    ensures Inv(Apply(m, step))
  {
    hide Apply, WorkerOk, RetainedOk, FlagsOk, DestroyedOnce;
    ApplyKeepsFlags(m, step);
    ApplyKeepsRetained(m, step);
    ApplyDestroys(m, step);
    var t := Apply(m, step);
    if InHand(m.api).Some? {
      assert HandleOk(m, InHand(m.api).value);
      DestroyedStaysOnce(m.destroyed, InHand(m.api).value);
    }
    forall h ensures HandleOk(t, h) { ApplyKeepsHandles(m, step, h); }
    forall id | id in t.workers ensures WorkerOk(t, id) { ApplyKeepsWorker(m, step, id); }
  }

  lemma {:induction false} RunKeeps(m: Module, steps: seq<Step>)
    requires Inv(m)
    ensures Inv(Run(m, steps))
    decreases |steps|
  {
    hide Inv, Apply;
    if steps != [] {
      RunKeeps(m, steps[..|steps| - 1]);
      ApplyKeeps(Run(m, steps[..|steps| - 1]), steps[|steps| - 1]);
    }
  }

  ghost predicate Reachable(m: Module) {
    exists steps :: m == Run(START, steps)
  }

  lemma ReachableKeepsInv(m: Module)
    requires Reachable(m)
    ensures Inv(m)
  {
    hide Run;
    var steps :| m == Run(START, steps);
    StartIsOk();
    RunKeeps(START, steps);
  }

  lemma StartIsOk()
    ensures Inv(START)
  {
  }

  /**
   * No worker is ever inside a foreign call on a destroyed handle: the handle
   * it holds is the installed one.
   */
  lemma NoCallOnDestroyedHandle(m: Module, id: JobId)
    requires Reachable(m) && id in m.workers && m.workers[id].Holding?
    ensures m.client == Some(m.workers[id].client) && m.workers[id].client !in m.destroyed
  {
    hide Run;
    ReachableKeepsInv(m);
    assert WorkerOk(m, id) && HandleOk(m, m.workers[id].client);
  }

  // Every handle ever made is installed, in the hands of the API call in
  // progress, or destroyed, and none is destroyed twice.
  lemma HandlesAreConserved(m: Module, h: Handle)
    requires Reachable(m)
    ensures h < m.nextHandle <==> m.client == Some(h) || InHand(m.api) == Some(h) || h in m.destroyed
    ensures h in m.destroyed ==> m.client != Some(h) && InHand(m.api) != Some(h)
    ensures DestroyedOnce(m.destroyed)
  {
    hide Run;
    ReachableKeepsInv(m);
    assert HandleOk(m, h);
  }

  // ---- shutdown and reopening -----------------------------------------------------------------

  // What configure asks for before it makes a client.
  predicate CanConfigure(m: Module) {
    m.api.Free? && !m.stopping && AllSettled(m)
  }

  /**
   * A shutdown that completes leaves no client and no running worker, and the
   * module ready: configuring it makes and installs a new handle.
   */
  lemma ShutdownReopens(m: Module)
    requires Reachable(m) && m.api.Closing? && !m.api.final
    ensures var after := Apply(m, Proceed);
            && after.client.None? && CanConfigure(after)
            && (forall id | id in after.workers :: IsSettled(after.workers[id]))
    ensures Run(m, [Proceed, Configure, CreateClient(true, true), Proceed]).client == Some(m.nextHandle)
  {
    hide Reachable, HandleOk, DestroyedOnce, RetainedOk;
    ReachableKeepsInv(m);
    forall id | id in m.workers
      ensures IsSettled(m.workers[id])
    {
      assert WorkerOk(m, id);
    }
    var a := Apply(m, Proceed);
    var b := Apply(a, Configure);
    var c := Apply(b, CreateClient(true, true));
    var d := Apply(c, Proceed);
    var steps := [Proceed, Configure, CreateClient(true, true), Proceed];
    assert steps[..3] == [Proceed, Configure, CreateClient(true, true)];
    assert steps[..3][..2] == [Proceed, Configure];
    assert steps[..3][..2][..1] == [Proceed];
    assert Run(m, [Proceed]) == a by { assert [Proceed][..0] == []; }
    assert Run(m, [Proceed, Configure]) == b;
    assert Run(m, [Proceed, Configure, CreateClient(true, true)]) == c;
    assert Run(m, steps) == d;
  }

  // Between calls the module is never left stopping, unless it was destroyed.
  lemma NeverLeftStopping(m: Module)
    requires Reachable(m) && m.api.Free?
    ensures !m.stopping
  {
    hide Run;
    ReachableKeepsInv(m);
  }
}
