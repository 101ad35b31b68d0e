/**
 * Why the writers of the phase channel take turns
 * (lez-faucet-ffi/src/client.rs:276-303, 880-905, 1004-1010).
 *
 * Sessions says who holds the drop permit. Only a running drop writes to the
 * channel, a phase and then its token at a time; its guard clears the token
 * before the run ends, however it ends. That is all PhaseChannels needs.
 */
module PhaseSessions {
  import opened Wrappers
  import opened PhaseChannels
  import S = Sessions

  // guarded: the running drop has not cleared its token yet. The operations are
  // numbered by their runs.
  datatype Joint = Joint(sessions: S.System, writes: seq<Write>, guarded: bool)

  datatype Step =
    | Move(step: S.Step)
    | StorePhase(id: nat, phase: DropPhase)
    | StoreToken(id: nat)
    | ClearToken(id: nat)

  const START := Joint(S.START, [], false)

  predicate Runs(s: S.System, id: nat) {
    id in s.callers && s.callers[id].place.Running?
  }

  // Between the two stores of one publication.
  predicate HalfWay(writes: seq<Write>) {
    writes != [] && writes[|writes| - 1].SetPhase?
  }

  // The step ends a run.
  predicate Ends(s: S.System, step: S.Step) {
    (step.Finish? || step.Abandon?) && Runs(s, step.id)
  }

  function Op(s: S.System): nat {
    if s.runs == [] then 0 else |s.runs| - 1
  }

  // A step that is not enabled changes nothing: nobody but the running drop
  // writes, it does not write after its clear, and no run ends before that.
  function Apply(tokenOf: nat -> nat, j: Joint, step: Step): Joint {
    var s, op := j.sessions, Op(j.sessions);
    match step
    case Move(move) =>
      if j.guarded && Ends(s, move) then j
      else
        var t := S.Apply(s, move);
        Joint(t, j.writes, j.guarded || |t.runs| > |s.runs|)
    case StorePhase(id, phase) =>
      if Runs(s, id) && j.guarded && !HalfWay(j.writes) && tokenOf(op) != 0
      then j.(writes := j.writes + [SetPhase(op, phase)]) else j
    case StoreToken(id) =>
      if Runs(s, id) && j.guarded && HalfWay(j.writes)
      then j.(writes := j.writes + [SetToken(op, tokenOf(op))]) else j
    case ClearToken(id) =>
      if Runs(s, id) && j.guarded && !HalfWay(j.writes)
      then j.(writes := j.writes + [Clear(op, tokenOf(op))], guarded := false) else j
  }

  function Run(tokenOf: nat -> nat, steps: seq<Step>): Joint
    decreases |steps|
  {
    if steps == [] then START else Apply(tokenOf, Run(tokenOf, steps[..|steps| - 1]), steps[|steps| - 1])
  }

  // ---- invariant --------------------------------------------------------------------------

  // Whose write is last: the live run's until its clear, and an earlier run's
  // or nobody's when the live one has not written.
  predicate LastOk(j: Joint) {
    j.writes != [] ==>
      var last := j.writes[|j.writes| - 1];
      && last.op < |j.sessions.runs|
      && (!last.Clear? ==> j.guarded && last.op == Op(j.sessions))
      && (last.Clear? && j.guarded ==> last.op < Op(j.sessions))
  }

  ghost predicate Inv(tokenOf: nat -> nat, j: Joint) {
    && S.Inv(j.sessions) && Serialized(j.writes, tokenOf) && LastOk(j)
    && (j.guarded ==> j.sessions.runs != [] && exists id: nat :: Runs(j.sessions, id))
  }

  lemma OneMoreWrite(tokenOf: nat -> nat, writes: seq<Write>, w: Write)
    requires Serialized(writes, tokenOf) && Orderly(writes + [w], tokenOf, |writes|)
    ensures Serialized(writes + [w], tokenOf)
  {
    forall n | 0 <= n < |writes|
      ensures Orderly(writes + [w], tokenOf, n)
    {
      assert Orderly(writes, tokenOf, n);
    }
  }

  // A run starts only when no other is live, and one that does not end stays.
  lemma MoveKeepsRunning(s: S.System, step: S.Step, id: nat)
    requires S.Inv(s) && Runs(s, id) && !Ends(s, step)
    ensures Runs(S.Apply(s, step), id) && S.Apply(s, step).runs == s.runs
  {
    hide S.RunsInv, S.UnknownsInv, S.Relies, S.Replayed;
    if step.id != id && step.id in s.callers {
      assert !(S.HoldsIn(s, id) && S.HoldsIn(s, step.id));
    }
  }

  lemma MoveStartsAtMostOne(s: S.System, step: S.Step)
    ensures var t := S.Apply(s, step);
            t.runs == s.runs || (|t.runs| == |s.runs| + 1 && Runs(t, step.id))
  {
    hide S.Replayed;
  }

  lemma MoveKeeps(tokenOf: nat -> nat, j: Joint, step: S.Step)
    requires Inv(tokenOf, j)
    ensures Inv(tokenOf, Apply(tokenOf, j, Move(step)))
  {
    hide S.Inv, Serialized, S.Apply;
    if j.guarded {
      if !Ends(j.sessions, step) {
        var id: nat :| Runs(j.sessions, id);
        S.ApplyKeeps(j.sessions, step);
        MoveKeepsRunning(j.sessions, step, id);
      }
    } else {
      S.ApplyKeeps(j.sessions, step);
      MoveStartsAtMostOne(j.sessions, step);
    }
  }

  lemma WriteKeeps(tokenOf: nat -> nat, j: Joint, step: Step)
    requires Inv(tokenOf, j) && !step.Move?
    ensures Inv(tokenOf, Apply(tokenOf, j, step))
  {
    hide S.Inv, Serialized;
    var k := Apply(tokenOf, j, step);
    if k != j {
      var w := k.writes[|j.writes|];
      assert k.writes == j.writes + [w];
      if j.writes != [] {
        LastIsOrderly(tokenOf, j.writes);
      }
      OneMoreWrite(tokenOf, j.writes, w);
    }
  }

  lemma LastIsOrderly(tokenOf: nat -> nat, writes: seq<Write>)
    requires Serialized(writes, tokenOf) && writes != []
    ensures Orderly(writes, tokenOf, |writes| - 1)
  {
  }

  /**
   * The writers take turns on every run: what the channel is written is
   * Serialized, so everything proved of its reads holds of every session.
   */
  lemma {:induction false} WritersTakeTurns(tokenOf: nat -> nat, steps: seq<Step>)
    ensures Inv(tokenOf, Run(tokenOf, steps)) && Serialized(Run(tokenOf, steps).writes, tokenOf)
    decreases |steps|
  {
    hide Apply, S.Inv, LastOk, Serialized;
    if steps == [] {
      StartIsOk(tokenOf);
    } else {
      var before, step := Run(tokenOf, steps[..|steps| - 1]), steps[|steps| - 1];
      WritersTakeTurns(tokenOf, steps[..|steps| - 1]);
      if step.Move? {
        MoveKeeps(tokenOf, before, step.step);
      } else {
        WriteKeeps(tokenOf, before, step);
      }
    }
  }

  lemma StartIsOk(tokenOf: nat -> nat)
    ensures Inv(tokenOf, START)
  {
  }

  /**
   * On every session: a poller that saw its token gets another operation's
   * phase exactly when a clear and the next operation's phase fell between its
   * two loads.
   */
  lemma SessionReadIsForeignExactlyWhenOvertaken(tokenOf: nat -> nat, steps: seq<Step>, a: nat, b: nat, token: nat)
    requires a <= b <= |Run(tokenOf, steps).writes| && token != 0 && TokenAt(Run(tokenOf, steps).writes, a) == token
    ensures var h := Run(tokenOf, steps).writes;
            && LiveAt(h, a).Some? && tokenOf(LiveAt(h, a).value) == token && AuthorAt(h, b).Some?
            && (AuthorAt(h, b) != LiveAt(h, a) <==> Overtaken(h, a, b))
  {
    hide Run, Inv, Serialized;
    WritersTakeTurns(tokenOf, steps);
    ReadIsForeignExactlyWhenOvertaken(Run(tokenOf, steps).writes, tokenOf, a, b, token);
  }
}
