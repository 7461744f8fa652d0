/**
 The trace is a faithful record: replaying its `StateChanged` events over the states a
 session started in gives the states it ended in, whatever succeeded or failed on the way.
 */
module Replay {
  import opened Wrappers
  import opened Schema
  import opened Errors
  import opened Semantics
  import I = Invariants

  type States = map<string, string>

  function Currents(signals: map<string, SignalState>): States {
    map id | id in signals :: signals[id].current
  }

  function ReplayEvent(s: States, e: TraceEvent): States {
    if e.StateChanged? && e.signalId in s then s[e.signalId := e.to] else s
  }

  /** The states after the committed changes of `trace`, oldest first. */
  function Replayed(s: States, trace: seq<TraceEvent>): States {
    if trace == [] then s
    else ReplayEvent(Replayed(s, trace[..|trace| - 1]), trace[|trace| - 1])
  }

  /** Every recorded change starts from the state its signal is in at that point of the replay. */
  ghost predicate Coherent(s: States, trace: seq<TraceEvent>) {
    forall i :: 0 <= i < |trace| && trace[i].StateChanged? ==>
      var before := Replayed(s, trace[..i]);
      trace[i].signalId in before && before[trace[i].signalId] == trace[i].from
  }

  /** Every recorded rollback returns to the state its signal is in at that point of the replay. */
  ghost predicate RollsBack(s: States, trace: seq<TraceEvent>) {
    forall i :: 0 <= i < |trace| && trace[i].Rollbacked? ==>
      var before := Replayed(s, trace[..i]);
      trace[i].signalId in before && before[trace[i].signalId] == trace[i].to
  }

  /** `m` continues `start`: `start`'s trace, then one that replays to `m`'s states. */
  ghost predicate Continues(start: Machine, m: Machine) {
    && start.trace <= m.trace
    && start.calls <= m.calls
    && var trace, s := m.trace[|start.trace|..], Currents(start.signals);
       Replayed(s, trace) == Currents(m.signals) && Coherent(s, trace) && RollsBack(s, trace)
  }

  lemma StepContinues(env: Env, start: Machine, m: Machine, e: TraceEvent, m': Machine)
    requires Continues(start, m)
    requires m'.trace == m.trace + [e] && m.calls <= m'.calls
    requires Currents(m'.signals) == ReplayEvent(Currents(m.signals), e)
    requires e.StateChanged? ==> e.signalId in m.signals && m.Current(e.signalId) == e.from
    requires e.Rollbacked? ==> e.signalId in m.signals && m.Current(e.signalId) == e.to
    ensures Continues(start, m')
  {
    var s, past, full := Currents(start.signals), m.trace[|start.trace|..], m'.trace[|start.trace|..];
    assert full == past + [e];
    forall i | 0 <= i <= |past| ensures full[..i] == past[..i] {}
    assert past[..|past|] == past;
  }

  lemma MicroContinues(env: Env, start: Machine, m: Machine, x: I.Micro)
    requires Continues(start, m) && I.Legal(env, (id: string) => true, m, x)
    ensures Continues(start, I.Apply(env, m, x))
  {
    hide Continues;
    var m' := I.Apply(env, m, x);
    match x
    case Receive(id, event, payload) => StepContinues(env, start, m, EventReceived(id, event, payload), m');
    case Act(actionId, ctx) =>
      var m1 := m.Push(ActionStarted(ctx.signalId, actionId));
      StepContinues(env, start, m, ActionStarted(ctx.signalId, actionId), m1);
      if actionId in env.actions {
        StepContinues(env, start, m1, m'.trace[|m'.trace| - 1], m');
      }
    case Commit(id, t) => StepContinues(env, start, m, StateChanged(id, m.Current(id), t.to), m');
    case Reject(id, t) => StepContinues(env, start, m, Rollbacked(id, t.to, m.Current(id)), m');
    case Evaluate(r, guard, cause, outcome) =>
      StepContinues(env, start, m, ReactionGuardEvaluated(cause, Head(r), guard, outcome), m');
    case Compensated(r, actionId, cause, message) =>
      StepContinues(env, start, m, ReactionCompensated(cause, Head(r), actionId, message), m');
  }

  /**
   Replay conservation: any session, with any mix of successes and failures at any cascade
   depth, appends to the trace a record that replays to the states it ends in.
   */
  lemma SessionContinues(env: Env, limit: nat, m: Machine, inputs: seq<Input>)
    ensures Continues(m, Session(env, limit, m, inputs).0)
  {
    var inv := (m': Machine) => Continues(m, m');
    var all := (id: string) => true;
    assert Continues(m, m) by {
      assert m.trace[|m.trace|..] == [];
    }
    forall m1, x {:trigger I.Apply(env, m1, x)} | inv(m1) && I.Legal(env, all, m1, x)
      ensures inv(I.Apply(env, m1, x))
    {
      MicroContinues(env, m, m1, x);
    }
    I.SessionKeeps(env, all, inv, limit, m, inputs);
  }
}
