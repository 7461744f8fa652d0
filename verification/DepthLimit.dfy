/** What `max_cascade_depth` can and cannot change, and how much work it bounds. */
module DepthLimit {
  import opened Wrappers
  import opened Schema
  import opened Errors
  import opened Semantics
  import Scheduler
  import I = Invariants

  // ---- Raising the limit ---------------------------------------------------------------

  /**
   A send that was not cut off by the limit is not affected by raising it: same outcome,
   states, trace and action calls.
   */
  lemma {:induction false} SendMonotone(env: Env, fuel: nat, fuel': nat, m: Machine,
                                        signalId: string, event: string, payload: Option<Json>, parent: Option<Json>)
    requires fuel <= fuel'
    requires Send(env, fuel, m, signalId, event, payload, parent).1 != Failure(CascadeDepthExceeded)
    ensures Send(env, fuel', m, signalId, event, payload, parent)
            == Send(env, fuel, m, signalId, event, payload, parent)
    decreases fuel, 0, 0
  {
    hide Attempt;
    var (m1, attempt) := Attempt(env, m, signalId, event, payload);
    if attempt.Success? {
      var scheduled := Scheduler.Schedule(Matching(env.reactions, signalId, attempt.value.to));
      FireAllMonotone(env, fuel - 1, fuel' - 1, m1, scheduled, parent, signalId);
    }
  }

  lemma {:induction false} FireAllMonotone(env: Env, fuel: nat, fuel': nat, m: Machine,
                                           rs: seq<ReactionDef>, parent: Option<Json>, cause: string)
    requires fuel <= fuel'
    requires FireAll(env, fuel, m, rs, parent, cause).1 != Some(CascadeDepthExceeded)
    ensures FireAll(env, fuel', m, rs, parent, cause) == FireAll(env, fuel, m, rs, parent, cause)
    decreases fuel, 2, |rs|
  {
    if rs != [] {
      var (m1, error) := Fire(env, fuel, m, rs[0], parent, cause);
      FireMonotone(env, fuel, fuel', m, rs[0], parent, cause);
      if error.None? {
        FireAllMonotone(env, fuel, fuel', m1, rs[1..], parent, cause);
      }
    }
  }

  lemma {:induction false} FireMonotone(env: Env, fuel: nat, fuel': nat, m: Machine,
                                        r: ReactionDef, parent: Option<Json>, cause: string)
    requires fuel <= fuel'
    requires Fire(env, fuel, m, r, parent, cause).1 != Some(CascadeDepthExceeded)
    ensures Fire(env, fuel', m, r, parent, cause) == Fire(env, fuel, m, r, parent, cause)
    decreases fuel, 1, 0
  {
    hide Gate, Compensate;
    var (m1, open) := Gate(env, m, r, parent, cause);
    if open {
      SendMonotone(env, fuel, fuel', m1, r.toSignal, r.event, r.payload, r.payload);
    }
  }

  /** The same for a whole session none of whose events was cut off. */
  lemma {:induction false} SessionMonotone(env: Env, limit: nat, limit': nat, m: Machine, inputs: seq<Input>)
    requires limit <= limit'
    requires Failure(CascadeDepthExceeded) !in Session(env, limit, m, inputs).1
    ensures Session(env, limit', m, inputs) == Session(env, limit, m, inputs)
    decreases |inputs|
  {
    if inputs != [] {
      var i := inputs[0];
      var (m1, outcome) := Deliver(env, limit, m, i);
      var rest := Session(env, limit, m1, inputs[1..]).1;
      assert outcome == Session(env, limit, m, inputs).1[0];
      assert forall o :: o in rest ==> o in [outcome] + rest;
      SendMonotone(env, limit + 1, limit' + 1, m, i.signalId, i.event, i.payload, i.payload);
      SessionMonotone(env, limit, limit', m1, inputs[1..]);
    }
  }

  // ---- When the limit cannot be hit ----------------------------------------------------

  /** `rank` falls along every reaction: it bounds the cascades that can start at a signal. */
  ghost predicate Ranks(env: Env, rank: string -> nat) {
    forall r :: r in env.reactions ==> rank(r.toSignal) < rank(r.fromSignal)
  }

  /** With acyclic reactions, a limit of at least the signal's rank is never exceeded. */
  lemma {:induction false} AcyclicNeverExceeds(env: Env, rank: string -> nat, fuel: nat, m: Machine,
                                               signalId: string, event: string, payload: Option<Json>,
                                               parent: Option<Json>)
    requires Ranks(env, rank) && rank(signalId) < fuel
    ensures Send(env, fuel, m, signalId, event, payload, parent).1 != Failure(CascadeDepthExceeded)
    decreases fuel, 0, 0
  {
    hide Attempt;
    var (m1, attempt) := Attempt(env, m, signalId, event, payload);
    AttemptNeverExceeds(env, m, signalId, event, payload);
    if attempt.Success? {
      var scheduled := Scheduler.Schedule(Matching(env.reactions, signalId, attempt.value.to));
      I.ScheduledReacts(env.reactions, signalId, attempt.value.to);
      AcyclicFireAll(env, rank, fuel - 1, m1, scheduled, parent, signalId);
    }
  }

  lemma {:induction false} AcyclicFireAll(env: Env, rank: string -> nat, fuel: nat, m: Machine,
                                          rs: seq<ReactionDef>, parent: Option<Json>, cause: string)
    requires Ranks(env, rank) && rank(cause) <= fuel
    requires forall r :: r in rs ==> r in env.reactions && r.fromSignal == cause
    ensures FireAll(env, fuel, m, rs, parent, cause).1 != Some(CascadeDepthExceeded)
    decreases fuel, 2, |rs|
  {
    if rs != [] {
      var (m1, open) := Gate(env, m, rs[0], parent, cause);
      if open {
        AcyclicNeverExceeds(env, rank, fuel, m1, rs[0].toSignal, rs[0].event, rs[0].payload, rs[0].payload);
      }
      AcyclicFireAll(env, rank, fuel, Fire(env, fuel, m, rs[0], parent, cause).0, rs[1..], parent, cause);
    }
  }

  lemma {:induction false} ActionsNeverExceed(env: Env, m: Machine, ids: seq<string>, ctx: ActionContext)
    ensures RunActions(env, m, ids, ctx).error != Some(CascadeDepthExceeded)
    decreases |ids|
  {
    if ids != [] {
      ActionsNeverExceed(env, RunAction(env, m, ctx.signalId, ids[0], ctx).0, ids[1..], ctx);
    }
  }

  /** Only the limit itself reports that it was exceeded: a callback cannot fake it. */
  lemma AttemptNeverExceeds(env: Env, m: Machine, signalId: string, event: string, payload: Option<Json>)
    ensures Attempt(env, m, signalId, event, payload).1 != Failure(CascadeDepthExceeded)
  {
    hide RunActions, Find;
    forall m', ids, ctx ensures RunActions(env, m', ids, ctx).error != Some(CascadeDepthExceeded) {
      ActionsNeverExceed(env, m', ids, ctx);
    }
  }

  // ---- Work bound ----------------------------------------------------------------------

  /** The events recorded as received. */
  function Received(trace: seq<TraceEvent>): nat {
    if trace == [] then 0
    else Received(trace[..|trace| - 1]) + if trace[|trace| - 1].EventReceived? then 1 else 0
  }

  /** `1 + width + width^2 + ...`, with `levels` terms. */
  function Geometric(width: nat, levels: nat): nat {
    if levels == 0 then 0 else 1 + width * Geometric(width, levels - 1)
  }

  lemma {:induction false} ActionsReceiveNothing(env: Env, m: Machine, ids: seq<string>, ctx: ActionContext)
    ensures Received(RunActions(env, m, ids, ctx).machine.trace) == Received(m.trace)
    decreases |ids|
  {
    if ids != [] {
      RunActionReceivesNothing(env, m, ctx.signalId, ids[0], ctx);
      ActionsReceiveNothing(env, RunAction(env, m, ctx.signalId, ids[0], ctx).0, ids[1..], ctx);
    }
  }

  lemma PushReceives(m: Machine, e: TraceEvent)
    ensures Received(m.Push(e).trace) == Received(m.trace) + if e.EventReceived? then 1 else 0
  {
    assert (m.trace + [e])[..|m.trace|] == m.trace;
  }

  lemma RunActionReceivesNothing(env: Env, m: Machine, signalId: string, actionId: string, ctx: ActionContext)
    ensures Received(RunAction(env, m, signalId, actionId, ctx).0.trace) == Received(m.trace)
  {
    hide Received;
    var m1 := m.Push(ActionStarted(signalId, actionId));
    PushReceives(m, ActionStarted(signalId, actionId));
    if actionId in env.actions {
      var m2 := m1.(calls := m1.calls + [ActionCall(actionId, ctx)]);
      match env.actions[actionId](m1.calls, ctx)
      case Some(e) => PushReceives(m2, ActionFailed(signalId, actionId, FailureText(e)));
      case None => PushReceives(m2, ActionSucceeded(signalId, actionId));
    }
  }

  lemma AttemptReceivesOne(env: Env, m: Machine, signalId: string, event: string, payload: Option<Json>)
    ensures Received(Attempt(env, m, signalId, event, payload).0.trace) == Received(m.trace) + 1
  {
    hide RunActions, Find, Received;
    forall m1, ids, ctx ensures Received(RunActions(env, m1, ids, ctx).machine.trace) == Received(m1.trace) {
      ActionsReceiveNothing(env, m1, ids, ctx);
    }
    forall m1: Machine, e ensures Received(m1.Push(e).trace) == Received(m1.trace) + if e.EventReceived? then 1 else 0 {
      PushReceives(m1, e);
    }
  }

  lemma GateAndCompensateReceiveNothing(env: Env, m: Machine, r: ReactionDef, parent: Option<Json>, cause: string,
                                        error: EngineError)
    ensures Received(Gate(env, m, r, parent, cause).0.trace) == Received(m.trace)
    ensures Received(Compensate(env, m, r, parent, cause, error).trace) == Received(m.trace)
  {
    hide RunAction, Received;
    if r.guard.Some? {
      PushReceives(m, ReactionGuardEvaluated(cause, Head(r), r.guard.value, env.guards(r.guard.value, parent)));
    }
    if r.onFail.Some? {
      var ctx := ActionContext(r.toSignal, r.fromState, m.Current(r.toSignal), r.event, parent, Some(Display(error)));
      RunActionReceivesNothing(env, m, r.toSignal, r.onFail.value, ctx);
      PushReceives(RunAction(env, m, r.toSignal, r.onFail.value, ctx).0,
                   ReactionCompensated(cause, Head(r), r.onFail.value, Display(error)));
    }
  }

  /** With `R` reactions, a send with `fuel` levels left receives at most `1 + R + ... + R^(fuel - 1)` events. */
  lemma {:induction false} SendWork(env: Env, fuel: nat, m: Machine, signalId: string, event: string,
                                    payload: Option<Json>, parent: Option<Json>)
    ensures Received(Send(env, fuel, m, signalId, event, payload, parent).0.trace)
         <= Received(m.trace) + Geometric(|env.reactions|, fuel)
    decreases fuel, 0, 0
  {
    hide Attempt, Received;
    if fuel > 0 {
      var (m1, attempt) := Attempt(env, m, signalId, event, payload);
      AttemptReceivesOne(env, m, signalId, event, payload);
      if attempt.Success? {
        var matched := Matching(env.reactions, signalId, attempt.value.to);
        var scheduled := Scheduler.Schedule(matched);
        I.MatchingReacts(env.reactions, signalId, attempt.value.to);
        Scheduler.ScheduleLength(matched);
        FireAllWork(env, fuel - 1, m1, scheduled, parent, signalId);
        ProductMonotone(|scheduled|, |env.reactions|, Geometric(|env.reactions|, fuel - 1));
      }
    }
  }

  lemma {:induction false} FireAllWork(env: Env, fuel: nat, m: Machine, rs: seq<ReactionDef>, parent: Option<Json>,
                                       cause: string)
    ensures Received(FireAll(env, fuel, m, rs, parent, cause).0.trace)
         <= Received(m.trace) + |rs| * Geometric(|env.reactions|, fuel)
    decreases fuel, 2, |rs|
  {
    hide Received, Geometric;
    if rs != [] {
      var m1 := Fire(env, fuel, m, rs[0], parent, cause).0;
      var work := Geometric(|env.reactions|, fuel);
      FireWork(env, fuel, m, rs[0], parent, cause);
      FireAllWork(env, fuel, m1, rs[1..], parent, cause);
      assert |rs| * work == work + |rs[1..]| * work;
    }
  }

  lemma {:induction false} FireWork(env: Env, fuel: nat, m: Machine, r: ReactionDef, parent: Option<Json>,
                                    cause: string)
    ensures Received(Fire(env, fuel, m, r, parent, cause).0.trace) <= Received(m.trace)
            + Geometric(|env.reactions|, fuel)
    decreases fuel, 1, 0
  {
    hide Received, Geometric, Gate, Compensate;
    var (m1, open) := Gate(env, m, r, parent, cause);
    GateAndCompensateReceiveNothing(env, m, r, parent, cause, CascadeDepthExceeded);
    if open {
      var (m2, outcome) := Send(env, fuel, m1, r.toSignal, r.event, r.payload, r.payload);
      SendWork(env, fuel, m1, r.toSignal, r.event, r.payload, r.payload);
      if outcome.Failure? {
        GateAndCompensateReceiveNothing(env, m2, r, parent, cause, outcome.error);
      }
    }
  }

  lemma ProductMonotone(a: nat, b: nat, c: nat)
    requires a <= b
    ensures a * c <= b * c
  {}
}
