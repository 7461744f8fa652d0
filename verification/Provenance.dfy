/**
 Where everything in a run comes from. Each record and each call of a session is traced back
 to what caused it: a change of state to an event that selects a transition whose guard is true
 of that event's payload, an event to an input or to a reaction with its own payload, the
 outcome of a reaction's guard to the payload of the event that moved the reaction's cause.
 */
module Provenance {
  import opened Wrappers
  import opened Schema
  import opened Errors
  import opened Semantics
  import opened Attempts
  import I = Invariants
  import Scheduler

  // ---- Causes --------------------------------------------------------------------------

  /** The event under way: the last one received. */
  function Pending(past: seq<TraceEvent>): Option<TraceEvent> {
    if past == [] then None
    else if past[|past| - 1].EventReceived? then Some(past[|past| - 1])
    else Pending(past[..|past| - 1])
  }

  /** The event under way is for `id` and selects `t` in state `from`, and the guard of `t` is true of its payload. */
  ghost predicate Moves(env: Env, past: seq<TraceEvent>, id: string, from: string, t: TransitionDef) {
    exists event, payload ::
      && Pending(past) == Some(EventReceived(id, event, payload))
      && Find(env.transitions, id, event, from) == Some(t) && MayRun(env, t, payload)
  }

  /** Signal `cause` has entered `state` for an event with payload `p`. */
  ghost predicate Entered(past: seq<TraceEvent>, cause: string, state: string, p: Option<Json>) {
    exists j, from, event ::
      0 <= j < |past| && past[j] == StateChanged(cause, from, state)
      && Pending(past[..j]) == Some(EventReceived(cause, event, p))
  }

  /** `r` is a declared reaction to a state that its cause has entered for an event with payload `p`. */
  ghost predicate Triggered(env: Env, past: seq<TraceEvent>, r: ReactionDef, p: Option<Json>) {
    r in env.reactions
    && exists state :: Entered(past, r.fromSignal, state, p) && (r.fromState == state || r.fromState == WILDCARD)
  }

  /** The guard of `r`, if any, is true of `p`, and this is the last record. */
  predicate Opened(env: Env, past: seq<TraceEvent>, r: ReactionDef, p: Option<Json>) {
    r.guard.Some? ==>
      && env.guards(r.guard.value, p) == Success(true)
      && past != [] && past[|past| - 1] == ReactionGuardEvaluated(r.fromSignal, Head(r), r.guard.value, Success(true))
  }

  /** What record `e` after `past` comes from. */
  ghost predicate Accounted(env: Env, past: seq<TraceEvent>, e: TraceEvent) {
    match e
    case EventReceived(id, event, payload) =>
      exists r, p :: Triggered(env, past, r, p) && Opened(env, past, r, p)
                     && r.toSignal == id && r.event == event && r.payload == payload
    case StateChanged(id, from, to) => exists t :: Moves(env, past, id, from, t) && t.to == to
    case Rollbacked(id, to, from) => exists t :: Moves(env, past, id, from, t) && t.to == to
    case ActionStarted(id, a) =>
      || (exists t, from :: Moves(env, past, id, from, t) && a in InOrder(t.actions))
      || (exists r, p :: Triggered(env, past, r, p) && r.toSignal == id && r.onFail == Some(a))
    case ReactionGuardEvaluated(cause, head, g, outcome) =>
      exists r, p :: Triggered(env, past, r, p) && r.fromSignal == cause && Head(r) == head && r.guard == Some(g)
                     && outcome == env.guards(g, p)
    case ReactionCompensated(cause, head, a, _) =>
      exists r, p :: Triggered(env, past, r, p) && r.fromSignal == cause && Head(r) == head && r.onFail == Some(a)
    case _ => true
  }

  /** An action is started for the event under way, which is the one in the call's context. */
  ghost predicate StartedFor(trace: seq<TraceEvent>, c: ActionCall) {
    exists k :: 0 <= k < |trace| && trace[k] == ActionStarted(c.ctx.signalId, c.actionId)
                && Pending(trace[..k]) == Some(EventReceived(c.ctx.signalId, c.ctx.event, c.ctx.payload))
  }

  /** What call `c` comes from. */
  ghost predicate CallAccounted(env: Env, trace: seq<TraceEvent>, c: ActionCall) {
    var ctx := c.ctx;
    match ctx.failure
    case None =>
      StartedFor(trace, c)
      && exists t :: Find(env.transitions, ctx.signalId, ctx.event, ctx.fromState) == Some(t) && t.to == ctx.toState
                     && c.actionId in InOrder(t.actions) && MayRun(env, t, ctx.payload)
    case Some(text) =>
      exists r :: Triggered(env, trace, r, ctx.payload) && r.onFail == Some(c.actionId) && ctx.signalId == r.toSignal
                  && ctx.fromState == r.fromState && ctx.event == r.event && text.Display?
  }

  // ---- Growth --------------------------------------------------------------------------

  /** All that has been added from `m` to `m'` is accounted for. */
  ghost predicate Grows(env: Env, m: Machine, m': Machine) {
    && m.trace <= m'.trace && m.calls <= m'.calls
    && (forall k :: |m.trace| <= k < |m'.trace| ==> Accounted(env, m'.trace[..k], m'.trace[k]))
    && (forall c :: c in m'.calls[|m.calls|..] ==> CallAccounted(env, m'.trace, c))
  }

  lemma GrowsNot(env: Env, m: Machine, m': Machine)
    requires m'.trace == m.trace && m'.calls == m.calls
    ensures Grows(env, m, m')
  {}

  lemma StillEntered(past: seq<TraceEvent>, later: seq<TraceEvent>, cause: string, state: string, p: Option<Json>)
    requires past <= later && Entered(past, cause, state, p)
    ensures Entered(later, cause, state, p)
  {
    var j, from, event :| 0 <= j < |past| && past[j] == StateChanged(cause, from, state)
                          && Pending(past[..j]) == Some(EventReceived(cause, event, p));
    assert later[..j] == past[..j] && later[j] == past[j];
  }

  lemma StillTriggered(env: Env, past: seq<TraceEvent>, later: seq<TraceEvent>, r: ReactionDef, p: Option<Json>)
    requires past <= later && Triggered(env, past, r, p)
    ensures Triggered(env, later, r, p)
  {
    var state :| Entered(past, r.fromSignal, state, p) && (r.fromState == state || r.fromState == WILDCARD);
    StillEntered(past, later, r.fromSignal, state, p);
  }

  lemma StillAccounted(env: Env, trace: seq<TraceEvent>, later: seq<TraceEvent>, c: ActionCall)
    requires trace <= later && CallAccounted(env, trace, c)
    ensures CallAccounted(env, later, c)
  {
    hide Triggered;
    match c.ctx.failure
    case None =>
      var k :| 0 <= k < |trace| && trace[k] == ActionStarted(c.ctx.signalId, c.actionId)
               && Pending(trace[..k]) == Some(EventReceived(c.ctx.signalId, c.ctx.event, c.ctx.payload));
      assert later[..k] == trace[..k] && later[k] == trace[k];
    case Some(text) =>
      var r :| Triggered(env, trace, r, c.ctx.payload) && r.onFail == Some(c.actionId) && c.ctx.signalId == r.toSignal
               && c.ctx.fromState == r.fromState && c.ctx.event == r.event;
      StillTriggered(env, trace, later, r, c.ctx.payload);
  }

  lemma GrowsOn(env: Env, m: Machine, m1: Machine, m2: Machine)
    requires Grows(env, m, m1) && Grows(env, m1, m2)
    ensures Grows(env, m, m2)
  {
    hide Accounted, CallAccounted;
    forall k | |m.trace| <= k < |m2.trace| ensures Accounted(env, m2.trace[..k], m2.trace[k]) {
      if k < |m1.trace| {
        assert m2.trace[..k] == m1.trace[..k] && m2.trace[k] == m1.trace[k];
      }
    }
    forall c | c in m2.calls[|m.calls|..] ensures CallAccounted(env, m2.trace, c) {
      if c in m1.calls[|m.calls|..] {
        StillAccounted(env, m1.trace, m2.trace, c);
      } else {
        NewCall(m.calls, m1.calls, m2.calls, c);
      }
    }
  }

  lemma NewCall(a: seq<ActionCall>, b: seq<ActionCall>, c: seq<ActionCall>, x: ActionCall)
    requires a <= b <= c && x in c[|a|..] && x !in b[|a|..]
    ensures x in c[|b|..]
  {
    assert c[|a|..] == b[|a|..] + c[|b|..];
  }

  /** One record more. */
  lemma GrowsBy(env: Env, m: Machine, m': Machine, e: TraceEvent)
    requires m'.trace == m.trace + [e] && m'.calls == m.calls && Accounted(env, m.trace, e)
    ensures Grows(env, m, m')
  {
    hide Accounted;
    assert m'.trace[..|m.trace|] == m.trace && m'.calls[|m.calls|..] == [];
  }

  // ---- The event itself ----------------------------------------------------------------

  /** While `t` runs for the event under way. */
  ghost predicate Running(env: Env, trace: seq<TraceEvent>, t: TransitionDef, ctx: ActionContext) {
    && ctx.failure == None && ctx.toState == t.to
    && Pending(trace) == Some(EventReceived(ctx.signalId, ctx.event, ctx.payload))
    && Find(env.transitions, ctx.signalId, ctx.event, ctx.fromState) == Some(t) && MayRun(env, t, ctx.payload)
  }

  lemma PendingPast(trace: seq<TraceEvent>, e: TraceEvent)
    requires !e.EventReceived?
    ensures Pending(trace + [e]) == Pending(trace)
  {
    assert (trace + [e])[..|trace|] == trace;
  }

  lemma ActionGrows(env: Env, m: Machine, t: TransitionDef, a: string, ctx: ActionContext)
    requires Running(env, m.trace, t, ctx) && a in InOrder(t.actions)
    ensures var m' := RunAction(env, m, ctx.signalId, a, ctx).0; Grows(env, m, m') && Running(env, m'.trace, t, ctx)
  {
    var started := ActionStarted(ctx.signalId, a);
    var m1, m' := m.Push(started), RunAction(env, m, ctx.signalId, a, ctx).0;
    assert Moves(env, m.trace, ctx.signalId, ctx.fromState, t);
    GrowsBy(env, m, m1, started);
    PendingPast(m.trace, started);
    if a in env.actions {
      var last := m'.trace[|m1.trace|];
      assert m'.trace == m1.trace + [last] && m'.trace[..|m1.trace|] == m1.trace;
      PendingPast(m1.trace, last);
      assert m'.calls[|m1.calls|..] == [ActionCall(a, ctx)];
      assert m'.trace[..|m.trace|] == m.trace && m'.trace[|m.trace|] == started;
      assert CallAccounted(env, m'.trace, ActionCall(a, ctx));
      hide CallAccounted, Running;
      assert Grows(env, m1, m');
      GrowsOn(env, m, m1, m');
    }
  }

  lemma {:induction false} ActionsGrow(env: Env, m: Machine, t: TransitionDef, ids: seq<string>, ctx: ActionContext)
    requires Running(env, m.trace, t, ctx) && forall a :: a in ids ==> a in InOrder(t.actions)
    ensures var m' := RunActions(env, m, ids, ctx).machine; Grows(env, m, m') && Running(env, m'.trace, t, ctx)
    decreases |ids|
  {
    hide Running, Grows;
    if ids == [] {
      GrowsNot(env, m, m);
    } else {
      var (m1, error) := RunAction(env, m, ctx.signalId, ids[0], ctx);
      ActionGrows(env, m, t, ids[0], ctx);
      if error.None? {
        ActionsGrow(env, m1, t, ids[1..], ctx);
        GrowsOn(env, m, m1, RunActions(env, m1, ids[1..], ctx).machine);
      }
    }
  }

  lemma ChangeGrows(env: Env, m: Machine, m': Machine, t: TransitionDef, ctx: ActionContext, e: TraceEvent)
    requires Running(env, m.trace, t, ctx) && m'.trace == m.trace + [e] && m'.calls == m.calls
    requires e == StateChanged(ctx.signalId, ctx.fromState, t.to) || e == Rollbacked(ctx.signalId, t.to, ctx.fromState)
    ensures Grows(env, m, m')
    ensures e.StateChanged? ==> Entered(m'.trace, ctx.signalId, t.to, ctx.payload)
  {
    assert Moves(env, m.trace, ctx.signalId, ctx.fromState, t);
    GrowsBy(env, m, m', e);
    assert m'.trace[..|m.trace|] == m.trace && m'.trace[|m.trace|] == e;
  }

  lemma TransitGrows(env: Env, m: Machine, t: TransitionDef, ctx: ActionContext)
    requires ctx.signalId in m.signals && ctx.fromState == m.Current(ctx.signalId) && Running(env, m.trace, t, ctx)
    ensures var (m', outcome) := Transit(env, m, t.actions, ctx);
            Grows(env, m, m')
            && (outcome.Success? ==> outcome.value.to == t.to && Entered(m'.trace, ctx.signalId, t.to, ctx.payload))
  {
    assert ctx.toState == t.to;
    hide Running, Grows, Entered, RunActions, Transit;
    var body := t.actions.onTransition + t.actions.onEnter;
    I.TransitOutcome(env, m, t.actions, ctx);
    var leave := RunActions(env, m, t.actions.onExit, ctx).machine;
    ActionsGrow(env, m, t, t.actions.onExit, ctx);
    var entered := RunActions(env, leave, body, ctx);
    var m' := Transit(env, m, t.actions, ctx).0;
    if RunActions(env, m, t.actions.onExit, ctx).error.None? {
      ActionsGrow(env, leave, t, body, ctx);
      GrowsOn(env, m, leave, entered.machine);
      ChangeGrows(env, entered.machine, m', t, ctx,
                  if entered.error.Some? then Rollbacked(ctx.signalId, t.to, ctx.fromState)
                  else StateChanged(ctx.signalId, ctx.fromState, t.to));
      GrowsOn(env, m, entered.machine, m');
    }
  }

  lemma AttemptGrows(env: Env, m: Machine, id: string, event: string, payload: Option<Json>)
    ensures var (m', outcome) := Attempt(env, m, id, event, payload);
            Grows(env, Receives(m, id, event, payload), m')
            && (outcome.Success? ==> Entered(m'.trace, id, outcome.value.to, payload))
  {
    hide Grows, Entered, Transit, Find, Accounted;
    var m1 := Receives(m, id, event, payload);
    if id in m.signals && Find(env.transitions, id, event, m.signals[id].current).Some? {
      var t := Find(env.transitions, id, event, m.signals[id].current).value;
      var ctx := ActionContext(id, m.signals[id].current, t.to, event, payload, None);
      if MayRun(env, t, payload) {
        assert m1.trace[..|m.trace|] == m.trace && Pending(m1.trace) == Some(EventReceived(id, event, payload));
        assert Running(env, m1.trace, t, ctx);
        hide Running;
        TransitGrows(env, m1, t, ctx);
      } else {
        GuardDecides(env, m, id, event, payload, t, t.guard.value);
        GrowsNot(env, m1, m1);
      }
    } else {
      NothingMatches(env, m, id, event, payload);
      GrowsNot(env, m1, m1);
    }
  }

  // ---- Cascades ------------------------------------------------------------------------

  lemma GateGrows(env: Env, m: Machine, r: ReactionDef, p: Option<Json>)
    requires Triggered(env, m.trace, r, p)
    ensures var m1 := Gated(env, m, r, p);
            Grows(env, m, m1) && Triggered(env, m1.trace, r, p) && (Fires(env, r, p) ==> Opened(env, m1.trace, r, p))
  {
    var m1 := Gated(env, m, r, p);
    if r.guard.Some? {
      GrowsBy(env, m, m1, ReactionGuardEvaluated(r.fromSignal, Head(r), r.guard.value, env.guards(r.guard.value, p)));
    } else {
      GrowsNot(env, m, m1);
    }
    StillTriggered(env, m.trace, m1.trace, r, p);
  }

  lemma CompensationGrows(env: Env, m: Machine, r: ReactionDef, p: Option<Json>, error: EngineError)
    requires Triggered(env, m.trace, r, p)
    ensures Grows(env, m, Compensate(env, m, r, p, r.fromSignal, error))
  {
    hide Triggered;
    if r.onFail.None? {
      GrowsNot(env, m, m);
    } else {
      var a := r.onFail.value;
      var ctx := ActionContext(r.toSignal, r.fromState, m.Current(r.toSignal), r.event, p, Some(Display(error)));
      var m1, m2 := m.Push(ActionStarted(r.toSignal, a)), RunAction(env, m, r.toSignal, a, ctx).0;
      var last := ReactionCompensated(r.fromSignal, Head(r), a, Display(error));
      GrowsBy(env, m, m1, ActionStarted(r.toSignal, a));
      if a in env.actions {
        var e := m2.trace[|m1.trace|];
        assert m2.trace == m1.trace + [e] && m2.trace[..|m1.trace|] == m1.trace;
        assert m2.calls[|m1.calls|..] == [ActionCall(a, ctx)];
        StillTriggered(env, m.trace, m2.trace, r, p);
        assert CallAccounted(env, m2.trace, ActionCall(a, ctx));
        assert Grows(env, m1, m2);
        GrowsOn(env, m, m1, m2);
      }
      StillTriggered(env, m.trace, m2.trace, r, p);
      GrowsBy(env, m2, m2.Push(last), last);
      GrowsOn(env, m, m2, m2.Push(last));
    }
  }

  /** Whatever a send adds after the event it receives is accounted for. */
  lemma {:induction false} SendGrows(env: Env, fuel: nat, m: Machine, id: string, event: string, payload: Option<Json>)
    ensures var m' := Send(env, fuel, m, id, event, payload, payload).0;
            if fuel == 0 then m' == m else Grows(env, Receives(m, id, event, payload), m')
    decreases fuel, 0, 0
  {
    hide Grows, Attempt, Entered, Matching, Scheduler.Schedule;
    if fuel > 0 {
      var (m1, attempt) := Attempt(env, m, id, event, payload);
      AttemptGrows(env, m, id, event, payload);
      if attempt.Success? {
        var rs := Scheduler.Schedule(Matching(env.reactions, id, attempt.value.to));
        ScheduledAreTriggered(env, m1, id, attempt.value.to, payload);
        FireAllGrows(env, fuel - 1, m1, rs, payload, id);
        GrowsOn(env, Receives(m, id, event, payload), m1, FireAll(env, fuel - 1, m1, rs, payload, id).0);
      }
    }
  }

  lemma ScheduledAreTriggered(env: Env, m: Machine, id: string, state: string, p: Option<Json>)
    requires Entered(m.trace, id, state, p)
    ensures forall r :: r in Scheduler.Schedule(Matching(env.reactions, id, state)) ==>
              Triggered(env, m.trace, r, p) && r.fromSignal == id
  {
    hide Entered;
    var matched := Matching(env.reactions, id, state);
    var last := Scheduler.ScheduleEnd(matched);
    Scheduler.FiredAreMatched(matched, Scheduler.Schedule(matched), last);
    I.MatchingReacts(env.reactions, id, state);
  }

  lemma {:induction false} FireAllGrows(env: Env, fuel: nat, m: Machine, rs: seq<ReactionDef>, p: Option<Json>,
                                        cause: string)
    requires forall r :: r in rs ==> Triggered(env, m.trace, r, p) && r.fromSignal == cause
    ensures Grows(env, m, FireAll(env, fuel, m, rs, p, cause).0)
    decreases fuel, 2, |rs|
  {
    hide Triggered, Accounted, CallAccounted, Fire;
    if rs == [] {
      GrowsNot(env, m, m);
    } else {
      var (m1, error) := Fire(env, fuel, m, rs[0], p, cause);
      FireGrows(env, fuel, m, rs[0], p);
      if error.None? {
        forall r | r in rs[1..] ensures Triggered(env, m1.trace, r, p) {
          StillTriggered(env, m.trace, m1.trace, r, p);
        }
        FireAllGrows(env, fuel, m1, rs[1..], p, cause);
        GrowsOn(env, m, m1, FireAll(env, fuel, m1, rs[1..], p, cause).0);
      }
    }
  }

  lemma {:induction false} FireGrows(env: Env, fuel: nat, m: Machine, r: ReactionDef, p: Option<Json>)
    requires Triggered(env, m.trace, r, p)
    ensures Grows(env, m, Fire(env, fuel, m, r, p, r.fromSignal).0)
    decreases fuel, 1, 0
  {
    hide Grows, Triggered, Opened, Compensate, Send;
    var gated := Gated(env, m, r, p);
    GateGrows(env, m, r, p);
    assert Gate(env, m, r, p, r.fromSignal) == (gated, Fires(env, r, p));
    if Fires(env, r, p) {
      var (m2, outcome) := Send(env, fuel, gated, r.toSignal, r.event, r.payload, r.payload);
      SendGrows(env, fuel, gated, r.toSignal, r.event, r.payload);
      if fuel == 0 {
        GrowsNot(env, gated, m2);
      } else {
        var m1 := Receives(gated, r.toSignal, r.event, r.payload);
        GrowsBy(env, gated, m1, EventReceived(r.toSignal, r.event, r.payload));
        GrowsOn(env, gated, m1, m2);
      }
      GrowsOn(env, m, gated, m2);
      if outcome.Failure? {
        TriggeredLater(env, m, m2, r, p);
        CompensationGrows(env, m2, r, p, outcome.error);
        GrowsOn(env, m, m2, Compensate(env, m2, r, p, r.fromSignal, outcome.error));
      }
    }
  }

  lemma TriggeredLater(env: Env, m: Machine, m': Machine, r: ReactionDef, p: Option<Json>)
    requires Grows(env, m, m') && Triggered(env, m.trace, r, p)
    ensures Triggered(env, m'.trace, r, p)
  {
    StillTriggered(env, m.trace, m'.trace, r, p);
  }

  // ---- Main results --------------------------------------------------------------------

  /** An event of a caller is recorded with its own payload, and everything after it is accounted for. */
  lemma DeliverAccounted(env: Env, limit: nat, m: Machine, i: Input)
    ensures Grows(env, Receives(m, i.signalId, i.event, i.payload), Deliver(env, limit, m, i).0)
  {
    SendGrows(env, limit + 1, m, i.signalId, i.event, i.payload);
  }

  /** In a session, a record is an input's or accounted for; so is every call. */
  ghost predicate SessionAccounted(env: Env, m: Machine, inputs: seq<Input>, m': Machine) {
    && m.trace <= m'.trace && m.calls <= m'.calls
    && (forall k :: |m.trace| <= k < |m'.trace| ==>
          Accounted(env, m'.trace[..k], m'.trace[k])
          || exists i :: i in inputs && m'.trace[k] == EventReceived(i.signalId, i.event, i.payload))
    && (forall c :: c in m'.calls[|m.calls|..] ==> CallAccounted(env, m'.trace, c))
  }

  /**
   The main result: in every session, with any callbacks, guards and limit, everything that is
   recorded and called comes from where it should.
   */
  lemma {:induction false} SessionIsAccounted(env: Env, limit: nat, m: Machine, inputs: seq<Input>)
    ensures SessionAccounted(env, m, inputs, Session(env, limit, m, inputs).0)
    decreases |inputs|
  {
    hide Deliver, Accounted, CallAccounted;
    if inputs != [] {
      var i := inputs[0];
      var m1 := Deliver(env, limit, m, i).0;
      DeliverAccounted(env, limit, m, i);
      SessionIsAccounted(env, limit, m1, inputs[1..]);
      SessionsJoin(env, m, i, m1, inputs, Session(env, limit, m1, inputs[1..]).0);
    }
  }

  lemma SessionsJoin(env: Env, m: Machine, i: Input, m1: Machine, inputs: seq<Input>, m2: Machine)
    requires inputs != [] && inputs[0] == i
    requires Grows(env, Receives(m, i.signalId, i.event, i.payload), m1)
    requires SessionAccounted(env, m1, inputs[1..], m2)
    ensures SessionAccounted(env, m, inputs, m2)
  {
    hide Accounted, CallAccounted;
    forall k | |m.trace| <= k < |m2.trace|
      ensures Accounted(env, m2.trace[..k], m2.trace[k])
              || exists i :: i in inputs && m2.trace[k] == EventReceived(i.signalId, i.event, i.payload)
    {
      if k == |m.trace| {
        assert m2.trace[k] == m1.trace[k] == EventReceived(i.signalId, i.event, i.payload) && i in inputs;
      } else if k < |m1.trace| {
        assert m2.trace[..k] == m1.trace[..k] && m2.trace[k] == m1.trace[k];
      }
    }
    forall c | c in m2.calls[|m.calls|..] ensures CallAccounted(env, m2.trace, c) {
      if c in m1.calls[|m.calls|..] {
        StillAccounted(env, m1.trace, m2.trace, c);
      } else {
        NewCall(m.calls, m1.calls, m2.calls, c);
      }
    }
  }
}
