/**
 What one event does before any reaction: which transition it takes, whether the guard lets
 it, which actions run in which order and with what, and what is left behind. All of it is
 said of the callbacks, the guards and the lists of the transition themselves.
 */
module Attempts {
  import opened Wrappers
  import opened Schema
  import opened Errors
  import opened Semantics
  import I = Invariants
  import Scheduler

  // ---- Running a list of actions -------------------------------------------------------

  /** The calls of the actions `ids`, one after the other, each with the same context. */
  function CallsOf(ids: seq<string>, ctx: ActionContext): (calls: seq<ActionCall>)
    ensures |calls| == |ids| && forall k :: 0 <= k < |ids| ==> calls[k] == ActionCall(ids[k], ctx)
  {
    seq(|ids|, k requires 0 <= k < |ids| => ActionCall(ids[k], ctx))
  }

  /** What actions that succeed leave in the trace. */
  function Records(id: string, ids: seq<string>): seq<TraceEvent> {
    if ids == [] then [] else [ActionStarted(id, ids[0]), ActionSucceeded(id, ids[0])] + Records(id, ids[1..])
  }

  /** Action `a` is registered, and succeeds after the calls `past`. */
  predicate Succeeds(env: Env, past: seq<ActionCall>, a: string, ctx: ActionContext) {
    a in env.actions && env.actions[a](past, ctx).None?
  }

  /** The first `n` of `ids` succeed, each after those before it. */
  ghost predicate Succeeding(env: Env, past: seq<ActionCall>, ids: seq<string>, ctx: ActionContext, n: nat)
    requires n <= |ids|
  {
    forall k :: 0 <= k < n ==> Succeeds(env, past + CallsOf(ids[..k], ctx), ids[k], ctx)
  }

  /** `m` after the actions `ids` have succeeded. */
  function AfterActions(m: Machine, ids: seq<string>, ctx: ActionContext): Machine {
    m.(trace := m.trace + Records(ctx.signalId, ids), calls := m.calls + CallsOf(ids, ctx))
  }

  /** The text of a callback's error: its own, if it is the error of an action. */
  predicate TextOf(e: EngineError, text: Message) {
    if e.ActionExecutionError? then text == e.message else text == Display(e)
  }

  /** `m` after action `a` has been started and has not succeeded, with the error that is reported for it. */
  ghost predicate StopsAt(env: Env, m: Machine, a: string, ctx: ActionContext, m': Machine, error: EngineError) {
    var started := m.(trace := m.trace + [ActionStarted(ctx.signalId, a)]);
    if a !in env.actions then m' == started && error == ActionNotFound(a)
    else
      && env.actions[a](m.calls, ctx).Some? && error.ActionExecutionError?
      && TextOf(env.actions[a](m.calls, ctx).value, error.message)
      && m' == started.(trace := started.trace + [ActionFailed(ctx.signalId, a, error.message)],
                        calls := m.calls + [ActionCall(a, ctx)])
  }

  lemma OneAction(env: Env, m: Machine, a: string, ctx: ActionContext)
    ensures var (m', error) := RunAction(env, m, ctx.signalId, a, ctx);
            if Succeeds(env, m.calls, a, ctx) then error == None && m' == AfterActions(m, [a], ctx)
            else error.Some? && StopsAt(env, m, a, ctx, m', error.value)
  {
    var (m', _) := RunAction(env, m, ctx.signalId, a, ctx);
    assert Records(ctx.signalId, [a]) == [ActionStarted(ctx.signalId, a), ActionSucceeded(ctx.signalId, a)];
    assert CallsOf([a], ctx) == [ActionCall(a, ctx)];
    if a in env.actions {
      var started := ActionStarted(ctx.signalId, a);
      var last := m'.trace[|m.trace| + 1];
      assert m.trace + [started] + [last] == m.trace + [started, last];
    }
  }

  lemma AfterMore(m: Machine, a: string, ids: seq<string>, ctx: ActionContext)
    ensures AfterActions(AfterActions(m, [a], ctx), ids, ctx) == AfterActions(m, [a] + ids, ctx)
  {
    var id := ctx.signalId;
    assert ([a] + ids)[1..] == ids && [a][1..] == [];
    assert Records(id, [a]) == [ActionStarted(id, a), ActionSucceeded(id, a)];
    assert Records(id, [a] + ids) == Records(id, [a]) + Records(id, ids);
    CallsConcat([a], ids, ctx);
    hide Records, CallsOf;
    Regrouped(m.trace, Records(id, [a]), Records(id, ids));
    Regrouped(m.calls, CallsOf([a], ctx), CallsOf(ids, ctx));
  }

  /** Actions run in order up to the first that does not succeed; those that did are listed as executed. */
  lemma {:induction false} ActionsRun(env: Env, m: Machine, ids: seq<string>, ctx: ActionContext) returns (n: nat)
    ensures n <= |ids| && Succeeding(env, m.calls, ids, ctx, n)
    ensures var p := RunActions(env, m, ids, ctx);
            && p.executed == ids[..n]
            && (n == |ids| <==> p.error.None?)
            && (n == |ids| ==> p.machine == AfterActions(m, ids, ctx))
            && (n < |ids| ==> StopsAt(env, AfterActions(m, ids[..n], ctx), ids[n], ctx, p.machine, p.error.value))
    decreases |ids|
  {
    hide StopsAt, Succeeds, RunAction;
    if ids == [] {
      n := 0;
      assert AfterActions(m, [], ctx) == m;
    } else {
      OneAction(env, m, ids[0], ctx);
      var (m1, error) := RunAction(env, m, ctx.signalId, ids[0], ctx);
      assert m.calls + CallsOf(ids[..0], ctx) == m.calls;
      if error.Some? {
        n := 0;
        assert AfterActions(m, ids[..0], ctx) == m;
      } else {
        var n1 := ActionsRun(env, m1, ids[1..], ctx);
        n := n1 + 1;
        assert ids[..n] == [ids[0]] + ids[1..][..n1] && ids == [ids[0]] + ids[1..];
        AfterMore(m, ids[0], ids[1..], ctx);
        AfterMore(m, ids[0], ids[1..][..n1], ctx);
        assert m1.calls == m.calls + [ActionCall(ids[0], ctx)];
        SucceedingMore(env, m.calls, ids, ctx, n1);
      }
    }
  }

  lemma CallsShift(past: seq<ActionCall>, ids: seq<string>, ctx: ActionContext, k: nat)
    requires 0 < k <= |ids|
    ensures past + CallsOf(ids[..k], ctx) == past + [ActionCall(ids[0], ctx)] + CallsOf(ids[1..][..k - 1], ctx)
  {
    assert ids[..k] == [ids[0]] + ids[1..][..k - 1];
  }

  lemma SucceedingMore(env: Env, past: seq<ActionCall>, ids: seq<string>, ctx: ActionContext, n: nat)
    requires n < |ids| && Succeeds(env, past, ids[0], ctx)
    requires Succeeding(env, past + [ActionCall(ids[0], ctx)], ids[1..], ctx, n)
    ensures Succeeding(env, past, ids, ctx, n + 1)
  {
    hide Succeeds, CallsOf;
    forall k | 0 <= k < n + 1 ensures Succeeds(env, past + CallsOf(ids[..k], ctx), ids[k], ctx) {
      if k == 0 {
        assert CallsOf(ids[..0], ctx) == [] && past + [] == past;
      } else {
        CallsShift(past, ids, ctx, k);
        assert Succeeds(env, past + [ActionCall(ids[0], ctx)] + CallsOf(ids[1..][..k - 1], ctx), ids[1..][k - 1], ctx);
      }
    }
  }

  // ---- The guard -----------------------------------------------------------------------

  /** `t` has no guard, or one that is true of the payload. */
  predicate MayRun(env: Env, t: TransitionDef, payload: Option<Json>) {
    t.guard.None? || env.guards(t.guard.value, payload) == Success(true)
  }

  /** `m` after an event has been received, and nothing else. */
  function Receives(m: Machine, id: string, event: string, payload: Option<Json>): Machine {
    m.(trace := m.trace + [EventReceived(id, event, payload)])
  }

  lemma ActionErrors(env: Env, m: Machine, ids: seq<string>, ctx: ActionContext)
    ensures var error := RunActions(env, m, ids, ctx).error;
            error.Some? ==> error.value.ActionNotFound? || error.value.ActionExecutionError?
  {
    var n := ActionsRun(env, m, ids, ctx);
  }

  /**
   The guard decides. On a payload of which it is false the event is blocked, and where it
   cannot be evaluated the event fails, in both cases exactly so, and nothing has happened
   but that the event was received.
   */
  lemma GuardDecides(env: Env, m: Machine, id: string, event: string, payload: Option<Json>, t: TransitionDef,
                     g: string)
    requires id in m.signals && Find(env.transitions, id, event, m.signals[id].current) == Some(t) && t.guard == Some(g)
    ensures var (m', outcome) := Attempt(env, m, id, event, payload);
            && (env.guards(g, payload) == Success(false) <==> outcome == Failure(GuardBlocked(id, event, g)))
            && (forall text :: env.guards(g, payload) == Failure(text)
                  <==> outcome == Failure(GuardEvaluationError(text)))
            && (env.guards(g, payload) != Success(true) ==> m' == Receives(m, id, event, payload))
  {
    hide RunActions, Find;
    var current := m.signals[id].current;
    var ctx := ActionContext(id, current, t.to, event, payload, None);
    var m1 := m.Push(EventReceived(id, event, payload));
    ActionErrors(env, m1, t.actions.onExit, ctx);
    var moved := RunActions(env, m1, t.actions.onExit, ctx).machine.Move(id, t.to);
    ActionErrors(env, moved, t.actions.onTransition + t.actions.onEnter, ctx);
  }

  /** So for a whole event: a guard that is not true of the payload keeps it from changing anything. */
  lemma GuardStops(env: Env, limit: nat, m: Machine, i: Input, t: TransitionDef)
    requires i.signalId in m.signals
    requires Find(env.transitions, i.signalId, i.event, m.signals[i.signalId].current) == Some(t)
    requires !MayRun(env, t, i.payload)
    ensures var (m', outcome) := Deliver(env, limit, m, i);
            && m' == Receives(m, i.signalId, i.event, i.payload)
            && outcome == Failure(match env.guards(t.guard.value, i.payload)
                                  case Success(_) => GuardBlocked(i.signalId, i.event, t.guard.value)
                                  case Failure(text) => GuardEvaluationError(text))
  {
    GuardDecides(env, m, i.signalId, i.event, i.payload, t, t.guard.value);
    hide Attempt;
  }

  /** An event to an unknown signal, or one that no transition matches, does nothing either. */
  lemma NothingMatches(env: Env, m: Machine, id: string, event: string, payload: Option<Json>)
    requires id in m.signals ==> Find(env.transitions, id, event, m.signals[id].current).None?
    ensures Attempt(env, m, id, event, payload)
         == (Receives(m, id, event, payload),
             Failure(if id in m.signals then TransitionNotFound(id, event) else SignalNotFound(id)))
  {}

  // ---- The phases ----------------------------------------------------------------------

  /** All actions of a transition, in the order in which they run. */
  function InOrder(a: ActionBinding): seq<string> {
    a.onExit + (a.onTransition + a.onEnter)
  }

  /** The machine with signal `id` in state `s`. */
  function WithState(m: Machine, id: string, s: string): Machine
    requires id in m.signals
  {
    m.(signals := m.signals[id := m.signals[id].(current := s)])
  }

  /** How an event ends whose transition ran all its actions: in the new state, with the change recorded. */
  ghost predicate Commits(m: Machine, t: TransitionDef, ctx: ActionContext, m': Machine, outcome: Outcome)
    requires ctx.signalId in m.signals
  {
    var done := AfterActions(m, InOrder(t.actions), ctx);
    && m' == WithState(done.(trace := done.trace + [StateChanged(ctx.signalId, ctx.fromState, ctx.toState)]),
                       ctx.signalId, ctx.toState)
    && outcome == Success(TransitionResult(ctx.signalId, ctx.fromState, ctx.toState, InOrder(t.actions)))
  }

  /**
   How it ends whose `n`-th action did not succeed: in the old state, with that action's error,
   and with a rollback recorded exactly if the state had been left.
   */
  ghost predicate Aborts(env: Env, m: Machine, t: TransitionDef, ctx: ActionContext, n: nat, m': Machine,
                         outcome: Outcome) {
    var ids := InOrder(t.actions);
    && n < |ids| && outcome.Failure?
    && exists stopped ::
         && StopsAt(env, AfterActions(m, ids[..n], ctx), ids[n], ctx, stopped, outcome.error)
         && m' == if n < |t.actions.onExit| then stopped
                  else stopped.(trace := stopped.trace + [Rollbacked(ctx.signalId, ctx.toState, ctx.fromState)])
  }

  /**
   The main result. An event whose transition may run runs its `on_exit`, `on_transition` and
   `on_enter` actions in this order, each with the signal, the states, the event and the
   event's own payload. If all succeed, in the states of the callbacks in which they are called,
   the transition is committed; else it is not, and what is reported is the first that does not.
   */
  lemma PhasesInOrder(env: Env, m: Machine, id: string, event: string, payload: Option<Json>, t: TransitionDef)
    returns (n: nat)
    requires id in m.signals && Find(env.transitions, id, event, m.signals[id].current) == Some(t)
    requires MayRun(env, t, payload)
    ensures var (m', outcome) := Attempt(env, m, id, event, payload);
            var ctx := ActionContext(id, m.signals[id].current, t.to, event, payload, None);
            var ids := InOrder(t.actions);
            && n <= |ids| && Succeeding(env, m.calls, ids, ctx, n)
            && (n == |ids| ==> Commits(Receives(m, id, event, payload), t, ctx, m', outcome))
            && (n < |ids| ==> Aborts(env, Receives(m, id, event, payload), t, ctx, n, m', outcome))
  {
    var ctx := ActionContext(id, m.signals[id].current, t.to, event, payload, None);
    var m1 := Receives(m, id, event, payload);
    hide Transit, Find;
    assert Attempt(env, m, id, event, payload) == Transit(env, m1, t.actions, ctx);
    n := TransitRuns(env, m1, t, ctx);
  }

  lemma TransitRuns(env: Env, m: Machine, t: TransitionDef, ctx: ActionContext) returns (n: nat)
    requires ctx.signalId in m.signals && ctx.fromState == m.Current(ctx.signalId) && ctx.toState == t.to
    ensures var (m', outcome) := Transit(env, m, t.actions, ctx);
            var ids := InOrder(t.actions);
            && n <= |ids| && Succeeding(env, m.calls, ids, ctx, n)
            && (n == |ids| ==> Commits(m, t, ctx, m', outcome))
            && (n < |ids| ==> Aborts(env, m, t, ctx, n, m', outcome))
  {
    hide RunActions, StopsAt, Succeeding, Transit;
    var exit, rest, ids := t.actions.onExit, t.actions.onTransition + t.actions.onEnter, InOrder(t.actions);
    I.TransitOutcome(env, m, t.actions, ctx);
    var n0 := ActionsRun(env, m, exit, ctx);
    if n0 < |exit| {
      n := n0;
      SucceedingConcat(env, m.calls, exit, rest, ctx, n0, 0);
      assert ids[..n] == exit[..n] && ids[n] == exit[n];
    } else {
      var left := AfterActions(m, exit, ctx);
      var n1 := ActionsRun(env, left, rest, ctx);
      n := |exit| + n1;
      assert ids[..n] == exit + rest[..n1];
      AfterBoth(m, exit, rest[..n1], ctx);
      SucceedingConcat(env, m.calls, exit, rest, ctx, |exit|, n1);
      if n1 < |rest| {
        assert ids[n] == rest[n1];
      } else {
        assert rest[..n1] == rest && exit[..n0] == exit;
        var enter := RunActions(env, left, rest, ctx);
        assert enter.machine == AfterActions(m, ids, ctx);
        assert enter.machine.Move(ctx.signalId, ctx.toState) == WithState(enter.machine, ctx.signalId, ctx.toState);
      }
    }
  }

  lemma {:induction false} RecordsConcat(id: string, a: seq<string>, b: seq<string>)
    ensures Records(id, a + b) == Records(id, a) + Records(id, b)
  {
    if a == [] {
      assert a + b == b;
    } else {
      assert (a + b)[1..] == a[1..] + b;
      RecordsConcat(id, a[1..], b);
    }
  }

  lemma AfterBoth(m: Machine, a: seq<string>, b: seq<string>, ctx: ActionContext)
    ensures AfterActions(AfterActions(m, a, ctx), b, ctx) == AfterActions(m, a + b, ctx)
  {
    RecordsConcat(ctx.signalId, a, b);
    CallsConcat(a, b, ctx);
    hide Records, CallsOf;
    Regrouped(m.trace, Records(ctx.signalId, a), Records(ctx.signalId, b));
    Regrouped(m.calls, CallsOf(a, ctx), CallsOf(b, ctx));
  }

  lemma CallsConcat(a: seq<string>, b: seq<string>, ctx: ActionContext)
    ensures CallsOf(a + b, ctx) == CallsOf(a, ctx) + CallsOf(b, ctx)
  {}

  lemma Regrouped<T>(a: seq<T>, b: seq<T>, c: seq<T>)
    ensures a + b + c == a + (b + c)
  {}

  lemma SucceedingConcat(env: Env, past: seq<ActionCall>, a: seq<string>, b: seq<string>, ctx: ActionContext, n: nat,
                         k: nat)
    requires n <= |a| && Succeeding(env, past, a, ctx, n)
    requires k > 0 ==> n == |a| && k <= |b| && Succeeding(env, past + CallsOf(a, ctx), b, ctx, k)
    ensures Succeeding(env, past, a + b, ctx, n + k)
  {
    hide Succeeds;
    forall j | 0 <= j < n + k ensures Succeeds(env, past + CallsOf((a + b)[..j], ctx), (a + b)[j], ctx) {
      if j < n {
        assert (a + b)[..j] == a[..j];
      } else {
        assert (a + b)[..j] == a + b[..j - n];
        assert past + CallsOf(a + b[..j - n], ctx) == past + CallsOf(a, ctx) + CallsOf(b[..j - n], ctx);
      }
    }
  }

  /** Whether an event succeeds is thus decided by the callbacks alone. */
  lemma CommitsIff(env: Env, m: Machine, id: string, event: string, payload: Option<Json>, t: TransitionDef)
    requires id in m.signals && Find(env.transitions, id, event, m.signals[id].current) == Some(t)
    ensures var ctx := ActionContext(id, m.signals[id].current, t.to, event, payload, None);
            Attempt(env, m, id, event, payload).1.Success?
            <==> MayRun(env, t, payload) && Succeeding(env, m.calls, InOrder(t.actions), ctx, |InOrder(t.actions)|)
  {
    hide Attempt, Find;
    if MayRun(env, t, payload) {
      var n := PhasesInOrder(env, m, id, event, payload, t);
      var ctx, ids := ActionContext(id, m.signals[id].current, t.to, event, payload, None), InOrder(t.actions);
      if n < |ids| {
        assert !Succeeds(env, m.calls + CallsOf(ids[..n], ctx), ids[n], ctx);
      }
    } else {
      GuardDecides(env, m, id, event, payload, t, t.guard.value);
      match env.guards(t.guard.value, payload)
      case Success(b) => assert !b;
      case Failure(text) => assert env.guards(t.guard.value, payload) == Failure(text);
    }
  }

  // ---- One reaction --------------------------------------------------------------------

  /** What a reaction's guard says of the payload is recorded, if it has one. */
  function Gated(env: Env, m: Machine, r: ReactionDef, p: Option<Json>): Machine {
    match r.guard
    case None => m
    case Some(g) => m.(trace := m.trace + [ReactionGuardEvaluated(r.fromSignal, Head(r), g, env.guards(g, p))])
  }

  predicate Fires(env: Env, r: ReactionDef, p: Option<Json>) {
    r.guard.None? || env.guards(r.guard.value, p) == Success(true)
  }

  /**
   What firing a reaction does, `p` being the payload of the event that moved its cause. Its
   guard is decided on `p` and recorded. If it does not hold, that is all. If it does, the
   reaction's own event is sent to its target with the reaction's own payload: that is the next
   record, and the payload that the reactions to it are guarded on. If this fails, its `on_fail`
   action runs with `p`, and the error stays.
   */
  lemma FiringMeans(env: Env, fuel: nat, m: Machine, r: ReactionDef, p: Option<Json>)
    ensures var (m', error) := Fire(env, fuel, m, r, p, r.fromSignal);
            var gated := Gated(env, m, r, p);
            var sent := Send(env, fuel, gated, r.toSignal, r.event, r.payload, r.payload);
            && (!Fires(env, r, p) ==> m' == gated && error == None)
            && (Fires(env, r, p) && sent.1.Success? ==> m' == sent.0 && error == None)
            && (Fires(env, r, p) && sent.1.Failure? ==>
                  && error == Some(sent.1.error)
                  && (r.onFail.None? ==> m' == sent.0)
                  && (r.onFail.Some? ==> Compensates(env, sent.0, r, p, sent.1.error, m')))
    ensures Fires(env, r, p) && fuel > 0 ==>
              var gated, m' := Gated(env, m, r, p), Fire(env, fuel, m, r, p, r.fromSignal).0;
              |gated.trace| < |m'.trace| && m'.trace[..|gated.trace|] == gated.trace
              && m'.trace[|gated.trace|] == EventReceived(r.toSignal, r.event, r.payload)
  {
    var gated := Gated(env, m, r, p);
    var sent := Send(env, fuel, gated, r.toSignal, r.event, r.payload, r.payload);
    hide Send;
    assert Gate(env, m, r, p, r.fromSignal) == (gated, Fires(env, r, p));
    if Fires(env, r, p) {
      if fuel > 0 {
        SendReceives(env, fuel, gated, r.toSignal, r.event, r.payload, r.payload);
      }
      if sent.1.Failure? && r.onFail.Some? {
        CompensationRuns(env, sent.0, r, p, sent.1.error);
      }
    }
  }

  /** The compensation is called with the target's state, the reaction's event, the cause's payload and the error. */
  ghost predicate Compensates(env: Env, m: Machine, r: ReactionDef, p: Option<Json>, error: EngineError, m': Machine)
    requires r.onFail.Some?
  {
    var a := r.onFail.value;
    var ctx := ActionContext(r.toSignal, r.fromState, m.Current(r.toSignal), r.event, p, Some(Display(error)));
    exists done ::
      && (if Succeeds(env, m.calls, a, ctx) then done == AfterActions(m, [a], ctx)
          else exists e :: StopsAt(env, m, a, ctx, done, e))
      && m' == done.(trace := done.trace + [ReactionCompensated(r.fromSignal, Head(r), a, Display(error))])
  }

  lemma CompensationRuns(env: Env, m: Machine, r: ReactionDef, p: Option<Json>, error: EngineError)
    requires r.onFail.Some?
    ensures Compensates(env, m, r, p, error, Compensate(env, m, r, p, r.fromSignal, error))
  {
    hide RunAction, StopsAt;
    var a := r.onFail.value;
    var ctx := ActionContext(r.toSignal, r.fromState, m.Current(r.toSignal), r.event, p, Some(Display(error)));
    OneAction(env, m, a, ctx);
    var (done, stop) := RunAction(env, m, r.toSignal, a, ctx);
    assert Succeeds(env, m.calls, a, ctx) || StopsAt(env, m, a, ctx, done, stop.value);
  }

  /** An event that is not cut off by the limit is recorded first. */
  lemma SendReceives(env: Env, fuel: nat, m: Machine, id: string, event: string, payload: Option<Json>,
                     parent: Option<Json>)
    requires fuel > 0
    ensures var m' := Send(env, fuel, m, id, event, payload, parent).0;
            m.trace + [EventReceived(id, event, payload)] <= m'.trace
  {
    var start := m.trace + [EventReceived(id, event, payload)];
    var all, inv := (b: string) => true, (m': Machine) => start <= m'.trace;
    var m1, attempt := Attempt(env, m, id, event, payload).0, Attempt(env, m, id, event, payload).1;
    AttemptReceives(env, m, id, event, payload);
    forall m', x | inv(m') && I.Legal(env, all, m', x) ensures inv(I.Apply(env, m', x)) {}
    hide Attempt;
    if attempt.Success? {
      I.ScheduledReacts(env.reactions, id, attempt.value.to);
      I.FireAllKeeps(env, all, inv, fuel - 1, m1, Scheduler.Schedule(Matching(env.reactions, id, attempt.value.to)),
                     parent, id);
    }
  }

  lemma AttemptReceives(env: Env, m: Machine, id: string, event: string, payload: Option<Json>)
    ensures m.trace + [EventReceived(id, event, payload)] <= Attempt(env, m, id, event, payload).0.trace
  {
    hide Attempt, Find;
    if id in m.signals && Find(env.transitions, id, event, m.signals[id].current).Some? {
      var t := Find(env.transitions, id, event, m.signals[id].current).value;
      if MayRun(env, t, payload) {
        var n := PhasesInOrder(env, m, id, event, payload, t);
      } else {
        GuardDecides(env, m, id, event, payload, t, t.guard.value);
      }
    } else {
      NothingMatches(env, m, id, event, payload);
    }
  }
}
