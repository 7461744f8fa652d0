/**
 An induction principle for runs of the engine.

 Whatever a cascade does to the machine is a sequence of the small steps below. A property
 that each small step keeps is therefore kept by every `Send`, at any depth, whether it
 succeeds or fails. The tentative state of a transition under way needs no step of its
 own: actions cannot observe it, and it is either committed or rolled back before any
 reaction fires (`ActionsIgnoreStates`).
 */
module Invariants {
  import opened Wrappers
  import opened Schema
  import opened Errors
  import opened Semantics
  import Scheduler

  datatype Micro =
    | Receive(signalId: string, event: string, payload: Option<Json>)
    | Act(actionId: string, ctx: ActionContext)
    | Commit(signalId: string, t: TransitionDef)
    | Reject(signalId: string, t: TransitionDef)
    | Evaluate(r: ReactionDef, guard: string, cause: string, outcome: Result<bool, string>)
    | Compensated(r: ReactionDef, actionId: string, cause: string, message: Message)

  function Apply(env: Env, m: Machine, x: Micro): Machine {
    match x
    case Receive(id, event, payload) => m.Push(EventReceived(id, event, payload))
    case Act(actionId, ctx) => RunAction(env, m, ctx.signalId, actionId, ctx).0
    case Commit(id, t) => m.Move(id, t.to).Push(StateChanged(id, m.Current(id), t.to))
    case Reject(id, t) => m.Push(Rollbacked(id, t.to, m.Current(id)))
    case Evaluate(r, guard, cause, outcome) => m.Push(ReactionGuardEvaluated(cause, Head(r), guard, outcome))
    case Compensated(r, actionId, cause, message) => m.Push(ReactionCompensated(cause, Head(r), actionId, message))
  }

  /** `t` is the transition that signal `id` selects in its current state, for some event. */
  predicate Takes(env: Env, m: Machine, id: string, t: TransitionDef) {
    id in m.signals && Find(env.transitions, id, t.event, m.Current(id)) == Some(t)
  }

  /** An action runs for a transition its signal can take, or as a compensation. */
  ghost predicate Runs(env: Env, m: Machine, ctx: ActionContext) {
    ctx.failure.Some? ||
    (ctx.fromState == m.Current(ctx.signalId) &&
     exists t :: Takes(env, m, ctx.signalId, t) && t.to == ctx.toState && t.event == ctx.event)
  }

  /** The steps a run takes while it stays among the signals `live`. */
  ghost predicate Legal(env: Env, live: string -> bool, m: Machine, x: Micro) {
    match x
    case Receive(id, _, _) => live(id)
    case Act(_, ctx) => live(ctx.signalId) && Runs(env, m, ctx)
    case Commit(id, t) => live(id) && Takes(env, m, id, t)
    case Reject(id, t) => live(id) && Takes(env, m, id, t)
    case Evaluate(r, _, cause, _) => live(cause) && r in env.reactions && r.fromSignal == cause
    case Compensated(r, _, cause, _) => live(cause) && r in env.reactions && r.fromSignal == cause
  }

  ghost predicate Inductive(env: Env, live: string -> bool, inv: Machine -> bool) {
    forall m, x {:trigger Apply(env, m, x)} :: inv(m) && Legal(env, live, m, x) ==> inv(Apply(env, m, x))
  }

  /** No reaction leads from a signal in `live` to one outside. */
  ghost predicate Confined(env: Env, live: string -> bool) {
    forall r :: r in env.reactions && live(r.fromSignal) ==> live(r.toSignal)
  }

  // ---- Actions see no states -----------------------------------------------------------

  /** Running actions adds to the trace and to the calls, and does not look at the signals. */
  lemma {:induction false} ActionsIgnoreStates(env: Env, m: Machine, ids: seq<string>, ctx: ActionContext,
                                               signals: map<string, SignalState>)
    ensures RunActions(env, m, ids, ctx).machine.signals == m.signals
    ensures var p, q := RunActions(env, m, ids, ctx), RunActions(env, m.(signals := signals), ids, ctx);
            q == p.(machine := p.machine.(signals := signals))
    decreases |ids|
  {
    if ids != [] {
      var (m1, error) := RunAction(env, m, ctx.signalId, ids[0], ctx);
      assert RunAction(env, m.(signals := signals), ctx.signalId, ids[0], ctx) == (m1.(signals := signals), error);
      ActionsIgnoreStates(env, m1, ids[1..], ctx, signals);
    }
  }

  lemma {:induction false} ActionsKeep(env: Env, live: string -> bool, inv: Machine -> bool, m: Machine,
                                       ids: seq<string>, ctx: ActionContext)
    requires Inductive(env, live, inv) && inv(m)
    requires live(ctx.signalId) && Runs(env, m, ctx)
    ensures inv(RunActions(env, m, ids, ctx).machine)
    decreases |ids|
  {
    if ids != [] {
      var (m1, error) := RunAction(env, m, ctx.signalId, ids[0], ctx);
      assert m1 == Apply(env, m, Act(ids[0], ctx));
      if error.None? {
        assert Runs(env, m1, ctx) by {
          if ctx.failure.None? {
            var t :| Takes(env, m, ctx.signalId, t) && t.to == ctx.toState && t.event == ctx.event;
            assert Takes(env, m1, ctx.signalId, t);
          }
        }
        ActionsKeep(env, live, inv, m1, ids[1..], ctx);
      }
    }
  }

  // ---- The principle -------------------------------------------------------------------

  lemma {:induction false} FindMatches(ts: seq<TransitionDef>, signalId: string, event: string, current: string)
    ensures match Find(ts, signalId, event, current)
            case Some(t) => t in ts && Matches(t, signalId, event, current)
            case None => forall t :: t in ts ==> !Matches(t, signalId, event, current)
  {
    if ts != [] {
      FindMatches(ts[1..], signalId, event, current);
    }
  }

  lemma {:induction false} MatchingReacts(rs: seq<ReactionDef>, signalId: string, state: string)
    ensures forall r :: r in Matching(rs, signalId, state) <==>
              r in rs && r.fromSignal == signalId && (r.fromState == state || r.fromState == WILDCARD)
    ensures |Matching(rs, signalId, state)| <= |rs|
  {
    if rs != [] {
      MatchingReacts(rs[1..], signalId, state);
      assert rs == [rs[0]] + rs[1..];
    }
  }

  /** And it matches by itself, after those declared before it and before those after it. */
  lemma {:induction false} MatchingInOrder(before: seq<ReactionDef>, r: ReactionDef, after: seq<ReactionDef>,
                                           signalId: string, state: string)
    ensures Matching([], signalId, state) == []
    ensures Matching(before + [r] + after, signalId, state)
         == Matching(before, signalId, state)
            + (if r.fromSignal == signalId && r.fromState in {state, WILDCARD} then [r] else [])
            + Matching(after, signalId, state)
    decreases |before|
  {
    var all := before + [r] + after;
    if before == [] {
      assert all == [r] + after && all[1..] == after;
    } else {
      assert all[0] == before[0] && all[1..] == before[1..] + [r] + after;
      MatchingInOrder(before[1..], r, after, signalId, state);
    }
  }

  lemma ScheduledReacts(rs: seq<ReactionDef>, signalId: string, state: string)
    ensures forall r :: r in Scheduler.Schedule(Matching(rs, signalId, state)) ==> r in rs && r.fromSignal == signalId
  {
    var matched := Matching(rs, signalId, state);
    MatchingReacts(rs, signalId, state);
    var last := Scheduler.ScheduleEnd(matched);
    Scheduler.FiredAreMatched(matched, Scheduler.Schedule(matched), last);
  }

  /** What a transition under way leaves: its state changed if it succeeded, and as it was if not. */
  lemma TransitOutcome(env: Env, m: Machine, actions: ActionBinding, ctx: ActionContext)
    requires ctx.signalId in m.signals && ctx.fromState == m.Current(ctx.signalId)
    ensures var (m', outcome) := Transit(env, m, actions, ctx);
            var leave := RunActions(env, m, actions.onExit, ctx);
            var enter := RunActions(env, leave.machine, actions.onTransition + actions.onEnter, ctx);
            if leave.error.Some? then m' == leave.machine && outcome == Failure(leave.error.value)
            else if enter.error.Some? then
              m' == enter.machine.Push(Rollbacked(ctx.signalId, ctx.toState, ctx.fromState))
                && outcome == Failure(enter.error.value)
            else
              m' == enter.machine.Move(ctx.signalId,
                                       ctx.toState).Push(StateChanged(ctx.signalId, ctx.fromState, ctx.toState))
              && outcome == Success(TransitionResult(ctx.signalId, ctx.fromState, ctx.toState,
                                                     leave.executed + enter.executed))
  {
    hide RunActions;
    var leave := RunActions(env, m, actions.onExit, ctx).machine;
    ActionsIgnoreStates(env, m, actions.onExit, ctx, m.signals);
    var moved := leave.Move(ctx.signalId, ctx.toState);
    ActionsIgnoreStates(env, leave, actions.onTransition + actions.onEnter, ctx, moved.signals);
    assert leave.(signals := moved.signals) == moved;
    assert m.signals[ctx.signalId := m.signals[ctx.signalId].(current := ctx.toState)]
      [ctx.signalId := m.signals[ctx.signalId].(current := ctx.fromState)] == m.signals;
  }

  lemma TransitKeeps(env: Env, live: string -> bool, inv: Machine -> bool, m: Machine, t: TransitionDef,
                     ctx: ActionContext)
    requires Inductive(env, live, inv) && inv(m)
    requires live(ctx.signalId) && Takes(env, m, ctx.signalId, t)
    requires ctx.fromState == m.Current(ctx.signalId) && ctx.toState == t.to && ctx.event == t.event
    ensures inv(Transit(env, m, t.actions, ctx).0)
  {
    hide Transit, RunActions;
    TransitOutcome(env, m, t.actions, ctx);
    var body := t.actions.onTransition + t.actions.onEnter;
    var leave := RunActions(env, m, t.actions.onExit, ctx).machine;
    var enter := RunActions(env, leave, body, ctx).machine;
    assert Runs(env, m, ctx);
    ActionsKeep(env, live, inv, m, t.actions.onExit, ctx);
    ActionsIgnoreStates(env, m, t.actions.onExit, ctx, m.signals);
    assert Takes(env, leave, ctx.signalId, t);
    ActionsKeep(env, live, inv, leave, body, ctx);
    ActionsIgnoreStates(env, leave, body, ctx, leave.signals);
    assert enter.Push(Rollbacked(ctx.signalId, ctx.toState, ctx.fromState))
           == Apply(env, enter, Reject(ctx.signalId, t));
    assert enter.Move(ctx.signalId, ctx.toState).Push(StateChanged(ctx.signalId, ctx.fromState, ctx.toState))
        == Apply(env, enter, Commit(ctx.signalId, t));
  }

  lemma AttemptKeeps(env: Env, live: string -> bool, inv: Machine -> bool, m: Machine, signalId: string, event: string,
                     payload: Option<Json>)
    requires Inductive(env, live, inv) && inv(m) && live(signalId)
    ensures inv(Attempt(env, m, signalId, event, payload).0)
  {
    hide Transit, Find;
    var m1 := m.Push(EventReceived(signalId, event, payload));
    assert m1 == Apply(env, m, Receive(signalId, event, payload));
    if signalId in m.signals {
      var current := m.signals[signalId].current;
      FindMatches(env.transitions, signalId, event, current);
      var found := Find(env.transitions, signalId, event, current);
      if found.Some? {
        var t := found.value;
        TransitKeeps(env, live, inv, m1, t, ActionContext(signalId, current, t.to, event, payload, None));
      }
    }
  }

  lemma GateKeeps(env: Env, live: string -> bool, inv: Machine -> bool, m: Machine, r: ReactionDef,
                  parent: Option<Json>)
    requires Inductive(env, live, inv) && inv(m) && r in env.reactions && live(r.fromSignal)
    ensures inv(Gate(env, m, r, parent, r.fromSignal).0)
  {
    if r.guard.Some? {
      var outcome := env.guards(r.guard.value, parent);
      assert Gate(env, m, r, parent, r.fromSignal).0
             == Apply(env, m, Evaluate(r, r.guard.value, r.fromSignal, outcome));
    }
  }

  lemma CompensateKeeps(env: Env, live: string -> bool, inv: Machine -> bool, m: Machine, r: ReactionDef,
                        parent: Option<Json>, error: EngineError)
    requires Inductive(env, live, inv) && inv(m) && r in env.reactions && live(r.fromSignal) && live(r.toSignal)
    ensures inv(Compensate(env, m, r, parent, r.fromSignal, error))
  {
    if r.onFail.Some? {
      var ctx := ActionContext(r.toSignal, r.fromState, m.Current(r.toSignal), r.event, parent, Some(Display(error)));
      var m1 := Apply(env, m, Act(r.onFail.value, ctx));
      assert inv(m1);
      assert Compensate(env, m, r, parent, r.fromSignal, error)
          == Apply(env, m1, Compensated(r, r.onFail.value, r.fromSignal, Display(error)));
    }
  }

  /** The principle: what every small step keeps, every send keeps, at any depth and with any outcome. */
  lemma {:induction false} SendKeeps(env: Env, live: string -> bool, inv: Machine -> bool, fuel: nat, m: Machine,
                                     signalId: string, event: string, payload: Option<Json>, parent: Option<Json>)
    requires Inductive(env, live, inv) && Confined(env, live)
    requires inv(m) && live(signalId)
    ensures inv(Send(env, fuel, m, signalId, event, payload, parent).0)
    decreases fuel, 0, 0
  {
    hide Attempt;
    if fuel > 0 {
      var (m1, attempt) := Attempt(env, m, signalId, event, payload);
      AttemptKeeps(env, live, inv, m, signalId, event, payload);
      if attempt.Success? {
        var scheduled := Scheduler.Schedule(Matching(env.reactions, signalId, attempt.value.to));
        ScheduledReacts(env.reactions, signalId, attempt.value.to);
        FireAllKeeps(env, live, inv, fuel - 1, m1, scheduled, parent, signalId);
      }
    }
  }

  lemma {:induction false} FireAllKeeps(env: Env, live: string -> bool, inv: Machine -> bool, fuel: nat, m: Machine,
                                        rs: seq<ReactionDef>, parent: Option<Json>, cause: string)
    requires Inductive(env, live, inv) && Confined(env, live)
    requires inv(m) && live(cause)
    requires forall r :: r in rs ==> r in env.reactions && r.fromSignal == cause
    ensures inv(FireAll(env, fuel, m, rs, parent, cause).0)
    decreases fuel, 2, |rs|
  {
    if rs != [] {
      var (m1, error) := Fire(env, fuel, m, rs[0], parent, cause);
      FireKeeps(env, live, inv, fuel, m, rs[0], parent);
      if error.None? {
        FireAllKeeps(env, live, inv, fuel, m1, rs[1..], parent, cause);
      }
    }
  }

  lemma {:induction false} FireKeeps(env: Env, live: string -> bool, inv: Machine -> bool, fuel: nat, m: Machine,
                                     r: ReactionDef, parent: Option<Json>)
    requires Inductive(env, live, inv) && Confined(env, live)
    requires inv(m) && r in env.reactions && live(r.fromSignal)
    ensures inv(Fire(env, fuel, m, r, parent, r.fromSignal).0)
    decreases fuel, 1, 0
  {
    hide Gate, Compensate;
    var (m1, open) := Gate(env, m, r, parent, r.fromSignal);
    GateKeeps(env, live, inv, m, r, parent);
    if open {
      var (m2, outcome) := Send(env, fuel, m1, r.toSignal, r.event, r.payload, r.payload);
      SendKeeps(env, live, inv, fuel, m1, r.toSignal, r.event, r.payload, r.payload);
      if outcome.Failure? {
        CompensateKeeps(env, live, inv, m2, r, parent, outcome.error);
      }
    }
  }

  lemma {:induction false} SessionKeeps(env: Env, live: string -> bool, inv: Machine -> bool, limit: nat, m: Machine,
                                        inputs: seq<Input>)
    requires Inductive(env, live, inv) && Confined(env, live)
    requires inv(m) && forall i :: i in inputs ==> live(i.signalId)
    ensures inv(Session(env, limit, m, inputs).0)
    decreases |inputs|
  {
    if inputs != [] {
      var i := inputs[0];
      SendKeeps(env, live, inv, limit + 1, m, i.signalId, i.event, i.payload, i.payload);
      SessionKeeps(env, live, inv, limit, Deliver(env, limit, m, i).0, inputs[1..]);
    }
  }
}
