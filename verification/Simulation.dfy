/**
 One engine shows another. An engine with environment `env'` shows, on the signals `live`
 and under the names `f`, what one with environment `env` does, when on those signals they
 select corresponding transitions and react alike. Then every send to a live signal has
 the same outcome, changes the same states, and adds the same trace and action calls, up
 to names. The rest of `env'` may be anything.

 `Lowering`, `Independence` and `Instances` are instances of this.
 */
module Simulation {
  import opened Wrappers
  import opened Schema
  import opened Errors
  import opened Semantics
  import opened Renaming
  import Scheduler
  import I = Invariants

  /** The same transition, but for the states it leaves from. */
  predicate SameMove(found: Option<TransitionDef>, found': Option<TransitionDef>) {
    match (found, found')
    case (None, None) => true
    case (Some(t), Some(t')) => t.to == t'.to && t.guard == t'.guard && t.actions == t'.actions
    case _ => false
  }

  /**
   The static part of the correspondence. `home` bounds the states a live signal can be in:
   only for those the two environments have to select alike.
   */
  ghost predicate Corresponds(env: Env, env': Env, f: Names, live: string -> bool, home: (string, string) -> bool) {
    && I.Confined(env, live)
    && (forall a, b :: live(a) && live(b) && f(a) == f(b) ==> a == b)
    && (forall id, event, current {:trigger Find(env.transitions, id, event, current)} ::
          live(id) && home(id, current) ==>
          SameMove(Find(env.transitions, id, event, current), Find(env'.transitions, f(id), event, current)))
    && (forall t :: t in env.transitions && live(t.signalId) ==> home(t.signalId, t.to))
    && (forall id, s {:trigger Matching(env.reactions, id, s)} :: live(id) ==>
          Matching(env'.reactions, f(id), s) == RenReactions(f, Matching(env.reactions, id, s)))
    && env.actions.Keys == env'.actions.Keys
    && env.guards == env'.guards
  }

  ghost predicate CallsWithin(live: string -> bool, calls: seq<ActionCall>) {
    forall c :: c in calls ==> live(c.ctx.signalId)
  }

  /** For live signals the callbacks answer alike, after any further calls `calls` for live signals. */
  ghost predicate AnswerAlike(env: Env, env': Env, f: Names, live: string -> bool, past: seq<ActionCall>,
                              past': seq<ActionCall>) {
    forall a, calls, ctx: ActionContext ::
      a in env.actions && a in env'.actions && live(ctx.signalId) && CallsWithin(live, calls) ==>
      env'.actions[a](past' + RenCalls(f, calls), RenContext(f, ctx))
        == RenMaybeError(f, env.actions[a](past + calls, ctx))
  }

  /** No restriction on the states of signals. */
  const ANYWHERE: (string, string) -> bool := (id: string, s: string) => true

  /** Where the two runs started. */
  datatype Origin = Origin(m: Machine, m': Machine)

  /** `m'` shows `m`: the same states of live signals, the same additions to trace and calls. */
  ghost predicate Shows(o: Origin, f: Names, live: string -> bool, home: (string, string) -> bool, m: Machine,
                        m': Machine) {
    && (forall id :: live(id) ==> (id in m.signals <==> f(id) in m'.signals))
    && (forall id :: live(id) && id in m.signals ==> m'.signals[f(id)].current == m.signals[id].current)
    && (forall id :: live(id) && id in m.signals ==> home(id, m.signals[id].current))
    && o.m.trace <= m.trace && m'.trace == o.m'.trace + RenTrace(f, m.trace[|o.m.trace|..])
    && o.m.calls <= m.calls && m'.calls == o.m'.calls + RenCalls(f, m.calls[|o.m.calls|..])
    && CallsWithin(live, m.calls[|o.m.calls|..])
  }

  // ---- One transition ------------------------------------------------------------------

  lemma PushShows(o: Origin, f: Names, live: string -> bool, home: (string, string) -> bool, m: Machine, m': Machine,
                  e: TraceEvent)
    requires Shows(o, f, live, home, m, m')
    ensures Shows(o, f, live, home, m.Push(e), m'.Push(RenEvent(f, e)))
  {
    var n := |o.m.trace|;
    assert (m.trace + [e])[n..] == m.trace[n..] + [e];
    assert RenTrace(f, m.trace[n..] + [e]) == RenTrace(f, m.trace[n..]) + [RenEvent(f, e)];
  }

  lemma CallShows(o: Origin, f: Names, live: string -> bool, home: (string, string) -> bool, m: Machine, m': Machine,
                  a: string, ctx: ActionContext)
    requires Shows(o, f, live, home, m, m') && live(ctx.signalId)
    ensures Shows(o, f, live, home, m.(calls := m.calls + [ActionCall(a, ctx)]),
                  m'.(calls := m'.calls + [ActionCall(a, RenContext(f, ctx))]))
  {
    var n, call := |o.m.calls|, ActionCall(a, ctx);
    assert (m.calls + [call])[n..] == m.calls[n..] + [call];
    assert RenCalls(f, m.calls[n..] + [call]) == RenCalls(f, m.calls[n..]) + [ActionCall(a, RenContext(f, ctx))];
  }

  lemma MoveShows(o: Origin, f: Names, live: string -> bool, home: (string, string) -> bool, m: Machine, m': Machine,
                  id: string, s: string)
    requires Shows(o, f, live, home, m, m') && live(id) && home(id, s)
    requires forall a, b :: live(a) && live(b) && f(a) == f(b) ==> a == b
    ensures Shows(o, f, live, home, m.Move(id, s), m'.Move(f(id), s))
  {}

  lemma FailureTextRenames(f: Names, e: EngineError)
    ensures RenMessage(f, FailureText(e)) == FailureText(RenError(f, e))
  {}

  lemma Answers(env: Env, env': Env, o: Origin, f: Names, live: string -> bool, home: (string, string) -> bool,
                m: Machine, m': Machine, a: string, ctx: ActionContext)
    requires AnswerAlike(env, env', f, live, o.m.calls, o.m'.calls) && Shows(o, f, live, home, m, m')
    requires a in env.actions && a in env'.actions && live(ctx.signalId)
    ensures env'.actions[a](m'.calls, RenContext(f, ctx)) == RenMaybeError(f, env.actions[a](m.calls, ctx))
  {
    var calls := m.calls[|o.m.calls|..];
    assert m.calls == o.m.calls + calls;
  }

  lemma RunActionShows(env: Env, env': Env, o: Origin, f: Names, live: string -> bool, home: (string, string) -> bool,
                       m: Machine, m': Machine, id: string, a: string, ctx: ActionContext)
    requires env.actions.Keys == env'.actions.Keys && AnswerAlike(env, env', f, live, o.m.calls, o.m'.calls)
    requires Shows(o, f, live, home, m, m') && live(ctx.signalId)
    ensures var (m1, error) := RunAction(env, m, id, a, ctx);
            var (m1', error') := RunAction(env', m', f(id), a, RenContext(f, ctx));
            Shows(o, f, live, home, m1, m1') && error' == RenMaybeError(f, error)
  {
    hide Shows, AnswerAlike, RenContext;
    var m1, m1' := m.Push(ActionStarted(id, a)), m'.Push(ActionStarted(f(id), a));
    PushShows(o, f, live, home, m, m', ActionStarted(id, a));
    if a in env.actions {
      Answers(env, env', o, f, live, home, m1, m1', a, ctx);
      CallShows(o, f, live, home, m1, m1', a, ctx);
      var m2 := m1.(calls := m1.calls + [ActionCall(a, ctx)]);
      var m2' := m1'.(calls := m1'.calls + [ActionCall(a, RenContext(f, ctx))]);
      match env.actions[a](m1.calls, ctx)
      case Some(e) =>
        FailureTextRenames(f, e);
        PushShows(o, f, live, home, m2, m2', ActionFailed(id, a, FailureText(e)));
      case None =>
        PushShows(o, f, live, home, m2, m2', ActionSucceeded(id, a));
    }
  }

  lemma {:induction false} RunActionsShow(env: Env, env': Env, o: Origin, f: Names, live: string -> bool,
                                          home: (string, string) -> bool,
                                          m: Machine, m': Machine, ids: seq<string>, ctx: ActionContext)
    requires env.actions.Keys == env'.actions.Keys && AnswerAlike(env, env', f, live, o.m.calls, o.m'.calls)
    requires Shows(o, f, live, home, m, m') && live(ctx.signalId)
    ensures var p, p' := RunActions(env, m, ids, ctx), RunActions(env', m', ids, RenContext(f, ctx));
            Shows(o, f, live, home, p.machine, p'.machine) && p'.error == RenMaybeError(f, p.error)
              && p'.executed == p.executed
    decreases |ids|
  {
    hide Shows, AnswerAlike, RunAction;
    if ids != [] {
      RunActionShows(env, env', o, f, live, home, m, m', ctx.signalId, ids[0], ctx);
      var (m1, error) := RunAction(env, m, ctx.signalId, ids[0], ctx);
      var (m1', _) := RunAction(env', m', f(ctx.signalId), ids[0], RenContext(f, ctx));
      if error.None? {
        RunActionsShow(env, env', o, f, live, home, m1, m1', ids[1..], ctx);
      }
    }
  }

  lemma TransitShows(env: Env, env': Env, o: Origin, f: Names, live: string -> bool, home: (string, string) -> bool,
                     m: Machine, m': Machine, actions: ActionBinding, ctx: ActionContext)
    requires Corresponds(env, env', f, live, home) && AnswerAlike(env, env', f, live, o.m.calls, o.m'.calls)
    requires Shows(o, f, live, home, m, m')
    requires live(ctx.signalId) && home(ctx.signalId, ctx.fromState) && home(ctx.signalId, ctx.toState)
    ensures var (m1, outcome) := Transit(env, m, actions, ctx);
            var (m1', outcome') := Transit(env', m', actions, RenContext(f, ctx));
            Shows(o, f, live, home, m1, m1') && outcome' == RenOutcome(f, outcome)
  {
    hide Shows, AnswerAlike, RunActions;
    var id, ctx' := ctx.signalId, RenContext(f, ctx);
    var leave, leave' := RunActions(env, m, actions.onExit, ctx), RunActions(env', m', actions.onExit, ctx');
    RunActionsShow(env, env', o, f, live, home, m, m', actions.onExit, ctx);
    if leave.error.None? {
      var moved, moved' := leave.machine.Move(id, ctx.toState), leave'.machine.Move(f(id), ctx.toState);
      MoveShows(o, f, live, home, leave.machine, leave'.machine, id, ctx.toState);
      var body := actions.onTransition + actions.onEnter;
      var enter, enter' := RunActions(env, moved, body, ctx), RunActions(env', moved', body, ctx');
      RunActionsShow(env, env', o, f, live, home, moved, moved', body, ctx);
      if enter.error.Some? {
        MoveShows(o, f, live, home, enter.machine, enter'.machine, id, ctx.fromState);
        PushShows(o, f, live, home, enter.machine.Move(id, ctx.fromState), enter'.machine.Move(f(id), ctx.fromState),
                  Rollbacked(id, ctx.toState, ctx.fromState));
      } else {
        PushShows(o, f, live, home, enter.machine, enter'.machine, StateChanged(id, ctx.fromState, ctx.toState));
      }
    }
  }

  lemma AttemptShows(env: Env, env': Env, o: Origin, f: Names, live: string -> bool, home: (string, string) -> bool,
                     m: Machine, m': Machine, id: string, event: string, payload: Option<Json>)
    requires Corresponds(env, env', f, live, home) && AnswerAlike(env, env', f, live, o.m.calls, o.m'.calls)
    requires Shows(o, f, live, home, m, m') && live(id)
    ensures var (m1, outcome) := Attempt(env, m, id, event, payload);
            var (m1', outcome') := Attempt(env', m', f(id), event, payload);
            Shows(o, f, live, home, m1, m1') && outcome' == RenOutcome(f, outcome)
  {
    hide AnswerAlike, Transit, Find;
    var m1, m1' := m.Push(EventReceived(id, event, payload)), m'.Push(EventReceived(f(id), event, payload));
    PushShows(o, f, live, home, m, m', EventReceived(id, event, payload));
    if id in m.signals {
      var current := m.signals[id].current;
      var found, found' := Find(env.transitions, id, event, current), Find(env'.transitions, f(id), event, current);
      assert SameMove(found, found');
      I.FindMatches(env.transitions, id, event, current);
      if found.Some? {
        var ctx := ActionContext(id, current, found.value.to, event, payload, None);
        assert RenContext(f, ctx) == ActionContext(f(id), current, found.value.to, event, payload, None);
        TransitShows(env, env', o, f, live, home, m1, m1', found.value.actions, ctx);
      }
    }
  }

  // ---- Cascades ------------------------------------------------------------------------

  lemma GateShows(env: Env, env': Env, o: Origin, f: Names, live: string -> bool, home: (string, string) -> bool,
                  m: Machine, m': Machine, r: ReactionDef, parent: Option<Json>, cause: string)
    requires env.guards == env'.guards && Shows(o, f, live, home, m, m')
    ensures var (m1, open) := Gate(env, m, r, parent, cause);
            var (m1', open') := Gate(env', m', RenReaction(f, r), parent, f(cause));
            Shows(o, f, live, home, m1, m1') && open' == open
  {
    if r.guard.Some? {
      hide Shows;
      PushShows(o, f, live, home, m, m',
                ReactionGuardEvaluated(cause, Head(r), r.guard.value, env.guards(r.guard.value, parent)));
    }
  }

  lemma CompensateShows(env: Env, env': Env, o: Origin, f: Names, live: string -> bool, home: (string, string) -> bool,
                        m: Machine, m': Machine, r: ReactionDef, parent: Option<Json>, cause: string,
                        error: EngineError)
    requires env.actions.Keys == env'.actions.Keys && AnswerAlike(env, env', f, live, o.m.calls, o.m'.calls)
    requires Shows(o, f, live, home, m, m') && live(r.toSignal)
    ensures Shows(o, f, live, home, Compensate(env, m, r, parent, cause, error),
                  Compensate(env', m', RenReaction(f, r), parent, f(cause), RenError(f, error)))
  {
    if r.onFail.Some? {
      assert m'.Current(f(r.toSignal)) == m.Current(r.toSignal);
      hide Shows, AnswerAlike, RunAction;
      var a := r.onFail.value;
      var ctx := ActionContext(r.toSignal, r.fromState, m.Current(r.toSignal), r.event, parent, Some(Display(error)));
      RunActionShows(env, env', o, f, live, home, m, m', r.toSignal, a, ctx);
      PushShows(o, f, live, home, RunAction(env, m, r.toSignal, a, ctx).0,
                RunAction(env', m', f(r.toSignal), a, RenContext(f, ctx)).0,
                ReactionCompensated(cause, Head(r), a, Display(error)));
    }
  }

  lemma ScheduledAlike(env: Env, env': Env, f: Names, live: string -> bool, home: (string, string) -> bool, id: string,
                       s: string)
    requires Corresponds(env, env', f, live, home) && live(id)
    ensures Scheduler.Schedule(Matching(env'.reactions, f(id), s))
         == RenReactions(f, Scheduler.Schedule(Matching(env.reactions, id, s)))
    ensures forall r :: r in Scheduler.Schedule(Matching(env.reactions, id, s)) ==> live(r.toSignal)
  {
    hide Scheduler.Schedule;
    RenSchedule(f, Matching(env.reactions, id, s));
    I.ScheduledReacts(env.reactions, id, s);
  }

  /** The main result: corresponding sends stay in correspondence and end alike, up to names. */
  lemma {:induction false} SendShows(env: Env, env': Env, o: Origin, f: Names, live: string -> bool,
                                     home: (string, string) -> bool,
                                     fuel: nat, m: Machine, m': Machine, id: string, event: string,
                                     payload: Option<Json>, parent: Option<Json>)
    requires Corresponds(env, env', f, live, home) && AnswerAlike(env, env', f, live, o.m.calls, o.m'.calls)
    requires Shows(o, f, live, home, m, m') && live(id)
    ensures var (m1, outcome) := Send(env, fuel, m, id, event, payload, parent);
            var (m1', outcome') := Send(env', fuel, m', f(id), event, payload, parent);
            Shows(o, f, live, home, m1, m1') && outcome' == RenOutcome(f, outcome)
    decreases fuel, 0, 0
  {
    hide Shows, AnswerAlike, Corresponds, Attempt, Matching, Scheduler.Schedule, RenReactions;
    if fuel > 0 {
      var (m1, attempt) := Attempt(env, m, id, event, payload);
      var (m1', _) := Attempt(env', m', f(id), event, payload);
      AttemptShows(env, env', o, f, live, home, m, m', id, event, payload);
      if attempt.Success? {
        var scheduled := Scheduler.Schedule(Matching(env.reactions, id, attempt.value.to));
        ScheduledAlike(env, env', f, live, home, id, attempt.value.to);
        FireAllShows(env, env', o, f, live, home, fuel - 1, m1, m1', scheduled, parent, id);
        var (_, error) := FireAll(env, fuel - 1, m1, scheduled, parent, id);
        assert Send(env, fuel, m, id, event, payload, parent).1
            == if error.Some? then Failure(error.value) else attempt;
        assert Send(env', fuel, m', f(id), event, payload, parent).1
            == if error.Some? then Failure(RenError(f, error.value)) else RenOutcome(f, attempt);
      }
    }
  }

  lemma {:induction false} FireAllShows(env: Env, env': Env, o: Origin, f: Names, live: string -> bool,
                                        home: (string, string) -> bool,
                                        fuel: nat, m: Machine, m': Machine, rs: seq<ReactionDef>, parent: Option<Json>,
                                        cause: string)
    requires Corresponds(env, env', f, live, home) && AnswerAlike(env, env', f, live, o.m.calls, o.m'.calls)
    requires Shows(o, f, live, home, m, m')
    requires forall r :: r in rs ==> live(r.toSignal)
    ensures var (m1, error) := FireAll(env, fuel, m, rs, parent, cause);
            var (m1', error') := FireAll(env', fuel, m', RenReactions(f, rs), parent, f(cause));
            Shows(o, f, live, home, m1, m1') && error' == RenMaybeError(f, error)
    decreases fuel, 2, |rs|
  {
    hide Shows, AnswerAlike, Corresponds;
    if rs != [] {
      var (m1, error) := Fire(env, fuel, m, rs[0], parent, cause);
      var (m1', _) := Fire(env', fuel, m', RenReaction(f, rs[0]), parent, f(cause));
      FireShows(env, env', o, f, live, home, fuel, m, m', rs[0], parent, cause);
      if error.None? {
        FireAllShows(env, env', o, f, live, home, fuel, m1, m1', rs[1..], parent, cause);
      }
    }
  }

  lemma {:induction false} FireShows(env: Env, env': Env, o: Origin, f: Names, live: string -> bool,
                                     home: (string, string) -> bool,
                                     fuel: nat, m: Machine, m': Machine, r: ReactionDef, parent: Option<Json>,
                                     cause: string)
    requires Corresponds(env, env', f, live, home) && AnswerAlike(env, env', f, live, o.m.calls, o.m'.calls)
    requires Shows(o, f, live, home, m, m') && live(r.toSignal)
    ensures var (m1, error) := Fire(env, fuel, m, r, parent, cause);
            var (m1', error') := Fire(env', fuel, m', RenReaction(f, r), parent, f(cause));
            Shows(o, f, live, home, m1, m1') && error' == RenMaybeError(f, error)
    decreases fuel, 1, 0
  {
    hide Shows, AnswerAlike, Gate, Compensate;
    var (m1, open) := Gate(env, m, r, parent, cause);
    var (m1', _) := Gate(env', m', RenReaction(f, r), parent, f(cause));
    GateShows(env, env', o, f, live, home, m, m', r, parent, cause);
    if open {
      var (m2, outcome) := Send(env, fuel, m1, r.toSignal, r.event, r.payload, r.payload);
      var (m2', _) := Send(env', fuel, m1', f(r.toSignal), r.event, r.payload, r.payload);
      SendShows(env, env', o, f, live, home, fuel, m1, m1', r.toSignal, r.event, r.payload, r.payload);
      if outcome.Failure? {
        CompensateShows(env, env', o, f, live, home, m2, m2', r, parent, cause, outcome.error);
      }
    }
  }

  function RenInputs(f: Names, inputs: seq<Input>): (renamed: seq<Input>)
    ensures |renamed| == |inputs|
  {
    if inputs == [] then [] else [inputs[0].(signalId := f(inputs[0].signalId))] + RenInputs(f, inputs[1..])
  }

  /** The same for a whole session: outcome by outcome, and in what it leaves behind. */
  lemma {:induction false} SessionShows(env: Env, env': Env, o: Origin, f: Names, live: string -> bool,
                                        home: (string, string) -> bool,
                                        limit: nat, m: Machine, m': Machine, inputs: seq<Input>)
    requires Corresponds(env, env', f, live, home) && AnswerAlike(env, env', f, live, o.m.calls, o.m'.calls)
    requires Shows(o, f, live, home, m, m')
    requires forall i :: i in inputs ==> live(i.signalId)
    ensures var (m1, outcomes) := Session(env, limit, m, inputs);
            var (m1', outcomes') := Session(env', limit, m', RenInputs(f, inputs));
            Shows(o, f, live, home, m1, m1') && |outcomes| == |outcomes'| == |inputs|
            && forall k :: 0 <= k < |inputs| ==> outcomes'[k] == RenOutcome(f, outcomes[k])
    decreases |inputs|
  {
    hide Shows, AnswerAlike, Corresponds;
    if inputs != [] {
      var i := inputs[0];
      SendShows(env, env', o, f, live, home, limit + 1, m, m', i.signalId, i.event, i.payload, i.payload);
      var m1, m1' := Deliver(env, limit, m, i).0, Deliver(env', limit, m', i.(signalId := f(i.signalId))).0;
      SessionShows(env, env', o, f, live, home, limit, m1, m1', inputs[1..]);
    }
  }
}
