/**
 Replay of a scenario (src/run.rs): events sent one after the other, each with the actions
 that are made to fail while it runs. What is proved is what the replay is for: injection
 is scoped to its event, and an event fails by an action only if that action was named.
 */
module Scenario {
  import opened Wrappers
  import opened Schema
  import opened Errors
  import opened Semantics
  import E = Engine
  import F = FailureShape
  import D = Independence
  import I = Invariants
  import R = Replay
  import Scheduler

  datatype ScenarioEvent = ScenarioEvent(input: Input, failActions: seq<string>)

  /** One event that failed; `stateAfter` is the state its signal is in then, or empty. */
  datatype ScenarioError = ScenarioError(signalId: string, event: string, error: EngineError, stateAfter: string)

  // ---- The callbacks -------------------------------------------------------------------

  function ActionsOf(a: ActionBinding): seq<string> {
    a.onExit + a.onTransition + a.onEnter
  }

  /** Every action of a transition. The `on_fail` actions of reactions are not among them. */
  function ActionIds(ts: seq<TransitionDef>): set<string> {
    set t, a | t in ts && a in ActionsOf(t.actions) :: a
  }

  function InjectedText(id: string): Message {
    Text("injected failure for action '" + id + "' (set via `fail`)")
  }

  /** The callback registered for `id` while the actions `fails` are to fail. */
  function Stub(id: string, fails: set<string>): ActionFn {
    (calls, ctx) => if id in fails then Some(ActionExecutionError(InjectedText(id))) else None
  }

  function Stubs(ids: set<string>, fails: set<string>): map<string, ActionFn> {
    map id | id in ids :: Stub(id, fails)
  }

  function WithStubs(env: Env, ids: set<string>, fails: set<string>): Env {
    env.(actions := Stubs(ids, fails))
  }

  function Named(ids: seq<string>): (named: set<string>) {
    set id | id in ids
  }

  method CollectActionIds(schema: TopologySchema) returns (ids: set<string>)
    ensures ids == ActionIds(schema.transitions)
  {
    ids := {};
    for i := 0 to |schema.transitions|
      invariant ids == ActionIds(schema.transitions[..i])
    {
      var t := schema.transitions[i];
      assert schema.transitions[..i + 1] == schema.transitions[..i] + [t];
      ids := ids + Named(ActionsOf(t.actions));
    }
    assert schema.transitions[..|schema.transitions|] == schema.transitions;
  }

  method RegisterActions(engine: E.TopologyEngine, ids: set<string>, fails: set<string>)
    modifies engine`actions
    ensures engine.actions == old(engine.actions) + Stubs(ids, fails)
  {
    var left := ids;
    while left != {}
      invariant left <= ids && engine.actions == old(engine.actions) + Stubs(ids - left, fails)
    {
      var id :| id in left;
      engine.RegisterAction(id, Stub(id, fails));
      left := left - {id};
    }
  }

  // ---- The replay ----------------------------------------------------------------------

  /** What one event adds to the list of errors. */
  function ErrorOf(m: Machine, i: Input, outcome: Outcome): seq<ScenarioError> {
    match outcome
    case Success(_) => []
    case Failure(e) => [ScenarioError(i.signalId, i.event, e, m.Current(i.signalId))]
  }

  type Report = (Machine, seq<ScenarioError>, set<string>)

  /** Errors listed before those of `rest`. */
  function Prepend(errors: seq<ScenarioError>, rest: Report): Report {
    (rest.0, errors + rest.1, rest.2)
  }

  lemma PrependNothing(rest: Report)
    ensures Prepend([], rest) == rest
  {
    assert [] + rest.1 == rest.1;
  }

  lemma PrependOne(errors: seq<ScenarioError>, one: seq<ScenarioError>, rest: Report)
    ensures Prepend(errors, Prepend(one, rest)) == Prepend(errors + one, rest)
  {
    assert errors + (one + rest.1) == errors + one + rest.1;
  }

  /** The replay, with the set of failing actions as the source keeps it: names are added and taken out again. */
  function Replayed(env: Env, ids: set<string>, limit: nat, m: Machine, fails: set<string>,
                    events: seq<ScenarioEvent>): Report
    decreases |events|
  {
    if events == [] then (m, [], fails)
    else
      var i, armed := events[0].input, fails + Named(events[0].failActions);
      var (m1, outcome) := Deliver(WithStubs(env, ids, armed), limit, m, i);
      var (m2, errors, fails') :=
        Replayed(env, ids, limit, m1, armed - Named(events[0].failActions), events[1..]);
      Prepend(ErrorOf(m1, i, outcome), (m2, errors, fails'))
  }

  /**
   Replays a scenario on an engine whose callbacks look at the shared set `fails`. They are
   values here, so a change of the set is written as a change of the callbacks.
   */
  method RunScenario(engine: E.TopologyEngine, ids: set<string>, events: seq<ScenarioEvent>, fails: set<string>)
    returns (errors: seq<ScenarioError>, fails': set<string>)
    requires engine.actions == Stubs(ids, fails)
    modifies engine`signals, engine`trace, engine`calls, engine`actions
    ensures (engine.View(), errors, fails')
         == Replayed(old(engine.Environment()), ids, engine.maxCascadeDepth, old(engine.View()), fails, events)
    ensures engine.actions == Stubs(ids, fails')
  {
    hide Deliver, Stubs;
    errors, fails' := [], fails;
    ghost var env, limit, start := engine.Environment(), engine.maxCascadeDepth, engine.View();
    PrependNothing(Replayed(env, ids, limit, start, fails, events));
    for i := 0 to |events|
      invariant engine.actions == Stubs(ids, fails') && engine.maxCascadeDepth == limit
      invariant engine.Environment() == WithStubs(env, ids, fails')
      invariant Replayed(env, ids, limit, start, fails, events)
             == Prepend(errors, Replayed(env, ids, limit, engine.View(), fails', events[i..]))
    {
      assert events[i..][1..] == events[i + 1..];
      ghost var listed := errors;
      var ev, named := events[i].input, Named(events[i].failActions);
      fails' := fails' + named;
      engine.actions := Stubs(ids, fails');
      var outcome := engine.SendEvent(ev.signalId, ev.event, ev.payload);
      if outcome.Failure? {
        var state := engine.GetState(ev.signalId);
        var stateAfter := if state.Success? then state.value else "";
        errors := errors + [ScenarioError(ev.signalId, ev.event, outcome.error, stateAfter)];
      }
      ghost var one := ErrorOf(engine.View(), ev, outcome);
      assert errors == listed + one;
      fails' := fails' - named;
      PrependOne(listed, one, Replayed(env, ids, limit, engine.View(), fails', events[i + 1..]));
      engine.actions := Stubs(ids, fails');
    }
    assert events[|events|..] == [];
    assert errors + [] == errors;
  }

  // ---- Injection is scoped -------------------------------------------------------------

  /** Each event by itself, with exactly the actions it names. */
  function Scoped(env: Env, ids: set<string>, limit: nat, m: Machine,
                  events: seq<ScenarioEvent>): (Machine, seq<ScenarioError>)
    decreases |events|
  {
    if events == [] then (m, [])
    else
      var i := events[0].input;
      var (m1, outcome) := Deliver(WithStubs(env, ids, Named(events[0].failActions)), limit, m, i);
      var (m2, errors) := Scoped(env, ids, limit, m1, events[1..]);
      (m2, ErrorOf(m1, i, outcome) + errors)
  }

  function AllNamed(events: seq<ScenarioEvent>): set<string> {
    set ev, id | ev in events && id in ev.failActions :: id
  }

  /** Started with nothing to fail, a replay makes exactly the named actions fail, each for its own event. */
  lemma {:induction false} InjectionIsScoped(env: Env, ids: set<string>, limit: nat, m: Machine,
                                             events: seq<ScenarioEvent>)
    ensures var (m', errors) := Scoped(env, ids, limit, m, events);
            Replayed(env, ids, limit, m, {}, events) == (m', errors, {})
    decreases |events|
  {
    hide Deliver;
    if events != [] {
      var named := Named(events[0].failActions);
      assert {} + named == named && named - named == {};
      InjectionIsScoped(env, ids, limit, Deliver(WithStubs(env, ids, named), limit, m, events[0].input).0, events[1..]);
    }
  }

  /** A name that was there before goes on failing until an event names it: that event takes it out for good. */
  lemma {:induction false} LeftoverFails(env: Env, ids: set<string>, limit: nat, m: Machine, fails: set<string>,
                                         events: seq<ScenarioEvent>)
    ensures Replayed(env, ids, limit, m, fails, events).2 == fails - AllNamed(events)
    decreases |events|
  {
    hide Deliver;
    if events != [] {
      var armed := fails + Named(events[0].failActions);
      assert events == [events[0]] + events[1..];
      LeftoverFails(env, ids, limit, Deliver(WithStubs(env, ids, armed), limit, m, events[0].input).0,
                    armed - Named(events[0].failActions), events[1..]);
    }
  }

  function Inputs(events: seq<ScenarioEvent>): (inputs: seq<Input>)
    ensures |inputs| == |events|
  {
    seq(|events|, k requires 0 <= k < |events| => events[k].input)
  }

  /** A scenario that injects nothing is a session: it ends alike, and lists no error exactly if no event fails. */
  lemma {:induction false} PlainScenarioIsSession(env: Env, ids: set<string>, limit: nat, m: Machine,
                                                  events: seq<ScenarioEvent>)
    requires forall ev :: ev in events ==> ev.failActions == []
    ensures Scoped(env, ids, limit, m, events).0 == Session(WithStubs(env, ids, {}), limit, m, Inputs(events)).0
    ensures Scoped(env, ids, limit, m, events).1 == []
       <==> forall o :: o in Session(WithStubs(env, ids, {}), limit, m, Inputs(events)).1 ==> o.Success?
    decreases |events|
  {
    hide Deliver;
    if events != [] {
      assert Named([]) == {};
      assert Inputs(events)[1..] == Inputs(events[1..]);
      var (m1, outcome) := Deliver(WithStubs(env, ids, {}), limit, m, events[0].input);
      PlainScenarioIsSession(env, ids, limit, m1, events[1..]);
      var rest := Session(WithStubs(env, ids, {}), limit, m1, Inputs(events[1..])).1;
      assert forall o :: o in [outcome] + rest <==> o == outcome || o in rest;
    }
  }

  // ---- What an event can fail by -------------------------------------------------------

  /** A recorded action ran as injected: it failed if it was to fail, and succeeded if not. */
  predicate AsInjected(ids: set<string>, fails: set<string>, e: TraceEvent) {
    match e
    case ActionFailed(_, a, text) => a in ids && a in fails && text == InjectedText(a)
    case ActionSucceeded(_, a) => a in ids && a !in fails
    case _ => true
  }

  /** Whatever is recorded from place `n` of the trace on ran as injected. */
  ghost predicate InjectedSince(ids: set<string>, fails: set<string>, start: seq<TraceEvent>, m: Machine) {
    start <= m.trace && forall k :: |start| <= k < |m.trace| ==> AsInjected(ids, fails, m.trace[k])
  }

  lemma MicroInjects(env: Env, ids: set<string>, fails: set<string>, start: seq<TraceEvent>, m: Machine, x: I.Micro)
    requires env.actions == Stubs(ids, fails) && InjectedSince(ids, fails, start, m)
    ensures InjectedSince(ids, fails, start, I.Apply(env, m, x))
  {
    if x.Act? {
      ActInjects(env, ids, fails, start, m, x.ctx.signalId, x.actionId, x.ctx);
    }
  }

  lemma ActInjects(env: Env, ids: set<string>, fails: set<string>, start: seq<TraceEvent>, m: Machine,
                   signalId: string, actionId: string, ctx: ActionContext)
    requires env.actions == Stubs(ids, fails) && InjectedSince(ids, fails, start, m)
    ensures InjectedSince(ids, fails, start, RunAction(env, m, signalId, actionId, ctx).0)
  {}

  /** Every action that an event runs fails if it was to fail, and succeeds if not, at any depth. */
  lemma RunsAsInjected(env: Env, ids: set<string>, fails: set<string>, limit: nat, m: Machine, i: Input)
    ensures InjectedSince(ids, fails, m.trace, Deliver(WithStubs(env, ids, fails), limit, m, i).0)
  {
    var env' := WithStubs(env, ids, fails);
    var inv := (m': Machine) => InjectedSince(ids, fails, m.trace, m');
    var all := (id: string) => true;
    hide InjectedSince;
    forall m', x | inv(m') && I.Legal(env', all, m', x) ensures inv(I.Apply(env', m', x)) {
      MicroInjects(env', ids, fails, m.trace, m', x);
    }
    NothingYet(ids, fails, m);
    I.SendKeeps(env', all, inv, limit + 1, m, i.signalId, i.event, i.payload, i.payload);
  }

  lemma NothingYet(ids: set<string>, fails: set<string>, m: Machine)
    ensures InjectedSince(ids, fails, m.trace, m)
  {}

  /** Every action of every transition has a callback. */
  ghost predicate Covered(env: Env) {
    forall t, a :: t in env.transitions && a in ActionsOf(t.actions) ==> a in env.actions
  }

  lemma {:induction false} ActionsFound(env: Env, m: Machine, ids: seq<string>, ctx: ActionContext)
    requires forall a :: a in ids ==> a in env.actions
    ensures var error := RunActions(env, m, ids, ctx).error; error.Some? ==> !error.value.ActionNotFound?
    decreases |ids|
  {
    if ids != [] {
      ActionsFound(env, RunAction(env, m, ctx.signalId, ids[0], ctx).0, ids[1..], ctx);
    }
  }

  lemma AttemptFinds(env: Env, m: Machine, signalId: string, event: string, payload: Option<Json>)
    requires Covered(env)
    ensures var (_, outcome) := Attempt(env, m, signalId, event, payload);
            outcome.Failure? ==> !outcome.error.ActionNotFound?
  {
    hide Transit, Find;
    var current := m.Current(signalId);
    I.FindMatches(env.transitions, signalId, event, current);
    var found := Find(env.transitions, signalId, event, current);
    if found.Some? {
      TransitFinds(env, m.Push(EventReceived(signalId, event, payload)), found.value,
                   ActionContext(signalId, current, found.value.to, event, payload, None));
    }
  }

  lemma TransitFinds(env: Env, m: Machine, t: TransitionDef, ctx: ActionContext)
    requires Covered(env) && t in env.transitions
    ensures var (_, outcome) := Transit(env, m, t.actions, ctx);
            outcome.Failure? ==> !outcome.error.ActionNotFound?
  {
    hide RunActions;
    ActionsFound(env, m, t.actions.onExit, ctx);
    var moved := RunActions(env, m, t.actions.onExit, ctx).machine.Move(ctx.signalId, ctx.toState);
    ActionsFound(env, moved, t.actions.onTransition + t.actions.onEnter, ctx);
  }

  /** If every transition's actions have callbacks, no event fails for want of one. */
  lemma {:induction false} SendFinds(env: Env, fuel: nat, m: Machine, signalId: string, event: string,
                                     payload: Option<Json>, parent: Option<Json>)
    requires Covered(env)
    ensures var (_, outcome) := Send(env, fuel, m, signalId, event, payload, parent);
            outcome.Failure? ==> !outcome.error.ActionNotFound?
    decreases fuel, 0, 0
  {
    hide Attempt, Covered;
    if fuel > 0 {
      AttemptFinds(env, m, signalId, event, payload);
      var (m1, attempt) := Attempt(env, m, signalId, event, payload);
      if attempt.Success? {
        FireAllFinds(env, fuel - 1, m1, Scheduler.Schedule(Matching(env.reactions, signalId, attempt.value.to)),
                     parent, signalId);
      }
    }
  }

  lemma {:induction false} FireAllFinds(env: Env, fuel: nat, m: Machine, rs: seq<ReactionDef>, parent: Option<Json>,
                                        cause: string)
    requires Covered(env)
    ensures var (_, error) := FireAll(env, fuel, m, rs, parent, cause);
            error.Some? ==> !error.value.ActionNotFound?
    decreases fuel, 2, |rs|
  {
    hide Covered;
    if rs != [] {
      var (m1, open) := Gate(env, m, rs[0], parent, cause);
      if open {
        SendFinds(env, fuel, m1, rs[0].toSignal, rs[0].event, rs[0].payload, rs[0].payload);
      }
      FireAllFinds(env, fuel, Fire(env, fuel, m, rs[0], parent, cause).0, rs[1..], parent, cause);
    }
  }

  /** An error an event can end with while the actions `fails` are to fail. */
  predicate Allowed(ids: set<string>, fails: set<string>, error: EngineError) {
    match error
    case ActionExecutionError(text) => exists a :: a in ids && a in fails && text == InjectedText(a)
    case ActionNotFound(_) => false
    case _ => true
  }

  /**
   An event ends with an action's error only if that action was to fail, at any depth of its
   cascade; and no action is missing, the compensations not counting.
   */
  lemma FailsByInjection(env: Env, limit: nat, fails: set<string>, m: Machine, i: Input)
    ensures var ids := ActionIds(env.transitions);
            var outcome := Deliver(WithStubs(env, ids, fails), limit, m, i).1;
            outcome.Failure? ==> Allowed(ids, fails, outcome.error)
  {
    var ids := ActionIds(env.transitions);
    var env' := WithStubs(env, ids, fails);
    assert Covered(env');
    SendFinds(env', limit + 1, m, i.signalId, i.event, i.payload, i.payload);
    RunsAsInjected(env, ids, fails, limit, m, i);
    var (m', outcome) := Deliver(env', limit, m, i);
    hide Deliver, InjectedSince, ActionIds, Covered;
    if outcome.Failure? && outcome.error.ActionExecutionError? {
      var c := F.FailingRun(env', limit, m, i);
      var k, site := FailureAt(env', limit, m, m', i.signalId, outcome.error, c);
      InjectedAt(ids, fails, m.trace, m', k);
    }
  }

  lemma InjectedAt(ids: set<string>, fails: set<string>, start: seq<TraceEvent>, m: Machine, k: nat)
    requires InjectedSince(ids, fails, start, m) && |start| <= k < |m.trace|
    ensures AsInjected(ids, fails, m.trace[k])
  {}

  /** Where the trace records the action that a run failed by. */
  lemma FailureAt(env: Env, limit: nat, m: Machine, m': Machine, cause: string, error: EngineError, c: F.Crash)
    returns (k: nat, a: string)
    requires F.FailsAs(env, limit + 1, m, m', cause, error, c) && error.ActionExecutionError?
    ensures |m.trace| <= k < |m'.trace| && m'.trace[k] == ActionFailed(F.Site(c.path, cause), a, error.message)
  {
    hide F.UndoRecords, F.ReactionChain, F.AllClean, F.Unwound;
    k := |m.trace| + |c.clean|;
    var record := if F.ActionRecord(env, F.Site(c.path, cause), c.broken, error) then c.broken
                  else c.broken[..|c.broken| - 1];
    a :| a in env.actions && record == [ActionFailed(F.Site(c.path, cause), a, error.message)];
    assert m'.trace == m.trace + (c.clean + c.broken + F.Unwound(c.undo));
    assert c.broken[0] == record[0];
  }

  /**
   The main result. A scenario replayed from a fresh set lists, for each event that failed by
   an action, an action that the event itself names, and no event fails for want of an action.
   */
  lemma {:induction false} ErrorsAreInjected(env: Env, limit: nat, m: Machine, events: seq<ScenarioEvent>)
    ensures forall error :: error in Replayed(env, ActionIds(env.transitions), limit, m, {}, events).1 ==>
              exists ev :: ev in events && ev.input.signalId == error.signalId && ev.input.event == error.event
                           && Allowed(ActionIds(env.transitions), Named(ev.failActions), error.error)
    decreases |events|
  {
    hide Deliver, Allowed, ActionIds;
    var ids := ActionIds(env.transitions);
    InjectionIsScoped(env, ids, limit, m, events);
    if events != [] {
      var ev, named := events[0], Named(events[0].failActions);
      FailsByInjection(env, limit, named, m, ev.input);
      var m1 := Deliver(WithStubs(env, ids, named), limit, m, ev.input).0;
      ErrorsAreInjected(env, limit, m1, events[1..]);
      InjectionIsScoped(env, ids, limit, m1, events[1..]);
      assert events == [ev] + events[1..];
    }
  }

  /**
   A compensation that no transition uses is not among the registered actions. So in a
   replay it never runs: it is recorded as started and as done, but neither succeeds nor fails.
   */
  lemma UnlistedCompensationNeverRuns(env: Env, limit: nat, fails: set<string>, m: Machine, i: Input, a: string)
    requires a !in ActionIds(env.transitions)
    ensures var m' := Deliver(WithStubs(env, ActionIds(env.transitions), fails), limit, m, i).0;
            && |m.trace| <= |m'.trace|
            && forall k :: |m.trace| <= k < |m'.trace| ==>
                 match m'.trace[k]
                 case ActionFailed(_, b, _) => b != a
                 case ActionSucceeded(_, b) => b != a
                 case _ => true
  {
    RunsAsInjected(env, ActionIds(env.transitions), fails, limit, m, i);
  }

  // ---- The state an error reports ------------------------------------------------------

  /** When an event's own transition fails, the state reported is the one before the event. */
  lemma OwnFailureRollsBack(env: Env, limit: nat, m: Machine, i: Input)
    requires Attempt(env, m, i.signalId, i.event, i.payload).1.Failure?
    ensures Deliver(env, limit, m, i).0.signals == m.signals
  {
    hide Find, Blocked, RunActions;
    if i.signalId in m.signals {
      var current := m.signals[i.signalId].current;
      var found := Find(env.transitions, i.signalId, i.event, current);
      if found.Some? {
        var t, m1 := found.value, m.Push(EventReceived(i.signalId, i.event, i.payload));
        var ctx := ActionContext(i.signalId, current, t.to, i.event, i.payload, None);
        I.ActionsIgnoreStates(env, m1, t.actions.onExit, ctx, m1.signals);
        var moved := RunActions(env, m1, t.actions.onExit, ctx).machine.Move(i.signalId, t.to);
        I.ActionsIgnoreStates(env, moved, t.actions.onTransition + t.actions.onEnter, ctx, moved.signals);
        assert moved.signals[i.signalId].(current := current) == m.signals[i.signalId];
        assert moved.signals[i.signalId := m.signals[i.signalId]] == m.signals;
      }
    }
  }

  /** The state that the records of `trace` leave signal `id` in: that of the last change, or `before`. */
  function LastEntered(id: string, trace: seq<TraceEvent>, before: string): string {
    if trace == [] then before
    else
      var e := trace[|trace| - 1];
      if e.StateChanged? && e.signalId == id then e.to else LastEntered(id, trace[..|trace| - 1], before)
  }

  lemma {:induction false} ReplayedLast(s: R.States, trace: seq<TraceEvent>, id: string)
    requires id in s
    ensures id in R.Replayed(s, trace) && R.Replayed(s, trace)[id] == LastEntered(id, trace, s[id])
    decreases |trace|
  {
    if trace != [] {
      ReplayedLast(s, trace[..|trace| - 1], id);
    }
  }

  /** Whatever becomes of an event, the state reported is the one that its signal's last recorded change entered. */
  lemma StateReported(env: Env, limit: nat, m: Machine, i: Input)
    ensures var m' := Deliver(env, limit, m, i).0;
            && m.trace <= m'.trace
            && (i.signalId in m.signals ==>
                  m'.Current(i.signalId) == LastEntered(i.signalId, m'.trace[|m.trace|..], m.Current(i.signalId)))
            && (i.signalId !in m.signals ==> m'.Current(i.signalId) == "")
  {
    hide Deliver;
    F.DeliverContinues(env, limit, m, i);
    var m', before := Deliver(env, limit, m, i).0, R.Currents(m.signals);
    assert R.Currents(m'.signals).Keys == m'.signals.Keys;
    if i.signalId in m.signals {
      ReplayedLast(before, m'.trace[|m.trace|..], i.signalId);
    } else {
      NothingReplayed(before, m'.trace[|m.trace|..]);
    }
  }

  lemma {:induction false} NothingReplayed(s: R.States, trace: seq<TraceEvent>)
    ensures R.Replayed(s, trace).Keys == s.Keys
    decreases |trace|
  {
    if trace != [] {
      NothingReplayed(s, trace[..|trace| - 1]);
    }
  }

  /** What an event that failed adds to the list of errors, and one that did not. */
  lemma ErrorReported(env: Env, limit: nat, m: Machine, i: Input)
    ensures var (m', outcome) := Deliver(env, limit, m, i);
            var listed := ErrorOf(m', i, outcome);
            if outcome.Success? then listed == []
            else
              && |listed| == 1 && listed[0].signalId == i.signalId && listed[0].event == i.event
              && listed[0].error == outcome.error && m.trace <= m'.trace
              && listed[0].stateAfter
                 == if i.signalId in m.signals
                    then LastEntered(i.signalId, m'.trace[|m.trace|..], m.signals[i.signalId].current)
                    else ""
  {
    hide Deliver, LastEntered;
    StateReported(env, limit, m, i);
  }

  /** The machine before event `k` of a scenario. */
  function Before(env: Env, ids: set<string>, limit: nat, m: Machine, events: seq<ScenarioEvent>, k: nat): Machine
    requires k <= |events|
    decreases k
  {
    if k == 0 then m
    else
      var named := Named(events[k - 1].failActions);
      Deliver(WithStubs(env, ids, named), limit, Before(env, ids, limit, m, events, k - 1), events[k - 1].input).0
  }

  /** What event `k` adds to the list, run by itself in the machine before it. */
  function ErrorAt(env: Env, ids: set<string>, limit: nat, m: Machine, events: seq<ScenarioEvent>,
                   k: nat): seq<ScenarioError>
    requires k < |events|
  {
    var i := events[k].input;
    var (m', outcome) := Deliver(WithStubs(env, ids, Named(events[k].failActions)), limit,
                                 Before(env, ids, limit, m, events, k), i);
    ErrorOf(m', i, outcome)
  }

  function ErrorsTo(env: Env, ids: set<string>, limit: nat, m: Machine, events: seq<ScenarioEvent>,
                    k: nat): seq<ScenarioError>
    requires k <= |events|
  {
    if k == 0 then [] else ErrorsTo(env, ids, limit, m, events, k - 1) + ErrorAt(env, ids, limit, m, events, k - 1)
  }

  lemma {:induction false} BeforeRest(env: Env, ids: set<string>, limit: nat, m: Machine, events: seq<ScenarioEvent>,
                                      k: nat)
    requires 0 < k <= |events|
    ensures var m1 := Deliver(WithStubs(env, ids, Named(events[0].failActions)), limit, m, events[0].input).0;
            Before(env, ids, limit, m, events, k) == Before(env, ids, limit, m1, events[1..], k - 1)
    decreases k
  {
    hide Deliver;
    if k > 1 {
      BeforeRest(env, ids, limit, m, events, k - 1);
    } else {
      assert Before(env, ids, limit, m, events, 0) == m;
    }
  }

  lemma {:induction false} ErrorsToRest(env: Env, ids: set<string>, limit: nat, m: Machine, events: seq<ScenarioEvent>,
                                        k: nat)
    requires 0 < k <= |events|
    ensures var m1 := Deliver(WithStubs(env, ids, Named(events[0].failActions)), limit, m, events[0].input).0;
            var rest := ErrorsTo(env, ids, limit, m1, events[1..], k - 1);
            ErrorsTo(env, ids, limit, m, events, k) == ErrorAt(env, ids, limit, m, events, 0) + rest
    decreases k
  {
    hide Deliver, Before, ErrorOf;
    if k > 1 {
      ErrorsToRest(env, ids, limit, m, events, k - 1);
      BeforeRest(env, ids, limit, m, events, k - 1);
      assert events[1..][k - 2] == events[k - 1];
    } else {
      assert ErrorsTo(env, ids, limit, m, events, 0) == [];
    }
  }

  /**
   The list of errors holds, event by event and in order, what each reports in the machine that
   the events before it left, each of them with the failures it names itself.
   */
  lemma {:induction false} ErrorsInOrder(env: Env, ids: set<string>, limit: nat, m: Machine, events: seq<ScenarioEvent>)
    ensures Scoped(env, ids, limit, m, events)
         == (Before(env, ids, limit, m, events, |events|), ErrorsTo(env, ids, limit, m, events, |events|))
    decreases |events|
  {
    hide Deliver, ErrorOf;
    if events != [] {
      var m1 := Deliver(WithStubs(env, ids, Named(events[0].failActions)), limit, m, events[0].input).0;
      ErrorsInOrder(env, ids, limit, m1, events[1..]);
      BeforeRest(env, ids, limit, m, events, |events|);
      ErrorsToRest(env, ids, limit, m, events, |events|);
      assert Before(env, ids, limit, m, events, 0) == m;
    }
  }

  /** No cascade that starts when signal `id` enters `state` comes back to it. */
  ghost predicate NoReturn(env: Env, id: string, state: string) {
    forall r :: r in Matching(env.reactions, id, state) ==> !D.Reaches(env, r.toSignal, id)
  }

  /** The signals to which cascades lead when `id` enters `state`. */
  ghost predicate Downstream(env: Env, id: string, state: string, b: string) {
    exists r :: r in Matching(env.reactions, id, state) && D.Reaches(env, r.toSignal, b)
  }

  lemma DownstreamIsConfined(env: Env, id: string, state: string)
    ensures I.Confined(env, b => Downstream(env, id, state, b))
    ensures forall r :: r in Matching(env.reactions, id, state) ==> Downstream(env, id, state, r.toSignal)
  {
    hide D.Reaches, Matching;
    forall r | r in env.reactions && Downstream(env, id, state, r.fromSignal)
      ensures Downstream(env, id, state, r.toSignal)
    {
      var first :| first in Matching(env.reactions, id, state) && D.Reaches(env, first.toSignal, r.fromSignal);
      D.ReachIsConfined(env, first.toSignal);
    }
    forall r | r in Matching(env.reactions, id, state) ensures Downstream(env, id, state, r.toSignal) {
      D.ReachIsConfined(env, r.toSignal);
    }
  }

  /** Firing reactions whose targets are in `live` leaves a signal outside it in its state. */
  lemma {:induction false} FireAllLeaves(env: Env, live: string -> bool, fuel: nat, m: Machine, rs: seq<ReactionDef>,
                                         parent: Option<Json>, cause: string, id: string)
    requires I.Confined(env, live) && (forall r :: r in rs ==> live(r.toSignal)) && !live(id)
    ensures FireAll(env, fuel, m, rs, parent, cause).0.Current(id) == m.Current(id)
    decreases |rs|
  {
    hide I.Confined, Fire;
    if rs != [] {
      D.FireWrites(env, live, fuel, m, rs[0], parent, cause);
      var (m1, error) := Fire(env, fuel, m, rs[0], parent, cause);
      if error.None? {
        FireAllLeaves(env, live, fuel, m1, rs[1..], parent, cause, id);
      }
    }
  }

  lemma AttemptLeads(env: Env, m: Machine, id: string, event: string, payload: Option<Json>)
    requires Attempt(env, m, id, event, payload).1.Success?
    ensures var (m', outcome) := Attempt(env, m, id, event, payload);
            m'.Current(id) == outcome.value.to
  {
    hide Find, Blocked, RunActions;
    var current := m.signals[id].current;
    var t, m1 := Find(env.transitions, id, event, current).value, m.Push(EventReceived(id, event, payload));
    var ctx := ActionContext(id, current, t.to, event, payload, None);
    I.ActionsIgnoreStates(env, m1, t.actions.onExit, ctx, m1.signals);
    var moved := RunActions(env, m1, t.actions.onExit, ctx).machine.Move(id, t.to);
    I.ActionsIgnoreStates(env, moved, t.actions.onTransition + t.actions.onEnter, ctx, moved.signals);
  }

  lemma ScheduledMatch(rs: seq<ReactionDef>, id: string, state: string)
    ensures forall r :: r in Scheduler.Schedule(Matching(rs, id, state)) ==> r in Matching(rs, id, state)
  {
    var matched := Matching(rs, id, state);
    var last := Scheduler.ScheduleEnd(matched);
    Scheduler.FiredAreMatched(matched, Scheduler.Schedule(matched), last);
  }

  lemma DeliverFires(env: Env, limit: nat, m: Machine, i: Input)
    requires Attempt(env, m, i.signalId, i.event, i.payload).1.Success?
    ensures var (m1, attempt) := Attempt(env, m, i.signalId, i.event, i.payload);
            var rs := Scheduler.Schedule(Matching(env.reactions, i.signalId, attempt.value.to));
            Deliver(env, limit, m, i).0 == FireAll(env, limit, m1, rs, i.payload, i.signalId).0
  {
    hide Attempt, Scheduler.Schedule, Matching, FireAll;
  }

  /** A transition stays committed, whatever becomes of the cascades it starts, if none comes back to its signal. */
  lemma CascadeFailureStaysCommitted(env: Env, limit: nat, m: Machine, i: Input)
    requires var attempt := Attempt(env, m, i.signalId, i.event, i.payload).1;
             attempt.Success? && NoReturn(env, i.signalId, attempt.value.to)
    ensures Deliver(env, limit, m, i).0.Current(i.signalId)
         == Attempt(env, m, i.signalId, i.event, i.payload).1.value.to
  {
    var id := i.signalId;
    AttemptLeads(env, m, id, i.event, i.payload);
    DeliverFires(env, limit, m, i);
    hide Attempt, Scheduler.Schedule, Matching, I.Confined, D.Reaches, FireAll, Deliver;
    var (m1, attempt) := Attempt(env, m, id, i.event, i.payload);
    var to := attempt.value.to;
    DownstreamIsConfined(env, id, to);
    ScheduledMatch(env.reactions, id, to);
    FireAllLeaves(env, b => Downstream(env, id, to, b), limit, m1,
                  Scheduler.Schedule(Matching(env.reactions, id, to)), i.payload, id, id);
  }

  /**
   Exactly when an error reports the state before the event, if no cascade comes back to the
   event's signal: when the event's own transition fails, or leads from a state to itself.
   */
  lemma StateAfterIff(env: Env, limit: nat, m: Machine, i: Input)
    requires Deliver(env, limit, m, i).1.Failure?
    requires var attempt := Attempt(env, m, i.signalId, i.event, i.payload).1;
             attempt.Success? ==> NoReturn(env, i.signalId, attempt.value.to)
    ensures var attempt := Attempt(env, m, i.signalId, i.event, i.payload).1;
            Deliver(env, limit, m, i).0.Current(i.signalId) == m.Current(i.signalId)
            <==> attempt.Failure? || attempt.value.to == m.Current(i.signalId)
  {
    hide Attempt, NoReturn, Deliver;
    if Attempt(env, m, i.signalId, i.event, i.payload).1.Failure? {
      OwnFailureRollsBack(env, limit, m, i);
    } else {
      CascadeFailureStaysCommitted(env, limit, m, i);
    }
  }

  /**
   A cascade that comes back: the event's own transition is committed, a reaction further down
   takes the signal back, and a last one fails. The state before the event is reported.
   */
  lemma ReturningCascadeRestores(env: Env, m: Machine, limit: nat)
    requires env.transitions == [Plain("a", "off", "go", "on"), Plain("a", "on", "back", "off"),
                                 Plain("b", "off", "go", "on")]
    requires env.reactions == [Leads("a", "on", "b", "go"), Leads("b", "on", "a", "back"), Leads("b", "on", "c", "go")]
    requires var off := SignalState("off", ["off", "on"], "off"); m.signals == map["a" := off, "b" := off]
    requires limit >= 2
    ensures var (m', outcome) := Deliver(env, limit, m, Input("a", "go", None));
            outcome == Failure(SignalNotFound("c")) && m'.Current("a") == "off" == m.Current("a")
    ensures var attempt := Attempt(env, m, "a", "go", None).1; attempt.Success? && attempt.value.to == "on"
  {
    hide Attempt, Matching, Find, Scheduler.Schedule;
    var rs := env.reactions;
    assert rs[1..] == [rs[1], rs[2]] && [rs[1], rs[2]][1..] == [rs[2]] && [rs[2]][1..] == [];
    MatchingOf(rs);
    FindOf(env.transitions);
    var m1 := PlainAttempt(env, m, "a", "off", "go", "on");
    var m2 := PlainAttempt(env, m1, "b", "off", "go", "on");
    assert "a"[0] != "b"[0] && "a"[0] != "c"[0] && "b"[0] != "c"[0];
    var m3 := PlainAttempt(env, m2, "a", "on", "back", "off");
    Scheduler.ScheduleWithoutJoins([]);
    var (m3', back) := Send(env, limit - 1, m2, "a", "back", None, None);
    assert FireAll(env, limit - 2, m3, [], None, "a") == (m3, None);
    assert m3' == m3 && back.Success?;
    SendUndeclared(env, limit - 1, m3, "c", "go");
    var m4 := Send(env, limit - 1, m3, "c", "go", None, None).0;
    FireFails(env, limit - 1, m3, rs[2]);
    assert Fire(env, limit - 1, m2, rs[1], None, "b") == (m3, None);
    assert FireAll(env, limit - 1, m2, [rs[1], rs[2]], None, "b") == (m4, Some(SignalNotFound("c")));
    Scheduler.ScheduleWithoutJoins([rs[1], rs[2]]);
    assert Send(env, limit, m1, "b", "go", None, None) == (m4, Failure(SignalNotFound("c")));
    assert Fire(env, limit, m1, rs[0], None, "a") == (m4, Some(SignalNotFound("c")));
    assert FireAll(env, limit, m1, [rs[0]], None, "a") == (m4, Some(SignalNotFound("c")));
    Scheduler.ScheduleWithoutJoins([rs[0]]);
  }

  lemma SendUndeclared(env: Env, fuel: nat, m: Machine, id: string, event: string)
    requires id !in m.signals && fuel > 0
    ensures Send(env, fuel, m, id, event, None, None)
         == (m.Push(EventReceived(id, event, None)), Failure(SignalNotFound(id)))
  {}

  lemma FireFails(env: Env, fuel: nat, m: Machine, r: ReactionDef)
    requires r.guard.None? && r.onFail.None? && r.payload.None? && fuel > 0 && r.toSignal !in m.signals
    ensures Fire(env, fuel, m, r, None, r.fromSignal)
         == (Send(env, fuel, m, r.toSignal, r.event, None, None).0, Some(SignalNotFound(r.toSignal)))
  {}

  lemma MatchingOf(rs: seq<ReactionDef>)
    requires rs == [Leads("a", "on", "b", "go"), Leads("b", "on", "a", "back"), Leads("b", "on", "c", "go")]
    ensures Matching(rs, "a", "on") == [rs[0]] && Matching(rs, "a", "off") == []
    ensures Matching(rs, "b", "on") == [rs[1], rs[2]]
  {
    assert "a"[0] != "b"[0];
    assert rs[1..] == [rs[1], rs[2]] && [rs[1], rs[2]][1..] == [rs[2]] && [rs[2]][1..] == [];
    assert Matching([rs[2]], "a", "on") == Matching([rs[2]], "a", "off") == [];
    assert Matching([rs[1], rs[2]], "a", "on") == Matching([rs[1], rs[2]], "a", "off") == [];
    assert Matching([rs[2]], "b", "on") == [rs[2]];
    assert Matching([rs[1], rs[2]], "b", "on") == [rs[1], rs[2]];
  }

  lemma FindOf(ts: seq<TransitionDef>)
    requires ts == [Plain("a", "off", "go", "on"), Plain("a", "on", "back", "off"), Plain("b", "off", "go", "on")]
    ensures Find(ts, "a", "go", "off") == Some(ts[0])
    ensures Find(ts, "a", "back", "on") == Some(ts[1])
    ensures Find(ts, "b", "go", "off") == Some(ts[2])
  {
    assert "a"[0] != "b"[0];
    assert ts[1..] == [ts[1], ts[2]] && [ts[1], ts[2]][1..] == [ts[2]] && [ts[2]][1..] == [];
    assert Find([ts[2]], "b", "go", "off") == Some(ts[2]);
    assert Find([ts[1], ts[2]], "b", "go", "off") == Some(ts[2]);
    assert Find([ts[1], ts[2]], "a", "back", "on") == Some(ts[1]);
  }

  /** A transition without guard and actions moves its signal, and nothing else. */
  lemma PlainAttempt(env: Env, m: Machine, id: string, from: string, event: string, to: string) returns (m': Machine)
    requires id in m.signals && m.signals[id].current == from
    requires Find(env.transitions, id, event, from) == Some(Plain(id, from, event, to))
    ensures Attempt(env, m, id, event, None) == (m', Success(TransitionResult(id, from, to, [])))
    ensures m'.signals == m.signals[id := m.signals[id].(current := to)]
  {
    m' := Attempt(env, m, id, event, None).0;
  }

  function Plain(id: string, from: string, event: string, to: string): TransitionDef {
    TransitionDef(id, from, event, to, ActionBinding([], [], []), None)
  }

  function Leads(from: string, state: string, to: string, event: string): ReactionDef {
    ReactionDef(from, state, to, event, None, None, None, [], None)
  }
}
