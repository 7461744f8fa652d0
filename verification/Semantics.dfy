/**
 What the engine does, as functions on values (src/engine.rs).

 The mutually recursive core of the source, `send_event_internal`, `fire_one_reaction`
 and `dispatch_reactions`, becomes `Send`, `Fire` and `FireAll`. `Send` takes as `fuel` the
 number of cascade levels still allowed, `max_cascade_depth + 1 - depth` in the source's
 terms. `FireAll` fires a list of reactions in order; the fork/join loop is `FireAll` over
 `Scheduler.Schedule`.
 */
module Semantics {
  import opened Wrappers
  import opened Schema
  import opened Errors
  import Scheduler

  // ---- Actions and guards --------------------------------------------------------------

  datatype ActionContext = ActionContext(
    signalId: string,
    fromState: string,
    toState: string,
    event: string,
    payload: Option<Json>,
    failure: Option<Message>)

  datatype ActionCall = ActionCall(actionId: string, ctx: ActionContext)

  /**
   An action callback. It owns hidden state that only callbacks touch, so its outcome is a
   function of all action calls made before and of its context. It returns `None` on
   success. It does not receive the engine, so it cannot change it.
   */
  type ActionFn = (seq<ActionCall>, ActionContext) -> Option<EngineError>

  /** The guard evaluator: it reads the guard text and the payload. */
  type GuardFn = (string, Option<Json>) -> Result<bool, string>

  /** What a run never changes. */
  datatype Env = Env(
    transitions: seq<TransitionDef>,
    reactions: seq<ReactionDef>,
    actions: map<string, ActionFn>,
    guards: GuardFn)

  // ---- The state of a run --------------------------------------------------------------

  datatype SignalState = SignalState(current: string, states: seq<string>, initialState: string)

  /** `calls` records the hidden state of the actions: every call made so far. */
  datatype Machine = Machine(
    signals: map<string, SignalState>,
    trace: seq<TraceEvent>,
    calls: seq<ActionCall>)
  {
    function Push(e: TraceEvent): Machine {
      this.(trace := trace + [e])
    }

    /** Moves signal `id`, if there is one, to state `s`. */
    function Move(id: string, s: string): Machine {
      if id in signals then this.(signals := signals[id := signals[id].(current := s)]) else this
    }

    /** The current state of `id`, or the empty string the source falls back to. */
    function Current(id: string): string {
      if id in signals then signals[id].current else ""
    }
  }

  datatype TransitionResult = TransitionResult(signalId: string, from: string, to: string, executed: seq<string>)

  type Outcome = Result<TransitionResult, EngineError>

  // ---- One transition ------------------------------------------------------------------

  function FailureText(e: EngineError): Message {
    match e
    case ActionExecutionError(m) => m
    case _ => Display(e)
  }

  /** Runs one action for `signalId`, tracing its start and its end. */
  function RunAction(env: Env, m: Machine, signalId: string, actionId: string,
                     ctx: ActionContext): (Machine, Option<EngineError>) {
    var m1 := m.Push(ActionStarted(signalId, actionId));
    if actionId !in env.actions then (m1, Some(ActionNotFound(actionId)))
    else
      var m2 := m1.(calls := m1.calls + [ActionCall(actionId, ctx)]);
      match env.actions[actionId](m1.calls, ctx)
      case Some(e) =>
        (m2.Push(ActionFailed(signalId, actionId, FailureText(e))), Some(ActionExecutionError(FailureText(e))))
      case None => (m2.Push(ActionSucceeded(signalId, actionId)), None)
  }

  datatype Phase = Phase(machine: Machine, executed: seq<string>, error: Option<EngineError>)

  /** Runs the actions `ids` in order up to the first that fails. */
  function RunActions(env: Env, m: Machine, ids: seq<string>, ctx: ActionContext): Phase
    decreases |ids|
  {
    if ids == [] then Phase(m, [], None)
    else
      var (m1, error) := RunAction(env, m, ctx.signalId, ids[0], ctx);
      if error.Some? then Phase(m1, [], error)
      else
        var rest := RunActions(env, m1, ids[1..], ctx);
        Phase(rest.machine, [ids[0]] + rest.executed, rest.error)
  }

  predicate Matches(t: TransitionDef, signalId: string, event: string, current: string) {
    t.signalId == signalId && t.event == event && (t.from == current || t.from == WILDCARD)
  }

  /** The first transition in source order that matches. */
  function Find(ts: seq<TransitionDef>, signalId: string, event: string, current: string): Option<TransitionDef> {
    if ts == [] then None
    else if Matches(ts[0], signalId, event, current) then Some(ts[0])
    else Find(ts[1..], signalId, event, current)
  }

  /** The error by which a guard keeps its transition from running, if it does. */
  function Blocked(env: Env, guard: Option<string>, ctx: ActionContext): Option<EngineError> {
    match guard
    case None => None
    case Some(g) =>
      match env.guards(g, ctx.payload)
      case Success(true) => None
      case Success(false) => Some(GuardBlocked(ctx.signalId, ctx.event, g))
      case Failure(text) => Some(GuardEvaluationError(text))
  }

  /** The three action phases, with the tentative move between the first and the second. */
  function Transit(env: Env, m: Machine, actions: ActionBinding, ctx: ActionContext): (Machine, Outcome) {
    var leave := RunActions(env, m, actions.onExit, ctx);
    if leave.error.Some? then (leave.machine, Failure(leave.error.value))
    else
      var enter := RunActions(env, leave.machine.Move(ctx.signalId, ctx.toState),
                              actions.onTransition + actions.onEnter, ctx);
      if enter.error.Some? then
        (enter.machine.Move(ctx.signalId, ctx.fromState).Push(Rollbacked(ctx.signalId, ctx.toState, ctx.fromState)),
         Failure(enter.error.value))
      else
        (enter.machine.Push(StateChanged(ctx.signalId, ctx.fromState, ctx.toState)),
         Success(TransitionResult(ctx.signalId, ctx.fromState, ctx.toState, leave.executed + enter.executed)))
  }

  /** An event up to and including its own transition, without the reactions to it. */
  function Attempt(env: Env, m: Machine, signalId: string, event: string, payload: Option<Json>): (Machine, Outcome) {
    var m1 := m.Push(EventReceived(signalId, event, payload));
    if signalId !in m.signals then (m1, Failure(SignalNotFound(signalId)))
    else
      var current := m.signals[signalId].current;
      match Find(env.transitions, signalId, event, current)
      case None => (m1, Failure(TransitionNotFound(signalId, event)))
      case Some(t) =>
        var ctx := ActionContext(signalId, current, t.to, event, payload, None);
        match Blocked(env, t.guard, ctx)
        case Some(e) => (m1, Failure(e))
        case None => Transit(env, m1, t.actions, ctx)
  }

  // ---- Cascades ------------------------------------------------------------------------

  /** The reactions to `signalId` entering `state`, in source order. */
  function Matching(rs: seq<ReactionDef>, signalId: string, state: string): seq<ReactionDef> {
    if rs == [] then []
    else
      (if rs[0].fromSignal == signalId && (rs[0].fromState == state || rs[0].fromState == WILDCARD) then [rs[0]]
       else [])
      + Matching(rs[1..], signalId, state)
  }

  /** Evaluates and traces the guard of `r`; the reaction goes ahead only if it is true. */
  function Gate(env: Env, m: Machine, r: ReactionDef, parent: Option<Json>, cause: string): (Machine, bool) {
    match r.guard
    case None => (m, true)
    case Some(g) =>
      var outcome := env.guards(g, parent);
      (m.Push(ReactionGuardEvaluated(cause, Head(r), g, outcome)), outcome == Success(true))
  }

  /** Runs the `on_fail` action of `r`, if any; its outcome is traced and ignored. */
  function Compensate(env: Env, m: Machine, r: ReactionDef, parent: Option<Json>, cause: string,
                      error: EngineError): Machine {
    match r.onFail
    case None => m
    case Some(id) =>
      var ctx := ActionContext(r.toSignal, r.fromState, m.Current(r.toSignal), r.event, parent, Some(Display(error)));
      RunAction(env, m, r.toSignal, id, ctx).0.Push(ReactionCompensated(cause, Head(r), id, Display(error)))
  }

  /**
   Sends `event` to `signalId`. `parent` is the payload against which the guards of the
   reactions to this transition are evaluated.
   */
  function Send(env: Env, fuel: nat, m: Machine, signalId: string, event: string, payload: Option<Json>,
                parent: Option<Json>): (Machine, Outcome)
    decreases fuel, 0, 0
  {
    if fuel == 0 then (m, Failure(CascadeDepthExceeded))
    else
      var (m1, attempt) := Attempt(env, m, signalId, event, payload);
      match attempt
      case Failure(_) => (m1, attempt)
      case Success(result) =>
        var matched := Matching(env.reactions, signalId, result.to);
        var (m2, error) := FireAll(env, fuel - 1, m1, Scheduler.Schedule(matched), parent, signalId);
        if error.Some? then (m2, Failure(error.value)) else (m2, attempt)
  }

  /** Fires the reactions `rs` in order up to the first whose cascade fails. */
  function FireAll(env: Env, fuel: nat, m: Machine, rs: seq<ReactionDef>, parent: Option<Json>,
                   cause: string): (Machine, Option<EngineError>)
    decreases fuel, 2, |rs|
  {
    if rs == [] then (m, None)
    else
      var (m1, error) := Fire(env, fuel, m, rs[0], parent, cause);
      if error.Some? then (m1, error) else FireAll(env, fuel, m1, rs[1..], parent, cause)
  }

  /** Fires one reaction: its guard, its cascade with `fuel` levels, its compensation. */
  function Fire(env: Env, fuel: nat, m: Machine, r: ReactionDef, parent: Option<Json>,
                cause: string): (Machine, Option<EngineError>)
    decreases fuel, 1, 0
  {
    var (m1, open) := Gate(env, m, r, parent, cause);
    if !open then (m1, None)
    else
      var (m2, outcome) := Send(env, fuel, m1, r.toSignal, r.event, r.payload, r.payload);
      match outcome
      case Success(_) => (m2, None)
      case Failure(e) => (Compensate(env, m2, r, parent, cause, e), Some(e))
  }

  // ---- Runs ----------------------------------------------------------------------------

  datatype Input = Input(signalId: string, event: string, payload: Option<Json>)

  /** A caller's `send_event` under a depth limit. */
  function Deliver(env: Env, limit: nat, m: Machine, input: Input): (Machine, Outcome) {
    Send(env, limit + 1, m, input.signalId, input.event, input.payload, input.payload)
  }

  /** A caller's whole session: each event is delivered whatever became of those before. */
  function Session(env: Env, limit: nat, m: Machine, inputs: seq<Input>): (Machine, seq<Outcome>)
    decreases |inputs|
  {
    if inputs == [] then (m, [])
    else
      var (m1, outcome) := Deliver(env, limit, m, inputs[0]);
      var (m2, outcomes) := Session(env, limit, m1, inputs[1..]);
      (m2, [outcome] + outcomes)
  }
}
