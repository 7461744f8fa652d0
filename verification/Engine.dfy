/** The engine as the source writes it: a mutable object, proved to compute `Semantics`. */
module Engine {
  import opened Wrappers
  import opened Schema
  import opened Errors
  import opened Semantics
  import C = Compose
  import S = Scheduler
  import V = Validation

  class TopologyEngine {
    var signals: map<string, SignalState>
    var transitions: seq<TransitionDef>
    var reactions: seq<ReactionDef>
    var actions: map<string, ActionFn>
    var trace: seq<TraceEvent>
    var maxCascadeDepth: nat
    /** The hidden state of the action callbacks. */
    var calls: seq<ActionCall>
    const guards: GuardFn

    function View(): Machine
      reads this
    {
      Machine(signals, trace, calls)
    }

    function Environment(): Env
      reads this`transitions, this`reactions, this`actions
    {
      Env(transitions, reactions, actions, guards)
    }

    /** The cascade levels left at `depth`. */
    function Fuel(depth: nat): nat
      reads this`maxCascadeDepth
    {
      if depth > maxCascadeDepth then 0 else maxCascadeDepth + 1 - depth
    }

    constructor (flat: TopologySchema, guards: GuardFn)
      ensures View() == V.InitialMachine(flat) && Environment() == V.EnvOf(flat, map[], guards)
      ensures maxCascadeDepth == 8
    {
      signals := V.InitialStates(flat.signals);
      transitions, reactions, actions := flat.transitions, flat.reactions, map[];
      trace, calls, maxCascadeDepth := [], [], 8;
      this.guards := guards;
    }

    /**
     Builds an engine from a schema: expands it, validates the result, and starts every
     signal in its initial state. An invalid schema is refused with the fault it has.
     */
    static method FromSchema(schema: TopologySchema, guards: GuardFn) returns (r: Result<TopologyEngine, EngineError>)
      ensures C.Expanded(schema).Failure? ==> r == Failure(C.Expanded(schema).error)
      ensures C.Expanded(schema).Success? ==> (
        var flat := C.Expanded(schema).value;
        && (r.Success? <==> V.WellFormed(flat))
        && (r.Failure? ==> V.Blames(flat, r.error))
        && (r.Success? ==> fresh(r.value) && r.value.View() == V.InitialMachine(flat)
                           && r.value.Environment() == V.EnvOf(flat, map[], guards) && r.value.maxCascadeDepth == 8))
    {
      var expanded := C.Expand(schema);
      if expanded.Failure? {
        return Failure(expanded.error);
      }
      var fault := V.Validate(expanded.value);
      if fault.Some? {
        return Failure(fault.value);
      }
      var engine := new TopologyEngine(expanded.value, guards);
      return Success(engine);
    }

    method RegisterAction(actionId: string, f: ActionFn)
      modifies this`actions
      ensures actions == old(actions)[actionId := f]
    {
      actions := actions[actionId := f];
    }

    method SetMaxCascadeDepth(depth: nat)
      modifies this`maxCascadeDepth
      ensures maxCascadeDepth == depth
    {
      maxCascadeDepth := depth;
    }

    method GetState(signalId: string) returns (r: Result<string, EngineError>)
      ensures r == if signalId in signals then Success(signals[signalId].current) else Failure(SignalNotFound(signalId))
    {
      if signalId in signals {
        return Success(signals[signalId].current);
      }
      return Failure(SignalNotFound(signalId));
    }

    method Push(e: TraceEvent)
      modifies this`trace
      ensures View() == old(View()).Push(e)
    {
      trace := trace + [e];
    }

    method Move(signalId: string, s: string)
      modifies this`signals
      ensures View() == old(View()).Move(signalId, s)
    {
      if signalId in signals {
        signals := signals[signalId := signals[signalId].(current := s)];
      }
    }

    method RunAction(signalId: string, actionId: string, ctx: ActionContext) returns (error: Option<EngineError>)
      modifies this`trace, this`calls
      ensures (View(), error) == Semantics.RunAction(Environment(), old(View()), signalId, actionId, ctx)
    {
      Push(ActionStarted(signalId, actionId));
      if actionId !in actions {
        return Some(ActionNotFound(actionId));
      }
      var failure := actions[actionId](calls, ctx);
      calls := calls + [ActionCall(actionId, ctx)];
      match failure
      case Some(e) =>
        var msg := FailureText(e);
        Push(ActionFailed(signalId, actionId, msg));
        return Some(ActionExecutionError(msg));
      case None =>
        Push(ActionSucceeded(signalId, actionId));
        return None;
    }

    /** One of the three phase loops: appends the actions that succeeded to `executed`. */
    method RunPhase(ids: seq<string>, ctx: ActionContext, executed: seq<string>)
      returns (executed': seq<string>, error: Option<EngineError>)
      modifies this`trace, this`calls
      ensures var phase := RunActions(Environment(), old(View()), ids, ctx);
              View() == phase.machine && error == phase.error && executed' == executed + phase.executed
    {
      executed', error := executed, None;
      ghost var env, start := Environment(), View();
      for i := 0 to |ids|
        invariant error == None
        invariant Environment() == env && signals == start.signals
        invariant executed <= executed'
        invariant var phase := RunActions(env, View(), ids[i..], ctx);
                  RunActions(env, start, ids, ctx)
                    == Phase(phase.machine, executed'[|executed|..] + phase.executed, phase.error)
      {
        assert ids[i..][1..] == ids[i + 1..];
        error := RunAction(ctx.signalId, ids[i], ctx);
        if error.Some? {
          assert executed' == executed + executed'[|executed|..];
          return;
        }
        executed' := executed' + [ids[i]];
      }
      assert executed' == executed + executed'[|executed|..];
    }

    method SendEvent(signalId: string, event: string, payload: Option<Json>) returns (r: Outcome)
      modifies this`signals, this`trace, this`calls
      ensures (View(), r) == Deliver(Environment(), maxCascadeDepth, old(View()), Input(signalId, event, payload))
    {
      r := SendEventInternal(signalId, event, payload, payload, 0);
    }

    method SendEventInternal(signalId: string, event: string, payload: Option<Json>, parent: Option<Json>, depth: nat)
      returns (r: Outcome)
      modifies this`signals, this`trace, this`calls
      ensures (View(), r) == Send(Environment(), Fuel(depth), old(View()), signalId, event, payload, parent)
      decreases Fuel(depth), 0
    {
      if depth > maxCascadeDepth {
        return Failure(CascadeDepthExceeded);
      }
      r := AttemptTransition(signalId, event, payload);
      if r.Failure? {
        return;
      }
      var matched := MatchingReactions(signalId, r.value.to);
      var error := DispatchReactions(matched, parent, depth, signalId);
      if error.Some? {
        return Failure(error.value);
      }
    }

    /** The first part of the source's `send_event_internal`: up to the committed state change. */
    method AttemptTransition(signalId: string, event: string, payload: Option<Json>) returns (r: Outcome)
      modifies this`signals, this`trace, this`calls
      ensures (View(), r) == Attempt(Environment(), old(View()), signalId, event, payload)
    {
      Push(EventReceived(signalId, event, payload));
      if signalId !in signals {
        return Failure(SignalNotFound(signalId));
      }
      var fromState := signals[signalId].current;
      var found := FindTransition(signalId, event, fromState);
      if found.None? {
        return Failure(TransitionNotFound(signalId, event));
      }
      var transition := found.value;
      var toState := transition.to;
      var ctx := ActionContext(signalId, fromState, toState, event, payload, None);
      var block := Blocked(Environment(), transition.guard, ctx);
      if block.Some? {
        return Failure(block.value);
      }
      r := RunTransition(transition.actions, ctx);
    }

    /** The lifecycle phases, the tentative commit and its rollback. */
    method RunTransition(bound: ActionBinding, ctx: ActionContext) returns (r: Outcome)
      modifies this`signals, this`trace, this`calls
      ensures (View(), r) == Transit(Environment(), old(View()), bound, ctx)
    {
      hide RunActions;
      ghost var leave := RunActions(Environment(), View(), bound.onExit, ctx);
      var executed, error := RunPhase(bound.onExit, ctx, []);
      assert executed == leave.executed;
      if error.Some? {
        return Failure(error.value);
      }
      Move(ctx.signalId, ctx.toState);
      executed, error := RunEntryPhases(bound, ctx, executed);
      if error.Some? {
        Move(ctx.signalId, ctx.fromState);
        Push(Rollbacked(ctx.signalId, ctx.toState, ctx.fromState));
        return Failure(error.value);
      }
      Push(StateChanged(ctx.signalId, ctx.fromState, ctx.toState));
      return Success(TransitionResult(ctx.signalId, ctx.fromState, ctx.toState, executed));
    }

    /** `on_transition`, then, unless it failed, `on_enter`. */
    method RunEntryPhases(bound: ActionBinding, ctx: ActionContext, executed: seq<string>)
      returns (executed': seq<string>, error: Option<EngineError>)
      modifies this`trace, this`calls
      ensures var phase := RunActions(Environment(), old(View()), bound.onTransition + bound.onEnter, ctx);
              View() == phase.machine && error == phase.error && executed' == executed + phase.executed
    {
      hide RunActions;
      PhasesInOne(Environment(), View(), bound.onTransition, bound.onEnter, ctx);
      executed', error := RunPhase(bound.onTransition, ctx, executed);
      if error.None? {
        executed', error := RunPhase(bound.onEnter, ctx, executed');
      }
    }

    method FindTransition(signalId: string, event: string, current: string) returns (found: Option<TransitionDef>)
      ensures found == Find(transitions, signalId, event, current)
    {
      for i := 0 to |transitions|
        invariant Find(transitions, signalId, event, current) == Find(transitions[i..], signalId, event, current)
      {
        if Matches(transitions[i], signalId, event, current) {
          return Some(transitions[i]);
        }
      }
      return None;
    }

    method MatchingReactions(signalId: string, state: string) returns (matched: seq<ReactionDef>)
      ensures matched == Matching(reactions, signalId, state)
    {
      matched := [];
      for i := 0 to |reactions|
        invariant Matching(reactions, signalId, state) == matched + Matching(reactions[i..], signalId, state)
      {
        var r := reactions[i];
        ghost var rest := Matching(reactions[i + 1..], signalId, state);
        assert reactions[i..][0] == r && reactions[i..][1..] == reactions[i + 1..];
        if r.fromSignal == signalId && (r.fromState == state || r.fromState == WILDCARD) {
          assert Matching(reactions[i..], signalId, state) == [r] + rest;
          assert matched + ([r] + rest) == matched + [r] + rest;
          matched := matched + [r];
        } else {
          assert [] + rest == rest;
        }
      }
    }

    method FireOneReaction(reaction: ReactionDef, parent: Option<Json>, depth: nat, cause: string)
      returns (error: Option<EngineError>)
      modifies this`signals, this`trace, this`calls
      ensures (View(), error) == Fire(Environment(), Fuel(depth + 1), old(View()), reaction, parent, cause)
      decreases Fuel(depth + 1), 1
    {
      if reaction.guard.Some? {
        var outcome := guards(reaction.guard.value, parent);
        Push(ReactionGuardEvaluated(cause, Head(reaction), reaction.guard.value, outcome));
        match outcome
        case Success(true) =>
        case Success(false) => return None;
        case Failure(_) => return None;
      }
      var cascade := SendEventInternal(reaction.toSignal, reaction.event, reaction.payload, reaction.payload,
                                       depth + 1);
      if cascade.Failure? {
        if reaction.onFail.Some? {
          var toCurrent := if reaction.toSignal in signals then signals[reaction.toSignal].current else "";
          var text := Display(cascade.error);
          var ctx := ActionContext(reaction.toSignal, reaction.fromState, toCurrent, reaction.event, parent,
                                   Some(text));
          var _ := RunAction(reaction.toSignal, reaction.onFail.value, ctx);
          Push(ReactionCompensated(cause, Head(reaction), reaction.onFail.value, text));
        }
        return Some(cascade.error);
      }
      return None;
    }

    method DispatchReactions(matched: seq<ReactionDef>, parent: Option<Json>, depth: nat, cause: string)
      returns (error: Option<EngineError>)
      modifies this`signals, this`trace, this`calls
      ensures (View(), error) == FireAll(Environment(), Fuel(depth + 1), old(View()), S.Schedule(matched), parent,
                                         cause)
      decreases Fuel(depth + 1), 2
    {
      var groupTotal := CountGroups(matched);
      var ready, waiting := SplitReactions(matched);
      var groupDoneCount: map<string, nat>, groupsDone: set<string> := map[], {};
      ghost var env, fuel, start := Environment(), Fuel(depth + 1), View();
      ghost var q := S.Queue(ready, waiting, groupDoneCount, groupsDone);
      while ready != []
        invariant Environment() == env && Fuel(depth + 1) == fuel
        invariant q == S.Queue(ready, waiting, groupDoneCount, groupsDone)
        invariant FireAll(env, fuel, start, S.Schedule(matched), parent, cause)
               == FireAll(env, fuel, View(), S.Order(matched, q), parent, cause)
        decreases |ready| + |waiting|
      {
        S.StepShrinks(matched, q);
        var reaction := ready[0];
        ready := ready[1..];
        error := FireOneReaction(reaction, parent, depth, cause);
        if error.Some? {
          return;
        }
        if reaction.joinGroup.Some? {
          var g := reaction.joinGroup.value;
          var done := Total(groupDoneCount, g) + 1;
          groupDoneCount := groupDoneCount[g := done];
          if g in groupTotal && groupTotal[g] == done {
            groupsDone := groupsDone + {g};
            ready, waiting := Release(ready, waiting, groupsDone);
          }
        }
        q := S.Step(matched, q);
      }
      return None;
    }

    method CountGroups(matched: seq<ReactionDef>) returns (groupTotal: map<string, nat>)
      ensures forall g :: Total(groupTotal, g) == S.Members(matched, g)
    {
      groupTotal := map[];
      for i := 0 to |matched|
        invariant forall g :: S.Members(matched, g) == Total(groupTotal, g) + S.Members(matched[i..], g)
      {
        if matched[i].joinGroup.Some? {
          var g := matched[i].joinGroup.value;
          groupTotal := groupTotal[g := Total(groupTotal, g) + 1];
        }
      }
    }

    method SplitReactions(matched: seq<ReactionDef>) returns (ready: seq<ReactionDef>, waiting: seq<ReactionDef>)
      ensures ready == S.Split(matched, true) && waiting == S.Split(matched, false)
    {
      ready, waiting := [], [];
      for i := 0 to |matched|
        invariant S.Split(matched, true) == ready + S.Split(matched[i..], true)
        invariant S.Split(matched, false) == waiting + S.Split(matched[i..], false)
      {
        if matched[i].needs == [] {
          ready := ready + [matched[i]];
        } else {
          waiting := waiting + [matched[i]];
        }
      }
    }

    /** Moves the held-back reactions whose groups have all completed to the end of the queue. */
    method Release(ready: seq<ReactionDef>, waiting: seq<ReactionDef>, groupsDone: set<string>)
      returns (ready': seq<ReactionDef>, stillWaiting: seq<ReactionDef>)
      ensures ready' == ready + S.Sift(waiting, groupsDone, true)
      ensures stillWaiting == S.Sift(waiting, groupsDone, false)
    {
      ready', stillWaiting := ready, [];
      for i := 0 to |waiting|
        invariant ready + S.Sift(waiting, groupsDone, true) == ready' + S.Sift(waiting[i..], groupsDone, true)
        invariant S.Sift(waiting, groupsDone, false) == stillWaiting + S.Sift(waiting[i..], groupsDone, false)
      {
        if S.Satisfied(waiting[i], groupsDone) {
          ready' := ready' + [waiting[i]];
        } else {
          stillWaiting := stillWaiting + [waiting[i]];
        }
      }
    }
  }

  /** The count under `g`, 0 if there is none yet. */
  function Total(m: map<string, nat>, g: string): nat {
    if g in m then m[g] else 0
  }

  /** Running two phases one after the other is running their actions in one list. */
  lemma {:induction false} PhasesInOne(env: Env, m: Machine, a: seq<string>, b: seq<string>, ctx: ActionContext)
    ensures var first := RunActions(env, m, a, ctx);
            var second := RunActions(env, first.machine, b, ctx);
            RunActions(env, m, a + b, ctx) ==
            if first.error.Some? then first else Phase(second.machine, first.executed + second.executed, second.error)
    decreases |a|
  {
    if a == [] {
      assert a + b == b;
      var second := RunActions(env, m, b, ctx);
      assert [] + second.executed == second.executed;
    } else {
      assert (a + b)[1..] == a[1..] + b;
      var (m1, error) := RunAction(env, m, ctx.signalId, a[0], ctx);
      PhasesInOne(env, m1, a[1..], b, ctx);
    }
  }
}
