/** The schema lints (src/check.rs, `check_schema`), and what the unreachable-state lint is worth. */
module Lint {
  import opened Wrappers
  import opened Schema
  import opened Errors
  import opened Semantics
  import opened Validation
  import I = Invariants

  datatype CheckWarning =
    | SelfLoop(signal: string, from: string, to: string)
    | UnreachableState(signal: string, state: string)

  /** Some transition of `id` other than a self-loop leads to `s`. */
  predicate Targeted(ts: seq<TransitionDef>, id: string, s: string) {
    exists t :: t in ts && t.signalId == id && t.from != t.to && t.to == s
  }

  /** The states the lint takes for reachable. */
  predicate Reachable(ts: seq<TransitionDef>, sig: SignalDef, s: string) {
    s == sig.initialState || Targeted(ts, sig.id, s)
  }

  function SelfLoops(ts: seq<TransitionDef>): seq<CheckWarning> {
    if ts == [] then []
    else (if ts[0].from == ts[0].to then [SelfLoop(ts[0].signalId, ts[0].from, ts[0].to)] else []) + SelfLoops(ts[1..])
  }

  function DeadStates(ts: seq<TransitionDef>, sig: SignalDef, states: seq<string>): seq<CheckWarning> {
    if states == [] then []
    else
      (if Reachable(ts, sig, states[0]) then [] else [UnreachableState(sig.id, states[0])])
      + DeadStates(ts, sig, states[1..])
  }

  function AllDeadStates(ts: seq<TransitionDef>, signals: seq<SignalDef>): seq<CheckWarning> {
    if signals == [] then []
    else DeadStates(ts, signals[0], signals[0].states) + AllDeadStates(ts, signals[1..])
  }

  method CheckSchema(schema: TopologySchema) returns (warnings: seq<CheckWarning>)
    ensures warnings == SelfLoops(schema.transitions) + AllDeadStates(schema.transitions, schema.signals)
  {
    hide DeadStates, SelfLoops;
    warnings := CheckSelfLoops(schema.transitions);
    ghost var loops, all := warnings, AllDeadStates(schema.transitions, schema.signals);
    for i := 0 to |schema.signals|
      invariant loops + all == warnings + AllDeadStates(schema.transitions, schema.signals[i..])
    {
      assert schema.signals[i..][1..] == schema.signals[i + 1..];
      var dead := CheckSignal(schema.transitions, schema.signals[i]);
      warnings := warnings + dead;
    }
  }

  /** The source's first loop. */
  method CheckSelfLoops(ts: seq<TransitionDef>) returns (warnings: seq<CheckWarning>)
    ensures warnings == SelfLoops(ts)
  {
    warnings := [];
    for i := 0 to |ts|
      invariant SelfLoops(ts) == warnings + SelfLoops(ts[i..])
    {
      assert ts[i..][1..] == ts[i + 1..];
      if ts[i].from == ts[i].to {
        warnings := warnings + [SelfLoop(ts[i].signalId, ts[i].from, ts[i].to)];
      }
    }
  }

  /** The source's second loop, for one signal. */
  method CheckSignal(ts: seq<TransitionDef>, sig: SignalDef) returns (warnings: seq<CheckWarning>)
    ensures warnings == DeadStates(ts, sig, sig.states)
  {
    var reachable := ReachableStates(ts, sig);
    hide Reachable;
    warnings := [];
    for k := 0 to |sig.states|
      invariant DeadStates(ts, sig, sig.states) == warnings + DeadStates(ts, sig, sig.states[k..])
    {
      assert sig.states[k..][1..] == sig.states[k + 1..];
      if sig.states[k] !in reachable {
        warnings := warnings + [UnreachableState(sig.id, sig.states[k])];
      }
    }
  }

  method ReachableStates(ts: seq<TransitionDef>, sig: SignalDef) returns (reachable: set<string>)
    ensures forall s :: s in reachable <==> Reachable(ts, sig, s)
  {
    reachable := {sig.initialState};
    for j := 0 to |ts|
      invariant forall s :: s in reachable <==> Reachable(ts[..j], sig, s)
    {
      assert ts[..j + 1] == ts[..j] + [ts[j]];
      if ts[j].signalId == sig.id && ts[j].from != ts[j].to {
        reachable := reachable + {ts[j].to};
      }
    }
    assert ts[..|ts|] == ts;
  }

  /** Each self-loop is reported by itself, after those declared before it and before those after it. */
  lemma {:induction false} LoopsInOrder(before: seq<TransitionDef>, t: TransitionDef, after: seq<TransitionDef>)
    ensures SelfLoops([]) == []
    ensures SelfLoops(before + [t] + after)
         == SelfLoops(before) + (if t.from == t.to then [SelfLoop(t.signalId, t.from, t.to)] else []) + SelfLoops(after)
    decreases |before|
  {
    var all := before + [t] + after;
    if before == [] {
      assert all == [t] + after && all[1..] == after;
    } else {
      assert all[0] == before[0] && all[1..] == before[1..] + [t] + after;
      LoopsInOrder(before[1..], t, after);
    }
  }

  /** So is each state of a signal that is not reachable in the lint's sense. */
  lemma {:induction false} DeadInOrder(ts: seq<TransitionDef>, sig: SignalDef, before: seq<string>, s: string,
                                       after: seq<string>)
    ensures DeadStates(ts, sig, []) == []
    ensures DeadStates(ts, sig, before + [s] + after)
         == DeadStates(ts, sig, before) + (if Reachable(ts, sig, s) then [] else [UnreachableState(sig.id, s)])
            + DeadStates(ts, sig, after)
    decreases |before|
  {
    hide Reachable;
    var all := before + [s] + after;
    if before == [] {
      assert all == [s] + after && all[1..] == after;
    } else {
      assert all[0] == before[0] && all[1..] == before[1..] + [s] + after;
      DeadInOrder(ts, sig, before[1..], s, after);
    }
  }

  /** The state is reported: it is a state of its signal and not reachable in the lint's sense. */
  lemma {:induction false} ReportedMeans(ts: seq<TransitionDef>, signals: seq<SignalDef>, id: string, s: string)
    ensures UnreachableState(id, s) in AllDeadStates(ts, signals) <==>
              exists sig :: sig in signals && sig.id == id && s in sig.states && !Reachable(ts, sig, s)
    ensures UnreachableState(id, s) in AllDeadStates(ts, signals) <==>
              exists sig :: sig in signals && sig.id == id && s in sig.states && sig.initialState != s
                            && forall t :: t in ts && t.signalId == id && t.to == s ==> t.from == s
  {
    if signals != [] {
      ReportedMeans(ts, signals[1..], id, s);
      DeadMeans(ts, signals[0], signals[0].states, id, s);
      assert signals == [signals[0]] + signals[1..];
    }
  }

  lemma {:induction false} DeadMeans(ts: seq<TransitionDef>, sig: SignalDef, states: seq<string>, id: string, s: string)
    ensures UnreachableState(id, s) in DeadStates(ts, sig, states)
            <==> sig.id == id && s in states && !Reachable(ts, sig, s)
  {
    if states != [] {
      DeadMeans(ts, sig, states[1..], id, s);
      assert states == [states[0]] + states[1..];
    }
  }

  // ---- Where a signal can get ----------------------------------------------------------

  /** The state a signal is in after some events, if every selected transition is carried out. */
  function Go(ts: seq<TransitionDef>, id: string, s: string, events: seq<string>): string
    decreases |events|
  {
    if events == [] then s
    else
      match Find(ts, id, events[0], s)
      case None => Go(ts, id, s, events[1..])
      case Some(t) => Go(ts, id, t.to, events[1..])
  }

  /** Some events lead `sig` from its initial state to `s`. */
  ghost predicate CanReach(ts: seq<TransitionDef>, sig: SignalDef, s: string) {
    exists events :: Go(ts, sig.id, sig.initialState, events) == s
  }

  lemma {:induction false} GoSnoc(ts: seq<TransitionDef>, id: string, s: string, events: seq<string>, event: string)
    ensures var last := Go(ts, id, s, events);
            Go(ts, id, s, events + [event]) == match Find(ts, id, event, last) case None => last case Some(t) => t.to
    decreases |events|
  {
    if events == [] {
      assert [] + [event] == [event] && [event][1..] == [];
    } else {
      assert (events + [event])[1..] == events[1..] + [event];
      var found := Find(ts, id, events[0], s);
      GoSnoc(ts, id, if found.Some? then found.value.to else s, events[1..], event);
    }
  }

  /** The event shows signal `id` entering or leaving state `s`, committed or tentatively. */
  predicate Visits(e: TraceEvent, id: string, s: string) {
    (e.StateChanged? || e.Rollbacked?) && e.signalId == id && (e.from == s || e.to == s)
  }

  /** A lifecycle action was told that signal `id` goes to or comes from state `s`. */
  predicate Tells(call: ActionCall, id: string, s: string) {
    call.ctx.failure.None? && call.ctx.signalId == id && (call.ctx.fromState == s || call.ctx.toState == s)
  }

  /** Signal `id` is not in state `s` and never was, not even tentatively. */
  ghost predicate Avoids(m: Machine, id: string, s: string) {
    && (id in m.signals ==> m.signals[id].current != s)
    && (forall e :: e in m.trace ==> !Visits(e, id, s))
    && (forall c :: c in m.calls ==> !Tells(c, id, s))
  }

  /** In no session of a new engine is signal `id` ever in state `s`, for any callbacks, guards, limit and events. */
  ghost predicate NeverEntered(schema: TopologySchema, id: string, s: string) {
    forall actions, guards, limit, inputs ::
      Avoids(Session(EnvOf(schema, actions, guards), limit, InitialMachine(schema), inputs).0, id, s)
  }

  // ---- What cannot be reached is never entered -----------------------------------------

  lemma TakenReaches(env: Env, m: Machine, sig: SignalDef, t: TransitionDef)
    requires I.Takes(env, m, sig.id, t) && CanReach(env.transitions, sig, m.Current(sig.id))
    ensures CanReach(env.transitions, sig, t.to)
  {
    var events :| Go(env.transitions, sig.id, sig.initialState, events) == m.Current(sig.id);
    GoSnoc(env.transitions, sig.id, sig.initialState, events, t.event);
  }

  /** The signal is in a state that events can lead it to, and never was in `s`. */
  ghost predicate Roams(env: Env, m: Machine, sig: SignalDef, s: string) {
    sig.id in m.signals && CanReach(env.transitions, sig, m.Current(sig.id)) && Avoids(m, sig.id, s)
  }

  lemma MicroRoams(env: Env, m: Machine, x: I.Micro, sig: SignalDef, s: string)
    requires Roams(env, m, sig, s) && I.Legal(env, (i: string) => true, m, x) && !CanReach(env.transitions, sig, s)
    ensures Roams(env, I.Apply(env, m, x), sig, s)
  {
    hide CanReach, Find;
    match x
    case Act(a, ctx) =>
      if ctx.failure.None? && ctx.signalId == sig.id {
        var t :| I.Takes(env, m, sig.id, t) && t.to == ctx.toState && t.event == ctx.event;
        TakenReaches(env, m, sig, t);
      }
    case Commit(i, t) =>
      if i == sig.id {
        TakenReaches(env, m, sig, t);
      }
    case Reject(i, t) =>
      if i == sig.id {
        TakenReaches(env, m, sig, t);
      }
    case _ =>
  }

  lemma UnreachedIsNeverEntered(schema: TopologySchema, sig: SignalDef, s: string)
    requires WellFormed(schema) && sig in schema.signals && !CanReach(schema.transitions, sig, s)
    ensures NeverEntered(schema, sig.id, s)
  {
    forall actions, guards, limit, inputs
      ensures Avoids(Session(EnvOf(schema, actions, guards), limit, InitialMachine(schema), inputs).0, sig.id, s)
    {
      SessionAvoids(schema, sig, s, actions, guards, limit, inputs);
    }
  }

  lemma SessionAvoids(schema: TopologySchema, sig: SignalDef, s: string, actions: map<string, ActionFn>,
                      guards: GuardFn,
                      limit: nat, inputs: seq<Input>)
    requires WellFormed(schema) && sig in schema.signals && !CanReach(schema.transitions, sig, s)
    ensures Avoids(Session(EnvOf(schema, actions, guards), limit, InitialMachine(schema), inputs).0, sig.id, s)
  {
    var env, m := EnvOf(schema, actions, guards), InitialMachine(schema);
    var inv := (m': Machine) => Roams(env, m', sig, s);
    var all := (i: string) => true;
    InitiallyAt(schema, sig);
    assert Go(schema.transitions, sig.id, sig.initialState, []) == sig.initialState;
    assert Roams(env, m, sig, s);
    hide Roams, WellFormed, InitialMachine;
    forall m', x {:trigger I.Apply(env, m', x)} | inv(m') && I.Legal(env, all, m', x)
      ensures inv(I.Apply(env, m', x))
    {
      MicroRoams(env, m', x, sig, s);
    }
    I.SessionKeeps(env, all, inv, limit, m, inputs);
    assert Roams(env, Session(env, limit, m, inputs).0, sig, s);
    RoamsAvoids(env, Session(env, limit, m, inputs).0, sig, s);
  }

  lemma RoamsAvoids(env: Env, m: Machine, sig: SignalDef, s: string)
    requires Roams(env, m, sig, s)
    ensures Avoids(m, sig.id, s)
  {}

  lemma InitiallyAt(schema: TopologySchema, sig: SignalDef)
    requires WellFormed(schema) && sig in schema.signals
    ensures var m := InitialMachine(schema);
            sig.id in m.signals && m.Current(sig.id) == sig.initialState && m.trace == [] && m.calls == []
  {
    InitialStatesOf(schema.signals);
  }

  // ---- What can be reached is entered in some session ----------------------------------

  function ActionsOf(t: TransitionDef): seq<string> {
    t.actions.onExit + (t.actions.onTransition + t.actions.onEnter)
  }

  function AllActions(ts: seq<TransitionDef>): set<string> {
    set t, a | t in ts && a in ActionsOf(t) :: a
  }

  const SUCCEED: ActionFn := (calls, ctx) => None

  /** Nothing stands in the way: every action is there and succeeds, every guard is true. */
  function Willing(schema: TopologySchema): Env {
    EnvOf(schema, map a | a in AllActions(schema.transitions) :: SUCCEED, (g, payload) => Success(true))
  }

  lemma {:induction false} WillingRun(env: Env, m: Machine, ids: seq<string>, ctx: ActionContext)
    requires forall a :: a in ids ==> a in env.actions && env.actions[a] == SUCCEED
    ensures RunActions(env, m, ids, ctx).error == None
    decreases |ids|
  {
    if ids != [] {
      assert ids[0] in ids;
      WillingRun(env, RunAction(env, m, ctx.signalId, ids[0], ctx).0, ids[1..], ctx);
    }
  }

  /** With nothing in the way, an event moves its signal as `Find` says, and no other signal. */
  lemma WillingAttempt(schema: TopologySchema, m: Machine, id: string, event: string)
    requires id in m.signals
    ensures var m' := Attempt(Willing(schema), m, id, event, None).0;
            m'.signals == match Find(schema.transitions, id, event, m.Current(id))
                          case None => m.signals
                          case Some(t) => m.Move(id, t.to).signals
  {
    var env := Willing(schema);
    var m1 := m.Push(EventReceived(id, event, None));
    I.FindMatches(schema.transitions, id, event, m.Current(id));
    match Find(schema.transitions, id, event, m.Current(id))
    case None =>
    case Some(t) =>
      var ctx := ActionContext(id, m.Current(id), t.to, event, None, None);
      var leave := RunActions(env, m1, t.actions.onExit, ctx).machine;
      var body := t.actions.onTransition + t.actions.onEnter;
      assert forall a :: a in t.actions.onExit || a in body ==> a in ActionsOf(t);
      WillingRun(env, m1, t.actions.onExit, ctx);
      WillingRun(env, leave, body, ctx);
      I.TransitOutcome(env, m1, t.actions, ctx);
      I.ActionsIgnoreStates(env, m1, t.actions.onExit, ctx, m.signals);
      I.ActionsIgnoreStates(env, leave, body, ctx, m.signals);
  }

  /** With no level of cascades left, firing moves no signal. */
  lemma {:induction false} NoFuelNoMove(env: Env, m: Machine, rs: seq<ReactionDef>, parent: Option<Json>, cause: string)
    ensures FireAll(env, 0, m, rs, parent, cause).0.signals == m.signals
    decreases |rs|
  {
    if rs != [] {
      NoFuelNoMove(env, Fire(env, 0, m, rs[0], parent, cause).0, rs[1..], parent, cause);
    }
  }

  lemma WillingDeliver(schema: TopologySchema, m: Machine, id: string, event: string)
    requires id in m.signals
    ensures var m' := Deliver(Willing(schema), 0, m, Input(id, event, None)).0;
            id in m'.signals && m'.Current(id) == match Find(schema.transitions, id, event, m.Current(id))
                                                  case None => m.Current(id)
                                                  case Some(t) => t.to
  {
    hide Willing, Attempt, FireAll;
    WillingAttempt(schema, m, id, event);
    var (m1, attempt) := Attempt(Willing(schema), m, id, event, None);
    if attempt.Success? {
      NoFuelNoMove(Willing(schema), m1,
                   I.Scheduler.Schedule(Matching(Willing(schema).reactions, id, attempt.value.to)), None, id);
    }
  }

  function Inputs(id: string, events: seq<string>): seq<Input> {
    if events == [] then [] else [Input(id, events[0], None)] + Inputs(id, events[1..])
  }

  lemma {:induction false} WillingSession(schema: TopologySchema, m: Machine, id: string, events: seq<string>)
    requires id in m.signals
    ensures var m' := Session(Willing(schema), 0, m, Inputs(id, events)).0;
            id in m'.signals && m'.Current(id) == Go(schema.transitions, id, m.Current(id), events)
    decreases |events|
  {
    hide Willing, Deliver;
    if events != [] {
      WillingDeliver(schema, m, id, events[0]);
      WillingSession(schema, Deliver(Willing(schema), 0, m, Input(id, events[0], None)).0, id, events[1..]);
    }
  }

  lemma ReachedIsEntered(schema: TopologySchema, sig: SignalDef, events: seq<string>)
    requires WellFormed(schema) && sig in schema.signals
    ensures !NeverEntered(schema, sig.id, Go(schema.transitions, sig.id, sig.initialState, events))
  {
    var env, m, inputs := Willing(schema), InitialMachine(schema), Inputs(sig.id, events);
    InitiallyAt(schema, sig);
    WillingSession(schema, m, sig.id, events);
    assert env == EnvOf(schema, env.actions, env.guards);
    hide WellFormed, Session, Willing;
    assert !Avoids(Session(env, 0, m, inputs).0, sig.id, Go(schema.transitions, sig.id, sig.initialState, events));
  }

  // ---- Main results --------------------------------------------------------------------

  /**
   Exactly which states are ever entered: a state of a valid schema's signal is never
   current, not even tentatively, in any session, exactly when no events lead to it.
   */
  lemma NeverEnteredIff(schema: TopologySchema, sig: SignalDef, s: string)
    requires WellFormed(schema) && sig in schema.signals
    ensures NeverEntered(schema, sig.id, s) <==> !CanReach(schema.transitions, sig, s)
  {
    hide NeverEntered, WellFormed;
    if events :| Go(schema.transitions, sig.id, sig.initialState, events) == s {
      ReachedIsEntered(schema, sig, events);
    } else {
      UnreachedIsNeverEntered(schema, sig, s);
    }
  }

  /** Some events lead the signal to where a further one selects a transition `* -> *`. */
  ghost predicate ReachesLoop(ts: seq<TransitionDef>, sig: SignalDef) {
    exists events, event :: SelectsLoop(ts, sig.id, Go(ts, sig.id, sig.initialState, events), event)
  }

  predicate SelectsLoop(ts: seq<TransitionDef>, id: string, s: string, event: string) {
    var found := Find(ts, id, event, s);
    found.Some? && found.value.from == WILDCARD && found.value.to == WILDCARD
  }

  /** A state the lint takes for unreachable is reached only by a `* -> *` that is selected. */
  lemma {:induction false} UnreachableIsReachedByLoop(ts: seq<TransitionDef>, sig: SignalDef, events: seq<string>)
    requires !Reachable(ts, sig, Go(ts, sig.id, sig.initialState, events))
    ensures Go(ts, sig.id, sig.initialState, events) == WILDCARD && ReachesLoop(ts, sig)
    decreases |events|
  {
    if events != [] {
      var n := |events| - 1;
      var s, event := Go(ts, sig.id, sig.initialState, events[..n]), events[n];
      assert events == events[..n] + [event];
      GoSnoc(ts, sig.id, sig.initialState, events[..n], event);
      I.FindMatches(ts, sig.id, event, s);
      if !Reachable(ts, sig, s) {
        UnreachableIsReachedByLoop(ts, sig, events[..n]);
      } else {
        assert SelectsLoop(ts, sig.id, s, event);
      }
    }
  }

  /**
   Exactly when a report is right: a state reported as unreachable is never entered, unless
   it is named `*` and events lead its signal to where a transition `* -> *` is selected.
   */
  lemma ReportIsRightIff(schema: TopologySchema, sig: SignalDef, s: string)
    requires WellFormed(schema) && sig in schema.signals
    requires UnreachableState(sig.id, s) in AllDeadStates(schema.transitions, schema.signals)
    ensures NeverEntered(schema, sig.id, s) <==> !(s == WILDCARD && ReachesLoop(schema.transitions, sig))
  {
    var ts := schema.transitions;
    ReportedMeans(ts, schema.signals, sig.id, s);
    var sig' :| sig' in schema.signals && sig'.id == sig.id && !Reachable(ts, sig', s);
    LookupIsUnique(schema.signals, sig.id, sig);
    LookupIsUnique(schema.signals, sig.id, sig');
    NeverEnteredIff(schema, sig, s);
    hide NeverEntered, WellFormed, AllDeadStates;
    if events :| Go(ts, sig.id, sig.initialState, events) == s {
      UnreachableIsReachedByLoop(ts, sig, events);
    } else if s == WILDCARD && ReachesLoop(ts, sig) {
      var events, event :| SelectsLoop(ts, sig.id, Go(ts, sig.id, sig.initialState, events), event);
      GoSnoc(ts, sig.id, sig.initialState, events, event);
      assert false;
    }
  }

  /** No transition of `id` is a wildcard self-loop, `* -> *`. */
  predicate NoWildcardLoop(ts: seq<TransitionDef>, id: string) {
    forall t :: t in ts && t.signalId == id ==> !(t.from == WILDCARD && t.to == WILDCARD)
  }

  /**
   Soundness: a state reported as unreachable is never entered, not even tentatively, in
   any session of a new engine, whatever the callbacks, guards, payloads and limit; for a
   state named `*` if its signal has no transition written `* -> *`.
   */
  lemma UnreachableIsNeverEntered(schema: TopologySchema, id: string, s: string, actions: map<string, ActionFn>,
                                  guards: GuardFn, limit: nat, inputs: seq<Input>)
    requires WellFormed(schema) && UnreachableState(id, s) in AllDeadStates(schema.transitions, schema.signals)
    requires s == WILDCARD ==> NoWildcardLoop(schema.transitions, id)
    ensures Avoids(Session(EnvOf(schema, actions, guards), limit, InitialMachine(schema), inputs).0, id, s)
  {
    var ts := schema.transitions;
    ReportedMeans(ts, schema.signals, id, s);
    var sig :| sig in schema.signals && sig.id == id && !Reachable(ts, sig, s);
    ReportIsRightIff(schema, sig, s);
    if s == WILDCARD && ReachesLoop(ts, sig) {
      var events, event :| SelectsLoop(ts, id, Go(ts, id, sig.initialState, events), event);
      I.FindMatches(ts, id, event, Go(ts, id, sig.initialState, events));
    }
    hide Avoids, WellFormed, AllDeadStates, Session, InitialMachine, ReachesLoop;
    assert NeverEntered(schema, id, s);
  }

  /**
   The lint skips a transition `* -> *` as a self-loop, but the engine takes it. Once some
   events lead to where one is selected, state `*` is reported or else reached in the lint's
   own sense, and it is entered in some session.
   */
  lemma WildcardLoopIsMissed(schema: TopologySchema, sig: SignalDef, events: seq<string>, event: string)
    requires WellFormed(schema) && sig in schema.signals
    requires SelectsLoop(schema.transitions, sig.id, Go(schema.transitions, sig.id, sig.initialState, events), event)
    requires !Reachable(schema.transitions, sig, WILDCARD)
    ensures UnreachableState(sig.id, WILDCARD) in AllDeadStates(schema.transitions, schema.signals)
    ensures !NeverEntered(schema, sig.id, WILDCARD)
  {
    var ts, s := schema.transitions, Go(schema.transitions, sig.id, sig.initialState, events);
    I.FindMatches(ts, sig.id, event, s);
    var t := Find(ts, sig.id, event, s).value;
    var ok :| ok in schema.signals && ok.id == sig.id && WILDCARD in ok.states;
    LookupIsUnique(schema.signals, sig.id, sig);
    LookupIsUnique(schema.signals, sig.id, ok);
    ReportedMeans(ts, schema.signals, sig.id, WILDCARD);
    ReportIsRightIff(schema, sig, WILDCARD);
  }

  /**
   Under any callbacks, guards and limit: when a `* -> *` without guard and actions is the
   first match for some event in the initial state, that event leads to the state `*`.
   */
  lemma PlainWildcardLoopIsTaken(schema: TopologySchema, sig: SignalDef, event: string, t: TransitionDef, env: Env,
                                 limit: nat)
    requires WellFormed(schema) && sig in schema.signals
    requires env.transitions == schema.transitions
    requires Find(schema.transitions, sig.id, event, sig.initialState) == Some(t)
    requires t.from == WILDCARD && t.to == WILDCARD && t.guard == None && t.actions == ActionBinding([], [], [])
    requires !Reachable(schema.transitions, sig, WILDCARD)
    ensures UnreachableState(sig.id, WILDCARD) in AllDeadStates(schema.transitions, schema.signals)
    ensures !Avoids(Deliver(env, limit, InitialMachine(schema), Input(sig.id, event, None)).0, sig.id, WILDCARD)
  {
    I.FindMatches(schema.transitions, sig.id, event, sig.initialState);
    var ok :| ok in schema.signals && ok.id == sig.id && WILDCARD in ok.states;
    LookupIsUnique(schema.signals, sig.id, sig);
    LookupIsUnique(schema.signals, sig.id, ok);
    ReportedMeans(schema.transitions, schema.signals, sig.id, WILDCARD);
    InitialStatesOf(schema.signals);
    var m := InitialMachine(schema);
    LoopIsTaken(env, m, sig.id, event, t);
    hide Attempt, WellFormed, InitialMachine;
    SendExtends(env, limit + 1, m, sig.id, event);
    var e :| e in Attempt(env, m, sig.id, event, None).0.trace && Visits(e, sig.id, WILDCARD);
    assert e in Deliver(env, limit, m, Input(sig.id, event, None)).0.trace;
  }

  lemma LoopIsTaken(env: Env, m: Machine, id: string, event: string, t: TransitionDef)
    requires id in m.signals && Find(env.transitions, id, event, m.signals[id].current) == Some(t)
    requires t.to == WILDCARD && t.guard == None && t.actions == ActionBinding([], [], [])
    ensures exists e :: e in Attempt(env, m, id, event, None).0.trace && Visits(e, id, WILDCARD)
  {
    var changed := StateChanged(id, m.signals[id].current, WILDCARD);
    var m1 := m.Push(EventReceived(id, event, None));
    var ctx := ActionContext(id, m.signals[id].current, WILDCARD, event, None, None);
    assert t.actions.onTransition + t.actions.onEnter == [];
    assert Transit(env, m1, t.actions, ctx).0 == m1.Move(id, WILDCARD).Push(changed);
    assert Attempt(env, m, id, event, None).0 == m1.Move(id, WILDCARD).Push(changed);
    assert Visits(changed, id, WILDCARD);
  }

  lemma SendExtends(env: Env, fuel: nat, m: Machine, id: string, event: string)
    requires fuel > 0
    ensures Attempt(env, m, id, event, None).0.trace <= Send(env, fuel, m, id, event, None, None).0.trace
  {
    hide Attempt;
    var (m1, attempt) := Attempt(env, m, id, event, None);
    if attempt.Success? {
      var inv := (m': Machine) => m1.trace <= m'.trace;
      var all := (i: string) => true;
      I.ScheduledReacts(env.reactions, id, attempt.value.to);
      I.FireAllKeeps(env, all, inv, fuel - 1, m1, I.Scheduler.Schedule(Matching(env.reactions, id, attempt.value.to)),
                     None, id);
    }
  }
}
