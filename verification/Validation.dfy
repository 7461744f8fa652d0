/** Schema validation (src/engine.rs, `validate`) and the engine state it makes safe to build. */
module Validation {
  import opened Wrappers
  import opened Schema
  import opened Errors
  import opened Semantics
  import I = Invariants

  // ---- What validation demands ---------------------------------------------------------

  ghost predicate DistinctIds(signals: seq<SignalDef>) {
    forall i, j :: 0 <= i < j < |signals| ==> signals[i].id != signals[j].id
  }

  ghost predicate SignalsOk(signals: seq<SignalDef>) {
    DistinctIds(signals) && forall s :: s in signals ==> s.initialState in s.states
  }

  /** `t` belongs to a declared signal, and its states are states of that signal. */
  ghost predicate TransitionOk(signals: seq<SignalDef>, t: TransitionDef) {
    exists s :: s in signals && s.id == t.signalId && (t.from == WILDCARD || t.from in s.states) && t.to in s.states
  }

  predicate Declared(signals: seq<SignalDef>, id: string) {
    exists s :: s in signals && s.id == id
  }

  ghost predicate ReactionOk(signals: seq<SignalDef>, r: ReactionDef) {
    Declared(signals, r.fromSignal) && Declared(signals, r.toSignal)
  }

  ghost predicate WellFormed(schema: TopologySchema) {
    && SignalsOk(schema.signals)
    && (forall t :: t in schema.transitions ==> TransitionOk(schema.signals, t))
    && (forall r :: r in schema.reactions ==> ReactionOk(schema.signals, r))
  }

  // ---- Validation ----------------------------------------------------------------------

  /** The first signal called `id`, which the source looks up to check a transition. */
  function Lookup(signals: seq<SignalDef>, id: string): SignalDef
    requires Declared(signals, id)
  {
    if signals[0].id == id then signals[0]
    else
      assert Declared(signals[1..], id) by {
        var s :| s in signals && s.id == id;
        assert s in signals[1..];
      }
      Lookup(signals[1..], id)
  }

  lemma {:induction false} LookupIsUnique(signals: seq<SignalDef>, id: string, s: SignalDef)
    requires DistinctIds(signals) && s in signals && s.id == id
    ensures Declared(signals, id) && Lookup(signals, id) == s
  {
    if signals[0] != s {
      var k :| 0 < k < |signals| && signals[k] == s;
      assert signals[0].id != signals[k].id;
      assert signals[1..][k - 1] == s;
      LookupIsUnique(signals[1..], id, s);
    }
  }

  /** `error` names a fault of `schema`, everything before it being in order. */
  ghost predicate Blames(schema: TopologySchema, error: EngineError) {
    var signals, ts := schema.signals, schema.transitions;
    match error
    case ValidationError(fault) => (
      match fault
      case DuplicateSignal(id) =>
        exists i, j :: 0 <= i < j < |signals| && signals[i].id == signals[j].id == id && SignalsOk(signals[..j])
      case InvalidInitialState(state, id) =>
        exists i :: 0 <= i < |signals| && signals[i].id == id && signals[i].initialState == state
          && state !in signals[i].states && SignalsOk(signals[..i])
      case UnknownSignal(i, id) =>
        FirstFault(schema, i) && ts[i].signalId == id && !Declared(signals, id)
      case InvalidFrom(i, state, id) =>
        FirstFault(schema, i) && ts[i].signalId == id && ts[i].from == state && Declared(signals, id)
        && state != WILDCARD && state !in Lookup(signals, id).states
      case InvalidTo(i, state, id) =>
        FirstFault(schema, i) && ts[i].signalId == id && ts[i].to == state && Declared(signals, id)
        && state !in Lookup(signals, id).states
      case OtherFault(_) => false)
    case ReactionSignalNotFound(id) =>
      SignalsOk(signals) && (forall t :: t in ts ==> TransitionOk(signals, t)) && !Declared(signals, id)
      && exists r :: r in schema.reactions && (r.fromSignal == id || r.toSignal == id)
    case _ => false
  }

  ghost predicate FirstFault(schema: TopologySchema, i: nat) {
    && SignalsOk(schema.signals)
    && i < |schema.transitions| && !TransitionOk(schema.signals, schema.transitions[i])
    && forall t :: t in schema.transitions[..i] ==> TransitionOk(schema.signals, t)
  }

  /**
   Checks a schema as the source does and reports the first fault in its order: signals,
   then transitions, then reactions.
   */
  method Validate(schema: TopologySchema) returns (error: Option<EngineError>)
    ensures error.None? <==> WellFormed(schema)
    ensures error.Some? ==> Blames(schema, error.value)
  {
    var signals := schema.signals;
    var ids: set<string> := {};
    for i := 0 to |signals|
      invariant ids == set s | s in signals[..i] :: s.id
      invariant SignalsOk(signals[..i])
    {
      var s := signals[i];
      assert s in signals && signals[..i + 1] == signals[..i] + [s];
      if s.id in ids {
        var j :| 0 <= j < i && signals[j].id == s.id;
        assert !DistinctIds(signals);
        return Some(ValidationError(DuplicateSignal(s.id)));
      }
      if s.initialState !in s.states {
        return Some(ValidationError(InvalidInitialState(s.initialState, s.id)));
      }
      ids := ids + {s.id};
    }
    assert signals[..|signals|] == signals;
    assert forall id :: id in ids <==> Declared(signals, id);

    for i := 0 to |schema.transitions|
      invariant forall t :: t in schema.transitions[..i] ==> TransitionOk(signals, t)
    {
      var t := schema.transitions[i];
      assert t in schema.transitions;
      if t.signalId !in ids {
        assert !TransitionOk(signals, t);
        return Some(ValidationError(UnknownSignal(i, t.signalId)));
      }
      var s := Lookup(signals, t.signalId);
      TransitionOkIff(signals, t);
      if t.from != WILDCARD && t.from !in s.states {
        return Some(ValidationError(InvalidFrom(i, t.from, t.signalId)));
      }
      if t.to !in s.states {
        return Some(ValidationError(InvalidTo(i, t.to, t.signalId)));
      }
    }

    for i := 0 to |schema.reactions|
      invariant forall r :: r in schema.reactions[..i] ==> ReactionOk(signals, r)
    {
      var r := schema.reactions[i];
      assert r in schema.reactions;
      if r.fromSignal !in ids {
        return Some(ReactionSignalNotFound(r.fromSignal));
      }
      if r.toSignal !in ids {
        return Some(ReactionSignalNotFound(r.toSignal));
      }
    }
    return None;
  }

  lemma {:induction false} LookupFinds(signals: seq<SignalDef>, id: string)
    requires Declared(signals, id)
    ensures Lookup(signals, id) in signals && Lookup(signals, id).id == id
  {
    if signals[0].id != id {
      var s :| s in signals && s.id == id;
      assert s in signals[1..];
      LookupFinds(signals[1..], id);
    }
  }

  lemma TransitionOkIff(signals: seq<SignalDef>, t: TransitionDef)
    requires DistinctIds(signals) && Declared(signals, t.signalId)
    ensures var s := Lookup(signals, t.signalId);
            TransitionOk(signals, t) <==> (t.from == WILDCARD || t.from in s.states) && t.to in s.states
  {
    LookupFinds(signals, t.signalId);
    forall s | s in signals && s.id == t.signalId ensures Lookup(signals, t.signalId) == s {
      LookupIsUnique(signals, t.signalId, s);
    }
  }

  // ---- The engine built from a valid schema --------------------------------------------

  function Fresh(s: SignalDef): SignalState {
    SignalState(s.initialState, s.states, s.initialState)
  }

  /** The states a new engine starts in: the source inserts the signals into a map, in order. */
  function InitialStates(signals: seq<SignalDef>): map<string, SignalState> {
    if signals == [] then map[]
    else InitialStates(signals[..|signals| - 1])[signals[|signals| - 1].id := Fresh(signals[|signals| - 1])]
  }

  function InitialMachine(schema: TopologySchema): Machine {
    Machine(InitialStates(schema.signals), [], [])
  }

  function EnvOf(schema: TopologySchema, actions: map<string, ActionFn>, guards: GuardFn): Env {
    Env(schema.transitions, schema.reactions, actions, guards)
  }

  lemma {:induction false} InitialStatesOf(signals: seq<SignalDef>)
    requires DistinctIds(signals)
    ensures forall id :: id in InitialStates(signals) <==> Declared(signals, id)
    ensures forall s :: s in signals ==> s.id in InitialStates(signals) && InitialStates(signals)[s.id] == Fresh(s)
    ensures forall s :: s in signals ==>
              var state := InitialStates(signals)[s.id];
              state.current == s.initialState && state.initialState == s.initialState && state.states == s.states
    decreases |signals|
  {
    if signals != [] {
      var front, last := signals[..|signals| - 1], signals[|signals| - 1];
      assert signals == front + [last];
      InitialStatesOf(front);
      forall id ensures Declared(signals, id) <==> Declared(front, id) || id == last.id {
        if Declared(front, id) {
          var s :| s in front && s.id == id;
          assert s in signals;
        }
      }
    }
  }

  /** The machine has exactly the schema's signals, each in one of its states. */
  ghost predicate Housed(schema: TopologySchema, m: Machine) {
    && (forall id :: id in m.signals <==> Declared(schema.signals, id))
    && (forall s :: s in schema.signals && s.id in m.signals ==>
          m.signals[s.id].current in s.states
          && m.signals[s.id].states == s.states && m.signals[s.id].initialState == s.initialState)
  }

  lemma MoveHoused(schema: TopologySchema, m: Machine, t: TransitionDef)
    requires WellFormed(schema) && Housed(schema, m) && t in schema.transitions
    ensures Housed(schema, m.Move(t.signalId, t.to))
  {
    assert TransitionOk(schema.signals, t);
    forall s | s in schema.signals && s.id == t.signalId ensures t.to in s.states {
      var s' :| s' in schema.signals && s'.id == t.signalId && t.to in s'.states;
      LookupIsUnique(schema.signals, t.signalId, s);
      LookupIsUnique(schema.signals, t.signalId, s');
    }
  }

  lemma MicroHoused(schema: TopologySchema, env: Env, m: Machine, x: I.Micro)
    requires WellFormed(schema) && env.transitions == schema.transitions
    requires Housed(schema, m) && I.Legal(env, (id: string) => true, m, x)
    ensures Housed(schema, I.Apply(env, m, x))
  {
    if x.Commit? {
      I.FindMatches(env.transitions, x.signalId, x.t.event, m.Current(x.signalId));
      MoveHoused(schema, m, x.t);
    }
  }

  lemma InitiallyHoused(schema: TopologySchema)
    requires WellFormed(schema)
    ensures Housed(schema, InitialMachine(schema))
  {
    InitialStatesOf(schema.signals);
  }

  /**
   An engine built from a valid schema never leaves its state spaces: after any session,
   with any callbacks, guards and limit, every signal is in one of its declared states.
   */
  lemma SessionsStayHoused(schema: TopologySchema, actions: map<string, ActionFn>, guards: GuardFn, limit: nat,
                           inputs: seq<Input>)
    requires WellFormed(schema)
    ensures Housed(schema, Session(EnvOf(schema, actions, guards), limit, InitialMachine(schema), inputs).0)
  {
    var env := EnvOf(schema, actions, guards);
    var inv := (m: Machine) => Housed(schema, m);
    var all := (id: string) => true;
    InitiallyHoused(schema);
    hide Housed, WellFormed, InitialMachine;
    forall m, x {:trigger I.Apply(env, m, x)} | inv(m) && I.Legal(env, all, m, x)
      ensures inv(I.Apply(env, m, x))
    {
      MicroHoused(schema, env, m, x);
    }
    I.SessionKeeps(env, all, inv, limit, InitialMachine(schema), inputs);
  }
}
