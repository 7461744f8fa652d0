/**
 A wired instance runs as its component. Expansion places an instance in a larger schema
 under new signal names. If nothing else in the schema reacts to its signals or moves them,
 then every session with these signals goes as it would go with the component alone, up to
 the renaming.
 */
module Instances {
  import opened Wrappers
  import opened Schema
  import opened Errors
  import opened Semantics
  import opened Renaming
  import opened Compose
  import opened Resolution
  import opened Validation
  import I = Invariants
  import Sim = Simulation

  /** The component on its own, as a schema. */
  function Alone(part: Part): TopologySchema {
    TopologySchema("", part.signals, part.transitions, part.reactions, None, [], [])
  }

  /** The names that the instance's signals have in the flat schema. */
  ghost predicate Taken(w: Wired, id: string) {
    exists s :: s in w.part.signals && Rewired(w.remap)(s.id) == id
  }

  /** Nothing in `p` moves or reacts to a signal of the instance. */
  ghost predicate Apart(w: Wired, p: Part) {
    && (forall t :: t in p.transitions ==> !Taken(w, t.signalId))
    && (forall r :: r in p.reactions ==> !Taken(w, r.fromSignal))
  }

  // ---- The flat schema selects and reacts alike ----------------------------------------

  lemma {:induction false} FindRenamed(f: Names, live: string -> bool, ts: seq<TransitionDef>, id: string,
                                       event: string, current: string)
    requires forall a, b :: live(a) && live(b) && f(a) == f(b) ==> a == b
    requires live(id) && forall t :: t in ts ==> live(t.signalId)
    ensures Sim.SameMove(Find(ts, id, event, current), Find(RenTransitions(f, ts), f(id), event, current))
  {
    if ts != [] {
      assert ts[0] in ts;
      FindRenamed(f, live, ts[1..], id, event, current);
    }
  }

  lemma {:induction false} FindSkips(a: seq<TransitionDef>, b: seq<TransitionDef>, c: seq<TransitionDef>, id: string,
                                     event: string, current: string)
    requires forall t :: t in a || t in c ==> t.signalId != id
    ensures Find(a + b + c, id, event, current) == Find(b, id, event, current)
    decreases |a| + |b|
  {
    if a != [] {
      assert (a + b + c)[1..] == a[1..] + b + c;
      FindSkips(a[1..], b, c, id, event, current);
    } else if b != [] {
      assert (a + b + c)[1..] == [] + b[1..] + c && (a + b + c)[0] == b[0];
      FindSkips([], b[1..], c, id, event, current);
    } else {
      assert a + b + c == c;
      I.FindMatches(c, id, event, current);
    }
  }

  lemma MatchingHead(rs: seq<ReactionDef>, id: string, s: string) returns (head: seq<ReactionDef>)
    requires rs != []
    ensures head == if rs[0].fromSignal == id && (rs[0].fromState == s || rs[0].fromState == WILDCARD) then [rs[0]]
            else []
    ensures Matching(rs, id, s) == head + Matching(rs[1..], id, s)
  {
    head := if rs[0].fromSignal == id && (rs[0].fromState == s || rs[0].fromState == WILDCARD) then [rs[0]] else [];
  }

  lemma {:induction false} MatchingRenamed(f: Names, live: string -> bool, rs: seq<ReactionDef>, id: string, s: string)
    requires forall a, b :: live(a) && live(b) && f(a) == f(b) ==> a == b
    requires live(id) && forall r :: r in rs ==> live(r.fromSignal)
    ensures Matching(RenReactions(f, rs), f(id), s) == RenReactions(f, Matching(rs, id, s))
  {
    if rs != [] {
      assert rs[0] in rs;
      MatchingRenamed(f, live, rs[1..], id, s);
      hide Matching;
      var head := MatchingHead(rs, id, s);
      var head' := MatchingHead(RenReactions(f, rs), f(id), s);
      assert head' == RenReactions(f, head);
      RenConcat(f, head, Matching(rs[1..], id, s));
    }
  }

  lemma {:induction false} MatchingConcat(a: seq<ReactionDef>, b: seq<ReactionDef>, id: string, s: string)
    ensures Matching(a + b, id, s) == Matching(a, id, s) + Matching(b, id, s)
  {
    if a == [] {
      assert a + b == b;
    } else {
      assert (a + b)[1..] == a[1..] + b;
      MatchingConcat(a[1..], b, id, s);
    }
  }

  lemma MatchingSkips(a: seq<ReactionDef>, b: seq<ReactionDef>, c: seq<ReactionDef>, id: string, s: string)
    requires forall r :: r in a || r in c ==> r.fromSignal != id
    ensures Matching(a + b + c, id, s) == Matching(b, id, s)
  {
    MatchingConcat(a + b, c, id, s);
    MatchingConcat(a, b, id, s);
    MatchingNone(a, id, s);
    MatchingNone(c, id, s);
  }

  lemma {:induction false} MatchingNone(rs: seq<ReactionDef>, id: string, s: string)
    requires forall r :: r in rs ==> r.fromSignal != id
    ensures Matching(rs, id, s) == []
  {
    if rs != [] {
      assert rs[0] in rs;
      MatchingNone(rs[1..], id, s);
    }
  }

  // ---- The correspondence --------------------------------------------------------------

  lemma PlacedCorresponds(w: Wired, before: Part, after: Part, flat: TopologySchema, actions: map<string, ActionFn>,
                          actions': map<string, ActionFn>, guards: GuardFn)
    requires WellFormed(Alone(w.part)) && actions.Keys == actions'.Keys
    requires Part(flat.signals, flat.transitions, flat.reactions) == Join(Join(before, Placed(w)), after)
    requires Apart(w, before) && Apart(w, after)
    requires forall a, b :: a in w.part.signals && b in w.part.signals ==>
               Rewired(w.remap)(a.id) == Rewired(w.remap)(b.id) ==> a == b
    ensures Sim.Corresponds(EnvOf(Alone(w.part), actions, guards), EnvOf(flat, actions', guards),
                            Rewired(w.remap), id => Declared(w.part.signals, id), Sim.ANYWHERE)
  {
    var f, live := Rewired(w.remap), (id: string) => Declared(w.part.signals, id);
    forall a, b | live(a) && live(b) && f(a) == f(b) ensures a == b {
      var s, s' :| s in w.part.signals && s.id == a && s' in w.part.signals && s'.id == b;
    }
    forall t | t in w.part.transitions ensures live(t.signalId) {
      assert TransitionOk(w.part.signals, t);
    }
    forall r | r in w.part.reactions ensures live(r.fromSignal) && live(r.toSignal) {
      assert ReactionOk(w.part.signals, r);
    }
    forall id | live(id) ensures Taken(w, f(id)) {
      var s :| s in w.part.signals && s.id == id;
    }
    forall id, event, current | live(id)
      ensures Sim.SameMove(Find(w.part.transitions, id, event, current), Find(flat.transitions, f(id), event, current))
    {
      FindRenamed(f, live, w.part.transitions, id, event, current);
      FindSkips(before.transitions, RenTransitions(f, w.part.transitions), after.transitions, f(id), event, current);
    }
    forall id, s | live(id)
      ensures Matching(flat.reactions, f(id), s) == RenReactions(f, Matching(w.part.reactions, id, s))
    {
      MatchingRenamed(f, live, w.part.reactions, id, s);
      MatchingSkips(before.reactions, RenReactions(f, w.part.reactions), after.reactions, f(id), s);
    }
  }

  /** A signal keeps its initial state when it is renamed and put among others. */
  lemma PlacedState(f: Names, before: seq<SignalDef>, own: seq<SignalDef>, after: seq<SignalDef>, id: string)
    requires DistinctIds(own) && DistinctIds(before + RenSignals(f, own) + after) && Declared(own, id)
    ensures var states, states' := InitialStates(own), InitialStates(before + RenSignals(f, own) + after);
            id in states && f(id) in states' && states'[f(id)].current == states[id].current
  {
    hide InitialStates, DistinctIds;
    var all := before + RenSignals(f, own) + after;
    InitialStatesOf(own);
    InitialStatesOf(all);
    var i :| 0 <= i < |own| && own[i].id == id;
    var s, s' := own[i], all[|before| + i];
    assert s in own && s' in all && s' == s.(id := f(id));
    assert id in InitialStates(own) && InitialStates(own)[id] == Fresh(s);
    assert f(id) in InitialStates(all) && InitialStates(all)[f(id)] == Fresh(s');
  }

  lemma PlacedShows(w: Wired, before: Part, after: Part, flat: TopologySchema)
    requires DistinctIds(w.part.signals) && DistinctIds(flat.signals)
    requires flat.signals == before.signals + RenSignals(Rewired(w.remap), w.part.signals) + after.signals
    ensures var m, m' := InitialMachine(Alone(w.part)), InitialMachine(flat);
            Sim.Shows(Sim.Origin(m, m'), Rewired(w.remap), id => Declared(w.part.signals, id), Sim.ANYWHERE, m, m')
  {
    hide InitialStates, Declared, DistinctIds, Rewired, RenSignals;
    forall id | Declared(w.part.signals, id)
      ensures var states, states', id' := InitialStates(w.part.signals), InitialStates(flat.signals),
              Rewired(w.remap)(id);
              id in states && id' in states' && states'[id'].current == states[id].current
    {
      PlacedState(Rewired(w.remap), before.signals, w.part.signals, after.signals, id);
    }
  }

  /**
   The main result. Expansion succeeded, instance `k` is a valid component, and no other
   part of the flat schema moves or reacts to its signals. Then a session with events to its
   signals has, renamed, the outcomes it has with the component alone, and ends in the same
   states, trace and action calls, for callbacks that answer alike under both names.
   */
  lemma WiredInstanceRunsAsComponent(schema: TopologySchema, k: nat, w: Wired, before: Part, after: Part,
                                     actions: map<string, ActionFn>, actions': map<string, ActionFn>,
                                     guards: GuardFn, limit: nat, inputs: seq<Input>)
    requires k < |schema.instances| && Expanded(schema).Success?
    requires Elaborate(Components(schema), schema.instances[k]) == Success(w)
    requires var flat := Expanded(schema).value;
             Part(flat.signals, flat.transitions, flat.reactions) == Join(Join(before, Placed(w)), after)
    requires WellFormed(Alone(w.part)) && Apart(w, before) && Apart(w, after)
    requires actions.Keys == actions'.Keys
    requires Sim.AnswerAlike(EnvOf(Alone(w.part), actions, guards), EnvOf(Expanded(schema).value, actions', guards),
                             Rewired(w.remap), id => Declared(w.part.signals, id), [], [])
    requires forall i :: i in inputs ==> Declared(w.part.signals, i.signalId)
    ensures var flat := Expanded(schema).value;
            SessionsAlike(EnvOf(Alone(w.part), actions, guards), EnvOf(flat, actions', guards), Rewired(w.remap),
                          id => Declared(w.part.signals, id), limit, InitialMachine(Alone(w.part)),
                          InitialMachine(flat), inputs)
  {
    var _, _, _ := ExpansionRenamesInjectively(schema, k);
    hide Elaborate, Expanded, Apart, Sim.AnswerAlike, Sim.Corresponds, Sim.Shows, SessionsAlike;
    var flat, live := Expanded(schema).value, (id: string) => Declared(w.part.signals, id);
    var m, m' := InitialMachine(Alone(w.part)), InitialMachine(flat);
    PlacedCorresponds(w, before, after, flat, actions, actions', guards);
    assert flat.signals == Join(Join(before, Placed(w)), after).signals;
    PlacedShows(w, before, after, flat);
    InitialStatesOf(w.part.signals);
    AlikeFrom(EnvOf(Alone(w.part), actions, guards), EnvOf(flat, actions', guards), Rewired(w.remap), live, limit, m,
              m', inputs);
  }

  /** The two sessions have the same outcomes and leave the same states and records, up to names. */
  ghost predicate SessionsAlike(env: Env, env': Env, f: Names, live: string -> bool, limit: nat, m: Machine,
                                m': Machine, inputs: seq<Input>) {
    var (m1, outcomes) := Session(env, limit, m, inputs);
    var (m1', outcomes') := Session(env', limit, m', Sim.RenInputs(f, inputs));
    && |outcomes'| == |outcomes| && (forall k :: 0 <= k < |outcomes| ==> outcomes'[k] == RenOutcome(f, outcomes[k]))
    && (forall id :: live(id) ==>
          id in m1.signals && f(id) in m1'.signals && m1'.signals[f(id)].current == m1.signals[id].current)
    && m1'.trace == RenTrace(f, m1.trace) && m1'.calls == RenCalls(f, m1.calls)
  }

  lemma AlikeFrom(env: Env, env': Env, f: Names, live: string -> bool, limit: nat, m: Machine, m': Machine,
                  inputs: seq<Input>)
    requires Sim.Corresponds(env, env', f, live, Sim.ANYWHERE) && Sim.AnswerAlike(env, env', f, live, [], [])
    requires Sim.Shows(Sim.Origin(m, m'), f, live, Sim.ANYWHERE, m, m')
    requires m.trace == m'.trace == [] && m.calls == m'.calls == []
    requires forall id :: live(id) ==> id in m.signals
    requires forall i :: i in inputs ==> live(i.signalId)
    ensures SessionsAlike(env, env', f, live, limit, m, m', inputs)
  {
    hide Session, Sim.Corresponds, Sim.AnswerAlike;
    Sim.SessionShows(env, env', Sim.Origin(m, m'), f, live, Sim.ANYWHERE, limit, m, m', inputs);
    var m1 := Session(env, limit, m, inputs).0;
    SignalsRemain(env, limit, m, inputs);
    assert m1.trace[0..] == m1.trace && m1.calls[0..] == m1.calls;
    var m1' := Session(env', limit, m', Sim.RenInputs(f, inputs)).0;
    assert [] + RenTrace(f, m1.trace) == RenTrace(f, m1.trace) && [] + RenCalls(f, m1.calls) == RenCalls(f, m1.calls);
  }

  lemma SignalsRemain(env: Env, limit: nat, m: Machine, inputs: seq<Input>)
    ensures Session(env, limit, m, inputs).0.signals.Keys == m.signals.Keys
  {
    hide Session;
    var inv := (m': Machine) => m'.signals.Keys == m.signals.Keys;
    I.SessionKeeps(env, (id: string) => true, inv, limit, m, inputs);
  }
}
