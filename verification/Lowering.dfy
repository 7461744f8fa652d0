/**
 Wildcard lowering preserves meaning. The compiler replaces `on e from * -> t` by one
 transition per state. The engine also understands a literal `*`, so the two forms can be
 compared: they run alike over every session.
 */
module Lowering {
  import opened Wrappers
  import opened Schema
  import opened Errors
  import opened Semantics
  import opened DdlSyntax
  import opened Codegen
  import opened Validation
  import opened Renaming
  import Sim = Simulation
  import I = Invariants

  // ---- The form without lowering -------------------------------------------------------

  function PlainTransitions(id: string, trs: seq<TransDecl>): seq<TransitionDef> {
    if trs == [] then [] else [Arm(id, trs[0], trs[0].from)] + PlainTransitions(id, trs[1..])
  }

  function Plain(decls: seq<SignalDecl>): seq<TransitionDef> {
    if decls == [] then [] else PlainTransitions(decls[0].id, decls[0].transitions) + Plain(decls[1..])
  }

  /** The schema with every wildcard left as a literal `*`. */
  function PlainSchema(decls: seq<SignalDecl>, reactions: seq<ReactionDef>): TopologySchema {
    Emit(decls, reactions).(transitions := Plain(decls))
  }

  // ---- Lists spread over the states ----------------------------------------------------

  ghost predicate FromAnyOf(s: SignalDef, t: TransitionDef, arms: seq<TransitionDef>) {
    s.id == t.signalId && s.states != [] && arms == FromEach(t, s.states)
  }

  /** `arms` stand for `t`: they are `t` alone or, for one from `*`, one arm for each state of its signal. */
  ghost predicate StandFor(signals: seq<SignalDef>, t: TransitionDef, arms: seq<TransitionDef>) {
    arms == [t] || (t.from == WILDCARD && exists s :: s in signals && FromAnyOf(s, t, arms))
  }

  /** `lowered` is `plain` with, in place of each transition, arms that stand for it. */
  ghost predicate Spread(signals: seq<SignalDef>, plain: seq<TransitionDef>, lowered: seq<TransitionDef>) {
    if plain == [] then lowered == []
    else exists n :: 0 <= n <= |lowered| && StandFor(signals, plain[0], lowered[..n])
           && Spread(signals, plain[1..], lowered[n..])
  }

  lemma SpreadOneMore(signals: seq<SignalDef>, t: TransitionDef, arms: seq<TransitionDef>,
                      plain: seq<TransitionDef>, lowered: seq<TransitionDef>)
    requires StandFor(signals, t, arms) && Spread(signals, plain, lowered)
    ensures Spread(signals, [t] + plain, arms + lowered)
  {
    hide StandFor;
    assert ([t] + plain)[1..] == plain;
    assert (arms + lowered)[..|arms|] == arms && (arms + lowered)[|arms|..] == lowered;
  }

  lemma SpreadFirst(signals: seq<SignalDef>, plain: seq<TransitionDef>, lowered: seq<TransitionDef>) returns (n: nat)
    requires plain != [] && Spread(signals, plain, lowered)
    ensures n <= |lowered| && StandFor(signals, plain[0], lowered[..n]) && Spread(signals, plain[1..], lowered[n..])
  {
    n :| 0 <= n <= |lowered| && StandFor(signals, plain[0], lowered[..n]) && Spread(signals, plain[1..], lowered[n..]);
  }

  lemma {:induction false} SpreadConcat(signals: seq<SignalDef>, plain1: seq<TransitionDef>,
                                        lowered1: seq<TransitionDef>,
                                        plain2: seq<TransitionDef>, lowered2: seq<TransitionDef>)
    requires Spread(signals, plain1, lowered1) && Spread(signals, plain2, lowered2)
    ensures Spread(signals, plain1 + plain2, lowered1 + lowered2)
    decreases |plain1|
  {
    hide StandFor, Spread;
    if plain1 == [] {
      SpreadNothing(signals, lowered1);
      assert plain1 + plain2 == plain2 && lowered1 + lowered2 == lowered2;
    } else {
      var n := SpreadFirst(signals, plain1, lowered1);
      SpreadConcat(signals, plain1[1..], lowered1[n..], plain2, lowered2);
      SpreadOneMore(signals, plain1[0], lowered1[..n], plain1[1..] + plain2, lowered1[n..] + lowered2);
      assert [plain1[0]] == plain1[..1];
      Regroup(plain1, 1, plain2);
      Regroup(lowered1, n, lowered2);
    }
  }

  lemma SpreadNothing(signals: seq<SignalDef>, lowered: seq<TransitionDef>)
    requires Spread(signals, [], lowered)
    ensures lowered == []
  {}

  lemma Regroup<T>(a: seq<T>, n: nat, b: seq<T>)
    requires n <= |a|
    ensures a[..n] + (a[n..] + b) == a + b
  {}

  lemma {:induction false} SpreadAmongMore(signals: seq<SignalDef>, more: seq<SignalDef>,
                                           plain: seq<TransitionDef>, lowered: seq<TransitionDef>)
    requires Spread(signals, plain, lowered) && forall s :: s in signals ==> s in more
    ensures Spread(more, plain, lowered)
    decreases |plain|
  {
    if plain != [] {
      var n := SpreadFirst(signals, plain, lowered);
      SpreadAmongMore(signals, more, plain[1..], lowered[n..]);
      assert StandFor(more, plain[0], lowered[..n]);
    }
  }

  /** What the compiler emits is what the declarations say, spread over the states. */
  lemma {:induction false} TransitionsSpread(d: SignalDecl, trs: seq<TransDecl>)
    requires d.states != []
    ensures Spread([SignalDef(d.id, d.initial, d.states)], PlainTransitions(d.id, trs),
                   LowerTransitions(d.id, d.states, trs))
  {
    if trs != [] {
      var own := SignalDef(d.id, d.initial, d.states);
      var arm, arms := Arm(d.id, trs[0], trs[0].from), LowerTransition(d.id, d.states, trs[0]);
      assert trs[0].from == WILDCARD ==> FromAnyOf(own, arm, arms);
      TransitionsSpread(d, trs[1..]);
      SpreadOneMore([own], arm, arms, PlainTransitions(d.id, trs[1..]), LowerTransitions(d.id, d.states, trs[1..]));
    }
  }

  lemma {:induction false} LoweredSpreads(decls: seq<SignalDecl>)
    requires forall d :: d in decls ==> d.states != []
    ensures Spread(Signals(decls), Plain(decls), Lowered(decls))
  {
    if decls != [] {
      var d := decls[0];
      var own, rest := SignalDef(d.id, d.initial, d.states), Signals(decls[1..]);
      assert Signals(decls) == [own] + rest;
      TransitionsSpread(d, d.transitions);
      LoweredSpreads(decls[1..]);
      SpreadAmongMore([own], Signals(decls), PlainTransitions(d.id, d.transitions),
                      LowerTransitions(d.id, d.states, d.transitions));
      SpreadAmongMore(rest, Signals(decls), Plain(decls[1..]), Lowered(decls[1..]));
      SpreadConcat(Signals(decls), PlainTransitions(d.id, d.transitions),
                   LowerTransitions(d.id, d.states, d.transitions),
                   Plain(decls[1..]), Lowered(decls[1..]));
    }
  }

  // ---- Both forms select alike ---------------------------------------------------------

  lemma {:induction false} FindConcat(a: seq<TransitionDef>, b: seq<TransitionDef>, id: string, event: string,
                                      current: string)
    ensures Find(a + b, id, event, current)
         == if Find(a, id, event, current).Some? then Find(a, id, event, current) else Find(b, id, event, current)
  {
    if a == [] {
      assert a + b == b;
    } else {
      assert (a + b)[1..] == a[1..] + b;
      FindConcat(a[1..], b, id, event, current);
    }
  }

  lemma {:induction false} ArmsOwned(t: TransitionDef, states: seq<string>)
    ensures forall arm :: arm in FromEach(t, states) <==> arm.from in states && arm == t.(from := arm.from)
  {
    if states != [] {
      ArmsOwned(t, states[1..]);
      assert states == [states[0]] + states[1..];
    }
  }

  /** Arms that stand for a transition select what it selects, in the states of their signal. */
  lemma ArmsFind(signals: seq<SignalDef>, t: TransitionDef, arms: seq<TransitionDef>, s: SignalDef, event: string,
                 current: string)
    requires DistinctIds(signals) && s in signals && current in s.states && StandFor(signals, t, arms)
    ensures Sim.SameMove(Find([t], s.id, event, current), Find(arms, s.id, event, current))
  {
    if arms != [t] {
      var own :| own in signals && FromAnyOf(own, t, arms);
      ArmsOwned(t, own.states);
      I.FindMatches(arms, s.id, event, current);
      I.FindMatches([t], s.id, event, current);
      if s.id == t.signalId {
        LookupIsUnique(signals, s.id, s);
        LookupIsUnique(signals, s.id, own);
        assert t.(from := current) in arms && t in [t];
      }
    }
  }

  /** In every declared state of a signal, both forms select the same move. */
  lemma {:induction false} FindAlike(signals: seq<SignalDef>, plain: seq<TransitionDef>, lowered: seq<TransitionDef>,
                                     s: SignalDef, event: string, current: string)
    requires DistinctIds(signals) && s in signals && current in s.states && Spread(signals, plain, lowered)
    ensures Sim.SameMove(Find(plain, s.id, event, current), Find(lowered, s.id, event, current))
    decreases |plain|
  {
    hide StandFor, DistinctIds;
    if plain != [] {
      var n := SpreadFirst(signals, plain, lowered);
      ArmsFind(signals, plain[0], lowered[..n], s, event, current);
      FindAlike(signals, plain[1..], lowered[n..], s, event, current);
      FindConcat([plain[0]], plain[1..], s.id, event, current);
      FindConcat(lowered[..n], lowered[n..], s.id, event, current);
      assert [plain[0]] + plain[1..] == plain && lowered[..n] + lowered[n..] == lowered;
    }
  }

  // ---- Both forms are valid together ---------------------------------------------------

  /** The declared transitions of both forms, by the declarations they come from. */
  lemma {:induction false} PlainFrom(decls: seq<SignalDecl>)
    ensures forall t :: t in Plain(decls)
              <==> exists d, tr :: d in decls && tr in d.transitions && t == Arm(d.id, tr, tr.from)
  {
    if decls != [] {
      PlainFrom(decls[1..]);
      PlainTransitionsFrom(decls[0].id, decls[0].transitions);
      assert decls == [decls[0]] + decls[1..];
    }
  }

  lemma {:induction false} PlainTransitionsFrom(id: string, trs: seq<TransDecl>)
    ensures forall t :: t in PlainTransitions(id, trs) <==> exists tr :: tr in trs && t == Arm(id, tr, tr.from)
  {
    if trs != [] {
      PlainTransitionsFrom(id, trs[1..]);
      assert trs == [trs[0]] + trs[1..];
    }
  }

  /** `from` is one of the states `tr` is lowered to. */
  predicate LeavesFrom(d: SignalDecl, tr: TransDecl, from: string) {
    if tr.from == WILDCARD then from in d.states else from == tr.from
  }

  lemma {:induction false} LoweredFrom(decls: seq<SignalDecl>)
    ensures forall t :: t in Lowered(decls) <==>
              exists d, tr :: d in decls && tr in d.transitions && LeavesFrom(d, tr, t.from)
                && t == Arm(d.id, tr, t.from)
  {
    if decls != [] {
      LoweredFrom(decls[1..]);
      LowerTransitionsFrom(decls[0], decls[0].transitions);
      assert decls == [decls[0]] + decls[1..];
    }
  }

  lemma LowerTransitionFrom(d: SignalDecl, tr: TransDecl)
    ensures forall t :: t in LowerTransition(d.id, d.states, tr)
              <==> LeavesFrom(d, tr, t.from) && t == Arm(d.id, tr, t.from)
  {
    ArmsOwned(Arm(d.id, tr, WILDCARD), d.states);
  }

  lemma {:induction false} LowerTransitionsFrom(d: SignalDecl, trs: seq<TransDecl>)
    ensures forall t :: t in LowerTransitions(d.id, d.states, trs) <==>
              exists tr :: tr in trs && LeavesFrom(d, tr, t.from) && t == Arm(d.id, tr, t.from)
  {
    if trs != [] {
      LowerTransitionsFrom(d, trs[1..]);
      LowerTransitionFrom(d, trs[0]);
      hide LowerTransition;
      assert trs == [trs[0]] + trs[1..];
    }
  }

  lemma SignalsFrom(decls: seq<SignalDecl>)
    ensures forall s :: s in Signals(decls) <==> exists d :: d in decls && s == SignalDef(d.id, d.initial, d.states)
    ensures DistinctIds(Signals(decls)) <==> DistinctDecls(decls)
  {
    forall d | d in decls ensures SignalDef(d.id, d.initial, d.states) in Signals(decls) {
      var i :| 0 <= i < |decls| && decls[i] == d;
      assert Signals(decls)[i] == SignalDef(d.id, d.initial, d.states);
    }
    if DistinctIds(Signals(decls)) {
      forall i, j | 0 <= i < j < |decls| ensures decls[i].id != decls[j].id {
        assert Signals(decls)[i].id != Signals(decls)[j].id;
      }
    }
  }

  lemma OwnSignal(decls: seq<SignalDecl>, d: SignalDecl, t: TransitionDef)
    requires DistinctDecls(decls) && d in decls && t.signalId == d.id
    ensures TransitionOk(Signals(decls), t) <==> t.to in d.states && (t.from == WILDCARD || t.from in d.states)
  {
    SignalsFrom(decls);
    var own := SignalDef(d.id, d.initial, d.states);
    assert own in Signals(decls);
    forall s | s in Signals(decls) && s.id == d.id ensures s == own {
      LookupIsUnique(Signals(decls), d.id, s);
      LookupIsUnique(Signals(decls), d.id, own);
    }
  }

  lemma PlainValid(decls: seq<SignalDecl>)
    requires DistinctDecls(decls)
    ensures DeclsFit(decls) <==> forall t :: t in Plain(decls) ==> TransitionOk(Signals(decls), t)
  {
    PlainFrom(decls);
    forall d, tr | d in decls && tr in d.transitions
      ensures var arm := Arm(d.id, tr, tr.from);
              arm in Plain(decls)
              && (TransitionOk(Signals(decls), arm)
                  <==> tr.to in d.states && (tr.from == WILDCARD || tr.from in d.states))
    {
      OwnSignal(decls, d, Arm(d.id, tr, tr.from));
    }
  }

  lemma LoweredValid(decls: seq<SignalDecl>)
    requires DistinctDecls(decls) && forall d :: d in decls ==> d.initial in d.states
    ensures DeclsFit(decls) <==> forall t :: t in Lowered(decls) ==> TransitionOk(Signals(decls), t)
  {
    LoweredFrom(decls);
    forall d, tr, from | d in decls && tr in d.transitions && LeavesFrom(d, tr, from)
      ensures var arm := Arm(d.id, tr, from);
              arm in Lowered(decls)
              && (TransitionOk(Signals(decls), arm)
                  <==> tr.to in d.states && (tr.from == WILDCARD || tr.from in d.states))
    {
      OwnSignal(decls, d, Arm(d.id, tr, from));
    }
    forall d, tr | d in decls && tr in d.transitions
      ensures exists from :: LeavesFrom(d, tr, from)
    {
      assert LeavesFrom(d, tr, if tr.from == WILDCARD then d.initial else tr.from);
    }
  }

  /** Validation accepts the lowered schema exactly when it accepts the plain one. */
  lemma ValidTogether(decls: seq<SignalDecl>, reactions: seq<ReactionDef>)
    ensures WellFormed(Emit(decls, reactions)) <==> WellFormed(PlainSchema(decls, reactions))
  {
    SignalsFrom(decls);
    if SignalsOk(Signals(decls)) {
      forall d | d in decls ensures d.initial in d.states {
        assert SignalDef(d.id, d.initial, d.states) in Signals(decls);
      }
      PlainValid(decls);
      LoweredValid(decls);
    }
  }

  // ---- Both forms run alike ------------------------------------------------------------

  /** Two schemas that differ only in how the transitions from `*` are written. */
  ghost predicate Forms(plain: TopologySchema, lowered: TopologySchema) {
    && plain.signals == lowered.signals && plain.reactions == lowered.reactions
    && Spread(plain.signals, plain.transitions, lowered.transitions)
  }

  /** The states a signal can be in. */
  ghost predicate Home(signals: seq<SignalDef>, id: string, current: string) {
    exists s :: s in signals && s.id == id && current in s.states
  }

  lemma FormsCorrespond(plain: TopologySchema, lowered: TopologySchema, actions: map<string, ActionFn>, guards: GuardFn)
    requires WellFormed(plain) && Forms(plain, lowered)
    ensures Sim.Corresponds(EnvOf(plain, actions, guards), EnvOf(lowered, actions, guards),
                            SAME, (id: string) => true, (id, current) => Home(plain.signals, id, current))
  {
    var signals := plain.signals;
    hide Spread;
    forall id, event, current | Home(signals, id, current)
      ensures Sim.SameMove(Find(plain.transitions, id, event, current), Find(lowered.transitions, id, event, current))
    {
      var s :| s in signals && s.id == id && current in s.states;
      FindAlike(signals, plain.transitions, lowered.transitions, s, event, current);
    }
    forall t | t in plain.transitions ensures Home(signals, t.signalId, t.to) {
      assert TransitionOk(signals, t);
    }
    forall id, s ensures Matching(plain.reactions, id, s) == RenReactions(SAME, Matching(plain.reactions, id, s)) {
      SameReactions(Matching(plain.reactions, id, s));
    }
  }

  /** With the same callbacks, answers are alike under the same names. */
  lemma SameAnswers(env: Env, env': Env, live: string -> bool, past: seq<ActionCall>)
    requires env.actions == env'.actions
    ensures Sim.AnswerAlike(env, env', SAME, live, past, past)
  {
    forall a, calls, ctx | a in env.actions && a in env'.actions
      ensures env'.actions[a](past + RenCalls(SAME, calls), RenContext(SAME, ctx))
           == RenMaybeError(SAME, env.actions[a](past + calls, ctx))
    {
      SameCalls(calls);
      SameContext(ctx);
      if env.actions[a](past + calls, ctx).Some? {
        SameError(env.actions[a](past + calls, ctx).value);
      }
    }
  }

  lemma SameOutcome(o: Outcome)
    ensures RenOutcome(SAME, o) == o
  {
    if o.Failure? {
      SameError(o.error);
    }
  }

  lemma {:induction false} SameInputs(inputs: seq<Input>)
    ensures Sim.RenInputs(SAME, inputs) == inputs
  {
    if inputs != [] {
      SameInputs(inputs[1..]);
    }
  }

  /** Two machines in the same states of the same schema. */
  lemma SameMachine(schema: TopologySchema, m: Machine, m': Machine)
    requires Housed(schema, m) && Housed(schema, m')
    requires forall id :: id in m.signals && id in m'.signals ==> m.signals[id].current == m'.signals[id].current
    ensures m.signals == m'.signals
  {
    forall id | id in m.signals ensures id in m'.signals && m.signals[id] == m'.signals[id] {
      assert Declared(schema.signals, id);
    }
    forall id | id in m'.signals ensures id in m.signals {
      assert Declared(schema.signals, id);
    }
  }

  /** Two forms of one schema run alike, whatever the callbacks, guards, limit and inputs. */
  lemma FormsRunAlike(plain: TopologySchema, lowered: TopologySchema, actions: map<string, ActionFn>,
                      guards: GuardFn, limit: nat, inputs: seq<Input>)
    requires WellFormed(plain) && WellFormed(lowered) && Forms(plain, lowered)
    ensures Session(EnvOf(lowered, actions, guards), limit, InitialMachine(lowered), inputs) ==
            Session(EnvOf(plain, actions, guards), limit, InitialMachine(plain), inputs)
  {
    var env, env' := EnvOf(plain, actions, guards), EnvOf(lowered, actions, guards);
    var m := InitialMachine(plain);
    var all, home := (id: string) => true, (id: string, current: string) => Home(plain.signals, id, current);
    var o := Sim.Origin(m, m);
    FormsCorrespond(plain, lowered, actions, guards);
    SameAnswers(env, env', all, []);
    InitiallyShows(plain);
    SessionsStayHoused(plain, actions, guards, limit, inputs);
    SessionsStayHoused(lowered, actions, guards, limit, inputs);
    SameInputs(inputs);
    assert InitialMachine(lowered) == m;
    hide Sim.Corresponds, Sim.AnswerAlike, Sim.Shows, WellFormed, Housed, Session;
    Sim.SessionShows(env, env', o, SAME, all, home, limit, m, m, inputs);
    var (m1, outcomes) := Session(env, limit, m, inputs);
    var (m1', outcomes') := Session(env', limit, m, inputs);
    HousedAlike(plain, lowered, m1');
    ShownIsSame(plain, o, all, home, m1, m1');
    forall k | 0 <= k < |inputs| ensures outcomes'[k] == outcomes[k] {
      SameOutcome(outcomes[k]);
    }
    assert outcomes' == outcomes;
  }

  lemma HousedAlike(plain: TopologySchema, lowered: TopologySchema, m: Machine)
    requires plain.signals == lowered.signals && Housed(lowered, m)
    ensures Housed(plain, m)
  {}

  lemma EmittedForms(decls: seq<SignalDecl>, reactions: seq<ReactionDef>)
    requires WellFormed(Emit(decls, reactions))
    ensures Forms(PlainSchema(decls, reactions), Emit(decls, reactions))
  {
    SignalsFrom(decls);
    forall d | d in decls ensures d.states != [] {
      assert SignalDef(d.id, d.initial, d.states) in Signals(decls);
    }
    LoweredSpreads(decls);
  }

  /**
   Wildcard lowering preserves meaning: whatever the callbacks, guards, limit and inputs,
   the compiled engine and the one that interprets `*` end in the same states, with the
   same outcomes, trace and action calls.
   */
  lemma LoweringPreservesSessions(decls: seq<SignalDecl>, reactions: seq<ReactionDef>, actions: map<string, ActionFn>,
                                  guards: GuardFn, limit: nat, inputs: seq<Input>)
    requires WellFormed(Emit(decls, reactions))
    ensures var plain, lowered := PlainSchema(decls, reactions), Emit(decls, reactions);
            Session(EnvOf(lowered, actions, guards), limit, InitialMachine(lowered), inputs) ==
            Session(EnvOf(plain, actions, guards), limit, InitialMachine(plain), inputs)
  {
    hide WellFormed, Session, Forms;
    ValidTogether(decls, reactions);
    EmittedForms(decls, reactions);
    FormsRunAlike(PlainSchema(decls, reactions), Emit(decls, reactions), actions, guards, limit, inputs);
  }

  lemma ShownIsSame(schema: TopologySchema, o: Sim.Origin, all: string -> bool, home: (string, string) -> bool,
                    m: Machine, m': Machine)
    requires Sim.Shows(o, SAME, all, home, m, m') && forall id :: all(id)
    requires o.m == o.m' && o.m.trace == [] && o.m.calls == []
    requires Housed(schema, m) && Housed(schema, m')
    ensures m == m'
  {
    SameTrace(m.trace);
    SameCalls(m.calls);
    assert m.trace[0..] == m.trace && m.calls[0..] == m.calls;
    SameMachine(schema, m, m');
  }

  lemma InitiallyShows(schema: TopologySchema)
    requires WellFormed(schema)
    ensures var m := InitialMachine(schema);
            Sim.Shows(Sim.Origin(m, m), SAME, (id: string) => true, (id, current) => Home(schema.signals, id, current),
                      m, m)
  {
    var m := InitialMachine(schema);
    InitiallyHoused(schema);
    hide InitialMachine, WellFormed;
    forall id | id in m.signals ensures Home(schema.signals, id, m.signals[id].current) {
      assert Declared(schema.signals, id);
    }
    StartsBlank(schema);
  }

  lemma StartsBlank(schema: TopologySchema)
    ensures InitialMachine(schema).trace == [] && InitialMachine(schema).calls == []
  {}
}
