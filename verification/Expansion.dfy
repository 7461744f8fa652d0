/**
 Expansion keeps a schema fit to run: filling in parameters, renaming ports and putting
 instances together never detaches a transition or an initial state from its signal.
 */
module Expansion {
  import opened Wrappers
  import opened Schema
  import opened Errors
  import opened Renaming
  import opened Template
  import opened Compose
  import opened Resolution
  import opened Validation

  /** Signals that start in one of their states, and transitions between states of one of them. */
  ghost predicate MachinesFit(signals: seq<SignalDef>, transitions: seq<TransitionDef>) {
    && (forall s :: s in signals ==> s.initialState in s.states)
    && (forall t :: t in transitions ==> TransitionOk(signals, t))
  }

  // ---- Filling in parameters -----------------------------------------------------------

  lemma {:induction false} ResolvedMembers(items: seq<string>, owner: string, params: seq<string>, b: Bindings)
    requires ResolveAll(items, owner, params, b).Success?
    ensures forall x :: x in items ==>
              Resolve(x, owner, params, b).Success?
                && Resolve(x, owner, params, b).value in ResolveAll(items, owner, params, b).value
  {
    hide Resolve;
    if items != [] {
      assert items == [items[0]] + items[1..];
      ResolvedMembers(items[1..], owner, params, b);
    }
  }

  lemma {:induction false} ExpandedSignals(ss: seq<SignalDef>, owner: string, params: seq<string>, b: Bindings)
    requires ExpandSignals(ss, owner, params, b).Success?
    ensures var out := ExpandSignals(ss, owner, params, b).value;
            && (forall s :: s in ss ==>
                  ExpandSignal(s, owner, params, b).Success? && ExpandSignal(s, owner, params, b).value in out)
            && (forall s' :: s' in out ==> exists s :: s in ss && ExpandSignal(s, owner, params, b) == Success(s'))
  {
    hide ExpandSignal;
    if ss != [] {
      assert ss == [ss[0]] + ss[1..];
      ExpandedSignals(ss[1..], owner, params, b);
    }
  }

  lemma {:induction false} ExpandedTransitions(ts: seq<TransitionDef>, owner: string, params: seq<string>, b: Bindings)
    requires ExpandTransitions(ts, owner, params, b).Success?
    ensures forall t' :: t' in ExpandTransitions(ts, owner, params, b).value ==>
              exists t :: t in ts && ExpandTransition(t, owner, params, b) == Success(t')
  {
    hide ExpandTransition;
    if ts != [] {
      assert ts == [ts[0]] + ts[1..];
      ExpandedTransitions(ts[1..], owner, params, b);
    }
  }

  /** A literal `*` has no hole. */
  lemma WildcardResolves(owner: string, params: seq<string>, b: Bindings)
    ensures Resolve(WILDCARD, owner, params, b) == Success(WILDCARD)
  {
    assert Parse(WILDCARD) == End(WILDCARD);
  }

  lemma FieldsResolve(t: TransitionDef, s: SignalDef, owner: string, params: seq<string>, b: Bindings)
    requires ExpandTransition(t, owner, params, b).Success? && ExpandSignal(s, owner, params, b).Success?
    ensures var t', s' := ExpandTransition(t, owner, params, b).value, ExpandSignal(s, owner, params, b).value;
            && Resolve(t.signalId, owner, params, b) == Success(t'.signalId)
            && Resolve(t.from, owner, params, b) == Success(t'.from)
            && Resolve(t.to, owner, params, b) == Success(t'.to)
            && Resolve(s.id, owner, params, b) == Success(s'.id)
            && Resolve(s.initialState, owner, params, b) == Success(s'.initialState)
            && ResolveAll(s.states, owner, params, b) == Success(s'.states)
  {
    hide Resolve, ResolveAll, ExpandGuard;
  }

  lemma TransitionStaysOk(ss: seq<SignalDef>, t: TransitionDef, owner: string, params: seq<string>, b: Bindings)
    requires ExpandSignals(ss, owner, params, b).Success? && ExpandTransition(t, owner, params, b).Success?
    requires TransitionOk(ss, t)
    ensures TransitionOk(ExpandSignals(ss, owner, params, b).value, ExpandTransition(t, owner, params, b).value)
  {
    hide ExpandSignal, ExpandSignals, ExpandTransition, Resolve, ResolveAll;
    var s :| s in ss && s.id == t.signalId && (t.from == WILDCARD || t.from in s.states) && t.to in s.states;
    ExpandedSignals(ss, owner, params, b);
    FieldsResolve(t, s, owner, params, b);
    ResolvedMembers(s.states, owner, params, b);
    WildcardResolves(owner, params, b);
  }

  lemma ComponentStaysFit(c: ComponentDef, owner: string, b: Bindings)
    requires MachinesFit(c.signals, c.transitions) && ExpandComponent(c, owner, b).Success?
    ensures var part := ExpandComponent(c, owner, b).value; MachinesFit(part.signals, part.transitions)
  {
    hide ExpandSignal, ExpandTransition, ExpandReactions, TransitionOk;
    var part := ExpandComponent(c, owner, b).value;
    ExpandedSignals(c.signals, owner, c.params, b);
    ExpandedTransitions(c.transitions, owner, c.params, b);
    forall s' | s' in part.signals ensures s'.initialState in s'.states {
      var s :| s in c.signals && ExpandSignal(s, owner, c.params, b) == Success(s');
      InitialStays(s, owner, c.params, b);
    }
    forall t' | t' in part.transitions ensures TransitionOk(part.signals, t') {
      var t :| t in c.transitions && ExpandTransition(t, owner, c.params, b) == Success(t');
      TransitionStaysOk(c.signals, t, owner, c.params, b);
    }
  }

  lemma InitialStays(s: SignalDef, owner: string, params: seq<string>, b: Bindings)
    requires s.initialState in s.states && ExpandSignal(s, owner, params, b).Success?
    ensures var s' := ExpandSignal(s, owner, params, b).value; s'.initialState in s'.states
  {
    hide Resolve;
    ResolvedMembers(s.states, owner, params, b);
  }

  // ---- Renaming and putting together ---------------------------------------------------

  lemma RenamedStaysFit(f: Names, signals: seq<SignalDef>, transitions: seq<TransitionDef>)
    requires MachinesFit(signals, transitions)
    ensures MachinesFit(RenSignals(f, signals), RenTransitions(f, transitions))
  {
    var renamed := RenSignals(f, signals);
    forall s | s in signals ensures s.(id := f(s.id)) in renamed {
      var i :| 0 <= i < |signals| && signals[i] == s;
      assert renamed[i] == s.(id := f(s.id));
    }
    RenamedTransitions(f, transitions);
    forall t' | t' in RenTransitions(f, transitions) ensures TransitionOk(renamed, t') {
      var t :| t in transitions && t' == t.(signalId := f(t.signalId));
      var s :| s in signals && s.id == t.signalId && (t.from == WILDCARD || t.from in s.states) && t.to in s.states;
      assert s.(id := f(s.id)) in renamed;
    }
  }

  lemma {:induction false} RenamedTransitions(f: Names, ts: seq<TransitionDef>)
    ensures forall t' :: t' in RenTransitions(f, ts) ==> exists t :: t in ts && t' == t.(signalId := f(t.signalId))
  {
    if ts != [] {
      RenamedTransitions(f, ts[1..]);
    }
  }

  lemma JoinedFits(p: Part, q: Part)
    requires MachinesFit(p.signals, p.transitions) && MachinesFit(q.signals, q.transitions)
    ensures MachinesFit(Join(p, q).signals, Join(p, q).transitions)
  {
    var all := p.signals + q.signals;
    forall t | TransitionOk(p.signals, t) || TransitionOk(q.signals, t) ensures TransitionOk(all, t) {
      assert forall s :: s in p.signals || s in q.signals ==> s in all;
    }
  }

  lemma {:induction false} InstancesFit(components: map<string, ComponentDef>, insts: seq<InstanceDef>)
    requires forall name :: name in components ==> MachinesFit(components[name].signals, components[name].transitions)
    requires ExpandInstances(components, insts).Success?
    ensures var part := ExpandInstances(components, insts).value; MachinesFit(part.signals, part.transitions)
    decreases |insts|
  {
    hide MachinesFit, Elaborate, Placed;
    if insts == [] {
      NothingFits();
    } else {
      InstanceFits(components, insts[0]);
      InstancesFit(components, insts[1..]);
      JoinedFits(Placed(Elaborate(components, insts[0]).value), ExpandInstances(components, insts[1..]).value);
    }
  }

  lemma NothingFits()
    ensures MachinesFit([], [])
  {}

  lemma InstanceFits(components: map<string, ComponentDef>, inst: InstanceDef)
    requires forall name :: name in components ==> MachinesFit(components[name].signals, components[name].transitions)
    requires Elaborate(components, inst).Success?
    ensures var part := Placed(Elaborate(components, inst).value); MachinesFit(part.signals, part.transitions)
  {
    hide MachinesFit, Wires, ExpandComponent, Rewired, RenSignals, RenTransitions, RenReactions;
    var c := components[inst.component];
    var bound := Bind(c.params, inst.bindings, inst.component, map[]).value;
    var w := Elaborate(components, inst).value;
    ComponentStaysFit(c, inst.component, bound);
    RenamedStaysFit(Rewired(w.remap), w.part.signals, w.part.transitions);
  }

  /**
   The main result. If the schema's own signals are fit and so are each component's, then
   whatever expansion succeeds in is fit, and its signals are distinct: for any parameters,
   bindings and connections, only its reactions can still name an undeclared signal.
   */
  lemma ExpansionStaysFit(schema: TopologySchema)
    requires SignalsOk(schema.signals) && MachinesFit(schema.signals, schema.transitions)
    requires forall name :: name in Components(schema)
               ==> MachinesFit(Components(schema)[name].signals, Components(schema)[name].transitions)
    requires Expanded(schema).Success?
    ensures var flat := Expanded(schema).value;
            && SignalsOk(flat.signals) && (forall t :: t in flat.transitions ==> TransitionOk(flat.signals, t))
            && (WellFormed(flat) <==> forall r :: r in flat.reactions ==> ReactionOk(flat.signals, r))
  {
    if schema.instances != [] {
      var own := Part(schema.signals, schema.transitions, schema.reactions);
      var part := ExpandInstances(Components(schema), schema.instances).value;
      InstancesFit(Components(schema), schema.instances);
      JoinedFits(own, part);
      DuplicateMeans(Join(own, part).signals, {});
      hide TransitionOk;
    }
  }
}
