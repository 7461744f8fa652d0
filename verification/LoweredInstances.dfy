/**
 Wildcard lowering and expansion commute. The compiler lowers the transitions of components
 before it expands their instances, so a `*` becomes one arm for each state of the template,
 and the arms' states are filled in afterwards. The flat schema runs as the one expanded
 from the components as they are written, with a literal `*`.
 */
module LoweredInstances {
  import opened Wrappers
  import opened Schema
  import opened Errors
  import opened Semantics
  import opened DdlSyntax
  import opened Codegen
  import opened Lowering
  import opened Renaming
  import opened Template
  import opened Resolution
  import opened Compose
  import opened DdlGrammar
  import opened DdlCompile
  import opened Validation
  import L = DdlLexer
  import X = Expansion

  // ---- Filling in parameters -----------------------------------------------------------

  /** An arm is filled in as its transition is, but for the state it leaves from. */
  lemma ArmExpands(t: TransitionDef, from: string, owner: string, params: seq<string>, b: Bindings)
    requires t.from == WILDCARD && Resolve(from, owner, params, b).Success?
    ensures ExpandTransition(t.(from := from), owner, params, b)
         == match ExpandTransition(t, owner, params, b)
            case Failure(e) => Failure(e)
            case Success(t') => Success(t'.(from := Resolve(from, owner, params, b).value))
    ensures ExpandTransition(t, owner, params, b).Success?
            ==> ExpandTransition(t, owner, params, b).value.from == WILDCARD
  {
    X.WildcardResolves(owner, params, b);
    hide Resolve, ResolveAll, ExpandGuard;
  }

  lemma {:induction false} ArmsExpand(t: TransitionDef, states: seq<string>, owner: string, params: seq<string>,
                                      b: Bindings)
    requires t.from == WILDCARD && states != [] && ResolveAll(states, owner, params, b).Success?
    ensures ExpandTransitions(FromEach(t, states), owner, params, b)
         == match ExpandTransition(t, owner, params, b)
            case Failure(e) => Failure(e)
            case Success(t') => Success(FromEach(t', ResolveAll(states, owner, params, b).value))
  {
    hide Resolve, ExpandTransition;
    ArmExpands(t, states[0], owner, params, b);
    assert FromEach(t, states)[1..] == FromEach(t, states[1..]);
    if |states| > 1 {
      ArmsExpand(t, states[1..], owner, params, b);
    }
  }

  lemma {:induction false} ExpandConcat(ts: seq<TransitionDef>, us: seq<TransitionDef>, owner: string,
                                        params: seq<string>, b: Bindings)
    ensures ExpandTransitions(ts + us, owner, params, b)
         == match ExpandTransitions(ts, owner, params, b)
            case Failure(e) => Failure(e)
            case Success(done) => After(done, ExpandTransitions(us, owner, params, b))
  {
    hide ExpandTransition;
    if ts == [] {
      assert ts + us == us;
      AfterNothing(ExpandTransitions(us, owner, params, b));
    } else {
      assert (ts + us)[0] == ts[0] && (ts + us)[1..] == ts[1..] + us;
      ExpandConcat(ts[1..], us, owner, params, b);
      var first, done, rest := ExpandTransition(ts[0], owner, params, b), ExpandTransitions(ts[1..], owner, params, b),
                               ExpandTransitions(us, owner, params, b);
      if first.Success? && done.Success? && rest.Success? {
        assert [first.value] + (done.value + rest.value) == [first.value] + done.value + rest.value;
      }
    }
  }

  /** Both fail alike, or both succeed with a list and one spread from it. */
  ghost predicate SpreadAlike(signals: seq<SignalDef>, r: Maybe<seq<TransitionDef>>, r': Maybe<seq<TransitionDef>>) {
    match r
    case Failure(e) => r' == r
    case Success(ts) => r'.Success? && Spread(signals, ts, r'.value)
  }

  lemma StandForExpands(ss: seq<SignalDef>, t: TransitionDef, arms: seq<TransitionDef>, owner: string,
                        params: seq<string>, b: Bindings)
    requires ExpandSignals(ss, owner, params, b).Success? && StandFor(ss, t, arms)
    ensures match ExpandTransition(t, owner, params, b)
            case Failure(e) => ExpandTransitions(arms, owner, params, b) == Failure(e)
            case Success(t') =>
              var r := ExpandTransitions(arms, owner, params, b);
              r.Success? && StandFor(ExpandSignals(ss, owner, params, b).value, t', r.value)
  {
    hide ExpandSignal, ExpandSignals, ExpandTransition, Resolve, ResolveAll;
    if arms == [t] {
      assert [t][1..] == [];
    } else {
      var s :| s in ss && FromAnyOf(s, t, arms);
      X.ExpandedSignals(ss, owner, params, b);
      var s' := ExpandSignal(s, owner, params, b).value;
      StatesExpand(s, owner, params, b);
      ArmsExpand(t, s.states, owner, params, b);
      if ExpandTransition(t, owner, params, b).Success? {
        ArmExpands(t, s.states[0], owner, params, b);
        X.FieldsResolve(t, s, owner, params, b);
        assert FromAnyOf(s', ExpandTransition(t, owner, params, b).value,
                         ExpandTransitions(arms, owner, params, b).value);
      }
    }
  }

  lemma StatesExpand(s: SignalDef, owner: string, params: seq<string>, b: Bindings)
    requires s.states != [] && ExpandSignal(s, owner, params, b).Success?
    ensures ResolveAll(s.states, owner, params, b) == Success(ExpandSignal(s, owner, params, b).value.states)
    ensures ExpandSignal(s, owner, params, b).value.states != [] && Resolve(s.states[0], owner, params, b).Success?
  {
    hide Resolve;
  }

  lemma {:induction false} SpreadExpands(ss: seq<SignalDef>, plain: seq<TransitionDef>, lowered: seq<TransitionDef>,
                                         owner: string, params: seq<string>, b: Bindings)
    requires ExpandSignals(ss, owner, params, b).Success? && Spread(ss, plain, lowered)
    ensures SpreadAlike(ExpandSignals(ss, owner, params, b).value,
                        ExpandTransitions(plain, owner, params, b), ExpandTransitions(lowered, owner, params, b))
    decreases |plain|
  {
    hide ExpandSignals, ExpandTransition, StandFor;
    if plain != [] {
      var n := SpreadFirst(ss, plain, lowered);
      StandForExpands(ss, plain[0], lowered[..n], owner, params, b);
      SpreadExpands(ss, plain[1..], lowered[n..], owner, params, b);
      ExpandConcat(lowered[..n], lowered[n..], owner, params, b);
      assert lowered[..n] + lowered[n..] == lowered;
      var first, rest := ExpandTransition(plain[0], owner, params, b), ExpandTransitions(plain[1..], owner, params, b);
      if first.Success? && rest.Success? {
        SpreadOneMore(ExpandSignals(ss, owner, params, b).value, first.value,
                      ExpandTransitions(lowered[..n], owner, params, b).value,
                      rest.value, ExpandTransitions(lowered[n..], owner, params, b).value);
      }
    }
  }

  // ---- Renaming ------------------------------------------------------------------------

  lemma {:induction false} ArmsRename(f: Names, t: TransitionDef, states: seq<string>)
    ensures RenTransitions(f, FromEach(t, states)) == FromEach(t.(signalId := f(t.signalId)), states)
  {
    if states != [] {
      ArmsRename(f, t, states[1..]);
    }
  }

  lemma {:induction false} RenameConcat(f: Names, ts: seq<TransitionDef>, us: seq<TransitionDef>)
    ensures RenTransitions(f, ts + us) == RenTransitions(f, ts) + RenTransitions(f, us)
  {
    if ts == [] {
      assert ts + us == us;
    } else {
      assert (ts + us)[1..] == ts[1..] + us;
      RenameConcat(f, ts[1..], us);
    }
  }

  lemma StandForRenamed(f: Names, ss: seq<SignalDef>, t: TransitionDef, arms: seq<TransitionDef>)
    requires StandFor(ss, t, arms)
    ensures StandFor(RenSignals(f, ss), t.(signalId := f(t.signalId)), RenTransitions(f, arms))
  {
    if arms != [t] {
      var s :| s in ss && FromAnyOf(s, t, arms);
      var i :| 0 <= i < |ss| && ss[i] == s;
      ArmsRename(f, t, s.states);
      assert RenSignals(f, ss)[i] in RenSignals(f, ss);
      assert FromAnyOf(RenSignals(f, ss)[i], t.(signalId := f(t.signalId)), RenTransitions(f, arms));
    }
  }

  lemma NoSpread(ss: seq<SignalDef>)
    ensures Spread(ss, [], [])
  {}

  lemma {:induction false} SpreadRenames(f: Names, ss: seq<SignalDef>, plain: seq<TransitionDef>,
                                         lowered: seq<TransitionDef>)
    requires Spread(ss, plain, lowered)
    ensures Spread(RenSignals(f, ss), RenTransitions(f, plain), RenTransitions(f, lowered))
    decreases |plain|
  {
    hide StandFor, RenSignals, Spread;
    if plain == [] {
      SpreadNothing(ss, lowered);
      NoSpread(RenSignals(f, ss));
    } else {
      var n := SpreadFirst(ss, plain, lowered);
      StandForRenamed(f, ss, plain[0], lowered[..n]);
      SpreadRenames(f, ss, plain[1..], lowered[n..]);
      RenameConcat(f, lowered[..n], lowered[n..]);
      assert lowered[..n] + lowered[n..] == lowered;
      SpreadOneMore(RenSignals(f, ss), plain[0].(signalId := f(plain[0].signalId)), RenTransitions(f, lowered[..n]),
                    RenTransitions(f, plain[1..]), RenTransitions(f, lowered[n..]));
    }
  }

  // ---- Instances -----------------------------------------------------------------------

  /** Two parts that differ only in how the transitions from `*` are written. */
  ghost predicate PartForms(p: Part, p': Part) {
    p.signals == p'.signals && p.reactions == p'.reactions && Spread(p.signals, p.transitions, p'.transitions)
  }

  ghost predicate PartsAlike(r: Maybe<Part>, r': Maybe<Part>) {
    match r
    case Failure(e) => r' == r
    case Success(p) => r'.Success? && PartForms(p, r'.value)
  }

  ghost predicate ComponentForms(c: ComponentDef, c': ComponentDef) {
    c' == c.(transitions := c'.transitions) && Spread(c.signals, c.transitions, c'.transitions)
  }

  ghost predicate AllForms(cs: map<string, ComponentDef>, cs': map<string, ComponentDef>) {
    cs.Keys == cs'.Keys && forall name :: name in cs ==> ComponentForms(cs[name], cs'[name])
  }

  lemma ComponentsExpandAlike(c: ComponentDef, c': ComponentDef, owner: string, b: Bindings)
    requires ComponentForms(c, c')
    ensures PartsAlike(ExpandComponent(c, owner, b), ExpandComponent(c', owner, b))
  {
    hide Spread, ExpandSignals, ExpandTransitions, ExpandReactions;
    if ExpandSignals(c.signals, owner, c.params, b).Success? {
      SpreadExpands(c.signals, c.transitions, c'.transitions, owner, c.params, b);
    }
  }

  lemma JoinedForms(p: Part, p': Part, q: Part, q': Part)
    requires PartForms(p, p') && PartForms(q, q')
    ensures PartForms(Join(p, q), Join(p', q'))
  {
    hide Spread;
    SpreadAmongMore(p.signals, p.signals + q.signals, p.transitions, p'.transitions);
    SpreadAmongMore(q.signals, p.signals + q.signals, q.transitions, q'.transitions);
    SpreadConcat(p.signals + q.signals, p.transitions, p'.transitions, q.transitions, q'.transitions);
  }

  function PlacedPart(r: Maybe<Wired>): Maybe<Part> {
    match r
    case Failure(e) => Failure(e)
    case Success(w) => Success(Placed(w))
  }

  lemma InstanceExpandsAlike(cs: map<string, ComponentDef>, cs': map<string, ComponentDef>, inst: InstanceDef)
    requires AllForms(cs, cs')
    ensures PartsAlike(PlacedPart(Elaborate(cs, inst)), PlacedPart(Elaborate(cs', inst)))
  {
    if inst.component in cs {
      var c, c', owner := cs[inst.component], cs'[inst.component], inst.component;
      assert ComponentForms(c, c');
      hide Spread, Bind, ExpandComponent, Rewired, RenSignals, RenTransitions, RenReactions;
      var bound := Bind(c.params, inst.bindings, owner, map[]);
      if bound.Success? {
        WiresAlike(c, c', inst.connections, bound.value, owner, map[]);
        ComponentsExpandAlike(c, c', owner, bound.value);
        var remap := Wires(c, inst.connections, bound.value, owner, map[]);
        var part := ExpandComponent(c, owner, bound.value);
        hide Wires;
        if remap.Success? && part.Success? {
          SpreadRenames(Rewired(remap.value), part.value.signals, part.value.transitions,
                        ExpandComponent(c', owner, bound.value).value.transitions);
        }
      }
    }
  }

  /** Wires do not depend on transitions. */
  lemma {:induction false} WiresAlike(c: ComponentDef, c': ComponentDef, conns: seq<ConnectionDef>, b: Bindings,
                                      owner: string, acc: map<string, string>)
    requires c.ports == c'.ports && c.signals == c'.signals
    ensures Wires(c, conns, b, owner, acc) == Wires(c', conns, b, owner, acc)
    decreases |conns|
  {
    if conns != [] && Wire(c, conns[0], b, owner, acc).Success? {
      WiresAlike(c, c', conns[1..], b, owner, Wire(c, conns[0], b, owner, acc).value);
    }
  }

  lemma {:induction false} InstancesExpandAlike(cs: map<string, ComponentDef>, cs': map<string, ComponentDef>,
                                                insts: seq<InstanceDef>)
    requires AllForms(cs, cs')
    ensures PartsAlike(ExpandInstances(cs, insts), ExpandInstances(cs', insts))
    decreases |insts|
  {
    hide AllForms, PartForms, Elaborate, Placed, Join;
    if insts == [] {
      NoForms();
    } else {
      InstanceExpandsAlike(cs, cs', insts[0]);
      InstancesExpandAlike(cs, cs', insts[1..]);
      var first, rest := Elaborate(cs, insts[0]), ExpandInstances(cs, insts[1..]);
      if first.Success? && rest.Success? {
        JoinedForms(Placed(first.value), Placed(Elaborate(cs', insts[0]).value), rest.value,
                    ExpandInstances(cs', insts[1..]).value);
      }
    }
  }

  lemma NoForms()
    ensures PartForms(Part([], [], []), Part([], [], []))
  {}

  /** Two forms of one schema, with its components, expand alike: to the same error, or to two forms of one schema. */
  lemma FormsExpandAlike(plain: TopologySchema, lowered: TopologySchema)
    requires Forms(plain, lowered) && AllForms(Components(plain), Components(lowered))
    requires plain.instances == lowered.instances && plain.version == lowered.version
    ensures match Expanded(plain)
            case Failure(e) => Expanded(lowered) == Failure(e)
            case Success(flat) => Expanded(lowered).Success? && Forms(flat, Expanded(lowered).value)
  {
    hide Spread, ExpandInstances, AllForms, Components;
    var cs, cs' := Components(plain), Components(lowered);
    InstancesExpandAlike(cs, cs', plain.instances);
    if plain.instances != [] && ExpandInstances(cs, plain.instances).Success? {
      JoinedForms(Part(plain.signals, plain.transitions, plain.reactions),
                  Part(lowered.signals, lowered.transitions, lowered.reactions),
                  ExpandInstances(cs, plain.instances).value, ExpandInstances(cs', plain.instances).value);
    }
  }

  // ---- Documents -----------------------------------------------------------------------

  /** The component called `name`; the last one declared is the one emitted. */
  function Named(cs: seq<ComponentDecl>, name: string): Option<ComponentDecl> {
    if cs == [] then None
    else if cs[|cs| - 1].id == name then Some(cs[|cs| - 1])
    else Named(cs[..|cs| - 1], name)
  }

  function UnloweredComponents(cs: seq<ComponentDecl>, emitted: map<string, ComponentDef>): map<string, ComponentDef> {
    map name | name in emitted ::
      match Named(cs, name)
      case None => emitted[name]
      case Some(c) => emitted[name].(transitions := Plain(c.signals))
  }

  /** What the compiler emits for a document, with every wildcard left as a literal `*`. */
  function Unlowered(doc: DdlDoc, schema: TopologySchema): TopologySchema {
    schema.(transitions := Plain(doc.signals),
            components := match schema.components
                          case None => None
                          case Some(cs) => Some(UnloweredComponents(doc.components, cs)))
  }

  /** The components emitted are those named, with their signals and lowered transitions. */
  lemma {:induction false} EmittedNamed(json: JsonReader, cs: seq<ComponentDecl>, last: ComponentDecl,
                                        done: map<string, ComponentDef>)
    requires EmitComponents(json, cs + [last], done).Success?
    ensures EmitComponents(json, cs, done).Success? && EmitReactions(json, last.reactions).Success?
    ensures EmitComponents(json, cs + [last], done).value
         == EmitComponents(json, cs, done).value[last.id := ComponentDef(last.params, last.ports, Signals(last.signals),
                                                                         Lowered(last.signals),
                                                                         EmitReactions(json, last.reactions).value)]
    decreases |cs|
  {
    hide Signals, Lowered, EmitReactions;
    if cs == [] {
      assert [] + [last] == [last] && [last][1..] == [];
    } else {
      var c := cs[0];
      assert (cs + [last])[0] == c && (cs + [last])[1..] == cs[1..] + [last];
      EmittedNamed(json, cs[1..], last,
                   done[c.id := ComponentDef(c.params, c.ports, Signals(c.signals), Lowered(c.signals),
                                                                  EmitReactions(json, c.reactions).value)]);
    }
  }

  lemma {:induction false} ComponentsEmitted(json: JsonReader, cs: seq<ComponentDecl>, name: string)
    requires EmitComponents(json, cs, map[]).Success?
    ensures var out := EmitComponents(json, cs, map[]).value;
            match Named(cs, name)
            case None => name !in out
            case Some(c) =>
              && c in cs && c.id == name && name in out && EmitReactions(json, c.reactions).Success?
              && out[name] == ComponentDef(c.params, c.ports, Signals(c.signals), Lowered(c.signals),
                                           EmitReactions(json, c.reactions).value)
    decreases |cs|
  {
    hide Signals, Lowered, EmitReactions;
    if cs != [] {
      var front, last := cs[..|cs| - 1], cs[|cs| - 1];
      assert cs == front + [last];
      EmittedNamed(json, front, last, map[]);
      if last.id != name {
        ComponentsEmitted(json, front, name);
      }
    }
  }

  lemma FitSpreads(decls: seq<SignalDecl>)
    requires SignalsFit(decls)
    ensures Spread(Signals(decls), Plain(decls), Lowered(decls))
  {
    LoweredSpreads(decls);
  }

  /** What the compiler emits is the document's wildcards spread over the states, in the components too. */
  lemma DocumentForms(json: JsonReader, doc: DdlDoc)
    requires EmitDoc(json, doc).Success?
    requires SignalsFit(doc.signals) && forall c :: c in doc.components ==> SignalsFit(c.signals)
    ensures var schema := EmitDoc(json, doc).value;
            Forms(Unlowered(doc, schema), schema) && AllForms(Components(Unlowered(doc, schema)), Components(schema))
  {
    hide Spread, SignalsFit, Signals, Lowered, Plain, EmitReactions, EmitComponents, Named;
    var schema := EmitDoc(json, doc).value;
    FitSpreads(doc.signals);
    forall name | name in Components(schema)
      ensures ComponentForms(Components(Unlowered(doc, schema))[name], Components(schema)[name])
    {
      ComponentsEmitted(json, doc.components, name);
      FitSpreads(Named(doc.components, name).value.signals);
    }
  }

  lemma PlainDocFits(json: JsonReader, doc: DdlDoc)
    requires EmitDoc(json, doc).Success?
    requires SignalsFit(doc.signals) && forall c :: c in doc.components ==> SignalsFit(c.signals)
    ensures var plain := Unlowered(doc, EmitDoc(json, doc).value);
            && SignalsOk(plain.signals) && X.MachinesFit(plain.signals, plain.transitions)
            && forall name :: name in Components(plain)
                 ==> X.MachinesFit(Components(plain)[name].signals, Components(plain)[name].transitions)
  {
    hide X.MachinesFit, SignalsFit, Signals, Lowered, Plain, EmitReactions, EmitComponents, Named;
    var schema := EmitDoc(json, doc).value;
    PlainFits(doc.signals);
    forall name | name in Components(schema)
      ensures X.MachinesFit(Components(Unlowered(doc, schema))[name].signals,
                     Components(Unlowered(doc, schema))[name].transitions)
    {
      ComponentsEmitted(json, doc.components, name);
      PlainFits(Named(doc.components, name).value.signals);
    }
  }

  lemma PlainFits(decls: seq<SignalDecl>)
    requires SignalsFit(decls)
    ensures SignalsOk(Signals(decls)) && X.MachinesFit(Signals(decls), Plain(decls))
  {
    hide Plain, Signals;
    SignalsFrom(decls);
    PlainValid(decls);
  }

  /** The flat schema that the document means, wildcards being left as they are written. */
  function FlatAsWritten(json: JsonReader, doc: DdlDoc): Maybe<TopologySchema> {
    var schema :- EmitDoc(json, doc);
    Expanded(Unlowered(doc, schema))
  }

  /** Lowering before expansion changes neither whether a document compiles, nor the error, only the form. */
  lemma FlattenedForms(json: JsonReader, doc: DdlDoc)
    requires SignalsFit(doc.signals) && forall c :: c in doc.components ==> SignalsFit(c.signals)
    ensures match FlatAsWritten(json, doc)
            case Failure(e) => Flattened(json, doc) == Failure(e)
            case Success(flat) =>
              && Flattened(json, doc).Success? && Forms(flat, Flattened(json, doc).value)
              && (WellFormed(flat) <==> WellFormed(Flattened(json, doc).value))
  {
    hide EmitDoc, Unlowered, SignalsFit, Expanded, Forms, AllForms, X.MachinesFit, WellFormed;
    if EmitDoc(json, doc).Success? {
      var schema := EmitDoc(json, doc).value;
      DocumentForms(json, doc);
      UnloweredKeeps(doc, schema);
      FormsExpandAlike(Unlowered(doc, schema), schema);
      if Expanded(schema).Success? {
        PlainDocFits(json, doc);
        EmittedFits(json, doc);
        X.ExpansionStaysFit(schema);
        X.ExpansionStaysFit(Unlowered(doc, schema));
        FormsShare(Expanded(Unlowered(doc, schema)).value, Expanded(schema).value);
      }
    }
  }

  lemma UnloweredKeeps(doc: DdlDoc, schema: TopologySchema)
    ensures Unlowered(doc, schema).instances == schema.instances && Unlowered(doc, schema).version == schema.version
  {}

  lemma FormsShare(plain: TopologySchema, lowered: TopologySchema)
    requires Forms(plain, lowered)
    ensures plain.signals == lowered.signals && plain.reactions == lowered.reactions
  {}

  /**
   The main result. A text that compiles, components and instances included, runs as it is
   written: as the flat schema that keeps every `*`, with the same outcomes, states, trace
   and action calls, whatever the callbacks, guards, limit and inputs.
   */
  lemma CompiledRunsAsWritten(src: Source, json: JsonReader, actions: map<string, ActionFn>, guards: GuardFn,
                              limit: nat, inputs: seq<Input>)
    requires Compiled(src, json).Success?
    requires forall r :: r in Compiled(src, json).value.reactions ==> ReactionOk(Compiled(src, json).value.signals, r)
    ensures var written, flat := FlatAsWritten(json, Read(src).value), Compiled(src, json).value;
            && written.Success?
            && Session(EnvOf(flat, actions, guards), limit, InitialMachine(flat), inputs)
            == Session(EnvOf(written.value, actions, guards), limit, InitialMachine(written.value), inputs)
  {
    hide Doc, SignalsFit, Forms, WellFormed, Session, FlatAsWritten, Flattened, ReactionOk;
    var doc, tokens := Read(src).value, L.Lex(src.lx, src.text).value;
    ParsedFits(src, tokens);
    FlattenedForms(json, doc);
    CompiledFits(src, json);
    FormsRunAlike(FlatAsWritten(json, doc).value, Compiled(src, json).value, actions, guards, limit, inputs);
  }
}
