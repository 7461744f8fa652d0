/** Expansion of component instances into a flat schema (src/compose.rs, `expand`). */
module Compose {
  import opened Wrappers
  import opened Schema
  import opened Errors
  import opened Renaming
  import opened Template
  import opened Resolution
  import V = Validation

  // ---- One component -------------------------------------------------------------------

  function ExpandSignal(s: SignalDef, owner: string, params: seq<string>, b: Bindings): Maybe<SignalDef> {
    var id :- Resolve(s.id, owner, params, b);
    var initial :- Resolve(s.initialState, owner, params, b);
    var states :- ResolveAll(s.states, owner, params, b);
    Success(SignalDef(id, initial, states))
  }

  function ExpandGuard(guard: Option<string>, owner: string, params: seq<string>, b: Bindings): Maybe<Option<string>> {
    match guard
    case None => Success(None)
    case Some(g) =>
      var text :- Resolve(g, owner, params, b);
      Success(Some(text))
  }

  function ExpandTransition(t: TransitionDef, owner: string, params: seq<string>, b: Bindings): Maybe<TransitionDef> {
    var signalId :- Resolve(t.signalId, owner, params, b);
    var from :- Resolve(t.from, owner, params, b);
    var event :- Resolve(t.event, owner, params, b);
    var to :- Resolve(t.to, owner, params, b);
    var onExit :- ResolveAll(t.actions.onExit, owner, params, b);
    var onTransition :- ResolveAll(t.actions.onTransition, owner, params, b);
    var onEnter :- ResolveAll(t.actions.onEnter, owner, params, b);
    var guard :- ExpandGuard(t.guard, owner, params, b);
    Success(TransitionDef(signalId, from, event, to, ActionBinding(onExit, onTransition, onEnter), guard))
  }

  /** The payload, guard, groups and compensation of a reaction are copied unexpanded. */
  function ExpandReaction(r: ReactionDef, owner: string, params: seq<string>, b: Bindings): Maybe<ReactionDef> {
    var fromSignal :- Resolve(r.fromSignal, owner, params, b);
    var fromState :- Resolve(r.fromState, owner, params, b);
    var toSignal :- Resolve(r.toSignal, owner, params, b);
    var event :- Resolve(r.event, owner, params, b);
    Success(r.(fromSignal := fromSignal, fromState := fromState, toSignal := toSignal, event := event))
  }

  function ExpandSignals(ss: seq<SignalDef>, owner: string, params: seq<string>, b: Bindings): Maybe<seq<SignalDef>> {
    if ss == [] then Success([])
    else
      var first :- ExpandSignal(ss[0], owner, params, b);
      var rest :- ExpandSignals(ss[1..], owner, params, b);
      Success([first] + rest)
  }

  function ExpandTransitions(ts: seq<TransitionDef>, owner: string, params: seq<string>,
                             b: Bindings): Maybe<seq<TransitionDef>> {
    if ts == [] then Success([])
    else
      var first :- ExpandTransition(ts[0], owner, params, b);
      var rest :- ExpandTransitions(ts[1..], owner, params, b);
      Success([first] + rest)
  }

  function ExpandReactions(rs: seq<ReactionDef>, owner: string, params: seq<string>,
                           b: Bindings): Maybe<seq<ReactionDef>> {
    if rs == [] then Success([])
    else
      var first :- ExpandReaction(rs[0], owner, params, b);
      var rest :- ExpandReactions(rs[1..], owner, params, b);
      Success([first] + rest)
  }

  /** What one instance contributes to the flat schema. */
  datatype Part = Part(signals: seq<SignalDef>, transitions: seq<TransitionDef>, reactions: seq<ReactionDef>)

  function Join(p: Part, q: Part): Part {
    Part(p.signals + q.signals, p.transitions + q.transitions, p.reactions + q.reactions)
  }

  function RenPart(f: Names, p: Part): Part {
    Part(RenSignals(f, p.signals), RenTransitions(f, p.transitions), RenReactions(f, p.reactions))
  }

  /** The component with its parameters filled in, under its own signal names. */
  function ExpandComponent(c: ComponentDef, owner: string, b: Bindings): Maybe<Part> {
    var signals :- ExpandSignals(c.signals, owner, c.params, b);
    var transitions :- ExpandTransitions(c.transitions, owner, c.params, b);
    var reactions :- ExpandReactions(c.reactions, owner, c.params, b);
    Success(Part(signals, transitions, reactions))
  }

  // ---- Bindings and wires --------------------------------------------------------------

  function Bind(params: seq<string>, bindings: Bindings, owner: string, bound: Bindings): Maybe<Bindings> {
    if params == [] then Success(bound)
    else if params[0] !in bindings then Failure(MissingBinding(owner, params[0]))
    else Bind(params[1..], bindings, owner, bound[params[0] := bindings[params[0]]])
  }

  method CheckBindings(c: ComponentDef, bindings: Bindings, owner: string) returns (r: Maybe<Bindings>)
    ensures r == Bind(c.params, bindings, owner, map[])
  {
    var bound: Bindings := map[];
    for i := 0 to |c.params|
      invariant Bind(c.params, bindings, owner, map[]) == Bind(c.params[i..], bindings, owner, bound)
    {
      if c.params[i] !in bindings {
        return Failure(MissingBinding(owner, c.params[i]));
      }
      bound := bound[c.params[i] := bindings[c.params[i]]];
    }
    return Success(bound);
  }

  /** Binding succeeds exactly when every parameter is supplied, and then binds the parameters alone. */
  lemma {:induction false} BindMeans(params: seq<string>, bindings: Bindings, owner: string, bound: Bindings)
    ensures Bind(params, bindings, owner, bound).Success? <==> forall p :: p in params ==> p in bindings
    ensures var r := Bind(params, bindings, owner, bound);
            r.Success? ==>
              (forall p :: p in r.value <==> p in bound || p in params)
              && (forall p :: p in params ==> p in bindings && r.value[p] == bindings[p])
              && (forall p :: p in bound && p !in params ==> r.value[p] == bound[p])
    decreases |params|
  {
    if params != [] && params[0] in bindings {
      assert params == [params[0]] + params[1..];
      BindMeans(params[1..], bindings, owner, bound[params[0] := bindings[params[0]]]);
    }
  }

  function PortName(p: PortDef, b: Bindings): string {
    match p.alias
    case Some(alias) => alias
    case None => Sub(p.signal, b) + "." + Sub(p.state, b)
  }

  /** The first port called `name`. */
  function FindPort(ports: seq<PortDef>, name: string, b: Bindings): Option<PortDef> {
    if ports == [] then None
    else if PortName(ports[0], b) == name then Some(ports[0])
    else FindPort(ports[1..], name, b)
  }

  /** The component's signals with their states, after substitution; the last of a name wins. */
  function StatesOf(signals: seq<SignalDef>, b: Bindings): map<string, seq<string>> {
    if signals == [] then map[]
    else
      var last := signals[|signals| - 1];
      StatesOf(signals[..|signals| - 1], b)[Sub(last.id, b) := SubAll(last.states, b)]
  }

  /** What one connection adds to the wires `acc`. */
  function Wire(c: ComponentDef, conn: ConnectionDef, b: Bindings, owner: string,
                acc: map<string, string>): Maybe<map<string, string>> {
    match FindPort(c.ports, conn.port, b)
    case None => Failure(UnknownPort(owner, conn.port))
    case Some(port) =>
      var signal, state := Sub(port.signal, b), Sub(port.state, b);
      var states := StatesOf(c.signals, b);
      if signal !in states then Failure(PortUnknownSignal(owner, conn.port, signal))
      else if state !in states[signal] then Failure(PortUnknownState(owner, conn.port, signal, state))
      else
        var target := Sub(conn.targetSignal, b);
        if signal in acc && acc[signal] != target then Failure(ConflictingPortConnection(owner, conn.port))
        else Success(acc[signal := target])
  }

  function Wires(c: ComponentDef, conns: seq<ConnectionDef>, b: Bindings, owner: string,
                 acc: map<string, string>): Maybe<map<string, string>>
    decreases |conns|
  {
    if conns == [] then Success(acc)
    else
      var acc1 :- Wire(c, conns[0], b, owner, acc);
      Wires(c, conns[1..], b, owner, acc1)
  }

  method ResolveConnections(c: ComponentDef, conns: seq<ConnectionDef>, b: Bindings, owner: string)
    returns (r: Maybe<map<string, string>>)
    ensures r == Wires(c, conns, b, owner, map[])
  {
    var remap: map<string, string> := map[];
    for i := 0 to |conns|
      invariant Wires(c, conns, b, owner, map[]) == Wires(c, conns[i..], b, owner, remap)
    {
      var step := Wire(c, conns[i], b, owner, remap);
      if step.Failure? {
        return step;
      }
      remap := step.value;
    }
    return Success(remap);
  }

  /** A connection is honoured: its port exists, and the port's signal is wired to its target. */
  ghost predicate Honoured(c: ComponentDef, conn: ConnectionDef, b: Bindings, remap: map<string, string>) {
    var port := FindPort(c.ports, conn.port, b);
    port.Some? && Sub(port.value.signal, b) in remap && remap[Sub(port.value.signal, b)] == Sub(conn.targetSignal, b)
  }

  /** When the wires resolve, every connection is honoured, and only connections wire. */
  lemma {:induction false} WiresHonour(c: ComponentDef, conns: seq<ConnectionDef>, b: Bindings, owner: string,
                                       acc: map<string, string>)
    requires Wires(c, conns, b, owner, acc).Success?
    ensures var remap := Wires(c, conns, b, owner, acc).value;
            && (forall conn :: conn in conns ==> Honoured(c, conn, b, remap))
            && (forall s :: s in acc ==> s in remap && remap[s] == acc[s])
            && (forall s :: s in remap && s !in acc ==>
                  s in StatesOf(c.signals, b) && exists conn :: conn in conns && Sub(conn.targetSignal, b) == remap[s])
    decreases |conns|
  {
    if conns != [] {
      hide FindPort, StatesOf;
      assert conns == [conns[0]] + conns[1..];
      WiresHonour(c, conns[1..], b, owner, Wire(c, conns[0], b, owner, acc).value);
    }
  }

  function Rewired(remap: map<string, string>): Names {
    (id: string) => if id in remap then remap[id] else id
  }

  // ---- Instances -----------------------------------------------------------------------

  /** An instance worked out: its component filled in, and the new names of its signals. */
  datatype Wired = Wired(part: Part, remap: map<string, string>)

  function Elaborate(components: map<string, ComponentDef>, inst: InstanceDef): Maybe<Wired> {
    if inst.component !in components then Failure(ComponentNotFound(inst.component))
    else
      var c := components[inst.component];
      var bound :- Bind(c.params, inst.bindings, inst.component, map[]);
      var remap :- Wires(c, inst.connections, bound, inst.component, map[]);
      var part :- ExpandComponent(c, inst.component, bound);
      Success(Wired(part, remap))
  }

  function Placed(w: Wired): Part {
    RenPart(Rewired(w.remap), w.part)
  }

  function ExpandInstances(components: map<string, ComponentDef>, insts: seq<InstanceDef>): Maybe<Part> {
    if insts == [] then Success(Part([], [], []))
    else
      var first :- Elaborate(components, insts[0]);
      var rest :- ExpandInstances(components, insts[1..]);
      Success(Join(Placed(first), rest))
  }

  /** The first id that occurs again in `signals` or occurs in `seen`. */
  function Duplicate(signals: seq<SignalDef>, seen: set<string>): Option<string> {
    if signals == [] then None
    else if signals[0].id in seen then Some(signals[0].id)
    else Duplicate(signals[1..], seen + {signals[0].id})
  }

  function Components(schema: TopologySchema): map<string, ComponentDef> {
    match schema.components
    case None => map[]
    case Some(m) => m
  }

  /** What `expand` returns. */
  function Expanded(schema: TopologySchema): Maybe<TopologySchema> {
    if schema.instances == [] then Success(schema)
    else
      var part :- ExpandInstances(Components(schema), schema.instances);
      var all := Join(Part(schema.signals, schema.transitions, schema.reactions), part);
      match Duplicate(all.signals, {})
      case Some(id) => Failure(DuplicateSignalAfterExpand(id))
      case None => Success(TopologySchema(schema.version, all.signals, all.transitions, all.reactions, None, [], []))
  }

  // ---- The source's loops --------------------------------------------------------------

  function Behind(placed: Part, rest: Maybe<Part>): Maybe<Part> {
    match rest
    case Failure(e) => Failure(e)
    case Success(part) => Success(Join(placed, part))
  }

  lemma BehindNothing(rest: Maybe<Part>)
    ensures Behind(Part([], [], []), rest) == rest
  {
    if rest.Success? {
      assert Join(Part([], [], []), rest.value) == rest.value;
    }
  }

  lemma BehindOne(placed: Part, first: Part, rest: Maybe<Part>)
    ensures Behind(placed, Behind(first, rest)) == Behind(Join(placed, first), rest)
  {
    if rest.Success? {
      JoinAssociates(placed, first, rest.value);
    }
  }

  method PlaceSignals(c: ComponentDef, owner: string, b: Bindings, remap: map<string, string>)
    returns (r: Maybe<seq<SignalDef>>)
    ensures var all := ExpandSignals(c.signals, owner, c.params, b);
            r == if all.Failure? then Failure(all.error) else Success(RenSignals(Rewired(remap), all.value))
  {
    var out: seq<SignalDef> := [];
    ghost var done: seq<SignalDef> := [];
    AfterNothing(ExpandSignals(c.signals, owner, c.params, b));
    for i := 0 to |c.signals|
      invariant out == RenSignals(Rewired(remap), done)
      invariant ExpandSignals(c.signals, owner, c.params, b)
                == After(done, ExpandSignals(c.signals[i..], owner, c.params, b))
    {
      assert c.signals[i..][1..] == c.signals[i + 1..];
      var expanded := ExpandSignal(c.signals[i], owner, c.params, b);
      if expanded.Failure? {
        return Failure(expanded.error);
      }
      AfterOne(done, expanded.value, ExpandSignals(c.signals[i + 1..], owner, c.params, b));
      done := done + [expanded.value];
      var id := expanded.value.id;
      out := out + [expanded.value.(id := if id in remap then remap[id] else id)];
    }
    AfterAll<SignalDef, EngineError>(done);
    return Success(out);
  }

  method PlaceTransitions(c: ComponentDef, owner: string, b: Bindings, remap: map<string, string>)
    returns (r: Maybe<seq<TransitionDef>>)
    ensures var all := ExpandTransitions(c.transitions, owner, c.params, b);
            r == if all.Failure? then Failure(all.error) else Success(RenTransitions(Rewired(remap), all.value))
  {
    hide ExpandTransition;
    var out: seq<TransitionDef> := [];
    ghost var done: seq<TransitionDef> := [];
    AfterNothing(ExpandTransitions(c.transitions, owner, c.params, b));
    for i := 0 to |c.transitions|
      invariant out == RenTransitions(Rewired(remap), done)
      invariant ExpandTransitions(c.transitions, owner, c.params, b)
             == After(done, ExpandTransitions(c.transitions[i..], owner, c.params, b))
    {
      assert c.transitions[i..][1..] == c.transitions[i + 1..];
      var expanded := ExpandTransition(c.transitions[i], owner, c.params, b);
      if expanded.Failure? {
        return Failure(expanded.error);
      }
      AfterOne(done, expanded.value, ExpandTransitions(c.transitions[i + 1..], owner, c.params, b));
      RenTransitionsSnoc(Rewired(remap), done, expanded.value);
      done := done + [expanded.value];
      var id := expanded.value.signalId;
      out := out + [expanded.value.(signalId := if id in remap then remap[id] else id)];
    }
    AfterAll<TransitionDef, EngineError>(done);
    return Success(out);
  }

  lemma {:induction false} RenTransitionsSnoc(f: Names, ts: seq<TransitionDef>, t: TransitionDef)
    ensures RenTransitions(f, ts + [t]) == RenTransitions(f, ts) + [t.(signalId := f(t.signalId))]
  {
    if ts != [] {
      assert (ts + [t])[1..] == ts[1..] + [t];
      RenTransitionsSnoc(f, ts[1..], t);
    }
  }

  method PlaceReactions(c: ComponentDef, owner: string, b: Bindings, remap: map<string, string>)
    returns (r: Maybe<seq<ReactionDef>>)
    ensures var all := ExpandReactions(c.reactions, owner, c.params, b);
            r == if all.Failure? then Failure(all.error) else Success(RenReactions(Rewired(remap), all.value))
  {
    hide ExpandReaction;
    var out: seq<ReactionDef> := [];
    ghost var done: seq<ReactionDef> := [];
    AfterNothing(ExpandReactions(c.reactions, owner, c.params, b));
    for i := 0 to |c.reactions|
      invariant out == RenReactions(Rewired(remap), done)
      invariant ExpandReactions(c.reactions, owner, c.params, b)
                == After(done, ExpandReactions(c.reactions[i..], owner, c.params, b))
    {
      assert c.reactions[i..][1..] == c.reactions[i + 1..];
      var expanded := ExpandReaction(c.reactions[i], owner, c.params, b);
      if expanded.Failure? {
        return Failure(expanded.error);
      }
      AfterOne(done, expanded.value, ExpandReactions(c.reactions[i + 1..], owner, c.params, b));
      RenConcat(Rewired(remap), done, [expanded.value]);
      done := done + [expanded.value];
      var from, to := expanded.value.fromSignal, expanded.value.toSignal;
      out := out + [expanded.value.(fromSignal := if from in remap then remap[from] else from,
                                    toSignal := if to in remap then remap[to] else to)];
    }
    AfterAll<ReactionDef, EngineError>(done);
    return Success(out);
  }

  method ExpandInstance(components: map<string, ComponentDef>, inst: InstanceDef) returns (r: Maybe<Part>)
    ensures var w := Elaborate(components, inst);
            r == if w.Failure? then Failure(w.error) else Success(Placed(w.value))
  {
    if inst.component !in components {
      return Failure(ComponentNotFound(inst.component));
    }
    var c := components[inst.component];
    var bound := CheckBindings(c, inst.bindings, inst.component);
    if bound.Failure? {
      return Failure(bound.error);
    }
    var remap := ResolveConnections(c, inst.connections, bound.value, inst.component);
    if remap.Failure? {
      return Failure(remap.error);
    }
    var signals := PlaceSignals(c, inst.component, bound.value, remap.value);
    if signals.Failure? {
      return Failure(signals.error);
    }
    var transitions := PlaceTransitions(c, inst.component, bound.value, remap.value);
    if transitions.Failure? {
      return Failure(transitions.error);
    }
    var reactions := PlaceReactions(c, inst.component, bound.value, remap.value);
    if reactions.Failure? {
      return Failure(reactions.error);
    }
    return Success(Part(signals.value, transitions.value, reactions.value));
  }

  method EnforceUnique(signals: seq<SignalDef>) returns (r: Option<string>)
    ensures r == Duplicate(signals, {})
  {
    var seen: set<string> := {};
    for i := 0 to |signals|
      invariant Duplicate(signals, {}) == Duplicate(signals[i..], seen)
    {
      if signals[i].id in seen {
        return Some(signals[i].id);
      }
      seen := seen + {signals[i].id};
    }
    return None;
  }

  method Expand(schema: TopologySchema) returns (r: Maybe<TopologySchema>)
    ensures r == Expanded(schema)
  {
    hide Elaborate, Placed, Duplicate;
    if schema.instances == [] {
      return Success(schema);
    }
    var components := Components(schema);
    var out := Part(schema.signals, schema.transitions, schema.reactions);
    ghost var own, placed := out, Part([], [], []);
    BehindNothing(ExpandInstances(components, schema.instances));
    for i := 0 to |schema.instances|
      invariant out == Join(own, placed)
      invariant ExpandInstances(components, schema.instances)
                == Behind(placed, ExpandInstances(components, schema.instances[i..]))
    {
      assert schema.instances[i..][1..] == schema.instances[i + 1..];
      var part := ExpandInstance(components, schema.instances[i]);
      if part.Failure? {
        return Failure(part.error);
      }
      BehindOne(placed, part.value, ExpandInstances(components, schema.instances[i + 1..]));
      JoinAssociates(own, placed, part.value);
      out := Join(out, part.value);
      placed := Join(placed, part.value);
    }
    assert Join(placed, Part([], [], [])) == placed;
    var duplicate := EnforceUnique(out.signals);
    if duplicate.Some? {
      return Failure(DuplicateSignalAfterExpand(duplicate.value));
    }
    return Success(TopologySchema(schema.version, out.signals, out.transitions, out.reactions, None, [], []));
  }

  // ---- What expansion guarantees -------------------------------------------------------

  lemma {:induction false} DuplicateMeans(signals: seq<SignalDef>, seen: set<string>)
    ensures Duplicate(signals, seen).None? <==> V.DistinctIds(signals) && forall s :: s in signals ==> s.id !in seen
    decreases |signals|
  {
    if signals != [] && signals[0].id !in seen {
      var rest := signals[1..];
      assert signals == [signals[0]] + rest;
      DuplicateMeans(rest, seen + {signals[0].id});
      if V.DistinctIds(signals) {
        forall s | s in rest ensures s.id != signals[0].id {
          var k :| 0 <= k < |rest| && rest[k] == s;
          assert signals[k + 1] == s;
        }
        assert V.DistinctIds(rest);
      }
      if V.DistinctIds(rest) && forall s :: s in rest ==> s.id != signals[0].id {
        forall i, j | 0 <= i < j < |signals| ensures signals[i].id != signals[j].id {
          assert signals[j] == rest[j - 1];
        }
      }
    }
  }

  /** Where the contribution of instance `k` ends up. */
  lemma {:induction false} PartOf(components: map<string, ComponentDef>, insts: seq<InstanceDef>, k: nat)
    returns (before: Part, after: Part)
    requires k < |insts| && ExpandInstances(components, insts).Success?
    ensures Elaborate(components, insts[k]).Success?
    ensures ExpandInstances(components, insts).value
            == Join(Join(before, Placed(Elaborate(components, insts[k]).value)), after)
    decreases |insts|
  {
    hide Elaborate, Placed;
    var first := Placed(Elaborate(components, insts[0]).value);
    var rest := ExpandInstances(components, insts[1..]).value;
    if k == 0 {
      before, after := Part([], [], []), rest;
      assert Join(before, first) == first;
    } else {
      before, after := PartOf(components, insts[1..], k - 1);
      var own := Placed(Elaborate(components, insts[k]).value);
      JoinAssociates(first, Join(before, own), after);
      JoinAssociates(first, before, own);
      before := Join(first, before);
    }
  }

  lemma JoinAssociates(p: Part, q: Part, r: Part)
    ensures Join(p, Join(q, r)) == Join(Join(p, q), r)
  {}

  /**
   When expansion succeeds, the wires of every instance rename its signals injectively, and
   away from every other signal of the result.
   */
  lemma ExpansionRenamesInjectively(schema: TopologySchema, k: nat) returns (w: Wired, before: Part, after: Part)
    requires k < |schema.instances| && Expanded(schema).Success?
    ensures Elaborate(Components(schema), schema.instances[k]) == Success(w)
    ensures var flat := Expanded(schema).value;
            && Part(flat.signals, flat.transitions, flat.reactions) == Join(Join(before, Placed(w)), after)
            && V.DistinctIds(flat.signals) && V.DistinctIds(w.part.signals) && schema.signals <= before.signals
            && (forall a, b :: a in w.part.signals && b in w.part.signals ==>
                  Rewired(w.remap)(a.id) == Rewired(w.remap)(b.id) ==> a == b)
            && (forall a, b :: a in w.part.signals && (b in before.signals || b in after.signals)
                  ==> Rewired(w.remap)(a.id) != b.id)
  {
    hide Elaborate;
    var own := Part(schema.signals, schema.transitions, schema.reactions);
    var all := Join(own, ExpandInstances(Components(schema), schema.instances).value);
    before, after := PartOf(Components(schema), schema.instances, k);
    w := Elaborate(Components(schema), schema.instances[k]).value;
    JoinAssociates(own, Join(before, Placed(w)), after);
    JoinAssociates(own, before, Placed(w));
    before := Join(own, before);
    DuplicateMeans(all.signals, {});
    SegmentIsInjective(before.signals, w.part.signals, after.signals, Rewired(w.remap));
  }

  lemma SegmentIsInjective(before: seq<SignalDef>, signals: seq<SignalDef>, after: seq<SignalDef>, f: Names)
    requires V.DistinctIds(before + RenSignals(f, signals) + after)
    ensures V.DistinctIds(signals)
    ensures forall a, b :: a in signals && b in signals && f(a.id) == f(b.id) ==> a == b
    ensures forall a, b :: a in signals && (b in before || b in after) ==> f(a.id) != b.id
  {
    var all, n := before + RenSignals(f, signals) + after, |before|;
    forall i | 0 <= i < |signals| ensures all[n + i].id == f(signals[i].id) {}
    forall i, j | 0 <= i < j < |signals| ensures f(signals[i].id) != f(signals[j].id) {
      assert all[n + i].id != all[n + j].id;
    }
    forall i, b | 0 <= i < |signals| && (b in before || b in after) ensures f(signals[i].id) != b.id {
      if b in before {
        var j :| 0 <= j < |before| && before[j] == b;
        assert all[j] == b && all[j].id != all[n + i].id;
      } else {
        var j :| 0 <= j < |after| && after[j] == b;
        assert all[n + |signals| + j] == b && all[n + i].id != all[n + |signals| + j].id;
      }
    }
  }

  lemma {:induction false} StatesOfMeans(signals: seq<SignalDef>, b: Bindings, id: string)
    ensures id in StatesOf(signals, b) <==> exists s :: s in signals && Sub(s.id, b) == id
  {
    hide Sub;
    if signals != [] {
      var front, last := signals[..|signals| - 1], signals[|signals| - 1];
      assert signals == front + [last];
      StatesOfMeans(front, b, id);
    }
  }

  lemma {:induction false} ExpandedHasSignal(ss: seq<SignalDef>, owner: string, params: seq<string>, b: Bindings,
                                             s: SignalDef)
    requires s in ss && ExpandSignals(ss, owner, params, b).Success?
    ensures exists s' :: s' in ExpandSignals(ss, owner, params, b).value && s'.id == Sub(s.id, b)
  {
    hide Sub, ResolveAll, FindUnresolved;
    if s == ss[0] {
      assert ExpandSignal(s, owner, params, b).value in ExpandSignals(ss, owner, params, b).value;
    } else {
      ExpandedHasSignal(ss[1..], owner, params, b, s);
      var s' :| s' in ExpandSignals(ss[1..], owner, params, b).value && s'.id == Sub(s.id, b);
      assert s' in ExpandSignals(ss, owner, params, b).value;
    }
  }

  lemma ElaborationParts(components: map<string, ComponentDef>, inst: InstanceDef, w: Wired, b: Bindings)
    requires Elaborate(components, inst) == Success(w)
    requires Bind(components[inst.component].params, inst.bindings, inst.component, map[]) == Success(b)
    ensures var c := components[inst.component];
            && Wires(c, inst.connections, b, inst.component, map[]) == Success(w.remap)
            && ExpandSignals(c.signals, inst.component, c.params, b) == Success(w.part.signals)
  {
    hide Wires, ExpandSignals, ExpandTransitions, ExpandReactions, Bind;
  }

  /** The signal of a connected port is among the instance's signals, and wired to the connection's target. */
  lemma ConnectionWires(components: map<string, ComponentDef>, inst: InstanceDef, w: Wired, conn: ConnectionDef,
                        b: Bindings)
    requires Elaborate(components, inst) == Success(w) && conn in inst.connections
    requires Bind(components[inst.component].params, inst.bindings, inst.component, map[]) == Success(b)
    ensures exists s :: s in w.part.signals && s.id in w.remap && w.remap[s.id] == Sub(conn.targetSignal, b)
  {
    var c, owner := components[inst.component], inst.component;
    ElaborationParts(components, inst, w, b);
    hide Sub, Wires, ExpandSignals, FindPort, StatesOf, Bind, Elaborate;
    WiresHonour(c, inst.connections, b, owner, map[]);
    var id := Sub(FindPort(c.ports, conn.port, b).value.signal, b);
    assert Honoured(c, conn, b, w.remap);
    StatesOfMeans(c.signals, b, id);
    var s :| s in c.signals && Sub(s.id, b) == id;
    ExpandedHasSignal(c.signals, owner, c.params, b, s);
  }

  /**
   Wiring a port to a signal that the schema itself declares always fails: the port's
   signal is renamed to it and then clashes with it. So a wire can only choose a new name.
   */
  lemma WiringToDeclaredFails(schema: TopologySchema, k: nat, conn: ConnectionDef, b: Bindings, target: SignalDef)
    requires k < |schema.instances| && conn in schema.instances[k].connections
    requires var inst := schema.instances[k];
             inst.component in Components(schema)
             && Bind(Components(schema)[inst.component].params, inst.bindings, inst.component, map[]) == Success(b)
    requires target in schema.signals && Sub(conn.targetSignal, b) == target.id
    ensures Expanded(schema).Failure?
  {
    hide Elaborate, ExpandInstances, Bind, Sub;
    if Expanded(schema).Success? {
      var w, _, _ := ExpansionRenamesInjectively(schema, k);
      ConnectionWires(Components(schema), schema.instances[k], w, conn, b);
    }
  }
}
