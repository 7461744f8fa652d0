/**
 What expansion puts where. Each field of an instance's signals, transitions and reactions is
 the same field of the component, with its parameters filled in, and, for the signals named,
 with its wires followed; and which wires a list of connections makes, or why it makes none.
 */
module Filling {
  import opened Wrappers
  import opened Schema
  import opened Errors
  import opened Renaming
  import opened Template
  import opened Resolution
  import opened Compose

  // ---- One definition ------------------------------------------------------------------

  lemma ResolvedIsSub(s: string, owner: string, params: seq<string>, b: Bindings)
    requires Resolve(s, owner, params, b).Success?
    ensures Resolve(s, owner, params, b).value == Sub(s, b)
  {}

  /** `out` holds `items` in order, each filled in. */
  predicate Filled(items: seq<string>, b: Bindings, out: seq<string>) {
    |out| == |items| && forall k :: 0 <= k < |items| ==> out[k] == Sub(items[k], b)
  }

  lemma {:induction false} ResolvedAreFilled(items: seq<string>, owner: string, params: seq<string>, b: Bindings)
    requires ResolveAll(items, owner, params, b).Success?
    ensures Filled(items, b, ResolveAll(items, owner, params, b).value)
  {
    hide Resolve, Sub;
    if items != [] {
      ResolvedIsSub(items[0], owner, params, b);
      ResolvedAreFilled(items[1..], owner, params, b);
    }
  }

  predicate SignalFilled(s: SignalDef, b: Bindings, s': SignalDef) {
    s'.id == Sub(s.id, b) && s'.initialState == Sub(s.initialState, b) && Filled(s.states, b, s'.states)
  }

  /** Every field of a transition is filled in: signal, states, event, each list of actions by itself, and the guard. */
  predicate TransitionFilled(t: TransitionDef, b: Bindings, t': TransitionDef) {
    && t'.signalId == Sub(t.signalId, b) && t'.from == Sub(t.from, b) && t'.event == Sub(t.event, b)
    && t'.to == Sub(t.to, b)
    && Filled(t.actions.onExit, b, t'.actions.onExit)
    && Filled(t.actions.onTransition, b, t'.actions.onTransition)
    && Filled(t.actions.onEnter, b, t'.actions.onEnter)
    && (t'.guard.None? <==> t.guard.None?)
    && (t.guard.Some? ==> t'.guard == Some(Sub(t.guard.value, b)))
  }

  /** Of a reaction the signals, the state and the event are; the rest is kept as it is. */
  predicate ReactionFilled(r: ReactionDef, b: Bindings, r': ReactionDef) {
    && r'.fromSignal == Sub(r.fromSignal, b) && r'.fromState == Sub(r.fromState, b)
    && r'.toSignal == Sub(r.toSignal, b) && r'.event == Sub(r.event, b)
    && r'.payload == r.payload && r'.guard == r.guard && r'.joinGroup == r.joinGroup && r'.needs == r.needs
    && r'.onFail == r.onFail
  }

  lemma SignalExpands(s: SignalDef, owner: string, params: seq<string>, b: Bindings)
    requires ExpandSignal(s, owner, params, b).Success?
    ensures SignalFilled(s, b, ExpandSignal(s, owner, params, b).value)
  {
    ResolvedIsSub(s.id, owner, params, b);
    ResolvedIsSub(s.initialState, owner, params, b);
    ResolvedAreFilled(s.states, owner, params, b);
    hide Resolve, ResolveAll, Sub, Filled;
  }

  lemma TransitionExpands(t: TransitionDef, owner: string, params: seq<string>, b: Bindings)
    requires ExpandTransition(t, owner, params, b).Success?
    ensures TransitionFilled(t, b, ExpandTransition(t, owner, params, b).value)
  {
    hide Resolve, ResolveAll, Sub, Filled;
    ResolvedIsSub(t.signalId, owner, params, b);
    ResolvedIsSub(t.from, owner, params, b);
    ResolvedIsSub(t.event, owner, params, b);
    ResolvedIsSub(t.to, owner, params, b);
    ResolvedAreFilled(t.actions.onExit, owner, params, b);
    ResolvedAreFilled(t.actions.onTransition, owner, params, b);
    ResolvedAreFilled(t.actions.onEnter, owner, params, b);
    if t.guard.Some? {
      ResolvedIsSub(t.guard.value, owner, params, b);
    }
  }

  lemma ReactionExpands(r: ReactionDef, owner: string, params: seq<string>, b: Bindings)
    requires ExpandReaction(r, owner, params, b).Success?
    ensures ReactionFilled(r, b, ExpandReaction(r, owner, params, b).value)
  {
    hide Resolve, Sub;
    ResolvedIsSub(r.fromSignal, owner, params, b);
    ResolvedIsSub(r.fromState, owner, params, b);
    ResolvedIsSub(r.toSignal, owner, params, b);
    ResolvedIsSub(r.event, owner, params, b);
  }

  // ---- A component ---------------------------------------------------------------------

  /** What an instance holds is what the component holds, one by one and in order, filled in. */
  predicate PartFilled(c: ComponentDef, b: Bindings, p: Part) {
    && |p.signals| == |c.signals| && |p.transitions| == |c.transitions| && |p.reactions| == |c.reactions|
    && (forall k :: 0 <= k < |c.signals| ==> SignalFilled(c.signals[k], b, p.signals[k]))
    && (forall k :: 0 <= k < |c.transitions| ==> TransitionFilled(c.transitions[k], b, p.transitions[k]))
    && (forall k :: 0 <= k < |c.reactions| ==> ReactionFilled(c.reactions[k], b, p.reactions[k]))
  }

  lemma {:induction false} SignalsExpand(ss: seq<SignalDef>, owner: string, params: seq<string>, b: Bindings)
    requires ExpandSignals(ss, owner, params, b).Success?
    ensures var out := ExpandSignals(ss, owner, params, b).value;
            |out| == |ss| && forall k :: 0 <= k < |ss| ==> SignalFilled(ss[k], b, out[k])
  {
    hide ExpandSignal, SignalFilled;
    if ss != [] {
      SignalExpands(ss[0], owner, params, b);
      SignalsExpand(ss[1..], owner, params, b);
    }
  }

  lemma {:induction false} TransitionsExpand(ts: seq<TransitionDef>, owner: string, params: seq<string>, b: Bindings)
    requires ExpandTransitions(ts, owner, params, b).Success?
    ensures var out := ExpandTransitions(ts, owner, params, b).value;
            |out| == |ts| && forall k :: 0 <= k < |ts| ==> TransitionFilled(ts[k], b, out[k])
  {
    hide ExpandTransition, TransitionFilled;
    if ts != [] {
      TransitionExpands(ts[0], owner, params, b);
      TransitionsExpand(ts[1..], owner, params, b);
    }
  }

  lemma {:induction false} ReactionsExpand(rs: seq<ReactionDef>, owner: string, params: seq<string>, b: Bindings)
    requires ExpandReactions(rs, owner, params, b).Success?
    ensures var out := ExpandReactions(rs, owner, params, b).value;
            |out| == |rs| && forall k :: 0 <= k < |rs| ==> ReactionFilled(rs[k], b, out[k])
  {
    hide ExpandReaction, ReactionFilled;
    if rs != [] {
      ReactionExpands(rs[0], owner, params, b);
      ReactionsExpand(rs[1..], owner, params, b);
    }
  }

  lemma ComponentExpands(c: ComponentDef, owner: string, b: Bindings)
    requires ExpandComponent(c, owner, b).Success?
    ensures PartFilled(c, b, ExpandComponent(c, owner, b).value)
  {
    hide ExpandSignals, ExpandTransitions, ExpandReactions, SignalFilled, TransitionFilled, ReactionFilled;
    SignalsExpand(c.signals, owner, c.params, b);
    TransitionsExpand(c.transitions, owner, c.params, b);
    ReactionsExpand(c.reactions, owner, c.params, b);
  }

  /** `placed` is `p` with the signals in `remap` called by their new names, and nothing else changed. */
  predicate PartWired(p: Part, remap: map<string, string>, placed: Part) {
    && |placed.signals| == |p.signals| && |placed.transitions| == |p.transitions|
    && |placed.reactions| == |p.reactions|
    && (forall k :: 0 <= k < |p.signals| ==>
          placed.signals[k] == p.signals[k].(id := NewName(remap, p.signals[k].id)))
    && (forall k :: 0 <= k < |p.transitions| ==>
          placed.transitions[k] == p.transitions[k].(signalId := NewName(remap, p.transitions[k].signalId)))
    && (forall k :: 0 <= k < |p.reactions| ==>
          placed.reactions[k] == p.reactions[k].(fromSignal := NewName(remap, p.reactions[k].fromSignal),
                                                 toSignal := NewName(remap, p.reactions[k].toSignal)))
  }

  function NewName(remap: map<string, string>, id: string): string {
    if id in remap then remap[id] else id
  }

  lemma {:induction false} TransitionsRenamed(remap: map<string, string>, ts: seq<TransitionDef>)
    ensures var out := RenTransitions(Rewired(remap), ts);
            forall k :: 0 <= k < |ts| ==> out[k] == ts[k].(signalId := NewName(remap, ts[k].signalId))
  {
    if ts != [] {
      TransitionsRenamed(remap, ts[1..]);
    }
  }

  lemma {:induction false} ReactionsRenamed(remap: map<string, string>, rs: seq<ReactionDef>)
    ensures var out := RenReactions(Rewired(remap), rs);
            forall k :: 0 <= k < |rs| ==>
              out[k] == rs[k].(fromSignal := NewName(remap, rs[k].fromSignal),
                               toSignal := NewName(remap, rs[k].toSignal))
  {
    if rs != [] {
      ReactionsRenamed(remap, rs[1..]);
    }
  }

  lemma PlacedIsWired(w: Wired)
    ensures PartWired(w.part, w.remap, Placed(w))
  {
    TransitionsRenamed(w.remap, w.part.transitions);
    ReactionsRenamed(w.remap, w.part.reactions);
    hide RenTransitions, RenReactions;
  }

  /**
   The main result. What an instance adds to the flat schema is its component, one definition
   after the other, with the values it is given filled in and its wires followed, field by field.
   */
  lemma InstanceIsFilledIn(components: map<string, ComponentDef>, inst: InstanceDef)
    requires Elaborate(components, inst).Success?
    ensures inst.component in components
    ensures var c, w := components[inst.component], Elaborate(components, inst).value;
            exists b :: && (forall p :: p in b <==> p in c.params)
                        && (forall p :: p in c.params ==> p in inst.bindings && b[p] == inst.bindings[p])
                        && PartFilled(c, b, w.part) && PartWired(w.part, w.remap, Placed(w))
                        && Wires(c, inst.connections, b, inst.component, map[]) == Success(w.remap)
  {
    hide ExpandComponent, Wires, PartFilled, PartWired, Placed;
    var c, w := components[inst.component], Elaborate(components, inst).value;
    var b := Bind(c.params, inst.bindings, inst.component, map[]).value;
    BindMeans(c.params, inst.bindings, inst.component, map[]);
    ComponentExpands(c, inst.component, b);
    PlacedIsWired(w);
  }

  /** The flat schema has the schema's own parts first, and then those of its instances, in order. */
  lemma {:induction false} InstancesInOrder(components: map<string, ComponentDef>, insts: seq<InstanceDef>)
    returns (parts: seq<Part>)
    requires ExpandInstances(components, insts).Success?
    ensures |parts| == |insts|
    ensures forall k :: 0 <= k < |insts| ==>
              Elaborate(components, insts[k]).Success? && parts[k] == Placed(Elaborate(components, insts[k]).value)
    ensures ExpandInstances(components, insts).value == Joined(parts)
  {
    hide Elaborate, Placed;
    if insts == [] {
      parts := [];
    } else {
      var rest := InstancesInOrder(components, insts[1..]);
      parts := [Placed(Elaborate(components, insts[0]).value)] + rest;
      assert parts[1..] == rest;
    }
  }

  function Joined(parts: seq<Part>): Part {
    if parts == [] then Part([], [], [])
    else
      var rest := Joined(parts[1..]);
      Part(parts[0].signals + rest.signals, parts[0].transitions + rest.transitions,
           parts[0].reactions + rest.reactions)
  }

  lemma FlatInOrder(schema: TopologySchema) returns (parts: seq<Part>)
    requires Expanded(schema).Success? && schema.instances != []
    ensures |parts| == |schema.instances|
    ensures forall k :: 0 <= k < |parts| ==>
              var w := Elaborate(Components(schema), schema.instances[k]); w.Success? && parts[k] == Placed(w.value)
    ensures var flat, all := Expanded(schema).value, Joined(parts);
            && flat.signals == schema.signals + all.signals && flat.transitions == schema.transitions + all.transitions
            && flat.reactions == schema.reactions + all.reactions
            && flat.version == schema.version && flat.components == None && flat.instances == [] && flat.includes == []
  {
    hide Elaborate, ExpandInstances, Placed, Joined, Duplicate;
    parts := InstancesInOrder(Components(schema), schema.instances);
  }

  // ---- Components without holes --------------------------------------------------------

  /** A text in which nothing is to be filled in. */
  predicate HoleFree(s: string) {
    Holes(Parse(s)) == []
  }

  predicate HoleFreeAll(items: seq<string>) {
    forall s :: s in items ==> HoleFree(s)
  }

  predicate WithoutHoles(c: ComponentDef) {
    && (forall s :: s in c.signals ==> HoleFree(s.id) && HoleFree(s.initialState) && HoleFreeAll(s.states))
    && (forall t :: t in c.transitions ==> HoleFreeTransition(t))
    && (forall r :: r in c.reactions ==>
          HoleFree(r.fromSignal) && HoleFree(r.fromState) && HoleFree(r.toSignal) && HoleFree(r.event))
  }

  predicate HoleFreeTransition(t: TransitionDef) {
    && HoleFree(t.signalId) && HoleFree(t.from) && HoleFree(t.event) && HoleFree(t.to)
    && HoleFreeAll(t.actions.onExit) && HoleFreeAll(t.actions.onTransition) && HoleFreeAll(t.actions.onEnter)
    && (t.guard.Some? ==> HoleFree(t.guard.value))
  }

  lemma HoleFreeResolves(s: string, owner: string, params: seq<string>, b: Bindings)
    requires HoleFree(s)
    ensures Resolve(s, owner, params, b) == Success(s)
  {
    hide FindUnresolved;
    RenderNothing(s);
    SameWithout(Parse(s), b);
    UnresolvedIsFirstHole(s);
  }

  lemma SameWithout(t: Template, b: Bindings)
    requires Holes(t) == []
    ensures Render(t, b) == Render(t, map[])
  {}

  lemma {:induction false} HoleFreeResolveAll(items: seq<string>, owner: string, params: seq<string>, b: Bindings)
    requires HoleFreeAll(items)
    ensures ResolveAll(items, owner, params, b) == Success(items)
  {
    hide HoleFree, Resolve;
    if items != [] {
      assert items == [items[0]] + items[1..];
      HoleFreeResolves(items[0], owner, params, b);
      HoleFreeResolveAll(items[1..], owner, params, b);
    }
  }

  lemma HoleFreeTransitionExpands(t: TransitionDef, owner: string, params: seq<string>, b: Bindings)
    requires HoleFreeTransition(t)
    ensures ExpandTransition(t, owner, params, b) == Success(t)
  {
    hide HoleFree, HoleFreeAll, Resolve, ResolveAll;
    HoleFreeResolves(t.signalId, owner, params, b);
    HoleFreeResolves(t.from, owner, params, b);
    HoleFreeResolves(t.event, owner, params, b);
    HoleFreeResolves(t.to, owner, params, b);
    HoleFreeResolveAll(t.actions.onExit, owner, params, b);
    HoleFreeResolveAll(t.actions.onTransition, owner, params, b);
    HoleFreeResolveAll(t.actions.onEnter, owner, params, b);
    if t.guard.Some? {
      HoleFreeResolves(t.guard.value, owner, params, b);
    }
  }

  lemma {:induction false} HoleFreeSignals(ss: seq<SignalDef>, owner: string, params: seq<string>, b: Bindings)
    requires forall s :: s in ss ==> HoleFree(s.id) && HoleFree(s.initialState) && HoleFreeAll(s.states)
    ensures ExpandSignals(ss, owner, params, b) == Success(ss)
  {
    hide HoleFree, HoleFreeAll, Resolve, ResolveAll;
    if ss != [] {
      var s := ss[0];
      assert ss == [s] + ss[1..];
      HoleFreeResolves(s.id, owner, params, b);
      HoleFreeResolves(s.initialState, owner, params, b);
      HoleFreeResolveAll(s.states, owner, params, b);
      HoleFreeSignals(ss[1..], owner, params, b);
    }
  }

  lemma {:induction false} HoleFreeTransitions(ts: seq<TransitionDef>, owner: string, params: seq<string>, b: Bindings)
    requires forall t :: t in ts ==> HoleFreeTransition(t)
    ensures ExpandTransitions(ts, owner, params, b) == Success(ts)
  {
    hide HoleFreeTransition, ExpandTransition;
    if ts != [] {
      assert ts == [ts[0]] + ts[1..];
      HoleFreeTransitionExpands(ts[0], owner, params, b);
      HoleFreeTransitions(ts[1..], owner, params, b);
    }
  }

  lemma {:induction false} HoleFreeReactions(rs: seq<ReactionDef>, owner: string, params: seq<string>, b: Bindings)
    requires forall r :: r in rs ==>
               HoleFree(r.fromSignal) && HoleFree(r.fromState) && HoleFree(r.toSignal) && HoleFree(r.event)
    ensures ExpandReactions(rs, owner, params, b) == Success(rs)
  {
    hide HoleFree, Resolve;
    if rs != [] {
      var r := rs[0];
      assert rs == [r] + rs[1..];
      HoleFreeResolves(r.fromSignal, owner, params, b);
      HoleFreeResolves(r.fromState, owner, params, b);
      HoleFreeResolves(r.toSignal, owner, params, b);
      HoleFreeResolves(r.event, owner, params, b);
      HoleFreeReactions(rs[1..], owner, params, b);
    }
  }

  /** A component without holes expands to itself, whatever it is given. */
  lemma HoleFreeExpandsToItself(c: ComponentDef, owner: string, b: Bindings)
    requires WithoutHoles(c)
    ensures ExpandComponent(c, owner, b) == Success(Part(c.signals, c.transitions, c.reactions))
  {
    hide HoleFree, HoleFreeAll, HoleFreeTransition, ExpandSignals, ExpandTransitions, ExpandReactions;
    HoleFreeSignals(c.signals, owner, c.params, b);
    HoleFreeTransitions(c.transitions, owner, c.params, b);
    HoleFreeReactions(c.reactions, owner, c.params, b);
  }

  // ---- Ports and wires -----------------------------------------------------------------

  /** A port goes by its alias, or else by its signal and state. */
  predicate GoesBy(p: PortDef, b: Bindings, name: string) {
    match p.alias
    case Some(alias) => name == alias
    case None => name == Sub(p.signal, b) + "." + Sub(p.state, b)
  }

  /** The first port that goes by a name is found. */
  lemma {:induction false} PortFound(ports: seq<PortDef>, name: string, b: Bindings)
    ensures match FindPort(ports, name, b)
            case None => forall p :: p in ports ==> !GoesBy(p, b, name)
            case Some(p) => exists k :: 0 <= k < |ports| && ports[k] == p && GoesBy(p, b, name)
                                        && forall j :: 0 <= j < k ==> !GoesBy(ports[j], b, name)
  {
    hide Sub;
    if ports != [] {
      assert ports == [ports[0]] + ports[1..];
      assert PortName(ports[0], b) == name <==> GoesBy(ports[0], b, name);
      if PortName(ports[0], b) != name {
        PortFound(ports[1..], name, b);
        if p :| FindPort(ports[1..], name, b) == Some(p) {
          var k :| 0 <= k < |ports[1..]| && ports[1..][k] == p && GoesBy(p, b, name)
                   && forall j :: 0 <= j < k ==> !GoesBy(ports[1..][j], b, name);
          assert ports[k + 1] == p;
          forall j | 0 <= j < k + 1 ensures !GoesBy(ports[j], b, name) {
            assert j > 0 ==> ports[j] == ports[1..][j - 1];
          }
        }
      }
    }
  }

  /** The last signal that, filled in, has this name, if there is one. */
  predicate LastNamed(signals: seq<SignalDef>, b: Bindings, id: string, k: int) {
    0 <= k < |signals| && Sub(signals[k].id, b) == id && forall j :: k < j < |signals| ==> Sub(signals[j].id, b) != id
  }

  lemma {:induction false} StatesAreLast(signals: seq<SignalDef>, b: Bindings, id: string)
    ensures id in StatesOf(signals, b) <==> exists k :: LastNamed(signals, b, id, k)
    ensures forall k :: LastNamed(signals, b, id, k) ==>
              id in StatesOf(signals, b) && StatesOf(signals, b)[id] == SubAll(signals[k].states, b)
  {
    hide Sub, SubAll;
    if signals != [] {
      var front, n := signals[..|signals| - 1], |signals| - 1;
      StatesAreLast(front, b, id);
      if Sub(signals[n].id, b) == id {
        assert LastNamed(signals, b, id, n);
      } else {
        forall k ensures LastNamed(signals, b, id, k) <==> LastNamed(front, b, id, k) {
          assert forall j :: 0 <= j < n ==> front[j] == signals[j];
        }
      }
    }
  }

  /** A connection can be made: its port is there, with a signal of the component, in one of that signal's states. */
  ghost predicate Connectable(c: ComponentDef, conn: ConnectionDef, b: Bindings) {
    var port := FindPort(c.ports, conn.port, b);
    port.Some? && exists k :: LastNamed(c.signals, b, Sub(port.value.signal, b), k)
                              && Sub(port.value.state, b) in SubAll(c.signals[k].states, b)
  }

  function WireOf(c: ComponentDef, conn: ConnectionDef, b: Bindings): Option<string> {
    var port := FindPort(c.ports, conn.port, b);
    if port.None? then None else Some(Sub(port.value.signal, b))
  }

  /** No two connections wire one signal to different targets, and none does so against `acc`. */
  ghost predicate Agreeing(c: ComponentDef, conns: seq<ConnectionDef>, b: Bindings, acc: map<string, string>) {
    && (forall i, j :: 0 <= i < j < |conns| && WireOf(c, conns[i], b) == WireOf(c, conns[j], b) ==>
          Sub(conns[i].targetSignal, b) == Sub(conns[j].targetSignal, b))
    && (forall i :: 0 <= i < |conns| && WireOf(c, conns[i], b).Some? && WireOf(c, conns[i], b).value in acc ==>
          acc[WireOf(c, conns[i], b).value] == Sub(conns[i].targetSignal, b))
  }

  /** Why a connection cannot be made, in the order in which this is asked. */
  ghost predicate WireFault(c: ComponentDef, conn: ConnectionDef, b: Bindings, owner: string, error: EngineError) {
    var port := FindPort(c.ports, conn.port, b);
    if port.None? then error == UnknownPort(owner, conn.port)
    else
      var signal, state := Sub(port.value.signal, b), Sub(port.value.state, b);
      if forall k :: !LastNamed(c.signals, b, signal, k) then error == PortUnknownSignal(owner, conn.port, signal)
      else if !Connectable(c, conn, b) then error == PortUnknownState(owner, conn.port, signal, state)
      else error == ConflictingPortConnection(owner, conn.port)
  }

  lemma OneWire(c: ComponentDef, conn: ConnectionDef, b: Bindings, owner: string, acc: map<string, string>)
    ensures var r, wire := Wire(c, conn, b, owner, acc), WireOf(c, conn, b);
            && (r.Success? <==>
                  Connectable(c, conn, b) && (wire.value in acc ==> acc[wire.value] == Sub(conn.targetSignal, b)))
            && (r.Success? ==> r.value == acc[wire.value := Sub(conn.targetSignal, b)])
            && (r.Failure? ==> WireFault(c, conn, b, owner, r.error))
  {
    hide FindPort, Sub, SubAll, StatesOf;
    var port := FindPort(c.ports, conn.port, b);
    if port.Some? {
      StatesAreLast(c.signals, b, Sub(port.value.signal, b));
    }
  }

  /** Exactly when the connections of an instance can be made. */
  lemma {:induction false} WiresIff(c: ComponentDef, conns: seq<ConnectionDef>, b: Bindings, owner: string,
                                    acc: map<string, string>)
    ensures Wires(c, conns, b, owner, acc).Success?
       <==> (forall conn :: conn in conns ==> Connectable(c, conn, b)) && Agreeing(c, conns, b, acc)
    decreases |conns|
  {
    hide Connectable, WireOf, Wire, Sub;
    if conns != [] {
      var conn, rest := conns[0], conns[1..];
      assert conns == [conn] + rest;
      OneWire(c, conn, b, owner, acc);
      if Wire(c, conn, b, owner, acc).Success? {
        var acc1 := Wire(c, conn, b, owner, acc).value;
        WiresIff(c, rest, b, owner, acc1);
        ConnectableIsWire(c, conn, b);
        AgreeingMore(c, conns, b, acc, acc1);
      } else if Connectable(c, conn, b) {
        ConnectableIsWire(c, conn, b);
        assert conns[0] == conn;
      }
    }
  }

  lemma ConnectableIsWire(c: ComponentDef, conn: ConnectionDef, b: Bindings)
    requires Connectable(c, conn, b)
    ensures WireOf(c, conn, b).Some?
  {}

  lemma AgreeingMore(c: ComponentDef, conns: seq<ConnectionDef>, b: Bindings, acc: map<string, string>,
                     acc1: map<string, string>)
    requires conns != [] && WireOf(c, conns[0], b).Some?
    requires var s, target := WireOf(c, conns[0], b).value, Sub(conns[0].targetSignal, b);
             acc1 == acc[s := target] && (s in acc ==> acc[s] == target)
    ensures Agreeing(c, conns, b, acc) <==> Agreeing(c, conns[1..], b, acc1)
  {
    hide WireOf, Sub;
    var rest := conns[1..];
    assert forall i :: 0 <= i < |rest| ==> rest[i] == conns[i + 1];
    if Agreeing(c, rest, b, acc1) {
      forall i, j | 0 <= i < j < |conns| && WireOf(c, conns[i], b) == WireOf(c, conns[j], b)
        ensures Sub(conns[i].targetSignal, b) == Sub(conns[j].targetSignal, b)
      {
        assert conns[j] == rest[j - 1];
        if i > 0 {
          assert conns[i] == rest[i - 1];
        }
      }
      forall i | 0 <= i < |conns| && WireOf(c, conns[i], b).Some? && WireOf(c, conns[i], b).value in acc
        ensures acc[WireOf(c, conns[i], b).value] == Sub(conns[i].targetSignal, b)
      {
        assert i > 0 ==> conns[i] == rest[i - 1];
      }
    }
  }

  // ---- Which fault is reported ---------------------------------------------------------

  /** The parameter reported as missing is the first that is. */
  lemma {:induction false} FirstMissing(params: seq<string>, bindings: Bindings, owner: string, bound: Bindings)
    requires Bind(params, bindings, owner, bound).Failure?
    ensures exists k :: 0 <= k < |params| && params[k] !in bindings
              && (forall j :: 0 <= j < k ==> params[j] in bindings)
                        && Bind(params, bindings, owner, bound).error == MissingBinding(owner, params[k])
    decreases |params|
  {
    if params[0] in bindings {
      FirstMissing(params[1..], bindings, owner, bound[params[0] := bindings[params[0]]]);
      var k :| 0 <= k < |params[1..]| && params[1..][k] !in bindings
               && (forall j :: 0 <= j < k ==> params[1..][j] in bindings)
               && Bind(params, bindings, owner, bound).error == MissingBinding(owner, params[1..][k]);
      assert params[k + 1] == params[1..][k];
      assert forall j :: 0 < j < k + 1 ==> params[j] == params[1..][j - 1];
    }
  }

  /** The id reported as a duplicate is the first that occurred before. */
  lemma {:induction false} FirstDuplicate(signals: seq<SignalDef>, seen: set<string>)
    requires Duplicate(signals, seen).Some?
    ensures exists k :: && 0 <= k < |signals| && Duplicate(signals, seen) == Some(signals[k].id)
                        && (signals[k].id in seen || exists i :: 0 <= i < k && signals[i].id == signals[k].id)
                        && forall j :: 0 <= j < k ==>
                             signals[j].id !in seen && forall i :: 0 <= i < j ==> signals[i].id != signals[j].id
    decreases |signals|
  {
    if signals[0].id !in seen {
      var rest, seen1 := signals[1..], seen + {signals[0].id};
      FirstDuplicate(rest, seen1);
      var k :| && 0 <= k < |rest| && Duplicate(rest, seen1) == Some(rest[k].id)
               && (rest[k].id in seen1 || exists i :: 0 <= i < k && rest[i].id == rest[k].id)
               && forall j :: 0 <= j < k ==>
                    rest[j].id !in seen1 && forall i :: 0 <= i < j ==> rest[i].id != rest[j].id;
      assert signals[k + 1] == rest[k];
      if rest[k].id !in seen1 {
        var i :| 0 <= i < k && rest[i].id == rest[k].id;
        assert signals[i + 1] == rest[i];
      }
      forall j | 0 <= j < k + 1
        ensures signals[j].id !in seen && forall i :: 0 <= i < j ==> signals[i].id != signals[j].id
      {
        if j > 0 {
          assert signals[j] == rest[j - 1];
          forall i | 0 <= i < j ensures signals[i].id != signals[j].id {
            assert i > 0 ==> signals[i] == rest[i - 1];
          }
        }
      }
    }
  }
}
