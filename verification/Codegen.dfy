/** Lowering of a parsed document to a schema (src/ddl/codegen.rs). */
module Codegen {
  import opened Wrappers
  import opened Schema
  import opened DdlSyntax
  import opened Errors

  // ---- What lowering yields ------------------------------------------------------------

  /** `tr` as a transition of signal `id` that leaves from `from`. */
  function Arm(id: string, tr: TransDecl, from: string): TransitionDef {
    TransitionDef(id, from, tr.event, tr.to, tr.actions, tr.guard)
  }

  /** `t` once for each state, leaving from it. */
  function FromEach(t: TransitionDef, states: seq<string>): seq<TransitionDef> {
    if states == [] then [] else [t.(from := states[0])] + FromEach(t, states[1..])
  }

  /** The transitions of one declaration: a wildcard stands for one arm per state. */
  function LowerTransition(id: string, states: seq<string>, tr: TransDecl): seq<TransitionDef> {
    if tr.from == WILDCARD then FromEach(Arm(id, tr, WILDCARD), states) else [Arm(id, tr, tr.from)]
  }

  function LowerTransitions(id: string, states: seq<string>, trs: seq<TransDecl>): seq<TransitionDef> {
    if trs == [] then [] else LowerTransition(id, states, trs[0]) + LowerTransitions(id, states, trs[1..])
  }

  function Lowered(decls: seq<SignalDecl>): seq<TransitionDef> {
    if decls == [] then []
    else LowerTransitions(decls[0].id, decls[0].states, decls[0].transitions) + Lowered(decls[1..])
  }

  function Signals(decls: seq<SignalDecl>): (signals: seq<SignalDef>)
    ensures |signals| == |decls|
    ensures forall i :: 0 <= i < |decls| ==> signals[i] == SignalDef(decls[i].id, decls[i].initial, decls[i].states)
  {
    seq(|decls|, i requires 0 <= i < |decls| => SignalDef(decls[i].id, decls[i].initial, decls[i].states))
  }

  /** The schema the compiler emits for a document without components. */
  function Emit(decls: seq<SignalDecl>, reactions: seq<ReactionDef>): TopologySchema {
    TopologySchema("0.1", Signals(decls), Lowered(decls), reactions, None, [], [])
  }

  /** Reads a JSON text, as the source's library does. */
  type JsonReader = string -> Result<Json, string>

  function EmitReaction(json: JsonReader, r: ReactionDecl): Result<ReactionDef, EngineError> {
    var def := ReactionDef(r.fromSignal, r.fromState, r.toSignal, r.event, None, r.guard, r.joinGroup, r.needs,
                           r.onFail);
    match r.payload
    case None => Success(def)
    case Some(text) =>
      match json(text)
      case Failure(e) => Failure(ParseError("reaction payload is not valid JSON: " + e))
      case Success(payload) => Success(def.(payload := Some(payload)))
  }

  function EmitReactions(json: JsonReader, rs: seq<ReactionDecl>): Result<seq<ReactionDef>, EngineError> {
    if rs == [] then Success([])
    else
      var first :- EmitReaction(json, rs[0]);
      var rest :- EmitReactions(json, rs[1..]);
      Success([first] + rest)
  }

  /** The components by name, added to those emitted before. */
  function EmitComponents(json: JsonReader, cs: seq<ComponentDecl>,
                          done: map<string, ComponentDef>): Result<map<string, ComponentDef>, EngineError>
    decreases |cs|
  {
    if cs == [] then Success(done)
    else
      var c := cs[0];
      var reactions :- EmitReactions(json, c.reactions);
      EmitComponents(json, cs[1..],
                     done[c.id := ComponentDef(c.params, c.ports, Signals(c.signals), Lowered(c.signals), reactions)])
  }

  /** The schema of a whole document. */
  function EmitDoc(json: JsonReader, doc: DdlDoc): Result<TopologySchema, EngineError> {
    var reactions :- EmitReactions(json, doc.reactions);
    var components :- EmitComponents(json, doc.components, map[]);
    Success(Emit(doc.signals, reactions).(
              components := if components == map[] then None else Some(components),
              instances := doc.instantiates))
  }

  // ---- Field by field ------------------------------------------------------------------

  /** `t` has the signal, event, target, guard and actions that `tr` declares, and leaves from `from`. */
  predicate Carries(t: TransitionDef, id: string, tr: TransDecl, from: string) {
    && t.signalId == id && t.from == from && t.event == tr.event && t.to == tr.to && t.guard == tr.guard
    && t.actions.onExit == tr.actions.onExit && t.actions.onTransition == tr.actions.onTransition
    && t.actions.onEnter == tr.actions.onEnter
  }

  /** What one declaration is emitted as: for `*` one transition for each state, in order, and else one. */
  predicate EmittedAs(id: string, states: seq<string>, tr: TransDecl, out: seq<TransitionDef>) {
    if tr.from == WILDCARD then |out| == |states|
      && forall i :: 0 <= i < |states| ==> Carries(out[i], id, tr, states[i])
    else |out| == 1 && Carries(out[0], id, tr, tr.from)
  }

  lemma {:induction false} EachCarries(id: string, states: seq<string>, tr: TransDecl)
    ensures var out := FromEach(Arm(id, tr, WILDCARD), states);
            |out| == |states| && forall i :: 0 <= i < |states| ==> Carries(out[i], id, tr, states[i])
  {
    if states != [] {
      EachCarries(id, states[1..], tr);
    }
  }

  lemma LowerTransitionMeans(id: string, states: seq<string>, tr: TransDecl)
    ensures EmittedAs(id, states, tr, LowerTransition(id, states, tr))
  {
    EachCarries(id, states, tr);
  }

  /** Every field of a reaction is emitted as declared; the payload is what its text says, if that is JSON. */
  lemma EmitReactionMeans(json: JsonReader, r: ReactionDecl)
    ensures EmitReaction(json, r).Failure? <==> r.payload.Some? && json(r.payload.value).Failure?
    ensures EmitReaction(json, r).Failure? ==>
              var why := json(r.payload.value).error;
              EmitReaction(json, r).error == ParseError("reaction payload is not valid JSON: " + why)
    ensures EmitReaction(json, r).Success? ==>
              var def := EmitReaction(json, r).value;
              && def.fromSignal == r.fromSignal && def.fromState == r.fromState && def.toSignal == r.toSignal
              && def.event == r.event && def.guard == r.guard && def.joinGroup == r.joinGroup && def.needs == r.needs
              && def.onFail == r.onFail && (def.payload.None? <==> r.payload.None?)
              && (r.payload.Some? ==> json(r.payload.value) == Success(def.payload.value))
  {}

  /** Reactions are emitted one by one and in order, if all of them can be. */
  lemma {:induction false} EmitReactionsMean(json: JsonReader, rs: seq<ReactionDecl>)
    ensures EmitReactions(json, rs).Success? <==> forall r :: r in rs ==> EmitReaction(json, r).Success?
    ensures EmitReactions(json, rs).Success? ==>
              var out := EmitReactions(json, rs).value;
              |out| == |rs| && forall k :: 0 <= k < |rs| ==> EmitReaction(json, rs[k]) == Success(out[k])
  {
    hide EmitReaction;
    if rs != [] {
      assert rs == [rs[0]] + rs[1..];
      EmitReactionsMean(json, rs[1..]);
    }
  }

  /** Otherwise the error is that of the first that cannot. */
  lemma {:induction false} FirstBadReaction(json: JsonReader, rs: seq<ReactionDecl>)
    requires EmitReactions(json, rs).Failure?
    ensures exists k :: 0 <= k < |rs| && EmitReaction(json, rs[k]).Failure?
                        && EmitReaction(json, rs[k]).error == EmitReactions(json, rs).error
                        && forall j :: 0 <= j < k ==> EmitReaction(json, rs[j]).Success?
  {
    hide EmitReaction;
    if EmitReaction(json, rs[0]).Success? {
      FirstBadReaction(json, rs[1..]);
      var k :| 0 <= k < |rs[1..]| && EmitReaction(json, rs[1..][k]).Failure?
               && EmitReaction(json, rs[1..][k]).error == EmitReactions(json, rs[1..]).error
               && forall j :: 0 <= j < k ==> EmitReaction(json, rs[1..][j]).Success?;
      assert rs[k + 1] == rs[1..][k];
      assert forall j :: 0 < j < k + 1 ==> rs[j] == rs[1..][j - 1];
    }
  }

  // ---- The compiler's loops ------------------------------------------------------------

  method EmitTransition(id: string, states: seq<string>, tr: TransDecl) returns (out: seq<TransitionDef>)
    ensures out == LowerTransition(id, states, tr) && EmittedAs(id, states, tr, out)
  {
    LowerTransitionMeans(id, states, tr);
    if tr.from == WILDCARD {
      out := [];
      for i := 0 to |states|
        invariant FromEach(Arm(id, tr, WILDCARD), states) == out + FromEach(Arm(id, tr, WILDCARD), states[i..])
      {
        out := out + [TransitionDef(id, states[i], tr.event, tr.to, tr.actions, tr.guard)];
      }
      return out;
    }
    return [TransitionDef(id, tr.from, tr.event, tr.to, tr.actions, tr.guard)];
  }

  method EmitTransitions(d: SignalDecl) returns (out: seq<TransitionDef>)
    ensures out == LowerTransitions(d.id, d.states, d.transitions)
  {
    out := [];
    for j := 0 to |d.transitions|
      invariant LowerTransitions(d.id, d.states, d.transitions)
                == out + LowerTransitions(d.id, d.states, d.transitions[j..])
    {
      assert d.transitions[j..][1..] == d.transitions[j + 1..];
      var arms := EmitTransition(d.id, d.states, d.transitions[j]);
      out := out + arms;
    }
  }

  method EmitSignals(decls: seq<SignalDecl>) returns (signals: seq<SignalDef>, transitions: seq<TransitionDef>)
    ensures signals == Signals(decls) && transitions == Lowered(decls)
  {
    hide LowerTransitions;
    signals, transitions := [], [];
    for i := 0 to |decls|
      invariant signals == Signals(decls[..i])
      invariant Lowered(decls) == transitions + Lowered(decls[i..])
    {
      var d := decls[i];
      assert decls[i..][1..] == decls[i + 1..];
      signals := signals + [SignalDef(d.id, d.initial, d.states)];
      var own := EmitTransitions(d);
      transitions := transitions + own;
    }
    assert decls[..|decls|] == decls;
  }

  method EmitSchema(json: JsonReader, doc: DdlDoc) returns (r: Result<TopologySchema, EngineError>)
    ensures r == EmitDoc(json, doc)
  {
    var signals, transitions := EmitSignals(doc.signals);
    var reactions :- EmitReactions(json, doc.reactions);
    var components: map<string, ComponentDef> := map[];
    for i := 0 to |doc.components|
      invariant EmitComponents(json, doc.components, map[]) == EmitComponents(json, doc.components[i..], components)
    {
      var c := doc.components[i];
      var own, arms := EmitSignals(c.signals);
      var cascades :- EmitReactions(json, c.reactions);
      components := components[c.id := ComponentDef(c.params, c.ports, own, arms, cascades)];
    }
    return Success(TopologySchema("0.1", signals, transitions, reactions,
                                  if components == map[] then None else Some(components), doc.instantiates, []));
  }
}
