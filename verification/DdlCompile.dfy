/**
 The compiler from text to a flat schema (src/ddl/mod.rs), and what it guarantees: whatever
 compiles, the engine can refuse only for a reaction that names an undeclared signal.
 */
module DdlCompile {
  import opened Wrappers
  import opened Schema
  import opened Errors
  import opened DdlSyntax
  import opened DdlGrammar
  import opened Codegen
  import opened Lowering
  import C = Compose
  import G = GuardLexer
  import L = DdlLexer
  import P = DdlParser
  import V = Validation
  import X = Expansion
  import opened Semantics

  datatype CompileError = Lexical(flaw: L.Flaw) | Syntactic(error: SyntaxError) | Semantic(fault: EngineError)

  /** The document a text stands for. */
  function Read(src: Source): Result<DdlDoc, CompileError> {
    match L.Lex(src.lx, src.text)
    case Failure(flaw) => Failure(Lexical(flaw))
    case Success(tokens) =>
      match Doc(src, tokens)
      case Failure(e) => Failure(Syntactic(e))
      case Success(doc) => Success(doc)
  }

  /** The flat schema of a document. */
  function Flattened(json: JsonReader, doc: DdlDoc): Result<TopologySchema, EngineError> {
    var schema :- EmitDoc(json, doc);
    C.Expanded(schema)
  }

  /** What compiling a text yields. */
  function Compiled(src: Source, json: JsonReader): Result<TopologySchema, CompileError> {
    var doc :- Read(src);
    match Flattened(json, doc)
    case Failure(e) => Failure(Semantic(e))
    case Success(flat) => Success(flat)
  }

  method Compile(src: Source, json: JsonReader) returns (r: Result<TopologySchema, CompileError>)
    ensures r == Compiled(src, json)
  {
    hide Read, EmitDoc, C.Expanded;
    var doc :- ReadText(src);
    var schema := EmitSchema(json, doc);
    if schema.Failure? {
      return Failure(Semantic(schema.error));
    }
    var flat := C.Expand(schema.value);
    if flat.Failure? {
      return Failure(Semantic(flat.error));
    }
    return Success(flat.value);
  }

  method ReadText(src: Source) returns (r: Result<DdlDoc, CompileError>)
    ensures r == Read(src)
  {
    hide L.Lex, Doc, P.Ended;
    var tokens := L.Tokenize(src.lx, src.text);
    if tokens.Failure? {
      return Failure(Lexical(tokens.error));
    }
    TextEnds(src);
    var doc := P.Parse(tokens.value, src);
    if doc.Failure? {
      return Failure(Syntactic(doc.error));
    }
    return Success(doc.value);
  }

  lemma TextEnds(src: Source)
    requires L.Lex(src.lx, src.text).Success?
    ensures P.Ended(L.Lex(src.lx, src.text).value)
  {
    LexedEnds(src.lx, src.text, L.START);
  }

  lemma {:induction false} LexedEnds(lx: G.Lexicon, s: string, at: L.Cursor)
    requires L.LexFrom(lx, s, at).Success?
    ensures P.Ended(L.LexFrom(lx, s, at).value)
    decreases |s|
  {
    hide L.FirstToken, L.CommentLength, L.Bytes;
    if s != "" {
      if L.StartsComment(s) {
        LexedEnds(lx, s[L.CommentLength(s)..], L.Over(at, s[..L.CommentLength(s)]));
      } else if L.IsBlank(s[0]) {
        LexedEnds(lx, s[1..], L.Across(at, s[..1]));
      } else if s[0] == '\n' {
        LexedEnds(lx, s[1..], L.NextLine(at));
      } else {
        var (_, n) := L.FirstToken(lx, s).value;
        LexedEnds(lx, s[n..], L.Across(at, s[..n]));
      }
    }
  }

  // ---- The parser checks what validation demands ---------------------------------------

  lemma {:induction false} ResolvedComponents(guards: map<string, string>, cs: seq<RawComponent>)
    requires ResolveComponents(guards, cs).Success?
    ensures var rs := ResolveComponents(guards, cs).value;
            |rs| == |cs| && forall i :: 0 <= i < |cs| ==> rs[i].id == cs[i].id && rs[i].signals == cs[i].signals
  {
    if cs != [] {
      ResolvedComponents(guards, cs[1..]);
    }
  }

  /**
   What parses fits, whatever the tokens: every signal of the document and of each of its
   components starts in one of its states and moves between them, and names are distinct.
   */
  lemma ParsedFits(src: Source, tokens: seq<Token>)
    requires Doc(src, tokens).Success?
    ensures var doc := Doc(src, tokens).value;
            && SignalsFit(doc.signals)
            && (forall c :: c in doc.components ==> SignalsFit(c.signals))
            && (forall i, j :: 0 <= i < j < |doc.components| ==> doc.components[i].id != doc.components[j].id)
            && (forall i, j :: 0 <= i < j < |doc.guards| ==> doc.guards[i].id != doc.guards[j].id)
  {
    hide Sweep, SignalsFit, ResolveReactions, StrayJoin;
    BlankFits();
    ResolvedComponents(GuardMap(Sweep(src, BLANK, tokens).value.guards), Sweep(src, BLANK, tokens).value.components);
  }

  lemma BlankFits()
    ensures DraftFits(BLANK)
  {
    NothingFits();
  }

  // ---- Fork groups ---------------------------------------------------------------------

  lemma {:induction false} NoStrayJoin(joins: seq<string>, forks: nat)
    requires StrayJoin(joins, forks).None?
    ensures forall g :: g in joins ==> IsFork(g, forks)
  {
    hide IsFork;
    if joins != [] {
      NoStrayJoin(joins[1..], forks);
    }
  }

  lemma {:induction false} ResolvedGroups(guards: map<string, string>, rs: seq<RawReaction>)
    requires ResolveReactions(guards, rs).Success?
    ensures var ds := ResolveReactions(guards, rs).value;
            |ds| == |rs| && forall i :: 0 <= i < |rs|
                              ==> ds[i].joinGroup == rs[i].joinGroup && ds[i].needs == rs[i].needs
  {
    if rs != [] {
      ResolvedGroups(guards, rs[1..]);
    }
  }

  /** The groups that reactions are in or wait on are among the first `forks`. */
  ghost predicate GroupsOpened(rs: seq<ReactionDecl>, forks: nat) {
    forall r :: r in rs ==>
      (r.joinGroup.Some? ==> IsFork(r.joinGroup.value, forks)) && forall g :: g in r.needs ==> IsFork(g, forks)
  }

  /**
   In what parses, every group a reaction is in or waits on was opened by a fork block. The
   blocks' names are distinct, so a name stands for one block.
   */
  lemma GroupsAreForks(src: Source, tokens: seq<Token>)
    requires Doc(src, tokens).Success?
    ensures exists forks :: GroupsOpened(Doc(src, tokens).value.reactions, forks)
  {
    hide Sweep, ResolveReactions, ResolveComponents, IsFork;
    var d := Sweep(src, BLANK, tokens).value;
    BlankFits();
    NoStrayJoin(d.joins, d.forks);
    ResolvedGroups(GuardMap(d.guards), d.reactions);
    var rs := Doc(src, tokens).value.reactions;
    forall i | 0 <= i < |rs|
      ensures (rs[i].joinGroup.Some? ==> IsFork(rs[i].joinGroup.value, d.forks))
              && forall g :: g in rs[i].needs ==> IsFork(g, d.forks)
    {
      assert d.reactions[i] in d.reactions && Grouped(d.reactions[i], d.forks, d.joins);
    }
    assert GroupsOpened(rs, d.forks);
  }

  lemma ForkNamesDiffer(i: nat, j: nat)
    requires ForkName(i) == ForkName(j)
    ensures i == j
  {
    G.DecimalReads(i);
    G.DecimalReads(j);
    assert ForkName(i)[4..] == G.Decimal(i) && ForkName(j)[4..] == G.Decimal(j);
  }

  // ---- What compiles is fit to run -----------------------------------------------------

  lemma LoweredFits(decls: seq<SignalDecl>)
    requires SignalsFit(decls)
    ensures V.SignalsOk(Signals(decls)) && X.MachinesFit(Signals(decls), Lowered(decls))
  {
    hide Lowered, Signals;
    SignalsFrom(decls);
    LoweredValid(decls);
  }

  lemma {:induction false} EmittedComponentsFit(json: JsonReader, cs: seq<ComponentDecl>,
                                                done: map<string, ComponentDef>)
    requires EmitComponents(json, cs, done).Success?
    requires forall c :: c in cs ==> SignalsFit(c.signals)
    requires forall name :: name in done ==> X.MachinesFit(done[name].signals, done[name].transitions)
    ensures var out := EmitComponents(json, cs, done).value;
            forall name :: name in out ==> X.MachinesFit(out[name].signals, out[name].transitions)
    decreases |cs|
  {
    hide X.MachinesFit, SignalsFit, Signals, Lowered, EmitReactions;
    if cs != [] {
      var c := cs[0];
      assert cs == [c] + cs[1..];
      LoweredFits(c.signals);
      var def := ComponentDef(c.params, c.ports, Signals(c.signals), Lowered(c.signals),
                              EmitReactions(json, c.reactions).value);
      EmittedComponentsFit(json, cs[1..], done[c.id := def]);
    }
  }

  lemma EmittedFits(json: JsonReader, doc: DdlDoc)
    requires SignalsFit(doc.signals) && (forall c :: c in doc.components ==> SignalsFit(c.signals))
    requires EmitDoc(json, doc).Success?
    ensures var schema := EmitDoc(json, doc).value;
            && V.SignalsOk(schema.signals) && X.MachinesFit(schema.signals, schema.transitions)
            && forall name :: name in C.Components(schema) ==>
                 X.MachinesFit(C.Components(schema)[name].signals, C.Components(schema)[name].transitions)
  {
    hide X.MachinesFit, SignalsFit, Signals, Lowered, EmitReactions, EmitComponents;
    LoweredFits(doc.signals);
    EmittedComponentsFit(json, doc.components, map[]);
  }

  /**
   The main result. A text that compiles, components and instances included, gives a schema
   that validation refuses only for a reaction that names an undeclared signal.
   */
  lemma CompiledFits(src: Source, json: JsonReader)
    requires Compiled(src, json).Success?
    ensures var flat := Compiled(src, json).value;
            && V.SignalsOk(flat.signals) && (forall t :: t in flat.transitions ==> V.TransitionOk(flat.signals, t))
            && (V.WellFormed(flat) <==> forall r :: r in flat.reactions ==> V.ReactionOk(flat.signals, r))
            && forall error :: V.Blames(flat, error) ==> error.ReactionSignalNotFound?
  {
    hide L.Lex, Doc, EmitDoc, C.Expanded, SignalsFit, X.MachinesFit, V.SignalsOk, V.TransitionOk, V.ReactionOk,
      V.Blames;
    var tokens := L.Lex(src.lx, src.text).value;
    var doc := Doc(src, tokens).value;
    ParsedFits(src, tokens);
    EmittedFits(json, doc);
    var schema := EmitDoc(json, doc).value;
    X.ExpansionStaysFit(schema);
    OnlyReactionsBlamed(C.Expanded(schema).value);
  }

  lemma OnlyReactionsBlamed(schema: TopologySchema)
    requires V.SignalsOk(schema.signals) && forall t :: t in schema.transitions ==> V.TransitionOk(schema.signals, t)
    ensures forall error :: V.Blames(schema, error) ==> error.ReactionSignalNotFound?
  {
    forall error | V.Blames(schema, error) ensures error.ReactionSignalNotFound? {}
  }

  /** So an engine built from a compiled text keeps every signal in one of its declared states. */
  lemma CompiledSessionsStayHoused(src: Source, json: JsonReader, actions: map<string, ActionFn>, guards: GuardFn,
                                   limit: nat, inputs: seq<Input>)
    requires Compiled(src, json).Success?
    requires forall r :: r in Compiled(src, json).value.reactions ==> V.ReactionOk(Compiled(src, json).value.signals, r)
    ensures var flat := Compiled(src, json).value;
            V.Housed(flat, Session(V.EnvOf(flat, actions, guards), limit, V.InitialMachine(flat), inputs).0)
  {
    hide Compiled, V.SignalsOk, V.TransitionOk, V.ReactionOk, V.Blames, V.Housed;
    CompiledFits(src, json);
    V.SessionsStayHoused(Compiled(src, json).value, actions, guards, limit, inputs);
  }
}
