/**
 What a written document comes to, field by field. The text of a script compiles to a schema
 whose signals, transitions, reactions, components and instances have the names, states,
 events, actions, guard texts, payloads and groups that its clauses and rules were written
 with. Nothing here speaks of how the compiler makes them.
 */
module DdlMeaning {
  import opened Wrappers
  import opened Schema
  import opened Errors
  import opened DdlSyntax
  import opened DdlScript
  import opened DdlPrinter
  import opened DdlSpelling
  import opened Codegen
  import A = DdlGrammar
  import C = DdlCompile
  import Cm = Compose
  import G = GuardLexer
  import Li = LoweredInstances

  // ---- Transitions ---------------------------------------------------------------------

  /** A clause as a transition of signal `id` from `from`. */
  function Written(id: string, c: Clause, from: string): (t: TransitionDef)
    ensures t.signalId == id && t.from == from && t.event == c.event && t.to == c.to
    ensures c.guard.None? ==> t.guard == None
    ensures c.guard.Some? ==> t.guard == Some(c.guard.value.text)
    ensures c.block.None? ==> t.actions.onExit == t.actions.onTransition == t.actions.onEnter == []
    ensures c.block.Some? ==>
              t.actions.onExit == c.block.value.onExit && t.actions.onTransition == c.block.value.onTransition
              && t.actions.onEnter == c.block.value.onEnter
  {
    TransitionDef(id, from, c.event, c.to, if c.block.Some? then c.block.value else ActionBinding([], [], []),
                  if c.guard.Some? then Some(c.guard.value.text) else None)
  }

  /** A clause from `*` is written once and stands for each state, in order. */
  function OfClause(id: string, states: seq<string>, c: Clause): (ts: seq<TransitionDef>)
    ensures c.from != "*" ==> ts == [Written(id, c, c.from)]
    ensures c.from == "*" ==> |ts| == |states| && forall k :: 0 <= k < |states| ==> ts[k] == Written(id, c, states[k])
  {
    if c.from != "*" then [Written(id, c, c.from)]
    else seq(|states|, k requires 0 <= k < |states| => Written(id, c, states[k]))
  }

  function OfClauses(id: string, states: seq<string>, cs: seq<Clause>): seq<TransitionDef> {
    if cs == [] then [] else OfClause(id, states, cs[0]) + OfClauses(id, states, cs[1..])
  }

  /** The transitions of the signals `ds`: signal by signal, clause by clause. */
  function OfSheets(ds: seq<Sheet>): seq<TransitionDef> {
    if ds == [] then [] else OfClauses(ds[0].id, ds[0].states, ds[0].clauses) + OfSheets(ds[1..])
  }

  lemma ClauseLowers(id: string, states: seq<string>, c: Clause)
    ensures LowerTransition(id, states, ClauseDecl(c)) == OfClause(id, states, c)
  {
    LowerTransitionMeans(id, states, ClauseDecl(c));
    var out := LowerTransition(id, states, ClauseDecl(c));
    if c.from == "*" {
      forall k | 0 <= k < |states| ensures out[k] == Written(id, c, states[k]) {
        assert Carries(out[k], id, ClauseDecl(c), states[k]);
      }
    }
  }

  lemma {:induction false} ClausesLower(id: string, states: seq<string>, cs: seq<Clause>)
    ensures LowerTransitions(id, states, ClauseDecls(cs)) == OfClauses(id, states, cs)
  {
    hide LowerTransition;
    if cs != [] {
      ClauseLowers(id, states, cs[0]);
      assert ClauseDecls(cs)[1..] == ClauseDecls(cs[1..]);
      ClausesLower(id, states, cs[1..]);
    }
  }

  lemma {:induction false} SheetsLower(ds: seq<Sheet>)
    ensures Lowered(SheetDecls(ds)) == OfSheets(ds)
  {
    hide LowerTransitions, OfClauses;
    if ds != [] {
      ClausesLower(ds[0].id, ds[0].states, ds[0].clauses);
      assert SheetDecls(ds)[1..] == SheetDecls(ds[1..]);
      SheetsLower(ds[1..]);
    }
  }

  /** The signals of `ds`, with their states and their initial state. */
  predicate SignalsAsWritten(ds: seq<Sheet>, out: seq<SignalDef>) {
    |out| == |ds| && forall k :: 0 <= k < |ds| ==>
                       out[k].id == ds[k].id && out[k].initialState == ds[k].initial && out[k].states == ds[k].states
  }

  lemma {:induction false} SheetsDeclare(ds: seq<Sheet>)
    ensures |SheetDecls(ds)| == |ds|
    ensures forall k :: 0 <= k < |ds| ==> SheetDecls(ds)[k] == SheetDecl(ds[k])
  {
    if ds != [] {
      SheetsDeclare(ds[1..]);
    }
  }

  lemma SheetsGiveSignals(ds: seq<Sheet>)
    ensures SignalsAsWritten(ds, Signals(SheetDecls(ds)))
  {
    SheetsDeclare(ds);
  }

  // ---- Reactions -----------------------------------------------------------------------

  /** A rule where it stands: in a group, waiting on groups, or by itself. */
  datatype Standing = Standing(rule: Rule, group: Option<string>, needs: seq<string>)

  function AllStanding(rs: seq<Rule>, group: Option<string>, needs: seq<string>): (out: seq<Standing>)
    ensures |out| == |rs| && forall k :: 0 <= k < |rs| ==> out[k] == Standing(rs[k], group, needs)
  {
    seq(|rs|, k requires 0 <= k < |rs| => Standing(rs[k], group, needs))
  }

  /** The rules of a block, `forks` fork blocks having been written before it. */
  function RulesOfBlock(b: Block, forks: nat): seq<Standing> {
    match b
    case Single(r) => [Standing(r, None, [])]
    case ForkOf(rs) => AllStanding(rs, Some("fork" + G.Decimal(forks)), [])
    case JoinOn(group, rs) => AllStanding(rs, None, [group])
    case _ => []
  }

  /** The rules of the blocks, in order. */
  function RulesIn(bs: seq<Block>, forks: nat): seq<Standing> {
    if bs == [] then []
    else RulesOfBlock(bs[0], forks) + RulesIn(bs[1..], if bs[0].ForkOf? then forks + 1 else forks)
  }

  /** The guard text of a rule: that of the declaration it names, or its own. */
  predicate GuardAsWritten(bs: seq<Block>, guard: Option<Phrase>, out: Option<string>) {
    match guard
    case None => out == None
    case Some(g) =>
      if |g.kinds| == 1 && g.kinds[0].KIdentifier? then
        exists b :: b in bs && b.Define? && b.id == g.text && out == Some(Piece(b.body.kinds))
      else out == Some(g.text)
  }

  /** The reaction has the fields of the rule, its guard text, the value of its payload text, and its place. */
  predicate ReactionAsWritten(json: JsonReader, bs: seq<Block>, s: Standing, out: ReactionDef) {
    var r := s.rule;
    && out.fromSignal == r.fromSignal && out.fromState == r.fromState && out.toSignal == r.toSignal
    && out.event == r.event && out.onFail == r.onFail && out.joinGroup == s.group && out.needs == s.needs
    && GuardAsWritten(bs, r.guard, out.guard)
    && (!r.tail.Payload? ==> out.payload == None)
    && (r.tail.Payload? ==> out.payload.Some? && json(r.tail.inner.text) == Success(out.payload.value))
  }

  predicate ReactionsAsWritten(json: JsonReader, bs: seq<Block>, ss: seq<Standing>, out: seq<ReactionDef>) {
    |out| == |ss| && forall k :: 0 <= k < |ss| ==> ReactionAsWritten(json, bs, ss[k], out[k])
  }

  /** What a rule is read as, before names are looked up. */
  function RawOf(s: Standing): A.RawReaction {
    Raw(s.rule, s.group, s.needs)
  }

  function RawsOf(ss: seq<Standing>): (out: seq<A.RawReaction>)
    ensures |out| == |ss| && forall k :: 0 <= k < |ss| ==> out[k] == RawOf(ss[k])
  {
    seq(|ss|, k requires 0 <= k < |ss| => RawOf(ss[k]))
  }

  lemma {:induction false} AllRaw(rs: seq<Rule>, group: Option<string>, needs: seq<string>)
    ensures RawAll(rs, group, needs) == RawsOf(AllStanding(rs, group, needs))
  {
    hide Raw;
    if rs != [] {
      AllRaw(rs[1..], group, needs);
    }
  }

  lemma BlockAddsRules(lx: G.Lexicon, d: A.Draft, b: Block)
    ensures Plus(lx, d, b).reactions == d.reactions + RawsOf(RulesOfBlock(b, d.forks))
    ensures Plus(lx, d, b).forks == if b.ForkOf? then d.forks + 1 else d.forks
  {
    hide Raw, A.Trim, A.Unbrace, RawUnit, RawCopy, RawAll, RawOf;
    match b
    case Single(r) => assert RawsOf([Standing(r, None, [])]) == [RawOf(Standing(r, None, []))]
      == [Raw(r, None, [])] by {
        RawIs(r, None, []);
      }
    case ForkOf(rs) => AllRaw(rs, Some(A.ForkName(d.forks)), []);
    case JoinOn(group, rs) => AllRaw(rs, None, [group]);
    case _ => assert RawsOf([]) == [] && d.reactions + [] == d.reactions;
  }

  lemma RawIs(r: Rule, group: Option<string>, needs: seq<string>)
    ensures RawOf(Standing(r, group, needs)) == Raw(r, group, needs)
  {}

  lemma RawsConcat(a: seq<Standing>, b: seq<Standing>)
    ensures RawsOf(a + b) == RawsOf(a) + RawsOf(b)
  {}

  lemma {:induction false} BlocksAddRules(lx: G.Lexicon, d: A.Draft, bs: seq<Block>)
    ensures PlusAll(lx, d, bs).reactions == d.reactions + RawsOf(RulesIn(bs, d.forks))
    decreases |bs|
  {
    hide Plus, RawsOf, RulesOfBlock;
    if bs == [] {
      assert RawsOf([]) == [];
      assert d.reactions + [] == d.reactions;
    } else {
      var d1 := Plus(lx, d, bs[0]);
      BlockAddsRules(lx, d, bs[0]);
      BlocksAddRules(lx, d1, bs[1..]);
      var here, rest := RulesOfBlock(bs[0], d.forks), RulesIn(bs[1..], d1.forks);
      RawsConcat(here, rest);
      assert d.reactions + RawsOf(here) + RawsOf(rest) == d.reactions + (RawsOf(here) + RawsOf(rest));
    }
  }

  // ---- Named guards --------------------------------------------------------------------

  lemma TrimBlank(lx: G.Lexicon, s: string)
    requires lx.isSpace(' ')
    ensures A.Trim(lx, " " + s) == A.Trim(lx, s)
  {
    assert (" " + s)[1..] == s;
  }

  lemma TrimBlankAfter(lx: G.Lexicon, s: string)
    requires lx.isSpace(' ') && (s != "" ==> !lx.isSpace(s[0]))
    ensures A.Trim(lx, s + " ") == A.Trim(lx, s)
  {
    if s == "" {
      assert s + " " == " " && " "[1..] == "";
    } else {
      assert (s + " ")[..|s + " "| - 1] == s && (s + " ")[0] == s[0];
    }
  }

  lemma BracesSpelled()
    ensures SpellKind(KLBrace) == "{" && SpellKind(KRBrace) == "}"
  {}

  lemma BraceSpelled()
    ensures Spell([KLBrace]) == "{" + " "
  {
    BracesSpelled();
    hide SpellKind;
    assert [KLBrace][1..] == [] && Spell([]) == "";
  }

  lemma BracedIs(kinds: seq<Kind>)
    ensures Piece([KLBrace] + kinds + [KRBrace]) == "{" + (" " + Spell(kinds)) + "}"
  {
    hide SpellKind, Spell, Piece;
    var all := [KLBrace] + kinds + [KRBrace];
    BracesSpelled();
    BraceSpelled();
    SpellEnds(all);
    assert all[..|all| - 1] == [KLBrace] + kinds && all[|all| - 1] == KRBrace;
    SpellConcat([KLBrace], kinds);
    assert ("{" + " ") + Spell(kinds) == "{" + (" " + Spell(kinds));
  }

  lemma Unbraced(s: string)
    ensures A.Unbrace("{" + s + "}") == s
  {}

  lemma SpellingTrims(lx: G.Lexicon, names: set<string>, kinds: seq<Kind>)
    requires SpellSane(lx) && Proper(lx, names) && forall k :: k in kinds ==> Spellable(names, k)
    ensures A.Trim(lx, " " + Spell(kinds)) == Piece(kinds)
  {
    assert lx.isSpace(' ');
    hide SpellSane, SpellKind, Proper, A.Trim, Spellable;
    TrimBlank(lx, Spell(kinds));
    if kinds == [] {
      assert Spell(kinds) == "" && Piece(kinds) == "";
      TrimNothing(lx);
    } else {
      SpellEnds(kinds);
      assert Spell(kinds) == Piece(kinds) + " ";
      PieceIsTrimmed(lx, names, kinds);
      SpellingIsTrimmed(lx, names, kinds[0]);
      PieceBegins(kinds);
      TrimBlankAfter(lx, Piece(kinds));
    }
  }

  lemma TrimNothing(lx: G.Lexicon)
    ensures A.Trim(lx, "") == ""
  {}

  /** The text of a guard declaration is what stands between its braces. */
  lemma DeclaredText(lx: G.Lexicon, names: set<string>, body: Phrase)
    requires SpellSane(lx) && Proper(lx, names) && SpokenBraced(body)
    requires forall k :: k in body.kinds ==> Spellable(names, k)
    ensures A.Trim(lx, A.Unbrace(body.text)) == Piece(body.kinds)
  {
    hide SpellSane, Proper, Spellable, Piece, Spell, A.Trim, A.Unbrace;
    BracedIs(body.kinds);
    Unbraced(" " + Spell(body.kinds));
    SpellingTrims(lx, names, body.kinds);
  }

  lemma PieceBegins(kinds: seq<Kind>)
    requires kinds != [] && SpellKind(kinds[0]) != ""
    ensures Piece(kinds) != "" && Piece(kinds)[0] == SpellKind(kinds[0])[0]
  {
    hide SpellKind;
    SpellEnds(kinds);
    assert Spell(kinds) == Piece(kinds) + " ";
    assert |Spell(kinds)| >= 2 && Spell(kinds)[0] == SpellKind(kinds[0])[0];
  }

  function GuardOf(lx: G.Lexicon, b: Block): GuardDecl
    requires b.Define?
  {
    GuardDecl(b.id, A.Trim(lx, A.Unbrace(b.body.text)))
  }

  lemma {:induction false} BlocksAddGuards(lx: G.Lexicon, d: A.Draft, bs: seq<Block>)
    ensures forall g :: g in PlusAll(lx, d, bs).guards <==>
                          g in d.guards || exists b :: b in bs && b.Define? && g == GuardOf(lx, b)
    decreases |bs|
  {
    hide RawAll, A.Trim, A.Unbrace, RawUnit, RawCopy;
    if bs != [] {
      BlocksAddGuards(lx, Plus(lx, d, bs[0]), bs[1..]);
      assert bs == [bs[0]] + bs[1..];
    }
  }

  lemma {:induction false} GuardMapHas(guards: seq<GuardDecl>, id: string)
    ensures id in A.GuardMap(guards) <==> exists g :: g in guards && g.id == id
    ensures id in A.GuardMap(guards) ==> exists g :: g in guards && g.id == id && A.GuardMap(guards)[id] == g.expr
  {
    if guards != [] {
      var front, last := guards[..|guards| - 1], guards[|guards| - 1];
      assert guards == front + [last];
      GuardMapHas(front, id);
    }
  }

  // ---- Looking names up ----------------------------------------------------------------

  /** What a reaction is once names are looked up: the same, but for a guard that is a name. */
  lemma ResolveMeans(guards: map<string, string>, r: A.RawReaction)
    ensures A.ResolveReaction(guards, r).Failure?
            <==> r.guard.Some? && r.guard.value.Ref? && r.guard.value.id !in guards
    ensures A.ResolveReaction(guards, r).Failure? ==>
              A.ResolveReaction(guards, r).error == A.UndefinedGuard(r.guard.value.id, r.fromSignal, r.fromState)
    ensures A.ResolveReaction(guards, r).Success? ==>
              var d := A.ResolveReaction(guards, r).value;
              && d.fromSignal == r.fromSignal && d.fromState == r.fromState && d.toSignal == r.toSignal
              && d.event == r.event && d.payload == r.payload && d.joinGroup == r.joinGroup && d.needs == r.needs
              && d.onFail == r.onFail
              && (r.guard.None? ==> d.guard == None)
              && (r.guard.Some? && r.guard.value.Lit? ==> d.guard == Some(r.guard.value.text))
              && (r.guard.Some? && r.guard.value.Ref? ==>
                    d.guard == Some(guards[r.guard.value.id]) && d.guardRef == Some(r.guard.value.id))
  {}

  lemma {:induction false} ResolveAllMean(guards: map<string, string>, rs: seq<A.RawReaction>)
    ensures A.ResolveReactions(guards, rs).Success? ==>
              var out := A.ResolveReactions(guards, rs).value;
              |out| == |rs| && forall k :: 0 <= k < |rs| ==> A.ResolveReaction(guards, rs[k]) == Success(out[k])
  {
    hide A.ResolveReaction;
    if rs != [] {
      ResolveAllMean(guards, rs[1..]);
    }
  }

  /** A reaction's guard is a name that no guard is declared with. */
  predicate NamesNone(guards: seq<GuardDecl>, r: A.RawReaction) {
    r.guard.Some? && r.guard.value.Ref? && forall g :: g in guards ==> g.id != r.guard.value.id
  }

  lemma {:induction false} FirstStray(joins: seq<string>, forks: nat)
    ensures match A.StrayJoin(joins, forks)
            case None => forall g :: g in joins ==> A.IsFork(g, forks)
            case Some(g) => exists k :: 0 <= k < |joins| && joins[k] == g && !A.IsFork(g, forks)
                                        && forall j :: 0 <= j < k ==> A.IsFork(joins[j], forks)
  {
    hide A.IsFork;
    if joins != [] && A.IsFork(joins[0], forks) {
      FirstStray(joins[1..], forks);
      if g :| A.StrayJoin(joins[1..], forks) == Some(g) {
        var k :| 0 <= k < |joins[1..]| && joins[1..][k] == g && !A.IsFork(g, forks)
                 && forall j :: 0 <= j < k ==> A.IsFork(joins[1..][j], forks);
        assert joins[k + 1] == g && forall j :: 0 < j < k + 1 ==> joins[j] == joins[1..][j - 1];
      }
    }
  }

  lemma {:induction false} LookupIff(guards: seq<GuardDecl>, rs: seq<A.RawReaction>)
    ensures A.ResolveReactions(A.GuardMap(guards), rs).Failure? <==> exists r :: r in rs && NamesNone(guards, r)
  {
    hide A.ResolveReaction, A.GuardMap, NamesNone;
    if rs != [] {
      assert rs == [rs[0]] + rs[1..];
      LookupIff(guards, rs[1..]);
      OneLookup(guards, rs[0]);
    }
  }

  lemma OneLookup(guards: seq<GuardDecl>, r: A.RawReaction)
    ensures A.ResolveReaction(A.GuardMap(guards), r).Failure? <==> NamesNone(guards, r)
  {
    hide A.GuardMap;
    if r.guard.Some? && r.guard.value.Ref? {
      GuardMapHas(guards, r.guard.value.id);
    }
  }

  lemma {:induction false} ComponentLookupIff(guards: seq<GuardDecl>, cs: seq<A.RawComponent>)
    ensures A.ResolveComponents(A.GuardMap(guards), cs).Failure?
       <==> exists c, r :: c in cs && r in c.reactions && NamesNone(guards, r)
  {
    hide A.ResolveReactions, A.GuardMap, NamesNone;
    if cs != [] {
      assert cs == [cs[0]] + cs[1..];
      ComponentLookupIff(guards, cs[1..]);
      LookupIff(guards, cs[0].reactions);
    }
  }

  /**
   Exactly when what has been read is no document: a join names no fork block, which is asked
   first, or a reaction, in a component or not, is guarded by a name that is not declared.
   */
  lemma SettlesIff(d: A.Draft)
    ensures A.Settled(d).Failure? <==>
              || (exists g :: g in d.joins && !A.IsFork(g, d.forks))
              || (exists r :: r in d.reactions && NamesNone(d.guards, r))
              || (exists c, r :: c in d.components && r in c.reactions && NamesNone(d.guards, r))
    ensures (exists g :: g in d.joins && !A.IsFork(g, d.forks)) ==>
              exists k :: 0 <= k < |d.joins| && !A.IsFork(d.joins[k], d.forks)
                          && A.Settled(d) == Failure(A.UndefinedGroup(d.joins[k], d.forks))
                          && forall j :: 0 <= j < k ==> A.IsFork(d.joins[j], d.forks)
    ensures A.Settled(d).Success? ==>
              A.Settled(d).value.signals == d.signals && A.Settled(d).value.guards == d.guards
              && A.Settled(d).value.instantiates == d.instantiates
  {
    hide A.IsFork, A.GuardMap, A.ResolveReactions, A.ResolveComponents, NamesNone, A.StrayJoin;
    FirstStray(d.joins, d.forks);
    LookupIff(d.guards, d.reactions);
    ComponentLookupIff(d.guards, d.components);
  }

  /** Every text is the spelling of its tokens, and all tokens of a guard declaration can be spelled. */
  ghost predicate Legible(lx: G.Lexicon, names: set<string>, bs: seq<Block>) {
    && SpellSane(lx) && Proper(lx, names)
    && forall b :: b in bs && b.Define?
         ==> SpokenBraced(b.body) && forall k :: k in b.body.kinds ==> Spellable(names, k)
  }

  /** A reaction that a rule is read as and emitted as is as written. */
  lemma RuleCompiles(lx: G.Lexicon, names: set<string>, json: JsonReader, guards: map<string, string>, bs: seq<Block>,
                     s: Standing, d: ReactionDecl, out: ReactionDef)
    requires Legible(lx, names, bs)
    requires forall id :: id in guards
               ==> exists b :: b in bs && b.Define? && b.id == id && guards[id] == GuardOf(lx, b).expr
    requires A.ResolveReaction(guards, RawOf(s)) == Success(d) && EmitReaction(json, d) == Success(out)
    ensures ReactionAsWritten(json, bs, s, out)
  {
    hide A.ResolveReaction, EmitReaction, A.Trim, A.Unbrace, Piece, SpellSane, Proper, Spellable, SpokenBraced;
    ResolveMeans(guards, RawOf(s));
    EmitReactionMeans(json, d);
    if s.rule.guard.Some? {
      var g := s.rule.guard.value;
      if |g.kinds| == 1 && g.kinds[0].KIdentifier? {
        assert g.text in guards;
        var b :| b in bs && b.Define? && b.id == g.text && guards[g.text] == GuardOf(lx, b).expr;
        DeclaredText(lx, names, b.body);
      }
    }
  }

  lemma RulesCompile(lx: G.Lexicon, names: set<string>, json: JsonReader, guards: map<string, string>, bs: seq<Block>,
                     ss: seq<Standing>, ds: seq<ReactionDecl>, out: seq<ReactionDef>)
    requires Legible(lx, names, bs)
    requires forall id :: id in guards
               ==> exists b :: b in bs && b.Define? && b.id == id && guards[id] == GuardOf(lx, b).expr
    requires A.ResolveReactions(guards, RawsOf(ss)) == Success(ds) && EmitReactions(json, ds) == Success(out)
    ensures ReactionsAsWritten(json, bs, ss, out)
  {
    hide A.ResolveReaction, EmitReaction, ReactionAsWritten, Legible, RawOf, GuardOf;
    ResolveAllMean(guards, RawsOf(ss));
    EmitReactionsMean(json, ds);
    forall k | 0 <= k < |ss| ensures ReactionAsWritten(json, bs, ss[k], out[k]) {
      RuleCompiles(lx, names, json, guards, bs, ss[k], ds[k], out[k]);
    }
  }

  // ---- Components and instances --------------------------------------------------------

  /** A component has the parameters, ports, signals, transitions and reactions it is written with, each in order. */
  predicate UnitAsWritten(json: JsonReader, bs: seq<Block>, b: Block, def: ComponentDef)
    requires b.Unit?
  {
    && def.params == (if b.params.Some? then b.params.value else []) && def.ports == PortsOf(b.members)
    && SignalsAsWritten(SheetsOf(b.members), def.signals) && def.transitions == OfSheets(SheetsOf(b.members))
    && ReactionsAsWritten(json, bs, AllStanding(RulesOf(b.members), None, []), def.reactions)
  }

  /** Pair `k` is the last that gives `name` a value. */
  predicate LastGives(pairs: Pairs, name: string, k: int) {
    0 <= k < |pairs| && pairs[k].0 == name && forall j :: k < j < |pairs| ==> pairs[j].0 != name
  }

  /** An instance has the component, the bindings and the connections it is written with; of two bindings the later. */
  ghost predicate CopyAsWritten(b: Block, inst: InstanceDef)
    requires b.Copy?
  {
    && inst.component == b.component
    && (forall name :: name in inst.bindings <==> exists k :: LastGives(b.bindings, name, k))
    && (forall name, k :: LastGives(b.bindings, name, k) && name in inst.bindings ==>
          inst.bindings[name] == b.bindings[k].1)
    && (b.wires.None? ==> inst.connections == [])
    && (b.wires.Some? ==>
          |inst.connections| == |b.wires.value| && forall k :: 0 <= k < |b.wires.value| ==>
            inst.connections[k].port == b.wires.value[k].0 && inst.connections[k].targetSignal == b.wires.value[k].1)
  }

  lemma {:induction false} BindingsMean(pairs: Pairs, name: string)
    ensures name in A.BindingsOf(pairs) <==> exists k :: LastGives(pairs, name, k)
    ensures forall k :: LastGives(pairs, name, k) ==>
              name in A.BindingsOf(pairs) && A.BindingsOf(pairs)[name] == pairs[k].1
  {
    if pairs != [] {
      var front, n := pairs[..|pairs| - 1], |pairs| - 1;
      BindingsMean(front, name);
      if pairs[n].0 == name {
        assert LastGives(pairs, name, n);
      } else {
        forall k ensures LastGives(pairs, name, k) <==> LastGives(front, name, k) {
          assert forall j :: 0 <= j < n ==> front[j] == pairs[j];
        }
      }
    }
  }

  lemma CopyIsRaw(b: Block)
    requires b.Copy?
    ensures CopyAsWritten(b, RawCopy(b.component, b.bindings, b.wires))
  {
    forall name
      ensures name in A.BindingsOf(b.bindings) <==> exists k :: LastGives(b.bindings, name, k)
      ensures forall k :: LastGives(b.bindings, name, k) ==>
                name in A.BindingsOf(b.bindings) && A.BindingsOf(b.bindings)[name] == b.bindings[k].1
    {
      BindingsMean(b.bindings, name);
    }
  }

  /** The copies among the blocks, in order. */
  function CopiesAmong(bs: seq<Block>): (out: seq<Block>)
    ensures forall b :: b in out <==> b in bs && b.Copy?
  {
    if bs == [] then [] else (if bs[0].Copy? then [bs[0]] else []) + CopiesAmong(bs[1..])
  }

  ghost predicate CopiesAsWritten(bs: seq<Block>, out: seq<InstanceDef>) {
    |out| == |CopiesAmong(bs)| && forall k :: 0 <= k < |out| ==> CopyAsWritten(CopiesAmong(bs)[k], out[k])
  }

  lemma {:induction false} CopiesMean(bs: seq<Block>)
    ensures CopiesAsWritten(bs, CopiesOf(bs))
  {
    hide CopyAsWritten, RawCopy;
    if bs != [] {
      CopiesMean(bs[1..]);
      if bs[0].Copy? {
        CopyIsRaw(bs[0]);
      }
    }
  }

  // ---- Whole documents -----------------------------------------------------------------

  /** The schema holds what the script is written with. */
  ghost predicate AsWritten(json: JsonReader, s: Script, schema: TopologySchema) {
    && SignalsAsWritten(s.signals, schema.signals)
    && schema.transitions == OfSheets(s.signals)
    && ReactionsAsWritten(json, s.blocks, RulesIn(s.blocks, 0), schema.reactions)
    && CopiesAsWritten(s.blocks, schema.instances)
    && (forall b :: b in s.blocks && b.Unit? ==>
          b.id in Cm.Components(schema) && UnitAsWritten(json, s.blocks, b, Cm.Components(schema)[b.id]))
    && (forall name :: name in Cm.Components(schema) ==> exists b :: b in s.blocks && b.Unit? && b.id == name)
  }

  /** The guards that names can refer to. */
  lemma GuardsAreDeclared(lx: G.Lexicon, s: Script)
    ensures var guards := A.GuardMap(DraftOf(lx, s).guards);
            forall id :: id in guards ==>
              exists b :: b in s.blocks && b.Define? && b.id == id && guards[id] == GuardOf(lx, b).expr
  {
    hide PlusAll, A.GuardMap, GuardOf, SheetDecls, A.Trim, A.Unbrace;
    var start := A.BLANK.(signals := SheetDecls(s.signals));
    var gs := DraftOf(lx, s).guards;
    BlocksAddGuards(lx, start, s.blocks);
    forall id | id in A.GuardMap(gs)
      ensures exists b :: b in s.blocks && b.Define? && b.id == id && A.GuardMap(gs)[id] == GuardOf(lx, b).expr
    {
      GuardMapHas(gs, id);
      var g :| g in gs && g.id == id && A.GuardMap(gs)[id] == g.expr;
      var b :| b in s.blocks && b.Define? && g == GuardOf(lx, b);
      GuardOfNamed(lx, b);
    }
  }

  lemma GuardOfNamed(lx: G.Lexicon, b: Block)
    requires b.Define?
    ensures GuardOf(lx, b).id == b.id
  {}

  /** The parts of the document that a script means. */
  lemma OutcomeParts(lx: G.Lexicon, s: Script)
    requires Outcome(lx, s).Success?
    ensures var doc, d := Outcome(lx, s).value, DraftOf(lx, s);
            && A.ResolveReactions(A.GuardMap(d.guards), RawsOf(RulesIn(s.blocks, 0))) == Success(doc.reactions)
            && A.ResolveComponents(A.GuardMap(d.guards), d.components) == Success(doc.components)
  {
    hide PlusAll, A.ResolveReactions, A.ResolveComponents, A.StrayJoin, A.GuardMap, SheetDecls, RawsOf, RulesIn;
    var start := A.BLANK.(signals := SheetDecls(s.signals));
    BlocksAddRules(lx, start, s.blocks);
    assert [] + RawsOf(RulesIn(s.blocks, 0)) == RawsOf(RulesIn(s.blocks, 0));
  }

  lemma {:induction false} BlocksAddOnlyUnits(lx: G.Lexicon, d: A.Draft, bs: seq<Block>)
    ensures forall c :: c in PlusAll(lx, d, bs).components <==>
              c in d.components || exists b :: b in bs && b.Unit? && c == RawUnit(b.id, b.params, b.members)
    decreases |bs|
  {
    hide RawAll, A.Trim, A.Unbrace, RawUnit, RawCopy;
    if bs != [] {
      BlocksAddOnlyUnits(lx, Plus(lx, d, bs[0]), bs[1..]);
      assert bs == [bs[0]] + bs[1..];
    }
  }

  lemma {:induction false} ComponentsResolve(guards: map<string, string>, cs: seq<A.RawComponent>)
    requires A.ResolveComponents(guards, cs).Success?
    ensures var out := A.ResolveComponents(guards, cs).value;
            && |out| == |cs|
            && forall k :: 0 <= k < |cs| ==>
                 out[k].id == cs[k].id && out[k].params == cs[k].params && out[k].ports == cs[k].ports
                 && out[k].signals == cs[k].signals
                 && A.ResolveReactions(guards, cs[k].reactions) == Success(out[k].reactions)
  {
    hide A.ResolveReactions;
    if cs != [] {
      ComponentsResolve(guards, cs[1..]);
    }
  }

  /** What a unit is emitted as is as it is written. */
  lemma UnitCompiles(lx: G.Lexicon, names: set<string>, json: JsonReader, guards: map<string, string>, bs: seq<Block>,
                     b: Block, c: ComponentDecl, def: ComponentDef)
    requires Legible(lx, names, bs) && b.Unit?
    requires forall id :: id in guards ==>
               exists b :: b in bs && b.Define? && b.id == id && guards[id] == GuardOf(lx, b).expr
    requires var raw := RawUnit(b.id, b.params, b.members);
             c.params == raw.params && c.ports == raw.ports && c.signals == raw.signals
             && A.ResolveReactions(guards, raw.reactions) == Success(c.reactions)
    requires EmitReactions(json, c.reactions).Success?
    requires def == ComponentDef(c.params, c.ports, Signals(c.signals), Lowered(c.signals),
                                 EmitReactions(json, c.reactions).value)
    ensures UnitAsWritten(json, bs, b, def)
  {
    hide Legible, GuardOf, Signals, Lowered, SheetDecls, OfSheets, EmitReactions, A.ResolveReactions,
      ReactionsAsWritten,
      SignalsAsWritten;
    var sheets, rules := SheetsOf(b.members), RulesOf(b.members);
    SheetsGiveSignals(sheets);
    SheetsLower(sheets);
    AllRaw(rules, None, []);
    RulesCompile(lx, names, json, guards, bs, AllStanding(rules, None, []), c.reactions, def.reactions);
  }

  lemma NamedIsOne(cs: seq<ComponentDecl>, c: ComponentDecl)
    requires c in cs && forall i, j :: 0 <= i < j < |cs| ==> cs[i].id != cs[j].id
    ensures Li.Named(cs, c.id) == Some(c)
    decreases |cs|
  {
    var front, last := cs[..|cs| - 1], cs[|cs| - 1];
    assert cs == front + [last];
    if c != last {
      var i :| 0 <= i < |cs| && cs[i] == c;
      assert c in front;
      NamedIsOne(front, c);
    }
  }

  lemma {:induction false} NamedIsThere(cs: seq<ComponentDecl>, name: string)
    requires Li.Named(cs, name).Some?
    ensures Li.Named(cs, name).value in cs && Li.Named(cs, name).value.id == name
    decreases |cs|
  {
    var front, last := cs[..|cs| - 1], cs[|cs| - 1];
    assert cs == front + [last];
    if last.id != name {
      NamedIsThere(front, name);
    }
  }

  ghost predicate DistinctRaw(cs: seq<A.RawComponent>) {
    forall i, j :: 0 <= i < j < |cs| ==> cs[i].id != cs[j].id
  }

  lemma BlockStaysDistinct(lx: G.Lexicon, d: A.Draft, b: Block)
    requires b.Unit? ==> b.id !in A.ComponentIds(d)
    requires DistinctRaw(d.components)
    ensures DistinctRaw(Plus(lx, d, b).components)
  {
    hide RawAll, A.Trim, A.Unbrace, RawUnit, RawCopy;
    if b.Unit? {
      RawUnitHas(b);
      assert forall i :: 0 <= i < |d.components| ==> d.components[i].id in A.ComponentIds(d);
    }
  }

  /** Component names are distinct in what a script means, as in the script. */
  lemma {:induction false} UnitsStayDistinct(lx: G.Lexicon, d: A.Draft, bs: seq<Block>)
    requires NewDefinitions(d, bs)
    requires DistinctRaw(d.components)
    ensures DistinctRaw(PlusAll(lx, d, bs).components)
    decreases |bs|
  {
    if bs != [] {
      StillNew(lx, d, bs);
      FirstIsNew(d, bs);
      BlockStaysDistinct(lx, d, bs[0]);
      hide NewDefinitions, Plus, DistinctRaw;
      UnitsStayDistinct(lx, Plus(lx, d, bs[0]), bs[1..]);
    }
  }

  /** The components of the document, and what they are resolved from. */
  lemma ResolvedUnits(lx: G.Lexicon, s: Script)
    requires DistinctDefinitions(s.blocks) && Outcome(lx, s).Success?
    ensures var raws, cs := DraftOf(lx, s).components, Outcome(lx, s).value.components;
            var guards := A.GuardMap(DraftOf(lx, s).guards);
            && |cs| == |raws| && (forall i, j :: 0 <= i < j < |cs| ==> cs[i].id != cs[j].id)
            && (forall k :: 0 <= k < |cs| ==> Resolves(guards, raws[k], cs[k]))
            && (forall raw :: raw in raws <==>
                  exists b :: b in s.blocks && b.Unit? && raw == RawUnit(b.id, b.params, b.members))
  {
    hide PlusAll, A.GuardMap, SheetDecls, A.ResolveReactions, A.ResolveComponents, RawUnit, Outcome;
    var d, start := DraftOf(lx, s), A.BLANK.(signals := SheetDecls(s.signals));
    OutcomeParts(lx, s);
    ComponentsResolve(A.GuardMap(d.guards), d.components);
    BlocksAddOnlyUnits(lx, start, s.blocks);
    assert NewDefinitions(start, s.blocks);
    UnitsStayDistinct(lx, start, s.blocks);
    var cs := Outcome(lx, s).value.components;
    forall i, j | 0 <= i < j < |cs| ensures cs[i].id != cs[j].id {
      assert cs[i].id == d.components[i].id && cs[j].id == d.components[j].id;
    }
  }

  ghost predicate Resolves(guards: map<string, string>, raw: A.RawComponent, c: ComponentDecl) {
    && c.id == raw.id && c.params == raw.params && c.ports == raw.ports && c.signals == raw.signals
    && A.ResolveReactions(guards, raw.reactions) == Success(c.reactions)
  }

  lemma OneUnitCompiles(lx: G.Lexicon, names: set<string>, json: JsonReader, s: Script, b: Block)
    requires Legible(lx, names, s.blocks) && DistinctDefinitions(s.blocks) && Outcome(lx, s).Success?
    requires EmitComponents(json, Outcome(lx, s).value.components, map[]).Success? && b in s.blocks && b.Unit?
    ensures var out := EmitComponents(json, Outcome(lx, s).value.components, map[]).value;
            b.id in out && UnitAsWritten(json, s.blocks, b, out[b.id])
  {
    hide DraftOf, A.GuardMap, GuardOf, A.ResolveReactions, EmitComponents, EmitReactions, Legible, DistinctDefinitions,
      UnitAsWritten, RawUnit, Li.Named, Signals, Lowered, Outcome;
    var raws, cs := DraftOf(lx, s).components, Outcome(lx, s).value.components;
    ResolvedUnits(lx, s);
    GuardsAreDeclared(lx, s);
    assert RawUnit(b.id, b.params, b.members) in raws;
    var k :| 0 <= k < |raws| && raws[k] == RawUnit(b.id, b.params, b.members);
    assert Resolves(A.GuardMap(DraftOf(lx, s).guards), raws[k], cs[k]);
    RawUnitHas(b);
    NamedIsOne(cs, cs[k]);
    Li.ComponentsEmitted(json, cs, b.id);
    UnitCompiles(lx, names, json, A.GuardMap(DraftOf(lx, s).guards), s.blocks, b, cs[k],
                 EmitComponents(json, cs, map[]).value[b.id]);
  }

  lemma OnlyUnitsCompile(lx: G.Lexicon, json: JsonReader, s: Script, name: string)
    requires DistinctDefinitions(s.blocks) && Outcome(lx, s).Success?
    requires EmitComponents(json, Outcome(lx, s).value.components, map[]).Success?
    requires name in EmitComponents(json, Outcome(lx, s).value.components, map[]).value
    ensures exists b :: b in s.blocks && b.Unit? && b.id == name
  {
    hide DraftOf, A.GuardMap, A.ResolveReactions, EmitComponents, EmitReactions, DistinctDefinitions, RawUnit, Li.Named,
      Signals, Lowered, Outcome;
    var raws, cs := DraftOf(lx, s).components, Outcome(lx, s).value.components;
    ResolvedUnits(lx, s);
    Li.ComponentsEmitted(json, cs, name);
    NamedIsThere(cs, name);
    var k :| 0 <= k < |cs| && cs[k] == Li.Named(cs, name).value;
    assert Resolves(A.GuardMap(DraftOf(lx, s).guards), raws[k], cs[k]) && raws[k] in raws;
    var b :| b in s.blocks && b.Unit? && raws[k] == RawUnit(b.id, b.params, b.members);
    RawUnitHas(b);
  }

  /** Emitting the document that a script means gives what the script is written with. */
  lemma EmittedAsWritten(lx: G.Lexicon, names: set<string>, json: JsonReader, s: Script)
    requires Legible(lx, names, s.blocks) && DistinctDefinitions(s.blocks) && Outcome(lx, s).Success?
    requires EmitDoc(json, Outcome(lx, s).value).Success?
    ensures AsWritten(json, s, EmitDoc(json, Outcome(lx, s).value).value)
  {
    hide A.GuardMap, GuardOf, SheetDecls, A.ResolveReactions, A.ResolveComponents, EmitComponents, EmitReactions,
      Legible,
      DistinctDefinitions, UnitAsWritten, Signals, Lowered, Outcome, OfSheets, RulesIn, ReactionsAsWritten,
      SignalsAsWritten, CopiesAsWritten, CopiesOf, RawsOf;
    var doc := Outcome(lx, s).value;
    var schema := EmitDoc(json, doc).value;
    OutcomeSignals(lx, s);
    SheetsGiveSignals(s.signals);
    SheetsLower(s.signals);
    OutcomeParts(lx, s);
    GuardsAreDeclared(lx, s);
    RulesCompile(lx, names, json, A.GuardMap(DraftOf(lx, s).guards), s.blocks, RulesIn(s.blocks, 0), doc.reactions,
                 schema.reactions);
    OutcomeCopies(lx, s);
    CopiesMean(s.blocks);
    forall b | b in s.blocks && b.Unit?
      ensures b.id in Cm.Components(schema) && UnitAsWritten(json, s.blocks, b, Cm.Components(schema)[b.id])
    {
      OneUnitCompiles(lx, names, json, s, b);
    }
    forall name | name in Cm.Components(schema) ensures exists b :: b in s.blocks && b.Unit? && b.id == name {
      OnlyUnitsCompile(lx, json, s, name);
    }
  }

  // ---- The main result -----------------------------------------------------------------

  lemma SpellableParts(names: set<string>, a: Marks, b: Marks)
    requires AllSpellable(names, a + b)
    ensures AllSpellable(names, a) && AllSpellable(names, b)
  {
    hide Spellable;
    assert forall i :: 0 <= i < |a| ==> (a + b)[i] == a[i];
    assert forall i :: 0 <= i < |b| ==> (a + b)[|a| + i] == b[i];
  }

  lemma NotedSpellable(names: set<string>, kinds: seq<Kind>, text: string, trimmed: bool)
    requires AllSpellable(names, Noted(kinds, text, trimmed))
    ensures forall k :: k in kinds ==> Spellable(names, k)
  {
    hide Spellable;
    var marks := Noted(kinds, text, trimmed);
    forall k | k in kinds ensures Spellable(names, k) {
      var i :| 0 <= i < |kinds| && kinds[i] == k;
      assert marks[i].kind == k;
    }
  }

  lemma DefineSpellable(names: set<string>, b: Block)
    requires b.Define? && AllSpellable(names, PrintBlock(b))
    ensures forall k :: k in b.body.kinds ==> Spellable(names, k)
  {
    hide Spellable, Noted;
    SpellableParts(names, [J(KGuard), J(KIdentifier(b.id))], PrintBraced(b.body));
    NotedSpellable(names, [KLBrace] + b.body.kinds + [KRBrace], b.body.text, false);
  }

  lemma {:induction false} DefinesSpellable(names: set<string>, bs: seq<Block>)
    requires AllSpellable(names, PrintBlocks(bs))
    ensures forall b, k :: b in bs && b.Define? && k in b.body.kinds ==> Spellable(names, k)
  {
    hide AllSpellable, PrintBlock, Spellable;
    if bs != [] {
      SpellableParts(names, PrintBlock(bs[0]), PrintBlocks(bs[1..]));
      if bs[0].Define? {
        DefineSpellable(names, bs[0]);
      }
      DefinesSpellable(names, bs[1..]);
      assert bs == [bs[0]] + bs[1..];
    }
  }

  lemma ScriptIsLegible(lx: G.Lexicon, names: set<string>, s: Script)
    requires SpellSane(lx) && Proper(lx, names) && AllSpellable(names, Body(s)) && SpokenScript(s)
    ensures Legible(lx, names, s.blocks)
  {
    hide SpellSane, Proper, AllSpellable, Spellable, PrintSheets, PrintBlocks, SpokenBraced;
    SpellableParts(names, PrintSheets(s.signals), PrintBlocks(s.blocks));
    DefinesSpellable(names, s.blocks);
    forall b | b in s.blocks && b.Define? ensures SpokenBraced(b.body) {
      assert SpokenBlock(b);
    }
  }

  /**
   The main result. Whatever the text of a script compiles to is expanded from a schema that
   holds exactly what was written: signals with their states; for each clause its transitions
   with event, target, guard text and actions; for each rule its reaction with guard, payload,
   group and compensation; components and instances likewise. Without instances it is that schema.
   */
  lemma WrittenMeans(lx: G.Lexicon, json: JsonReader, names: set<string>, s: Script)
    requires SpellSane(lx) && Proper(lx, names) && AllSpellable(names, Body(s)) && SpokenScript(s)
    requires GoodScript(s) && ScriptFits(s)
    ensures var compiled := C.Compiled(A.Source(lx, TextOf(s)), json);
            compiled.Success? ==>
              exists schema :: AsWritten(json, s, schema) && Cm.Expanded(schema) == Success(compiled.value)
                               && ((forall b :: b in s.blocks ==> !b.Copy?) ==> compiled.value == schema)
  {
    hide SpellSane, Proper, AllSpellable, SpokenScript, ScriptFits, TextOf, Body, Outcome, EmitDoc, AsWritten, Legible;
    var compiled := C.Compiled(A.Source(lx, TextOf(s)), json);
    if compiled.Success? {
      WrittenCompiles(lx, json, names, s);
      ScriptIsLegible(lx, names, s);
      EmittedAsWritten(lx, names, json, s);
      NothingToExpand(json, s, EmitDoc(json, Outcome(lx, s).value).value);
    }
  }

  lemma NothingToExpand(json: JsonReader, s: Script, schema: TopologySchema)
    requires AsWritten(json, s, schema)
    ensures (forall b :: b in s.blocks ==> !b.Copy?) ==> Cm.Expanded(schema) == Success(schema)
  {
    hide ReactionsAsWritten, SignalsAsWritten, UnitAsWritten, Cm.ExpandInstances;
    NoCopiesAmong(s.blocks);
  }

  lemma {:induction false} NoCopiesAmong(bs: seq<Block>)
    ensures (forall b :: b in bs ==> !b.Copy?) ==> CopiesAmong(bs) == []
  {
    if bs != [] {
      assert bs == [bs[0]] + bs[1..];
      NoCopiesAmong(bs[1..]);
    }
  }
}
