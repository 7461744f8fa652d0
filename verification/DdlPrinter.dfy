/**
 Reading scripts back. Where every guard is closed, the parser returns exactly what the script
 means; `DdlUnclosed` says what it returns elsewhere.
 */
module DdlPrinter {
  import opened Wrappers
  import opened Schema
  import opened DdlSyntax
  import opened DdlGrammar
  import opened DdlScript
  import opened DdlCompile
  import G = GuardLexer

  // ---- Tokens that show a print --------------------------------------------------------

  /** The first tokens have the text that the note says. */
  predicate Holds(src: Source, ts: seq<Token>, n: Note) {
    0 < n.length <= |ts| &&
    var text := Verbatim(src, ts[0], ts[n.length - 1]);
    n.text == if n.trimmed then Trim(src.lx, text) else text
  }

  /** The tokens have these kinds and show these texts, wherever they stand, and then come to `rest`. */
  predicate Leads(src: Source, ts: seq<Token>, marks: Marks, rest: seq<Token>) {
    && |ts| == |marks| + |rest| && ts[|marks|..] == rest
    && (forall i :: 0 <= i < |marks| ==> ts[i].kind == marks[i].kind)
    && (forall i :: 0 <= i < |marks| && marks[i].note.Some? ==> Holds(src, ts[i..], marks[i].note.value))
  }

  lemma Parts(src: Source, ts: seq<Token>, a: Marks, b: Marks, rest: seq<Token>) returns (mid: seq<Token>)
    requires Leads(src, ts, a + b, rest)
    ensures mid == ts[|a|..] && Leads(src, ts, a, mid) && Leads(src, mid, b, rest)
  {
    hide Holds;
    mid := ts[|a|..];
    forall i | 0 <= i < |a|
      ensures ts[i].kind == a[i].kind && (a[i].note.Some? ==> Holds(src, ts[i..], a[i].note.value))
    {
      assert (a + b)[i] == a[i];
    }
    forall i | 0 <= i < |b|
      ensures mid[i].kind == b[i].kind && (b[i].note.Some? ==> Holds(src, mid[i..], b[i].note.value))
    {
      assert (a + b)[|a| + i] == b[i] && ts[|a| + i..] == mid[i..];
    }
  }

  lemma Begins(src: Source, ts: seq<Token>, marks: Marks, rest: seq<Token>)
    requires Leads(src, ts, marks, rest)
    ensures Kind1(ts) == if marks == [] then Kind1(rest) else marks[0].kind
  {}

  lemma Nothing(src: Source, ts: seq<Token>, rest: seq<Token>)
    requires Leads(src, ts, [], rest)
    ensures ts == rest
  {}

  lemma One(src: Source, ts: seq<Token>, a: Kind, b: Marks, rest: seq<Token>)
    requires Leads(src, ts, [J(a)] + b, rest)
    ensures Kind1(ts) == a && Leads(src, Next(ts), b, rest)
  {
    hide Holds;
    assert ([J(a)] + b)[0] == J(a);
    var mid := Parts(src, ts, [J(a)], b, rest);
  }

  lemma Last(src: Source, ts: seq<Token>, a: Kind, rest: seq<Token>)
    requires Leads(src, ts, [J(a)], rest)
    ensures Kind1(ts) == a && Next(ts) == rest
  {
    assert [J(a)][0] == J(a);
  }

  lemma Two(src: Source, ts: seq<Token>, a: Kind, b: Kind, c: Marks, rest: seq<Token>)
    requires Leads(src, ts, [J(a), J(b)] + c, rest)
    ensures Kind1(ts) == a && Kind1(Next(ts)) == b && Leads(src, Next(Next(ts)), c, rest)
  {
    hide Leads;
    assert [J(a), J(b)] + c == [J(a)] + ([J(b)] + c);
    One(src, ts, a, [J(b)] + c, rest);
    One(src, Next(ts), b, c, rest);
  }

  lemma Three(src: Source, ts: seq<Token>, a: Kind, b: Kind, c: Kind, d: Marks, rest: seq<Token>)
    requires Leads(src, ts, [J(a), J(b), J(c)] + d, rest)
    ensures Kind1(ts) == a && Kind1(Next(ts)) == b && Kind1(Next(Next(ts))) == c
            && Leads(src, Next(Next(Next(ts))), d, rest)
  {
    hide Leads;
    assert [J(a), J(b), J(c)] + d == [J(a)] + ([J(b), J(c)] + d);
    One(src, ts, a, [J(b), J(c)] + d, rest);
    Two(src, Next(ts), b, c, d, rest);
  }

  // ---- Lists and actions ---------------------------------------------------------------

  lemma {:induction false} MoreReads(src: Source, close: Option<Kind>, names: seq<string>, ts: seq<Token>,
                                     rest: seq<Token>)
    requires Leads(src, ts, PrintMore(names), rest) && Kind1(rest) != KComma
    requires close == None || close == Some(KRBracket)
    ensures MoreNames(close, ts) == Success((names, rest))
    decreases |names|
  {
    hide Leads, Next, Peek;
    if names == [] {
      Nothing(src, ts, rest);
    } else {
      Two(src, ts, KComma, KIdentifier(names[0]), PrintMore(names[1..]), rest);
      MoreReads(src, close, names[1..], Next(Next(ts)), rest);
      assert [names[0]] + names[1..] == names;
    }
  }

  lemma StatesRead(src: Source, states: seq<string>, ts: seq<Token>, rest: seq<Token>)
    requires Leads(src, ts, PrintStates(states), rest)
    ensures StateList(ts) == Success((states, rest))
  {
    hide Leads, Next, Peek, PrintMore, MoreNames;
    if states == [] {
      assert PrintStates(states) == [J(KLBracket)] + [J(KRBracket)];
      One(src, ts, KLBracket, [J(KRBracket)], rest);
      Last(src, Next(ts), KRBracket, rest);
    } else {
      var more := PrintMore(states[1..]);
      assert PrintStates(states) == [J(KLBracket), J(KIdentifier(states[0]))] + (more + [J(KRBracket)]);
      Two(src, ts, KLBracket, KIdentifier(states[0]), more + [J(KRBracket)], rest);
      var mid := Parts(src, Next(Next(ts)), more, [J(KRBracket)], rest);
      Last(src, mid, KRBracket, rest);
      MoreReads(src, Some(KRBracket), states[1..], Next(Next(ts)), mid);
      assert [states[0]] + states[1..] == states;
    }
  }

  lemma IdsRead(src: Source, ids: seq<string>, ts: seq<Token>, rest: seq<Token>)
    requires ids != [] && Leads(src, ts, [J(KColon), J(KIdentifier(ids[0]))] + PrintMore(ids[1..]), rest)
             && Kind1(rest) != KComma
    ensures HookIds(ts) == Success((ids, rest))
  {
    hide Leads, Next, Peek, PrintMore, MoreNames;
    Two(src, ts, KColon, KIdentifier(ids[0]), PrintMore(ids[1..]), rest);
    MoreReads(src, None, ids[1..], Next(Next(ts)), rest);
    assert [ids[0]] + ids[1..] == ids;
  }

  /** A hook not set yet is read, and then the hooks after it. */
  lemma HookReads(src: Source, hook: Kind, ids: seq<string>, a: ActionBinding, ts: seq<Token>, rest: seq<Token>)
    requires IsHook(hook) && HookOf(a, hook) == []
    requires Leads(src, ts, PrintHook(hook, ids), rest) && Kind1(rest) != KComma
    ensures Hooks(a, ts) == Hooks(SetHook(a, hook, ids), rest)
  {
    hide Leads, Next, Peek, PrintMore, HookIds;
    if ids == [] {
      Nothing(src, ts, rest);
      assert SetHook(a, hook, ids) == a;
    } else {
      var kinds := [J(KColon), J(KIdentifier(ids[0]))] + PrintMore(ids[1..]);
      assert PrintHook(hook, ids) == [J(hook)] + kinds;
      One(src, ts, hook, kinds, rest);
      IdsRead(src, ids, Next(ts), rest);
    }
  }

  lemma HookBegins(src: Source, hook: Kind, ids: seq<string>, ts: seq<Token>, rest: seq<Token>)
    requires IsHook(hook) && Leads(src, ts, PrintHook(hook, ids), rest) && Kind1(rest) != KComma
    ensures Kind1(ts) != KComma
  {
    Begins(src, ts, PrintHook(hook, ids), rest);
  }

  lemma HooksRead(src: Source, a: ActionBinding, ts: seq<Token>, rest: seq<Token>)
    requires Leads(src, ts, PrintHooks(a), rest) && Kind1(rest) == KRBrace
    ensures Hooks(NO_ACTIONS, ts) == Success((a, rest))
  {
    hide Leads, Hooks, PrintHook, Peek;
    var ts2 := Parts(src, ts, PrintHook(KOnExit, a.onExit) + PrintHook(KOnTransition, a.onTransition),
                     PrintHook(KOnEnter, a.onEnter), rest);
    var ts1 := Parts(src, ts, PrintHook(KOnExit, a.onExit), PrintHook(KOnTransition, a.onTransition), ts2);
    HookBegins(src, KOnEnter, a.onEnter, ts2, rest);
    HookBegins(src, KOnTransition, a.onTransition, ts1, ts2);
    HookReads(src, KOnExit, a.onExit, NO_ACTIONS, ts, ts1);
    HookReads(src, KOnTransition, a.onTransition, ActionBinding(a.onExit, [], []), ts1, ts2);
    HookReads(src, KOnEnter, a.onEnter, ActionBinding(a.onExit, a.onTransition, []), ts2, rest);
    HooksEnd(a, rest);
  }

  lemma HooksEnd(a: ActionBinding, ts: seq<Token>)
    requires Kind1(ts) == KRBrace
    ensures Hooks(a, ts) == Success((a, ts))
  {}

  lemma ActionsRead(src: Source, block: Option<ActionBinding>, ts: seq<Token>, rest: seq<Token>)
    requires Leads(src, ts, PrintActions(block), rest) && (block.None? ==> Kind1(rest) != KLBrace)
    ensures ActionBlock(ts) == Success((if block.Some? then block.value else NO_ACTIONS, rest))
  {
    hide Leads, Next, Peek, PrintHooks, Hooks;
    match block
    case None =>
      Nothing(src, ts, rest);
    case Some(a) =>
      One(src, ts, KLBrace, PrintHooks(a) + [J(KRBrace)], rest);
      var mid := Parts(src, Next(ts), PrintHooks(a), [J(KRBrace)], rest);
      Last(src, mid, KRBrace, rest);
      HooksRead(src, a, Next(ts), mid);
  }

  // ---- Texts taken verbatim ------------------------------------------------------------

  /**
   Where a guard ends: tokens that do not end it are all of the guard exactly when the token
   after them does.
   */
  lemma {:induction false} GuardLengthIs(ts: seq<Token>, n: nat)
    requires n <= |ts| && forall i :: 0 <= i < n ==> !EndsGuard(ts[i].kind)
    ensures GuardLength(ts) >= n && (GuardLength(ts) == n <==> EndsGuard(Kind1(ts[n..])))
  {
    hide EndsGuard;
    if n > 0 {
      GuardLengthIs(ts[1..], n - 1);
      assert ts[1..][n - 1..] == ts[n..];
    }
  }

  lemma NotedShows(src: Source, ts: seq<Token>, kinds: seq<Kind>, text: string, trimmed: bool, rest: seq<Token>)
    requires Leads(src, ts, Noted(kinds, text, trimmed), rest) && kinds != []
    ensures |ts| == |kinds| + |rest| && ts[|kinds|..] == rest
            && (forall i :: 0 <= i < |kinds| ==> ts[i].kind == kinds[i])
    ensures Holds(src, ts, Note(|kinds|, text, trimmed))
  {
    hide Holds;
    var marks := Noted(kinds, text, trimmed);
    assert marks[0] == Mark(kinds[0], Some(Note(|kinds|, text, trimmed))) && ts[0..] == ts;
    forall i | 0 <= i < |kinds| ensures ts[i].kind == kinds[i] {
      assert i > 0 ==> marks[i] == J(kinds[i]);
    }
  }

  lemma GuardReads(src: Source, g: Phrase, ts: seq<Token>, rest: seq<Token>)
    requires Sayable(g) && Leads(src, ts, PrintGuard(Some(g)), rest) && EndsGuard(Kind1(rest))
    ensures Kind1(ts) == KWhen
    ensures GuardText(src, ts) == Success(((g.text, |g.kinds| == 1 && g.kinds[0].KIdentifier?), rest))
  {
    hide Leads, Verbatim, Trim, Noted, EndsGuard;
    One(src, ts, KWhen, Noted(g.kinds, g.text, true), rest);
    var ts1 := Next(ts);
    NotedShows(src, ts1, g.kinds, g.text, true, rest);
    GuardLengthIs(ts1, |g.kinds|);
  }

  lemma {:induction false} CloseReads(ts: seq<Token>, kinds: seq<Kind>, depth: nat)
    requires |ts| > |kinds| && (forall i :: 0 <= i < |kinds| ==> ts[i].kind == kinds[i]) && ts[|kinds|].kind == KRBrace
    requires Balanced(kinds, depth)
    ensures depth > 0 && CloseBrace(ts, depth) == Some((ts[|kinds|], ts[|kinds| + 1..]))
    decreases |kinds|
  {
    if kinds != [] {
      assert ts[0].kind == kinds[0];
      var inner := if kinds[0] == KLBrace then depth + 1 else if kinds[0] == KRBrace then depth - 1 else depth;
      CloseReads(ts[1..], kinds[1..], inner);
      assert ts[1..][|kinds| - 1] == ts[|kinds|] && ts[1..][|kinds| - 1 + 1..] == ts[|kinds| + 1..];
    }
  }

  lemma BracedReads(src: Source, p: Phrase, ts: seq<Token>, rest: seq<Token>)
    requires Balanced(p.kinds, 1) && Leads(src, ts, PrintBraced(p), rest)
    ensures BraceBlock(src, ts) == Success((p.text, rest))
  {
    hide Leads, Verbatim, Noted, Balanced, CloseBrace;
    var kinds, n := [KLBrace] + p.kinds + [KRBrace], |p.kinds|;
    NotedShows(src, ts, kinds, p.text, false, rest);
    assert ts[0].kind == kinds[0] && ts[n + 1].kind == kinds[n + 1];
    InnerCloses(ts, p.kinds);
    assert ts[|kinds| - 1] == ts[n + 1] && ts[|kinds|..] == ts[n + 2..];
  }

  /** The brace that closes a block is the one printed for it. */
  lemma InnerCloses(ts: seq<Token>, inner: seq<Kind>)
    requires Balanced(inner, 1) && |ts| >= |inner| + 2 && ts[|inner| + 1].kind == KRBrace
    requires forall i :: 0 <= i < |inner| + 2 ==> ts[i].kind == ([KLBrace] + inner + [KRBrace])[i]
    ensures CloseBrace(ts[1..], 1) == Some((ts[|inner| + 1], ts[|inner| + 2..]))
  {
    hide Balanced, CloseBrace;
    var ts1, n := ts[1..], |inner|;
    forall i | 0 <= i < n ensures ts1[i].kind == inner[i] {
      assert ts[i + 1].kind == ([KLBrace] + inner + [KRBrace])[i + 1];
    }
    CloseReads(ts1, inner, 1);
    assert ts1[n] == ts[n + 1] && ts1[n + 1..] == ts[n + 2..];
  }

  // ---- Signals -------------------------------------------------------------------------

  lemma EventReads(src: Source, c: Clause, ts: seq<Token>, more: Marks, rest: seq<Token>) returns (mid: seq<Token>)
    requires Leads(src, ts, [J(KOn), J(KIdentifier(c.event)), J(KFrom)] + more, rest)
    ensures TransitionHead(ts) == Success((c.event, mid)) && Leads(src, mid, more, rest)
  {
    hide Leads, Next, Peek;
    Three(src, ts, KOn, KIdentifier(c.event), KFrom, more, rest);
    mid := Next(Next(Next(ts)));
  }

  lemma MoveReads(src: Source, id: string, states: seq<string>, c: Clause, ts: seq<Token>, more: Marks,
                  rest: seq<Token>)
    returns (mid: seq<Token>, end: seq<Token>)
    requires Within(ClauseDecl(c), states) && Leads(src, ts, PrintMove(c) + more, rest)
    ensures FromState(id, states, ts) == Success((c.from, mid)) && ToState(id, states, mid) == Success((c.to, end))
    ensures Leads(src, end, more, rest)
  {
    hide Leads, Next, Peek;
    Three(src, ts, if c.from == WILDCARD then KMul else KIdentifier(c.from), KArrow, KIdentifier(c.to), more, rest);
    mid, end := Next(ts), Next(Next(Next(ts)));
  }

  /** What may follow a transition for it to end there. */
  predicate EndsClause(c: Clause, rest: seq<Token>) {
    c.block.None? ==> Kind1(rest) != KLBrace && if c.guard.Some? then EndsGuard(Kind1(rest)) else Kind1(rest) != KWhen
  }

  lemma ClauseReads(src: Source, id: string, states: seq<string>, c: Clause, ts: seq<Token>, rest: seq<Token>)
    requires GoodClause(c) && Within(ClauseDecl(c), states)
    requires Leads(src, ts, PrintClause(c), rest) && EndsClause(c, rest)
    ensures Transition(src, id, states, ts) == Success((ClauseDecl(c), rest))
  {
    hide Leads, Peek, PrintActions, PrintGuard, PrintMove, ActionBlock, TransitionHead, FromState, ToState, GuardIfAny;
    var tail := PrintGuard(c.guard) + PrintActions(c.block);
    assert PrintClause(c) == [J(KOn), J(KIdentifier(c.event)), J(KFrom)] + (PrintMove(c) + tail);
    var ts1 := EventReads(src, c, ts, PrintMove(c) + tail, rest);
    var ts2, ts3 := MoveReads(src, id, states, c, ts1, tail, rest);
    var ts4 := Parts(src, ts3, PrintGuard(c.guard), PrintActions(c.block), rest);
    ActionsBegin(src, c, ts4, rest);
    ActionsRead(src, c.block, ts4, rest);
    GuardIfAnyReads(src, c, ts3, ts4);
  }

  lemma ActionsBegin(src: Source, c: Clause, ts: seq<Token>, rest: seq<Token>)
    requires Leads(src, ts, PrintActions(c.block), rest) && EndsClause(c, rest)
    ensures if c.guard.Some? then EndsGuard(Kind1(ts)) else Kind1(ts) != KWhen
  {
    Begins(src, ts, PrintActions(c.block), rest);
  }

  lemma GuardIfAnyReads(src: Source, c: Clause, ts: seq<Token>, rest: seq<Token>)
    requires GoodClause(c) && Leads(src, ts, PrintGuard(c.guard), rest)
    requires if c.guard.Some? then EndsGuard(Kind1(rest)) else Kind1(rest) != KWhen
    ensures GuardIfAny(src, ts) == Success((TextIfAny(c.guard), rest))
  {
    hide Leads, Peek, GuardText, EndsGuard, Sayable;
    if c.guard.None? {
      Nothing(src, ts, rest);
    } else {
      GuardReads(src, c.guard.value, ts, rest);
    }
  }

  lemma ClausesBegin(src: Source, cs: seq<Clause>, ts: seq<Token>, rest: seq<Token>)
    requires Leads(src, ts, PrintClauses(cs), rest)
    ensures Kind1(ts) == if cs == [] then Kind1(rest) else KOn
  {
    Begins(src, ts, PrintClauses(cs), rest);
  }

  lemma {:induction false} ClausesRead(src: Source, id: string, states: seq<string>, cs: seq<Clause>, ts: seq<Token>,
                                       rest: seq<Token>)
    requires forall c :: c in cs ==> GoodClause(c) && Within(ClauseDecl(c), states)
    requires Closed(cs) && Leads(src, ts, PrintClauses(cs), rest) && Kind1(rest) == KRBrace
    ensures Transitions(src, id, states, ts) == Success((ClauseDecls(cs), rest))
    decreases |cs|
  {
    hide Leads, Transition, PrintClause, Peek, Within, GoodClause, ClauseDecl;
    ClausesBegin(src, cs, ts, rest);
    if cs == [] {
      Nothing(src, ts, rest);
    } else {
      var mid := Parts(src, ts, PrintClause(cs[0]), PrintClauses(cs[1..]), rest);
      ClausesBegin(src, cs[1..], mid, rest);
      assert cs == [cs[0]] + cs[1..];
      assert !OpenClause(cs[0]) || cs[1..] == [];
      ClauseReads(src, id, states, cs[0], ts, mid);
      ClausesRead(src, id, states, cs[1..], mid, rest);
    }
  }

  lemma StatesClauseReads(src: Source, states: seq<string>, ts: seq<Token>, rest: seq<Token>)
    requires Leads(src, ts, [J(KStates), J(KColon)] + PrintStates(states), rest)
    ensures StatesClause(ts) == Success((states, rest))
  {
    hide Leads, Next, Peek, PrintStates, StateList;
    Two(src, ts, KStates, KColon, PrintStates(states), rest);
    StatesRead(src, states, Next(Next(ts)), rest);
  }

  lemma SheetReads(src: Source, seen: set<string>, d: Sheet, ts: seq<Token>, rest: seq<Token>)
    requires GoodSheet(d) && Closed(d.clauses) && DeclFits(SheetDecl(d)) && d.id !in seen
    requires Leads(src, ts, PrintSheet(d), rest)
    ensures Signal(src, seen, ts) == Success((SheetDecl(d), rest))
  {
    hide Leads, Next, Peek, PrintStates, PrintClauses, StatesClause, Transitions, Closed, ClauseDecls;
    var states, body := [J(KStates), J(KColon)] + PrintStates(d.states), PrintClauses(d.clauses) + [J(KRBrace)];
    var initial := [J(KInitial), J(KColon), J(KIdentifier(d.initial))] + body;
    Three(src, ts, KSignal, KIdentifier(d.id), KLBrace, states + initial, rest);
    var ts1 := Next(Next(Next(ts)));
    var ts2 := Parts(src, ts1, states, initial, rest);
    Three(src, ts2, KInitial, KColon, KIdentifier(d.initial), body, rest);
    var ts3 := Next(Next(Next(ts2)));
    assert SignalHead(seen, ts) == Success((d.id, ts1));
    assert InitialClause(d.states, ts2) == Success((d.initial, ts3));
    hide SignalHead, InitialClause;
    StatesClauseReads(src, d.states, ts1, ts2);
    BodyReads(src, d, ts3, rest);
  }

  lemma BodyReads(src: Source, d: Sheet, ts: seq<Token>, rest: seq<Token>)
    requires GoodSheet(d) && Closed(d.clauses) && DeclFits(SheetDecl(d))
    requires Leads(src, ts, PrintClauses(d.clauses) + [J(KRBrace)], rest)
    ensures var r := Transitions(src, d.id, d.states, ts);
            r.Success? && r.value.0 == ClauseDecls(d.clauses) && Expect(KRBrace, r.value.1) == Success(rest)
  {
    hide Leads, Next, Peek, PrintClauses, Transitions, Closed, Within;
    var mid := Parts(src, ts, PrintClauses(d.clauses), [J(KRBrace)], rest);
    Last(src, mid, KRBrace, rest);
    forall c | c in d.clauses ensures Within(ClauseDecl(c), d.states) {
      var i :| 0 <= i < |d.clauses| && d.clauses[i] == c;
      assert ClauseDecls(d.clauses)[i] in ClauseDecls(d.clauses);
    }
    ClausesRead(src, d.id, d.states, d.clauses, ts, mid);
  }

  // ---- Reactions -----------------------------------------------------------------------

  /** A reaction in a block ends where the block does, or, unless its guard is open, where the next reaction starts. */
  predicate EndsRule(r: Rule, ts: seq<Token>) {
    Kind1(ts) == KRBrace || (AtReactionHead(ts) && !OpenRule(r))
  }

  lemma OnFailReads(src: Source, r: Rule, ts: seq<Token>, rest: seq<Token>)
    requires Leads(src, ts, PrintOnFail(r.onFail), rest) && EndsRule(r, rest)
    ensures OnFailIfAny(ts) == Success((r.onFail, rest))
    ensures Kind1(ts) != KLBrace && Kind1(ts) != KWith
    ensures r.onFail.Some? ==> Kind1(ts) == KOnFail
    ensures r.onFail.None? ==> ts == rest
  {
    hide Leads, Next, Peek;
    if r.onFail.None? {
      Nothing(src, ts, rest);
    } else {
      Three(src, ts, KOnFail, KColon, KIdentifier(r.onFail.value), [], rest);
      Nothing(src, Next(Next(Next(ts))), rest);
    }
  }

  lemma TailReads(src: Source, tail: Tail, ts: seq<Token>, rest: seq<Token>)
    requires Leads(src, ts, PrintTail(tail), rest) && (tail.Payload? ==> Balanced(tail.inner.kinds, 1))
    requires tail.Bare? ==> Kind1(rest) != KLBrace && Kind1(rest) != KWith
    ensures PayloadIfAny(src, ts) == Success((RawTail(tail), rest))
    ensures match tail case Bare => ts == rest case Blank => Kind1(ts) == KLBrace case Payload(_) => Kind1(ts) == KWith
  {
    hide Leads, Next, Peek, BraceBlock, PrintBraced;
    match tail
    case Bare =>
      Nothing(src, ts, rest);
    case Blank =>
      One(src, ts, KLBrace, [J(KRBrace)], rest);
      Last(src, Next(ts), KRBrace, rest);
    case Payload(inner) =>
      One(src, ts, KWith, PrintBraced(inner), rest);
      BracedReads(src, inner, Next(ts), rest);
  }

  /** What comes after a reaction's guard ends it, or, without a guard, does not start one. */
  predicate EndsRuleHead(r: Rule, ts: seq<Token>) {
    EndsGuard(Kind1(ts)) || (r.guard.None? && AtReactionHead(ts))
  }

  lemma RuleGuardReads(src: Source, r: Rule, ts: seq<Token>, rest: seq<Token>)
    requires GoodRule(r) && Leads(src, ts, PrintGuard(r.guard), rest) && EndsRuleHead(r, rest)
    ensures RawGuardIfAny(src, ts) == Success((RawGuardOf(r.guard), rest))
  {
    match r.guard
    case None =>
      Nothing(src, ts, rest);
      hide AtReactionHead;
    case Some(g) =>
      GuardReads(src, g, ts, rest);
      GuardIsNoHead(src, g, ts, rest);
      hide GuardText, AtReactionHead;
  }

  lemma GuardIsNoHead(src: Source, g: Phrase, ts: seq<Token>, rest: seq<Token>)
    requires SayableInRule(g) && Leads(src, ts, PrintGuard(Some(g)), rest) && EndsGuard(Kind1(rest))
    ensures !AtReactionHead(ts)
  {
    hide Leads, Noted, Peek;
    One(src, ts, KWhen, Noted(g.kinds, g.text, true), rest);
    var ts1 := Next(ts);
    NotedShows(src, ts1, g.kinds, g.text, true, rest);
    TwoAhead(ts1, g.kinds, rest);
  }

  lemma TwoAhead(ts: seq<Token>, kinds: seq<Kind>, rest: seq<Token>)
    requires kinds != [] && |ts| == |kinds| + |rest| && ts[|kinds|..] == rest
             && forall i :: 0 <= i < |kinds| ==> ts[i].kind == kinds[i]
    ensures Kind1(ts) == kinds[0] && Kind1(Next(ts)) == if |kinds| >= 2 then kinds[1] else Kind1(rest)
  {}

  lemma RuleReads(src: Source, r: Rule, ts: seq<Token>, rest: seq<Token>)
    requires GoodRule(r) && Leads(src, ts, PrintRule(r), rest) && EndsRule(r, rest)
    ensures ReactionBody(src, ts) == Success((Raw(r, None, []), rest)) && AtReactionHead(ts)
  {
    hide Leads, Next, Peek, PrintOnFail, PrintTail, PrintGuard, EndsRule, GoodRule, AtReactionHead;
    hide Trigger, Effect, RawGuardIfAny, PayloadIfAny, OnFailIfAny;
    var end := PrintGuard(r.guard) + (PrintTail(r.tail) + PrintOnFail(r.onFail));
    var to := [J(KArrow), J(KIdentifier(r.toSignal)), J(KIdentifier(r.event))] + end;
    assert PrintRule(r) == [J(KWhen)] + ([J(KIdentifier(r.fromSignal)), J(KEnters), J(KIdentifier(r.fromState))] + to);
    var ts1 := TriggerReads(src, r, ts, to, rest);
    var ts2 := EffectReads(src, r, ts1, end, rest);
    RuleEndReads(src, r, ts2, rest);
  }

  lemma TriggerReads(src: Source, r: Rule, ts: seq<Token>, more: Marks, rest: seq<Token>) returns (mid: seq<Token>)
    requires Leads(src, ts, [J(KWhen)]
                   + ([J(KIdentifier(r.fromSignal)), J(KEnters), J(KIdentifier(r.fromState))] + more), rest)
    ensures Kind1(ts) == KWhen && Trigger(Next(ts)) == Success(((r.fromSignal, r.fromState), mid))
    ensures Leads(src, mid, more, rest) && AtReactionHead(ts)
  {
    hide Leads, Next, Peek;
    One(src, ts, KWhen, [J(KIdentifier(r.fromSignal)), J(KEnters), J(KIdentifier(r.fromState))] + more, rest);
    Three(src, Next(ts), KIdentifier(r.fromSignal), KEnters, KIdentifier(r.fromState), more, rest);
    mid := Next(Next(Next(Next(ts))));
  }

  lemma EffectReads(src: Source, r: Rule, ts: seq<Token>, more: Marks, rest: seq<Token>) returns (mid: seq<Token>)
    requires Leads(src, ts, [J(KArrow), J(KIdentifier(r.toSignal)), J(KIdentifier(r.event))] + more, rest)
    ensures Effect(ts) == Success(((r.toSignal, r.event), mid)) && Leads(src, mid, more, rest)
  {
    hide Leads, Next, Peek;
    Three(src, ts, KArrow, KIdentifier(r.toSignal), KIdentifier(r.event), more, rest);
    mid := Next(Next(Next(ts)));
  }

  lemma RuleEndReads(src: Source, r: Rule, ts: seq<Token>, rest: seq<Token>)
    requires GoodRule(r) && EndsRule(r, rest)
    requires Leads(src, ts, PrintGuard(r.guard) + (PrintTail(r.tail) + PrintOnFail(r.onFail)), rest)
    ensures var guard := RawGuardIfAny(src, ts);
            guard.Success? && guard.value.0 == RawGuardOf(r.guard)
            && var payload := PayloadIfAny(src, guard.value.1);
               payload.Success? && payload.value.0 == RawTail(r.tail)
                 && OnFailIfAny(payload.value.1) == Success((r.onFail, rest))
  {
    hide Leads, Peek, Next, PrintOnFail, PrintTail, PrintGuard, RawGuardIfAny, PayloadIfAny, OnFailIfAny;
    var ts1 := Parts(src, ts, PrintGuard(r.guard), PrintTail(r.tail) + PrintOnFail(r.onFail), rest);
    var ts2 := Parts(src, ts1, PrintTail(r.tail), PrintOnFail(r.onFail), rest);
    OnFailReads(src, r, ts2, rest);
    TailReads(src, r.tail, ts1, ts2);
    RuleGuardReads(src, r, ts, ts1);
  }

  /** Reactions listed in a block are told apart, though each starts with `when` as a guard does. */
  lemma {:induction false} RulesRead(src: Source, group: Option<string>, needs: seq<string>, rs: seq<Rule>,
                                     ts: seq<Token>, rest: seq<Token>)
    requires (forall r :: r in rs ==> GoodRule(r)) && ClosedRules(rs)
    requires Leads(src, ts, PrintRules(rs), rest) && Kind1(rest) == KRBrace
    ensures Bodies(src, group, needs, ts) == Success((RawAll(rs, group, needs), rest))
    ensures if rs == [] then ts == rest else AtReactionHead(ts)
    decreases |rs|
  {
    hide Leads, Peek, PrintRule, ReactionBody, Next, GoodRule, OpenRule;
    if rs == [] {
      Nothing(src, ts, rest);
    } else {
      var mid := Parts(src, ts, PrintRule(rs[0]), PrintRules(rs[1..]), rest);
      RulesRead(src, group, needs, rs[1..], mid, rest);
      assert !OpenRule(rs[0]) || rs[1..] == [];
      RuleReads(src, rs[0], ts, mid);
    }
  }

  lemma SingleReads(src: Source, r: Rule, ts: seq<Token>, rest: seq<Token>)
    requires GoodRule(r) && Leads(src, ts, PrintSingle(r), rest)
    ensures Kind1(ts) == KReaction && Reaction(src, ts) == Success((Raw(r, None, []), rest))
  {
    hide Leads, Next, Peek, PrintRule, ReactionBody, GoodRule;
    Two(src, ts, KReaction, KLBrace, PrintRule(r) + [J(KRBrace)], rest);
    var mid := Parts(src, Next(Next(ts)), PrintRule(r), [J(KRBrace)], rest);
    Last(src, mid, KRBrace, rest);
    RuleReads(src, r, Next(Next(ts)), mid);
  }

  lemma RulesBlockReads(src: Source, group: Option<string>, needs: seq<string>, rs: seq<Rule>, ts: seq<Token>,
                        rest: seq<Token>)
    requires (forall r :: r in rs ==> GoodRule(r)) && ClosedRules(rs)
    requires Leads(src, ts, PrintRules(rs) + [J(KRBrace)], rest)
    ensures var r := Bodies(src, group, needs, ts);
            r.Success? && r.value.0 == RawAll(rs, group, needs) && Expect(KRBrace, r.value.1) == Success(rest)
  {
    hide Leads, Next, Peek, PrintRules, Bodies, RawAll, GoodRule, ClosedRules;
    var mid := Parts(src, ts, PrintRules(rs), [J(KRBrace)], rest);
    Last(src, mid, KRBrace, rest);
    RulesRead(src, group, needs, rs, ts, mid);
  }

  lemma ForkReads(src: Source, rs: seq<Rule>, forks: nat, ts: seq<Token>, rest: seq<Token>)
    requires (forall r :: r in rs ==> GoodRule(r)) && ClosedRules(rs) && Leads(src, ts, PrintBlock(ForkOf(rs)), rest)
    ensures Kind1(ts) == KFork && ForkBlock(src, forks, ts) == Success((RawAll(rs, Some(ForkName(forks)), []), rest))
  {
    hide Leads, Next, Peek, PrintRules, Bodies, ForkName, RawAll, GoodRule, ClosedRules;
    Two(src, ts, KFork, KLBrace, PrintRules(rs) + [J(KRBrace)], rest);
    RulesBlockReads(src, Some(ForkName(forks)), [], rs, Next(Next(ts)), rest);
  }

  lemma JoinReads(src: Source, group: string, rs: seq<Rule>, ts: seq<Token>, rest: seq<Token>)
    requires (forall r :: r in rs ==> GoodRule(r)) && ClosedRules(rs)
             && Leads(src, ts, PrintBlock(JoinOn(group, rs)), rest)
    ensures Kind1(ts) == KJoin && JoinBlock(src, ts) == Success(((group, RawAll(rs, None, [group])), rest))
  {
    hide Leads, Next, Peek, PrintRules, Bodies, RawAll, GoodRule, ClosedRules;
    Three(src, ts, KJoin, KIdentifier(group), KLBrace, PrintRules(rs) + [J(KRBrace)], rest);
    RulesBlockReads(src, None, [group], rs, Next(Next(Next(ts))), rest);
  }

  lemma DefineReads(src: Source, seen: set<string>, id: string, body: Phrase, ts: seq<Token>, rest: seq<Token>)
    requires Balanced(body.kinds, 1) && id !in seen && Leads(src, ts, PrintBlock(Define(id, body)), rest)
    ensures Kind1(ts) == KGuard && Guard(src, seen, ts)
            == Success((GuardDecl(id, Trim(src.lx, Unbrace(body.text))), rest))
  {
    hide Leads, Next, Peek, PrintBraced, BraceBlock, Trim, Unbrace;
    Two(src, ts, KGuard, KIdentifier(id), PrintBraced(body), rest);
    BracedReads(src, body, Next(Next(ts)), rest);
  }

  // ---- Components and instances --------------------------------------------------------

  lemma PortReads(src: Source, p: PortDef, ts: seq<Token>, rest: seq<Token>)
    requires Leads(src, ts, PrintPort(p), rest) && Kind1(rest) != KAs
    ensures Kind1(ts) == KPort && Port(ts) == Success((p, rest))
  {
    hide Leads, Next, Peek;
    var more := [J(KIdentifier(p.signal)), J(KDot), J(KIdentifier(p.state))] + PrintAlias(p.alias);
    Two(src, ts, KPort, KIdentifier(DirectionWord(p.direction)), more, rest);
    var ts1 := Next(Next(ts));
    Three(src, ts1, KIdentifier(p.signal), KDot, KIdentifier(p.state), PrintAlias(p.alias), rest);
    var ts2 := Next(Next(Next(ts1)));
    match p.alias
    case None =>
      Nothing(src, ts2, rest);
    case Some(name) =>
      One(src, ts2, KAs, [J(KIdentifier(name))], rest);
      Last(src, Next(ts2), KIdentifier(name), rest);
  }

  lemma ParamsRead(src: Source, params: Option<seq<string>>, ts: seq<Token>, rest: seq<Token>)
    requires Leads(src, ts, PrintParams(params), rest) && Kind1(rest) != KParams
    ensures ParamsIfAny(ts) == Success((if params.Some? then params.value else [], rest))
  {
    hide Leads, Next, Peek, PrintStates, StateList;
    match params
    case None =>
      Nothing(src, ts, rest);
    case Some(names) =>
      Two(src, ts, KParams, KColon, PrintStates(names), rest);
      StatesRead(src, names, Next(Next(ts)), rest);
  }

  lemma MemberBegins(src: Source, m: Member, ts: seq<Token>, rest: seq<Token>)
    requires Leads(src, ts, PrintMember(m), rest)
    ensures Kind1(ts) == match m case OfSheet(_) => KSignal case OfRule(_) => KReaction case OfPort(_) => KPort
  {
    Begins(src, ts, PrintMember(m), rest);
  }

  lemma MembersBegin(src: Source, ms: seq<Member>, ts: seq<Token>, rest: seq<Token>)
    requires Leads(src, ts, PrintMembers(ms) + [J(KRBrace)], rest)
    ensures Kind1(ts) != KAs && Kind1(ts) != KParams
  {
    hide Leads, PrintMember, Peek;
    if ms == [] {
      assert PrintMembers(ms) + [J(KRBrace)] == [J(KRBrace)];
      Last(src, ts, KRBrace, rest);
    } else {
      assert PrintMembers(ms) + [J(KRBrace)] == PrintMember(ms[0]) + (PrintMembers(ms[1..]) + [J(KRBrace)]);
      var mid := Parts(src, ts, PrintMember(ms[0]), PrintMembers(ms[1..]) + [J(KRBrace)], rest);
      MemberBegins(src, ms[0], ts, mid);
    }
  }

  /** A component with a member read after it. */
  function WithMember(c: RawComponent, m: Member): RawComponent {
    match m
    case OfSheet(d) => c.(signals := c.signals + [SheetDecl(d)])
    case OfRule(r) => c.(reactions := c.reactions + [Raw(r, None, [])])
    case OfPort(p) => c.(ports := c.ports + [p])
  }

  function WithMembers(c: RawComponent, ms: seq<Member>): RawComponent
    decreases |ms|
  {
    if ms == [] then c else WithMembers(WithMember(c, ms[0]), ms[1..])
  }

  lemma MemberReads(src: Source, c: RawComponent, m: Member, ts: seq<Token>, rest: seq<Token>)
    requires GoodMember(m) && Leads(src, ts, PrintMember(m), rest) && Kind1(rest) != KAs
    requires m.OfSheet? ==> DeclFits(SheetDecl(m.sheet)) && m.sheet.id !in IdsOf(c.signals)
    ensures Members(src, c, ts) == Members(src, WithMember(c, m), rest)
  {
    hide Leads, Signal, Reaction, Port, PrintSheet, PrintSingle, PrintPort, Peek, DeclFits, SheetDecl, GoodSheet,
      Closed, GoodRule, Raw;
    MemberBegins(src, m, ts, rest);
    match m
    case OfSheet(d) => SheetReads(src, IdsOf(c.signals), d, ts, rest);
    case OfRule(r) => SingleReads(src, r, ts, rest);
    case OfPort(p) => PortReads(src, p, ts, rest);
  }

  lemma {:induction false} MembersRead(src: Source, c: RawComponent, ms: seq<Member>, ts: seq<Token>, rest: seq<Token>)
    requires (forall m :: m in ms ==> GoodMember(m)) && SignalsFit(c.signals + SheetDecls(SheetsOf(ms)))
    requires Leads(src, ts, PrintMembers(ms) + [J(KRBrace)], rest)
    ensures Members(src, c, ts) == Success((WithMembers(c, ms), rest))
    decreases |ms|
  {
    hide Leads, PrintMember, Peek, GoodMember, SignalsFit, SheetDecls, SheetsOf, Members, WithMember;
    if ms == [] {
      assert PrintMembers(ms) + [J(KRBrace)] == [J(KRBrace)];
      Last(src, ts, KRBrace, rest);
      MembersEnd(src, c, ts);
    } else {
      assert PrintMembers(ms) + [J(KRBrace)] == PrintMember(ms[0]) + (PrintMembers(ms[1..]) + [J(KRBrace)]);
      var mid := Parts(src, ts, PrintMember(ms[0]), PrintMembers(ms[1..]) + [J(KRBrace)], rest);
      MembersBegin(src, ms[1..], mid, rest);
      MemberFits(c, ms);
      MemberReads(src, c, ms[0], ts, mid);
      MembersRead(src, WithMember(c, ms[0]), ms[1..], mid, rest);
    }
  }

  lemma MembersEnd(src: Source, c: RawComponent, ts: seq<Token>)
    requires Kind1(ts) == KRBrace
    ensures Members(src, c, ts) == Success((c, Next(ts)))
  {}

  lemma MemberFits(c: RawComponent, ms: seq<Member>)
    requires ms != [] && SignalsFit(c.signals + SheetDecls(SheetsOf(ms)))
    ensures ms[0].OfSheet? ==> DeclFits(SheetDecl(ms[0].sheet)) && ms[0].sheet.id !in IdsOf(c.signals)
    ensures SignalsFit(WithMember(c, ms[0]).signals + SheetDecls(SheetsOf(ms[1..])))
  {
    hide SignalsFit, DeclFits, SheetDecl;
    if ms[0].OfSheet? {
      var decl, later := SheetDecl(ms[0].sheet), SheetDecls(SheetsOf(ms[1..]));
      SheetDeclsCons(ms[0].sheet, SheetsOf(ms[1..]));
      hide SheetDecls, SheetsOf, IdsOf;
      NextFits(c.signals, [decl] + later);
      assert c.signals + ([decl] + later) == c.signals + [decl] + later;
      DeclIs(ms[0].sheet);
    }
  }

  lemma DeclIs(d: Sheet)
    ensures SheetDecl(d).id == d.id
  {}

  lemma SheetDeclsCons(d: Sheet, ds: seq<Sheet>)
    ensures SheetDecls([d] + ds) == [SheetDecl(d)] + SheetDecls(ds)
  {
    assert ([d] + ds)[1..] == ds;
  }

  lemma RawAllCons(r: Rule, rs: seq<Rule>)
    ensures RawAll([r] + rs, None, []) == [Raw(r, None, [])] + RawAll(rs, None, [])
  {
    assert ([r] + rs)[1..] == rs;
  }

  lemma {:induction false} MembersAreRaw(c: RawComponent, ms: seq<Member>)
    ensures WithMembers(c, ms) == c.(ports := c.ports + PortsOf(ms), signals := c.signals + SheetDecls(SheetsOf(ms)),
                                     reactions := c.reactions + RawAll(RulesOf(ms), None, []))
    decreases |ms|
  {
    hide SheetDecl, Raw, SheetDecls, RawAll;
    if ms == [] {
      assert SheetDecls([]) == [] && RawAll([], None, []) == [] by {
        NothingRaw();
      }
    } else {
      MembersAreRaw(WithMember(c, ms[0]), ms[1..]);
      match ms[0]
      case OfSheet(d) =>
        SheetDeclsCons(d, SheetsOf(ms[1..]));
        assert c.signals + ([SheetDecl(d)] + SheetDecls(SheetsOf(ms[1..]))) ==
               c.signals + [SheetDecl(d)] + SheetDecls(SheetsOf(ms[1..]));
      case OfRule(r) =>
        RawAllCons(r, RulesOf(ms[1..]));
        assert c.reactions + ([Raw(r, None, [])] + RawAll(RulesOf(ms[1..]), None, [])) ==
               c.reactions + [Raw(r, None, [])] + RawAll(RulesOf(ms[1..]), None, []);
      case OfPort(p) =>
        assert c.ports + ([p] + PortsOf(ms[1..])) == c.ports + [p] + PortsOf(ms[1..]);
    }
  }

  lemma NothingRaw()
    ensures SheetDecls([]) == [] && RawAll([], None, []) == []
  {}

  lemma UnitHeadReads(src: Source, seen: set<string>, id: string, ts: seq<Token>, more: Marks, rest: seq<Token>)
    returns (mid: seq<Token>)
    requires id !in seen && Leads(src, ts, [J(KComponent), J(KIdentifier(id)), J(KLBrace)] + more, rest)
    ensures Kind1(ts) == KComponent && ComponentHead(seen, ts) == Success((id, mid)) && Leads(src, mid, more, rest)
  {
    hide Leads, Next, Peek;
    Three(src, ts, KComponent, KIdentifier(id), KLBrace, more, rest);
    mid := Next(Next(Next(ts)));
  }

  lemma UnitReads(src: Source, seen: set<string>, b: Block, ts: seq<Token>, rest: seq<Token>)
    requires b.Unit? && GoodBlock(b) && UnitFits(b) && b.id !in seen && Leads(src, ts, PrintBlock(b), rest)
    ensures Kind1(ts) == KComponent && Component(src, seen, ts) == Success((RawUnit(b.id, b.params, b.members), rest))
  {
    hide Leads, Peek, PrintParams, PrintMembers, GoodMember, SignalsFit, ComponentHead, ParamsIfAny, Members;
    hide SheetDecls, SheetsOf, RulesOf, PortsOf, RawAll, WithMembers;
    var end := PrintMembers(b.members) + [J(KRBrace)];
    var ts1 := UnitHeadReads(src, seen, b.id, ts, PrintParams(b.params) + end, rest);
    var ts2 := Parts(src, ts1, PrintParams(b.params), end, rest);
    MembersBegin(src, b.members, ts2, rest);
    ParamsRead(src, b.params, ts1, ts2);
    var c := RawComponent(b.id, if b.params.Some? then b.params.value else [], [], [], []);
    assert [] + SheetDecls(SheetsOf(b.members)) == SheetDecls(SheetsOf(b.members));
    assert [] + PortsOf(b.members) == PortsOf(b.members);
    assert [] + RawAll(RulesOf(b.members), None, []) == RawAll(RulesOf(b.members), None, []);
    MembersRead(src, c, b.members, ts2, rest);
    MembersAreRaw(c, b.members);
  }

  lemma PairReads(src: Source, p: (string, string), ts: seq<Token>, rest: seq<Token>)
    requires Leads(src, ts, PrintPair(p), rest)
    ensures Pair(ts) == Success((p, rest)) && Kind1(ts) == KIdentifier(p.0)
  {
    hide Leads, Next, Peek;
    Three(src, ts, KIdentifier(p.0), KArrow, KIdentifier(p.1), [], rest);
    Nothing(src, Next(Next(Next(ts))), rest);
  }

  lemma {:induction false} MorePairsRead(src: Source, ps: Pairs, ts: seq<Token>, rest: seq<Token>)
    requires Leads(src, ts, PrintMorePairs(ps), rest) && Kind1(rest) != KComma
    ensures MorePairs(ts) == Success((ps, rest))
    decreases |ps|
  {
    hide Leads, Next, Peek, PrintPair, Pair;
    if ps == [] {
      Nothing(src, ts, rest);
    } else {
      One(src, ts, KComma, PrintPair(ps[0]) + PrintMorePairs(ps[1..]), rest);
      var mid := Parts(src, Next(ts), PrintPair(ps[0]), PrintMorePairs(ps[1..]), rest);
      PairReads(src, ps[0], Next(ts), mid);
      MorePairsRead(src, ps[1..], mid, rest);
      assert [ps[0]] + ps[1..] == ps;
    }
  }

  lemma PairsRead(src: Source, ps: Pairs, ts: seq<Token>, rest: seq<Token>)
    requires Leads(src, ts, PrintPairs(ps), rest)
    ensures PairList(ts) == Success((ps, rest))
  {
    hide Leads, Next, Peek, PrintPair, PrintMorePairs, Pair, MorePairs;
    if ps == [] {
      One(src, ts, KLBrace, [J(KRBrace)], rest);
      Last(src, Next(ts), KRBrace, rest);
    } else {
      var end := PrintMorePairs(ps[1..]) + [J(KRBrace)];
      One(src, ts, KLBrace, PrintPair(ps[0]) + end, rest);
      var ts1 := Parts(src, Next(ts), PrintPair(ps[0]), end, rest);
      var ts2 := Parts(src, ts1, PrintMorePairs(ps[1..]), [J(KRBrace)], rest);
      Last(src, ts2, KRBrace, rest);
      PairReads(src, ps[0], Next(ts), ts1);
      MorePairsRead(src, ps[1..], ts1, ts2);
      assert [ps[0]] + ps[1..] == ps;
    }
  }

  lemma WiresRead(src: Source, wires: Option<Pairs>, ts: seq<Token>, rest: seq<Token>)
    requires Leads(src, ts, PrintWires(wires), rest) && (wires.None? ==> Kind1(rest) != KConnect)
    ensures ConnectionsIfAny(ts) == Success((if wires.Some? then ConnectionsOf(wires.value) else [], rest))
  {
    hide Leads, Next, Peek, PrintPairs, PairList, ConnectionsOf;
    match wires
    case None =>
      Nothing(src, ts, rest);
    case Some(ps) =>
      One(src, ts, KConnect, PrintPairs(ps), rest);
      PairsRead(src, ps, Next(ts), rest);
  }

  lemma CopyReads(src: Source, b: Block, ts: seq<Token>, rest: seq<Token>)
    requires b.Copy? && Leads(src, ts, PrintBlock(b), rest) && Kind1(rest) != KConnect
    ensures Kind1(ts) == KInstantiate && Instantiate(ts) == Success((RawCopy(b.component, b.bindings, b.wires), rest))
  {
    hide Leads, Next, Peek, PrintPairs, PrintWires, PairList, ConnectionsIfAny, ConnectionsOf, BindingsOf;
    var end := PrintPairs(b.bindings) + PrintWires(b.wires);
    var named := [J(KIdentifier(b.name)), J(KWith)] + end;
    Three(src, ts, KInstantiate, KIdentifier(b.component), KAs, named, rest);
    var ts1 := Next(Next(Next(ts)));
    Two(src, ts1, KIdentifier(b.name), KWith, end, rest);
    var ts2 := Next(Next(ts1));
    var ts3 := Parts(src, ts2, PrintPairs(b.bindings), PrintWires(b.wires), rest);
    PairsRead(src, b.bindings, ts2, ts3);
    WiresRead(src, b.wires, ts3, rest);
  }

  // ---- Documents -----------------------------------------------------------------------

  lemma {:induction false} SheetsRead(src: Source, done: seq<SignalDecl>, ds: seq<Sheet>, ts: seq<Token>,
                                      rest: seq<Token>)
    requires SignalsFit(done + SheetDecls(ds)) && Leads(src, ts, PrintSheets(ds), rest)
    requires forall d :: d in ds ==> GoodSheet(d) && Closed(d.clauses)
    ensures Sweep(src, BLANK.(signals := done), ts) == Sweep(src, BLANK.(signals := done + SheetDecls(ds)), rest)
    decreases |ds|
  {
    hide Leads, PrintSheet, Item, GoodSheet, Closed, ClauseDecls, DeclFits, SignalsFit, Peek;
    if ds == [] {
      Nothing(src, ts, rest);
      assert done + [] == done;
    } else {
      var decl, decls := SheetDecl(ds[0]), SheetDecls(ds[1..]);
      var mid := Parts(src, ts, PrintSheet(ds[0]), PrintSheets(ds[1..]), rest);
      NextFits(done, [decl] + decls);
      SheetItem(src, done, ds[0], ts, mid);
      assert done + ([decl] + decls) == done + [decl] + decls;
      SheetsRead(src, done + [decl], ds[1..], mid, rest);
    }
  }

  lemma SheetItem(src: Source, done: seq<SignalDecl>, d: Sheet, ts: seq<Token>, rest: seq<Token>)
    requires GoodSheet(d) && Closed(d.clauses) && DeclFits(SheetDecl(d)) && d.id !in IdsOf(done)
    requires Leads(src, ts, PrintSheet(d), rest)
    ensures Kind1(ts) != KEof
    ensures Item(src, BLANK.(signals := done), ts) == Success((BLANK.(signals := done + [SheetDecl(d)]), rest))
  {
    hide Leads, PrintSheet, Signal, GoodSheet, Closed, ClauseDecls, DeclFits;
    SheetBegins(src, d, ts, rest);
    SheetReads(src, IdsOf(done), d, ts, rest);
  }

  lemma NextFits(done: seq<SignalDecl>, ds: seq<SignalDecl>)
    requires ds != [] && SignalsFit(done + ds)
    ensures DeclFits(ds[0]) && ds[0].id !in IdsOf(done)
  {
    var all := done + ds;
    assert all[|done|] == ds[0];
    forall d | d in done ensures d.id != ds[0].id {
      var i :| 0 <= i < |done| && done[i] == d;
      assert all[i] == d && all[i].id != all[|done|].id;
    }
  }

  lemma SheetBegins(src: Source, d: Sheet, ts: seq<Token>, rest: seq<Token>)
    requires Leads(src, ts, PrintSheet(d), rest)
    ensures Kind1(ts) == KSignal
  {
    Begins(src, ts, PrintSheet(d), rest);
  }

  lemma BlockItem(src: Source, d: Draft, b: Block, ts: seq<Token>, rest: seq<Token>)
    requires GoodBlock(b) && ClosedBlock(b) && Leads(src, ts, PrintBlock(b), rest)
    requires (b.Define? ==> b.id !in GuardIds(d)) && (b.Unit? ==> b.id !in ComponentIds(d))
    requires UnitFits(b) && Kind1(rest) != KConnect
    ensures Kind1(ts) != KEof && Item(src, d, ts) == Success((Plus(src.lx, d, b), rest))
  {
    hide Leads, Reaction, ForkBlock, JoinBlock, Guard, Component, Instantiate, RawAll, ForkName, Peek, Trim, Unbrace,
         GoodRule, GoodMember, ClosedRules, Balanced, DraftFits, UnitFits, RawUnit, RawCopy, SignalsFit;
    hide PrintSingle, PrintRules, PrintBraced, PrintParams, PrintMembers, PrintPairs, PrintWires;
    match b
    case Single(r) => SingleReads(src, r, ts, rest);
    case ForkOf(rs) => ForkReads(src, rs, d.forks, ts, rest);
    case JoinOn(group, rs) => JoinReads(src, group, rs, ts, rest);
    case Define(id, body) => DefineReads(src, GuardIds(d), id, body, ts, rest);
    case Unit(_, _, _) => UnitReads(src, ComponentIds(d), b, ts, rest);
    case Copy(_, _, _, _) => CopyReads(src, b, ts, rest);
  }

  lemma BlockBegins(src: Source, b: Block, ts: seq<Token>, rest: seq<Token>)
    requires Leads(src, ts, PrintBlock(b), rest)
    ensures Kind1(ts) != KConnect
  {
    Begins(src, ts, PrintBlock(b), rest);
  }

  /** The guards and components still to be declared are new. */
  ghost predicate NewDefinitions(d: Draft, bs: seq<Block>) {
    && DistinctDefinitions(bs)
    && (forall b :: b in bs && b.Define? ==> b.id !in GuardIds(d))
    && (forall b :: b in bs && b.Unit? ==> b.id !in ComponentIds(d))
  }

  lemma StillNew(lx: G.Lexicon, d: Draft, bs: seq<Block>)
    requires bs != [] && NewDefinitions(d, bs)
    ensures NewDefinitions(Plus(lx, d, bs[0]), bs[1..])
  {
    hide RawAll, ForkName, Trim, Unbrace, SheetDecls, PortsOf, RulesOf, SheetsOf, RawCopy;
    var d' := Plus(lx, d, bs[0]);
    forall b | b in bs[1..] && b.Unit? ensures b.id !in ComponentIds(d') {
      var i :| 0 <= i < |bs| - 1 && bs[1..][i] == b;
      assert bs[i + 1] == b;
      assert forall c :: c in d'.components ==> c in d.components || (bs[0].Unit? && c.id == bs[0].id);
    }
    forall b | b in bs[1..] && b.Define? ensures b.id !in GuardIds(d') {
      var i :| 0 <= i < |bs| - 1 && bs[1..][i] == b;
      assert bs[i + 1] == b;
      assert forall g :: g in d'.guards ==> g in d.guards || (bs[0].Define? && g.id == bs[0].id);
    }
  }

  lemma FirstIsNew(d: Draft, bs: seq<Block>)
    requires bs != [] && NewDefinitions(d, bs)
    ensures (bs[0].Define? ==> bs[0].id !in GuardIds(d)) && (bs[0].Unit? ==> bs[0].id !in ComponentIds(d))
  {}

  lemma {:induction false} BlocksRead(src: Source, d: Draft, bs: seq<Block>, ts: seq<Token>, rest: seq<Token>)
    requires (forall b :: b in bs ==> GoodBlock(b) && ClosedBlock(b)) && NewDefinitions(d, bs)
    requires (forall b :: b in bs ==> UnitFits(b)) && Kind1(rest) != KConnect
    requires Leads(src, ts, PrintBlocks(bs), rest)
    ensures Sweep(src, d, ts) == Sweep(src, PlusAll(src.lx, d, bs), rest) && Kind1(ts) != KConnect
    decreases |bs|
  {
    hide Leads, PrintBlock, Item, Plus, GoodBlock, ClosedBlock, UnitFits, Peek;
    if bs == [] {
      Nothing(src, ts, rest);
    } else {
      var mid := Parts(src, ts, PrintBlock(bs[0]), PrintBlocks(bs[1..]), rest);
      BlockBegins(src, bs[0], ts, mid);
      StillNew(src.lx, d, bs);
      FirstIsNew(d, bs);
      hide NewDefinitions;
      BlocksRead(src, Plus(src.lx, d, bs[0]), bs[1..], mid, rest);
      BlockItem(src, d, bs[0], ts, mid);
    }
  }

  /**
   The main result. A script whose signals fit, components included, parses to what it means
   when printed: joins and guard names are looked up in the whole of it, and an unknown one is
   the error.
   */
  lemma ScriptReads(src: Source, s: Script, ts: seq<Token>)
    requires GoodScript(s) && ScriptFits(s) && Leads(src, ts, PrintScript(s), [])
    ensures Doc(src, ts) == Outcome(src.lx, s)
  {
    hide Leads, Item, PrintSheets, PrintBlocks, SignalsFit, PlusAll, Settled, SheetDecls, GoodBlock, ClosedBlock,
      GoodSheet, Closed, DistinctDefinitions, UnitFits;
    var ts1 := Parts(src, ts, PrintSheets(s.signals), PrintBlocks(s.blocks) + [J(KEof)], []);
    var ts2 := Parts(src, ts1, PrintBlocks(s.blocks), [J(KEof)], []);
    assert [] + SheetDecls(s.signals) == SheetDecls(s.signals) && BLANK.(signals := []) == BLANK;
    SheetsRead(src, [], s.signals, ts, ts1);
    Last(src, ts2, KEof, []);
    BlocksRead(src, BLANK.(signals := SheetDecls(s.signals)), s.blocks, ts1, ts2);
  }

  /** Tokens that print a script parse to what it means exactly when its signals fit. */
  lemma ScriptReadsIff(src: Source, s: Script, ts: seq<Token>)
    requires GoodScript(s) && Outcome(src.lx, s).Success? && Leads(src, ts, PrintScript(s), [])
    ensures Doc(src, ts) == Outcome(src.lx, s) <==> ScriptFits(s)
  {
    hide SignalsFit, GoodScript, Doc, PrintScript, Leads, SheetDecls, Outcome;
    if Doc(src, ts) == Outcome(src.lx, s) {
      ParsedFits(src, ts);
      OutcomeSignals(src.lx, s);
      forall b | b in s.blocks && b.Unit? ensures SignalsFit(SheetDecls(SheetsOf(b.members))) {
        var c := OutcomeUnit(src.lx, s, b);
      }
    }
    if ScriptFits(s) {
      ScriptReads(src, s, ts);
    }
  }

  lemma OutcomeSignals(lx: G.Lexicon, s: Script)
    requires Outcome(lx, s).Success?
    ensures Outcome(lx, s).value.signals == SheetDecls(s.signals)
  {
    hide PlusAll, ResolveReactions, ResolveComponents, StrayJoin, SheetDecls;
    BlocksKeepSignals(lx, BLANK.(signals := SheetDecls(s.signals)), s.blocks);
  }

  /** Each component of a script is among those of the document. */
  lemma OutcomeUnit(lx: G.Lexicon, s: Script, b: Block) returns (c: ComponentDecl)
    requires Outcome(lx, s).Success? && b in s.blocks && b.Unit?
    ensures c in Outcome(lx, s).value.components && c.id == b.id && c.signals == SheetDecls(SheetsOf(b.members))
  {
    hide PlusAll, ResolveReactions, ResolveComponents, StrayJoin, SheetDecls, RawUnit;
    var d := DraftOf(lx, s);
    var raw := RawUnit(b.id, b.params, b.members);
    BlocksAddUnits(lx, BLANK.(signals := SheetDecls(s.signals)), s.blocks);
    var i :| 0 <= i < |d.components| && d.components[i] == raw;
    ResolvedComponents(GuardMap(d.guards), d.components);
    c := Outcome(lx, s).value.components[i];
    RawUnitHas(b);
  }

  lemma RawUnitHas(b: Block)
    requires b.Unit?
    ensures var c := RawUnit(b.id, b.params, b.members); c.id == b.id && c.signals == SheetDecls(SheetsOf(b.members))
  {}

  lemma {:induction false} BlocksAddUnits(lx: G.Lexicon, d: Draft, bs: seq<Block>)
    ensures d.components <= PlusAll(lx, d, bs).components
    ensures forall b :: b in bs && b.Unit? ==> RawUnit(b.id, b.params, b.members) in PlusAll(lx, d, bs).components
    decreases |bs|
  {
    hide RawAll, Trim, Unbrace, RawUnit, RawCopy;
    if bs != [] {
      var d1, all := Plus(lx, d, bs[0]), PlusAll(lx, d, bs).components;
      BlocksAddUnits(lx, d1, bs[1..]);
      assert d1.components <= all && forall i :: 0 <= i < |d1.components| ==> all[i] == d1.components[i];
      assert bs[0].Unit? ==> d1.components[|d.components|] == RawUnit(bs[0].id, bs[0].params, bs[0].members);
      assert bs == [bs[0]] + bs[1..];
    }
  }

  lemma {:induction false} BlocksKeepSignals(lx: G.Lexicon, d: Draft, bs: seq<Block>)
    ensures PlusAll(lx, d, bs).signals == d.signals
    decreases |bs|
  {
    hide RawAll, Trim, Unbrace, RawUnit, RawCopy;
    if bs != [] {
      BlocksKeepSignals(lx, Plus(lx, d, bs[0]), bs[1..]);
    }
  }
}
