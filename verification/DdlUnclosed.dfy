/**
 Guards without an end. A guard runs on to the first token that ends one, so a guarded
 transition without an action block takes in the transitions after it, and a guarded reaction
 of a block with nothing after its guard the reactions after it. Here is exactly when this
 happens, and what is read then.
 */
module DdlUnclosed {
  import opened Wrappers
  import opened Schema
  import opened DdlSyntax
  import opened DdlGrammar
  import opened DdlScript
  import opened DdlPrinter

  // ---- Putting prints together ---------------------------------------------------------

  lemma Joined(src: Source, ts: seq<Token>, a: Marks, mid: seq<Token>, b: Marks, rest: seq<Token>)
    requires Leads(src, ts, a, mid) && Leads(src, mid, b, rest)
    ensures Leads(src, ts, a + b, rest)
  {
    hide Holds;
    var marks := a + b;
    assert ts[|marks|..] == mid[|b|..];
    forall i | 0 <= i < |marks|
      ensures ts[i].kind == marks[i].kind && (marks[i].note.Some? ==> Holds(src, ts[i..], marks[i].note.value))
    {
      if i >= |a| {
        assert marks[i] == b[i - |a|] && ts[i..] == mid[i - |a|..];
      }
    }
  }

  function KindsOf(marks: Marks): (kinds: seq<Kind>)
    ensures |kinds| == |marks| && forall i :: 0 <= i < |kinds| ==> kinds[i] == marks[i].kind
  {
    seq(|marks|, i requires 0 <= i < |marks| => marks[i].kind)
  }

  /** The text that a run of tokens shows. */
  function Said(src: Source, ts: seq<Token>, n: nat): string
    requires 0 < n <= |ts|
  {
    Trim(src.lx, Verbatim(src, ts[0], ts[n - 1]))
  }

  /** Tokens that show a guard and what comes after it also show the guard that takes it in. */
  lemma GuardTakesIn(src: Source, g: Phrase, head: Marks, more: Marks, ts: seq<Token>, rest: seq<Token>)
    returns (g': Phrase)
    requires g.kinds != [] && Leads(src, ts, PrintGuard(Some(g)) + (head + more), rest)
    ensures g'.kinds == g.kinds + KindsOf(head) && Leads(src, ts, PrintGuard(Some(g')) + more, rest)
  {
    hide Leads, Said, Noted;
    var noted := Noted(g.kinds, g.text, true);
    assert PrintGuard(Some(g)) + (head + more) == [J(KWhen)] + (noted + (head + more));
    var ts1 := Parts(src, ts, [J(KWhen)], noted + (head + more), rest);
    assert noted + (head + more) == noted + head + more;
    var ts2 := Parts(src, ts1, noted + head, more, rest);
    var kinds := g.kinds + KindsOf(head);
    NotedKinds(g, head);
    g' := Renoted(src, ts1, noted + head, kinds, ts2);
    Joined(src, ts1, Noted(g'.kinds, g'.text, true), ts2, more, rest);
    Joined(src, ts, [J(KWhen)], ts1, Noted(g'.kinds, g'.text, true) + more, rest);
    assert PrintGuard(Some(g')) + more == [J(KWhen)] + (Noted(g'.kinds, g'.text, true) + more);
  }

  lemma NotedKinds(g: Phrase, head: Marks)
    requires g.kinds != []
    ensures KindsOf(Noted(g.kinds, g.text, true) + head) == g.kinds + KindsOf(head)
  {}

  /** A run of tokens shows its own text. */
  lemma Renoted(src: Source, ts: seq<Token>, marks: Marks, kinds: seq<Kind>, rest: seq<Token>) returns (g: Phrase)
    requires marks != [] && KindsOf(marks) == kinds && Leads(src, ts, marks, rest)
    ensures g.kinds == kinds && Leads(src, ts, Noted(kinds, g.text, true), rest)
  {
    hide Trim, Verbatim;
    g := Phrase(kinds, Said(src, ts, |kinds|));
    var noted := Noted(kinds, g.text, true);
    forall i | 0 <= i < |noted|
      ensures ts[i].kind == noted[i].kind && (noted[i].note.Some? ==> Holds(src, ts[i..], noted[i].note.value))
    {
      assert ts[i].kind == marks[i].kind == kinds[i];
      assert i > 0 ==> noted[i] == J(kinds[i]);
      assert ts[0..] == ts;
    }
  }

  // ---- Transitions ---------------------------------------------------------------------

  /** A transition up to its guard. */
  function ClauseFront(c: Clause): Marks {
    [J(KOn), J(KIdentifier(c.event)), J(KFrom)] + PrintMove(c)
  }

  lemma ClauseIs(c: Clause)
    ensures PrintClause(c) == ClauseFront(c) + PrintGuard(c.guard) + PrintActions(c.block)
  {
    hide PrintMove, PrintGuard, PrintActions;
  }

  lemma Regroup(a: Marks, b: Marks, c: Marks, d: Marks, e: Marks)
    ensures a + b + [] + (c + d + e) == a + (b + (c + (d + e))) && a + b + d + e == a + (b + (d + e))
  {}

  /** An open transition and the one after it read as one. */
  lemma ClauseTakesIn(src: Source, c: Clause, d: Clause, more: Marks, ts: seq<Token>, rest: seq<Token>)
    returns (e: Clause)
    requires OpenClause(c) && GoodClause(c) && GoodClause(d)
    requires Leads(src, ts, PrintClause(c) + (PrintClause(d) + more), rest)
    ensures Leads(src, ts, PrintClause(e) + more, rest) && GoodClause(e)
    ensures e.event == c.event && e.from == c.from && e.to == c.to
  {
    var g := c.guard.value;
    assert g.kinds != [] && PrintActions(c.block) == [];
    HeadEndsNothing(d);
    hide Leads, PrintClause, PrintHead, PrintActions, PrintGuard, EndsGuard, Sayable;
    var front, head, block := ClauseFront(c), PrintHead(d), PrintActions(d.block);
    ClauseIs(c);
    HeadIs(d);
    Regroup(front, PrintGuard(c.guard), head, block, more);
    var ts1 := Parts(src, ts, front, PrintGuard(c.guard) + (head + (block + more)), rest);
    var g' := GuardTakesIn(src, g, head, block + more, ts1, rest);
    StillSayable(g, head, g');
    e := c.(guard := Some(g'), block := d.block);
    ClauseIs(e);
    Joined(src, ts, front, ts1, PrintGuard(e.guard) + (block + more), rest);
    Regroup(front, PrintGuard(e.guard), head, block, more);
  }

  lemma HeadIs(c: Clause)
    ensures PrintClause(c) == PrintHead(c) + PrintActions(c.block)
  {}

  /** No token of a transition before its action block ends a guard. */
  lemma HeadEndsNothing(c: Clause)
    requires GoodClause(c)
    ensures forall i :: 0 <= i < |PrintHead(c)| ==> !EndsGuard(PrintHead(c)[i].kind)
  {
    GuardEndsNothing(c.guard);
    hide PrintGuard;
    var a, b := [J(KOn), J(KIdentifier(c.event)), J(KFrom)], PrintMove(c);
    forall i | 0 <= i < |PrintHead(c)| ensures !EndsGuard(PrintHead(c)[i].kind) {
      if i < 3 {
        assert PrintHead(c)[i] == a[i];
      } else if i < 6 {
        assert PrintHead(c)[i] == b[i - 3];
      } else {
        assert PrintHead(c)[i] == PrintGuard(c.guard)[i - 6];
      }
    }
  }

  lemma GuardEndsNothing(guard: Option<Phrase>)
    requires guard.Some? ==> Sayable(guard.value)
    ensures forall i :: 0 <= i < |PrintGuard(guard)| ==> !EndsGuard(PrintGuard(guard)[i].kind)
  {
    match guard
    case None =>
    case Some(g) =>
      forall i | 0 <= i < |PrintGuard(guard)| ensures !EndsGuard(PrintGuard(guard)[i].kind) {
        assert i > 0 ==> PrintGuard(guard)[i].kind == g.kinds[i - 1];
      }
  }

  lemma StillSayable(g: Phrase, head: Marks, g': Phrase)
    requires Sayable(g) && g'.kinds == g.kinds + KindsOf(head)
    requires forall i :: 0 <= i < |head| ==> !EndsGuard(head[i].kind)
    ensures Sayable(g')
  {
    hide EndsGuard;
    forall i | 0 <= i < |g'.kinds| ensures !EndsGuard(g'.kinds[i]) {
      assert g'.kinds[i] == if i < |g.kinds| then g.kinds[i] else head[i - |g.kinds|].kind;
    }
  }

  /** What is read of a list of transitions: a closed list with the same print, shorter unless the list is closed. */
  lemma {:induction false} ClausesTakeIn(src: Source, states: seq<string>, cs: seq<Clause>, ts: seq<Token>,
                                         rest: seq<Token>)
    returns (es: seq<Clause>)
    requires (forall c :: c in cs ==> GoodClause(c) && Within(ClauseDecl(c), states))
             && Leads(src, ts, PrintClauses(cs), rest)
    ensures (forall e :: e in es ==> GoodClause(e) && Within(ClauseDecl(e), states))
            && Leads(src, ts, PrintClauses(es), rest)
    ensures Closed(es) && |es| <= |cs| && (!Closed(cs) ==> |es| < |cs|) && (cs == [] ==> es == [])
    decreases |cs|
  {
    hide Leads, PrintClause, GoodClause, Within;
    if cs == [] {
      es := [];
    } else if |cs| >= 2 && OpenClause(cs[0]) {
      assert PrintClauses(cs) == PrintClause(cs[0]) + (PrintClause(cs[1]) + PrintClauses(cs[2..])) by { FirstTwo(cs); }
      var e := ClauseTakesIn(src, cs[0], cs[1], PrintClauses(cs[2..]), ts, rest);
      assert Within(ClauseDecl(e), states) by { SameMove(cs[0], e, states); }
      var shorter := [e] + cs[2..];
      assert shorter[1..] == cs[2..];
      es := ClausesTakeIn(src, states, shorter, ts, rest);
    } else {
      var mid := Parts(src, ts, PrintClause(cs[0]), PrintClauses(cs[1..]), rest);
      var tail := ClausesTakeIn(src, states, cs[1..], mid, rest);
      es := [cs[0]] + tail;
      assert es[1..] == tail;
      Joined(src, ts, PrintClause(cs[0]), mid, PrintClauses(tail), rest);
      ClosedCons(cs);
      ClosedCons(es);
    }
  }

  lemma FirstTwo(cs: seq<Clause>)
    requires |cs| >= 2
    ensures PrintClauses(cs) == PrintClause(cs[0]) + (PrintClause(cs[1]) + PrintClauses(cs[2..]))
  {
    hide PrintClause;
    assert cs[1..][1..] == cs[2..];
  }

  lemma SameMove(c: Clause, e: Clause, states: seq<string>)
    requires Within(ClauseDecl(c), states) && e.from == c.from && e.to == c.to
    ensures Within(ClauseDecl(e), states)
  {}

  lemma ClosedCons(cs: seq<Clause>)
    requires cs != []
    ensures Closed(cs) <==> (|cs| == 1 || !OpenClause(cs[0])) && Closed(cs[1..])
  {
    hide OpenClause;
    if Closed(cs) {
      forall i | 0 <= i < |cs| - 2 ensures !OpenClause(cs[1..][i]) {
        assert cs[1..][i] == cs[i + 1];
      }
    }
    if (|cs| == 1 || !OpenClause(cs[0])) && Closed(cs[1..]) {
      forall i | 0 <= i < |cs| - 1 ensures !OpenClause(cs[i]) {
        assert i > 0 ==> cs[1..][i - 1] == cs[i];
      }
    }
  }

  /**
   Exactly when a signal is read back: when each guarded transition has an action block or is
   the signal's last. Otherwise the signal is read all the same, with fewer transitions.
   */
  lemma SheetReadsIff(src: Source, seen: set<string>, d: Sheet, ts: seq<Token>, rest: seq<Token>)
    requires GoodSheet(d) && DeclFits(SheetDecl(d)) && d.id !in seen && Leads(src, ts, PrintSheet(d), rest)
    ensures Signal(src, seen, ts) == Success((SheetDecl(d), rest)) <==> Closed(d.clauses)
    ensures !Closed(d.clauses) ==>
              var r := Signal(src, seen, ts);
              r.Success? && r.value.1 == rest && |r.value.0.transitions| < |d.clauses|
  {
    hide Leads, Closed, Signal, PrintSheet, PrintClauses, GoodClause;
    if Closed(d.clauses) {
      SheetReads(src, seen, d, ts, rest);
    } else {
      var e := SheetTakesIn(src, d, ts, rest);
      SheetReads(src, seen, e, ts, rest);
    }
  }

  lemma SheetTakesIn(src: Source, d: Sheet, ts: seq<Token>, rest: seq<Token>) returns (e: Sheet)
    requires GoodSheet(d) && DeclFits(SheetDecl(d)) && Leads(src, ts, PrintSheet(d), rest) && !Closed(d.clauses)
    ensures GoodSheet(e) && DeclFits(SheetDecl(e)) && Leads(src, ts, PrintSheet(e), rest)
    ensures Closed(e.clauses) && |e.clauses| < |d.clauses| && e.id == d.id
  {
    hide Leads, Closed, PrintStates, PrintClauses, GoodClause, Within;
    var head := [J(KSignal), J(KIdentifier(d.id)), J(KLBrace)];
    var states, initial := [J(KStates), J(KColon)] + PrintStates(d.states),
      [J(KInitial), J(KColon), J(KIdentifier(d.initial))];
    var front, end := head + states + initial, [J(KRBrace)];
    assert PrintSheet(d) == front + (PrintClauses(d.clauses) + end);
    var ts1 := Parts(src, ts, front, PrintClauses(d.clauses) + end, rest);
    var ts2 := Parts(src, ts1, PrintClauses(d.clauses), end, rest);
    forall c | c in d.clauses ensures Within(ClauseDecl(c), d.states) {
      var i :| 0 <= i < |d.clauses| && d.clauses[i] == c;
      assert ClauseDecls(d.clauses)[i] in ClauseDecls(d.clauses);
    }
    var es := ClausesTakeIn(src, d.states, d.clauses, ts1, ts2);
    e := d.(clauses := es);
    forall tr | tr in ClauseDecls(es) ensures Within(tr, d.states) {
      var i :| 0 <= i < |es| && ClauseDecls(es)[i] == tr;
      assert es[i] in es;
    }
    Joined(src, ts1, PrintClauses(es), ts2, end, rest);
    Joined(src, ts, front, ts1, PrintClauses(es) + end, rest);
    assert PrintSheet(e) == front + (PrintClauses(es) + end);
  }

  // ---- Reactions -----------------------------------------------------------------------

  lemma RuleTakesIn(src: Source, r: Rule, d: Rule, more: Marks, ts: seq<Token>, rest: seq<Token>) returns (e: Rule)
    requires OpenRule(r) && GoodRule(r) && GoodRule(d)
    requires Leads(src, ts, PrintRule(r) + (PrintRule(d) + more), rest)
    ensures Leads(src, ts, PrintRule(e) + more, rest) && GoodRule(e)
  {
    var g := r.guard.value;
    assert g.kinds != [] && PrintTail(r.tail) + PrintOnFail(r.onFail) == [];
    RuleHeadEndsNothing(d);
    assert PrintRuleHead(d)[0].kind == KWhen;
    hide Leads, PrintRule, PrintRuleHead, PrintTail, PrintOnFail, PrintGuard, EndsGuard, Sayable, Balanced;
    var front, head, end := RuleFront(r), PrintRuleHead(d), PrintTail(d.tail) + PrintOnFail(d.onFail);
    RuleIs(r);
    RuleIs(d);
    Regroup(front, PrintGuard(r.guard), head, end, more);
    var ts1 := Parts(src, ts, front, PrintGuard(r.guard) + (head + (end + more)), rest);
    var g' := GuardTakesIn(src, g, head, end + more, ts1, rest);
    StillSayable(g, head, g');
    assert SayableInRule(g');
    e := r.(guard := Some(g'), tail := d.tail, onFail := d.onFail);
    RuleIs(e);
    Joined(src, ts, front, ts1, PrintGuard(e.guard) + (end + more), rest);
    Regroup(front, PrintGuard(e.guard), head, end, more);
  }

  lemma RuleIs(r: Rule)
    ensures PrintRule(r) == PrintRuleHead(r) + (PrintTail(r.tail) + PrintOnFail(r.onFail))
    ensures PrintRule(r) == RuleFront(r) + PrintGuard(r.guard) + (PrintTail(r.tail) + PrintOnFail(r.onFail))
  {
    hide PrintGuard, PrintTail, PrintOnFail;
    assert PrintRuleHead(r) == RuleFront(r) + PrintGuard(r.guard);
  }

  /** A reaction up to its guard. */
  function RuleFront(r: Rule): Marks {
    [J(KWhen)]
    + ([J(KIdentifier(r.fromSignal)), J(KEnters), J(KIdentifier(r.fromState))]
       + [J(KArrow), J(KIdentifier(r.toSignal)), J(KIdentifier(r.event))])
  }

  lemma RuleHeadEndsNothing(r: Rule)
    requires GoodRule(r)
    ensures forall i :: 0 <= i < |PrintRuleHead(r)| ==> !EndsGuard(PrintRuleHead(r)[i].kind)
  {
    GuardEndsNothing(r.guard);
    hide PrintGuard;
    assert PrintRuleHead(r) == RuleFront(r) + PrintGuard(r.guard);
    forall i | 0 <= i < |PrintRuleHead(r)| ensures !EndsGuard(PrintRuleHead(r)[i].kind) {
      if i >= 7 {
        assert PrintRuleHead(r)[i] == PrintGuard(r.guard)[i - 7];
      }
    }
  }

  lemma {:induction false} RulesTakeIn(src: Source, rs: seq<Rule>, ts: seq<Token>, rest: seq<Token>)
    returns (es: seq<Rule>)
    requires (forall r :: r in rs ==> GoodRule(r)) && Leads(src, ts, PrintRules(rs), rest)
    ensures (forall e :: e in es ==> GoodRule(e)) && Leads(src, ts, PrintRules(es), rest)
    ensures ClosedRules(es) && |es| <= |rs| && (!ClosedRules(rs) ==> |es| < |rs|) && (rs == [] ==> es == [])
    decreases |rs|
  {
    hide Leads, PrintRule, GoodRule;
    if rs == [] {
      es := [];
    } else if |rs| >= 2 && OpenRule(rs[0]) {
      assert PrintRules(rs) == PrintRule(rs[0]) + (PrintRule(rs[1]) + PrintRules(rs[2..])) by { FirstTwoRules(rs); }
      var e := RuleTakesIn(src, rs[0], rs[1], PrintRules(rs[2..]), ts, rest);
      var shorter := [e] + rs[2..];
      assert shorter[1..] == rs[2..];
      es := RulesTakeIn(src, shorter, ts, rest);
    } else {
      var mid := Parts(src, ts, PrintRule(rs[0]), PrintRules(rs[1..]), rest);
      var tail := RulesTakeIn(src, rs[1..], mid, rest);
      es := [rs[0]] + tail;
      assert es[1..] == tail;
      Joined(src, ts, PrintRule(rs[0]), mid, PrintRules(tail), rest);
      ClosedRulesCons(rs);
      ClosedRulesCons(es);
    }
  }

  lemma FirstTwoRules(rs: seq<Rule>)
    requires |rs| >= 2
    ensures PrintRules(rs) == PrintRule(rs[0]) + (PrintRule(rs[1]) + PrintRules(rs[2..]))
  {
    hide PrintRule;
    assert rs[1..][1..] == rs[2..];
  }

  lemma ClosedRulesCons(rs: seq<Rule>)
    requires rs != []
    ensures ClosedRules(rs) <==> (|rs| == 1 || !OpenRule(rs[0])) && ClosedRules(rs[1..])
  {
    hide OpenRule;
    if ClosedRules(rs) {
      forall i | 0 <= i < |rs| - 2 ensures !OpenRule(rs[1..][i]) {
        assert rs[1..][i] == rs[i + 1];
      }
    }
    if (|rs| == 1 || !OpenRule(rs[0])) && ClosedRules(rs[1..]) {
      forall i | 0 <= i < |rs| - 1 ensures !OpenRule(rs[i]) {
        assert i > 0 ==> rs[1..][i - 1] == rs[i];
      }
    }
  }

  /**
   Exactly when the reactions of a block are read back: when each guarded one has braces, a
   payload or an `on_fail` after its guard, or is the last. Otherwise fewer are read.
   */
  lemma RulesReadIff(src: Source, group: Option<string>, needs: seq<string>, rs: seq<Rule>, ts: seq<Token>,
                     rest: seq<Token>)
    requires (forall r :: r in rs ==> GoodRule(r)) && Leads(src, ts, PrintRules(rs), rest) && Kind1(rest) == KRBrace
    ensures Bodies(src, group, needs, ts) == Success((RawAll(rs, group, needs), rest)) <==> ClosedRules(rs)
    ensures !ClosedRules(rs) ==>
              var r := Bodies(src, group, needs, ts);
              r.Success? && r.value.1 == rest && |r.value.0| < |rs|
  {
    hide Leads, ClosedRules, Bodies, PrintRules, GoodRule, RawAll;
    RawCount(rs, group, needs);
    if ClosedRules(rs) {
      RulesRead(src, group, needs, rs, ts, rest);
    } else {
      var es := RulesTakeIn(src, rs, ts, rest);
      RawCount(es, group, needs);
      RulesRead(src, group, needs, es, ts, rest);
    }
  }

  lemma {:induction false} RawCount(rs: seq<Rule>, group: Option<string>, needs: seq<string>)
    ensures |RawAll(rs, group, needs)| == |rs|
  {
    if rs != [] {
      RawCount(rs[1..], group, needs);
    }
  }
}
