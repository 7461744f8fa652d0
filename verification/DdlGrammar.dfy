/**
 The grammar of the domain description language, as functions from the tokens not yet read
 to a phrase and the tokens after it (src/ddl/parser.rs).
 */
module DdlGrammar {
  import opened Wrappers
  import opened Schema
  import opened DdlSyntax
  import G = GuardLexer
  import L = DdlLexer

  /** The text that the tokens came from, and the character classes it is read with. */
  datatype Source = Source(lx: G.Lexicon, text: string)

  datatype Fault =
    | Wanted(kind: Kind, found: Kind)
    | WantedIdentifier(found: Kind)
    | WantedItem(found: Kind)
    | WantedMember(found: Kind)
    | WantedDirection(word: string)
    | DuplicateSignal(id: string)
    | DuplicateGuard(id: string)
    | DuplicateComponent(id: string)
    | DuplicateHook(hook: Kind)
    | UnknownInitial(state: string)
    | UnknownFrom(state: string, id: string)
    | UnknownTo(state: string, id: string)
    | EmptyGuard
    | UnterminatedBlock
    | UnterminatedComponent(id: string)
    | NestedFork

  datatype SyntaxError =
    | At(line: nat, col: nat, fault: Fault)
    | UndefinedGroup(group: string, forks: nat)
    | UndefinedGuard(id: string, fromSignal: string, fromState: string)

  /** A phrase and the tokens after it. */
  type Parsed<T> = Result<(T, seq<Token>), SyntaxError>

  function Blame(t: Token, fault: Fault): SyntaxError {
    At(t.line, t.col, fault)
  }

  // ---- Tokens --------------------------------------------------------------------------

  function Peek(ts: seq<Token>): Token {
    if ts == [] then Token(KEof, 0, 0, 0, 0) else ts[0]
  }

  function Kind1(ts: seq<Token>): Kind {
    Peek(ts).kind
  }

  function Next(ts: seq<Token>): seq<Token> {
    if ts == [] then [] else ts[1..]
  }

  function Expect(kind: Kind, ts: seq<Token>): (r: Result<seq<Token>, SyntaxError>)
    requires kind != KEof
    ensures r.Success? ==> |r.value| < |ts|
  {
    if Kind1(ts) == kind then Success(Next(ts)) else Failure(Blame(Peek(ts), Wanted(kind, Kind1(ts))))
  }

  function Ident(ts: seq<Token>): (r: Parsed<string>)
    ensures r.Success? ==> |r.value.1| < |ts|
  {
    if Kind1(ts).KIdentifier? then Success((Kind1(ts).name, Next(ts)))
    else Failure(Blame(Peek(ts), WantedIdentifier(Kind1(ts))))
  }

  // ---- Lists ---------------------------------------------------------------------------

  /** `, name` repeated; a comma before the closing token ends the list, where one is given. */
  function MoreNames(close: Option<Kind>, ts: seq<Token>): (r: Parsed<seq<string>>)
    ensures r.Success? ==> |r.value.1| <= |ts|
    decreases |ts|
  {
    if Kind1(ts) != KComma then Success(([], ts))
    else if close == Some(Kind1(Next(ts))) then Success(([], Next(ts)))
    else
      var (name, ts1) :- Ident(Next(ts));
      var (more, ts2) :- MoreNames(close, ts1);
      Success(([name] + more, ts2))
  }

  function StateList(ts: seq<Token>): (r: Parsed<seq<string>>)
    ensures r.Success? ==> |r.value.1| < |ts|
  {
    var ts1 :- Expect(KLBracket, ts);
    if Kind1(ts1) == KRBracket then Success(([], Next(ts1)))
    else
      var (state, ts2) :- Ident(ts1);
      var (more, ts3) :- MoreNames(Some(KRBracket), ts2);
      var ts4 :- Expect(KRBracket, ts3);
      Success(([state] + more, ts4))
  }

  /** `a -> b`. */
  function Pair(ts: seq<Token>): (r: Parsed<(string, string)>)
    ensures r.Success? ==> |r.value.1| < |ts|
  {
    var (left, ts1) :- Ident(ts);
    var ts2 :- Expect(KArrow, ts1);
    var (right, ts3) :- Ident(ts2);
    Success(((left, right), ts3))
  }

  function MorePairs(ts: seq<Token>): (r: Parsed<seq<(string, string)>>)
    ensures r.Success? ==> |r.value.1| <= |ts|
    decreases |ts|
  {
    if Kind1(ts) != KComma then Success(([], ts))
    else if Kind1(Next(ts)) == KRBrace then Success(([], Next(ts)))
    else
      var (pair, ts1) :- Pair(Next(ts));
      var (more, ts2) :- MorePairs(ts1);
      Success(([pair] + more, ts2))
  }

  /** `{ a -> b, c -> d }`. */
  function PairList(ts: seq<Token>): (r: Parsed<seq<(string, string)>>)
    ensures r.Success? ==> |r.value.1| < |ts|
  {
    var ts1 :- Expect(KLBrace, ts);
    if Kind1(ts1) == KRBrace then Success(([], Next(ts1)))
    else
      var (pair, ts2) :- Pair(ts1);
      var (more, ts3) :- MorePairs(ts2);
      var ts4 :- Expect(KRBrace, ts3);
      Success(([pair] + more, ts4))
  }

  /** Of two bindings of one name the later counts. */
  function BindingsOf(pairs: seq<(string, string)>): map<string, string> {
    if pairs == [] then map[]
    else BindingsOf(pairs[..|pairs| - 1])[pairs[|pairs| - 1].0 := pairs[|pairs| - 1].1]
  }

  function ConnectionsOf(pairs: seq<(string, string)>): seq<ConnectionDef> {
    seq(|pairs|, i requires 0 <= i < |pairs| => ConnectionDef(pairs[i].0, pairs[i].1))
  }

  // ---- Texts taken verbatim ------------------------------------------------------------

  /** The tokens that end a guard. */
  predicate EndsGuard(kind: Kind) {
    kind == KLBrace || kind == KRBrace || kind == KEof || kind == KWith || kind == KOnFail
  }

  /** The number of tokens before the first that ends a guard. */
  function GuardLength(ts: seq<Token>): (n: nat)
    ensures n <= |ts| && (forall i :: 0 <= i < n ==> !EndsGuard(ts[i].kind)) && EndsGuard(Kind1(ts[n..]))
  {
    if EndsGuard(Kind1(ts)) then 0 else 1 + GuardLength(ts[1..])
  }

  function TrimLeft(lx: G.Lexicon, s: string): string {
    if s != "" && lx.isSpace(s[0]) then TrimLeft(lx, s[1..]) else s
  }

  function TrimRight(lx: G.Lexicon, s: string): string {
    if s != "" && lx.isSpace(s[|s| - 1]) then TrimRight(lx, s[..|s| - 1]) else s
  }

  function Trim(lx: G.Lexicon, s: string): string {
    TrimRight(lx, TrimLeft(lx, s))
  }

  /** The text of a run of tokens. */
  function Verbatim(src: Source, first: Token, last: Token): string {
    L.Slice(src.text, first.start, last.start + last.len)
  }

  /** `when` and the text up to the next token that ends a guard; whether it is one identifier. */
  function GuardText(src: Source, ts: seq<Token>): (r: Parsed<(string, bool)>)
    ensures r.Success? ==> |r.value.1| < |ts|
  {
    var ts1 :- Expect(KWhen, ts);
    var n := GuardLength(ts1);
    if n == 0 then Failure(Blame(Peek(ts1), EmptyGuard))
    else
      var text := Trim(src.lx, Verbatim(src, ts1[0], ts1[n - 1]));
      Success(((text, n == 1 && ts1[0].kind.KIdentifier?), ts1[n..]))
  }

  /** The brace that closes `depth` open ones, and the tokens after it. */
  function CloseBrace(ts: seq<Token>, depth: nat): (r: Option<(Token, seq<Token>)>)
    requires depth > 0
    ensures r.Some? ==> |r.value.1| < |ts|
    decreases |ts|
  {
    var kind := Kind1(ts);
    if kind == KEof then None
    else if kind == KRBrace && depth == 1 then Some((ts[0], ts[1..]))
    else CloseBrace(ts[1..], if kind == KLBrace then depth + 1 else if kind == KRBrace then depth - 1 else depth)
  }

  /** The first token that is an end marker. */
  function FirstEnd(ts: seq<Token>): Token {
    if Kind1(ts) == KEof then Peek(ts) else FirstEnd(ts[1..])
  }

  /** The text of a block in braces, with its braces. */
  function BraceBlock(src: Source, ts: seq<Token>): (r: Parsed<string>)
    ensures r.Success? ==> |r.value.1| < |ts|
  {
    var ts1 :- Expect(KLBrace, ts);
    match CloseBrace(ts1, 1)
    case None => Failure(Blame(FirstEnd(ts1), UnterminatedBlock))
    case Some((close, ts2)) => Success((Verbatim(src, ts[0], close), ts2))
  }

  // ---- Signals -------------------------------------------------------------------------

  const NO_ACTIONS := ActionBinding([], [], [])

  predicate IsHook(kind: Kind) {
    kind == KOnExit || kind == KOnTransition || kind == KOnEnter
  }

  function HookOf(actions: ActionBinding, hook: Kind): seq<string>
    requires IsHook(hook)
  {
    if hook == KOnExit then actions.onExit else if hook == KOnTransition then actions.onTransition else actions.onEnter
  }

  function SetHook(actions: ActionBinding, hook: Kind, ids: seq<string>): ActionBinding
    requires IsHook(hook)
  {
    if hook == KOnExit then actions.(onExit := ids)
    else if hook == KOnTransition then actions.(onTransition := ids)
    else actions.(onEnter := ids)
  }

  /** `: id, id`. */
  function HookIds(ts: seq<Token>): (r: Parsed<seq<string>>)
    ensures r.Success? ==> |r.value.1| < |ts| && r.value.0 != []
  {
    var ts1 :- Expect(KColon, ts);
    var (first, ts2) :- Ident(ts1);
    var (more, ts3) :- MoreNames(None, ts2);
    Success(([first] + more, ts3))
  }

  /** Lifecycle hooks, added to those read before; each may come once. */
  function Hooks(actions: ActionBinding, ts: seq<Token>): (r: Parsed<ActionBinding>)
    ensures r.Success? ==> |r.value.1| <= |ts|
    decreases |ts|
  {
    var hook := Kind1(ts);
    if !IsHook(hook) then Success((actions, ts))
    else
      var (ids, ts1) :- HookIds(Next(ts));
      if HookOf(actions, hook) != [] then Failure(Blame(Peek(ts), DuplicateHook(hook)))
      else Hooks(SetHook(actions, hook, ids), ts1)
  }

  function ActionBlock(ts: seq<Token>): (r: Parsed<ActionBinding>)
    ensures r.Success? ==> |r.value.1| <= |ts|
  {
    if Kind1(ts) != KLBrace then Success((NO_ACTIONS, ts))
    else
      var (actions, ts1) :- Hooks(NO_ACTIONS, Next(ts));
      var ts2 :- Expect(KRBrace, ts1);
      Success((actions, ts2))
  }

  function FromState(id: string, states: seq<string>, ts: seq<Token>): (r: Parsed<string>)
    ensures r.Success? ==> |r.value.1| < |ts|
    ensures r.Success? ==> r.value.0 == WILDCARD || r.value.0 in states
  {
    if Kind1(ts) == KMul then Success((WILDCARD, Next(ts)))
    else
      var (from, ts1) :- Ident(ts);
      if from !in states then Failure(Blame(Peek(ts), UnknownFrom(from, id))) else Success((from, ts1))
  }

  function GuardIfAny(src: Source, ts: seq<Token>): (r: Parsed<Option<string>>)
    ensures r.Success? ==> |r.value.1| <= |ts|
  {
    if Kind1(ts) != KWhen then Success((None, ts))
    else
      var (guard, ts1) :- GuardText(src, ts);
      Success((Some(guard.0), ts1))
  }

  function ToState(id: string, states: seq<string>, ts: seq<Token>): (r: Parsed<string>)
    ensures r.Success? ==> |r.value.1| < |ts|
    ensures r.Success? ==> r.value.0 in states
  {
    var ts1 :- Expect(KArrow, ts);
    var (to, ts2) :- Ident(ts1);
    if to !in states then Failure(Blame(Peek(ts1), UnknownTo(to, id))) else Success((to, ts2))
  }

  /** `on event from`. */
  function TransitionHead(ts: seq<Token>): (r: Parsed<string>)
    ensures r.Success? ==> |r.value.1| < |ts|
  {
    var ts1 :- Expect(KOn, ts);
    var (event, ts2) :- Ident(ts1);
    var ts3 :- Expect(KFrom, ts2);
    Success((event, ts3))
  }

  function Transition(src: Source, id: string, states: seq<string>, ts: seq<Token>): (r: Parsed<TransDecl>)
    ensures r.Success? ==> |r.value.1| < |ts|
    ensures r.Success? ==> Within(r.value.0, states)
  {
    var (event, ts1) :- TransitionHead(ts);
    var (from, ts2) :- FromState(id, states, ts1);
    var (to, ts3) :- ToState(id, states, ts2);
    var (guard, ts4) :- GuardIfAny(src, ts3);
    var (actions, ts5) :- ActionBlock(ts4);
    Success((TransDecl(event, from, to, guard, actions), ts5))
  }

  function Transitions(src: Source, id: string, states: seq<string>, ts: seq<Token>): (r: Parsed<seq<TransDecl>>)
    ensures r.Success? ==> |r.value.1| <= |ts|
    decreases |ts|
    ensures r.Success? ==> forall tr :: tr in r.value.0 ==> Within(tr, states)
  {
    if Kind1(ts) != KOn then Success(([], ts))
    else
      var (tr, ts1) :- Transition(src, id, states, ts);
      var (more, ts2) :- Transitions(src, id, states, ts1);
      Success(([tr] + more, ts2))
  }

  /** The keyword, a name not `seen` before, and the opening brace. */
  function SignalHead(seen: set<string>, ts: seq<Token>): (r: Parsed<string>)
    ensures r.Success? ==> |r.value.1| < |ts|
    ensures r.Success? ==> r.value.0 !in seen
  {
    var ts1 :- Expect(KSignal, ts);
    var (id, ts2) :- Ident(ts1);
    if id in seen then Failure(Blame(Peek(ts1), DuplicateSignal(id)))
    else
      var ts3 :- Expect(KLBrace, ts2);
      Success((id, ts3))
  }

  function StatesClause(ts: seq<Token>): (r: Parsed<seq<string>>)
    ensures r.Success? ==> |r.value.1| < |ts|
  {
    var ts1 :- Expect(KStates, ts);
    var ts2 :- Expect(KColon, ts1);
    StateList(ts2)
  }

  function InitialClause(states: seq<string>, ts: seq<Token>): (r: Parsed<string>)
    ensures r.Success? ==> |r.value.1| < |ts|
    ensures r.Success? ==> r.value.0 in states
  {
    var ts1 :- Expect(KInitial, ts);
    var ts2 :- Expect(KColon, ts1);
    var (initial, ts3) :- Ident(ts2);
    if initial !in states then Failure(Blame(Peek(ts2), UnknownInitial(initial))) else Success((initial, ts3))
  }

  function Signal(src: Source, seen: set<string>, ts: seq<Token>): (r: Parsed<SignalDecl>)
    ensures r.Success? ==> |r.value.1| < |ts|
    ensures r.Success? ==> r.value.0.id !in seen && DeclFits(r.value.0)
  {
    var (id, ts1) :- SignalHead(seen, ts);
    var (states, ts2) :- StatesClause(ts1);
    var (initial, ts3) :- InitialClause(states, ts2);
    var (transitions, ts4) :- Transitions(src, id, states, ts3);
    var ts5 :- Expect(KRBrace, ts4);
    Success((SignalDecl(id, states, initial, transitions), ts5))
  }

  // ---- Reactions -----------------------------------------------------------------------

  datatype RawGuard = Lit(text: string) | Ref(id: string)

  /** A reaction whose guard may still be the name of a guard declaration. */
  datatype RawReaction = RawReaction(
    fromSignal: string,
    fromState: string,
    toSignal: string,
    event: string,
    guard: Option<RawGuard>,
    payload: Option<string>,
    joinGroup: Option<string>,
    needs: seq<string>,
    onFail: Option<string>)

  /** The next tokens start a reaction, so `when` is not a guard of the one before. */
  predicate AtReactionHead(ts: seq<Token>) {
    Kind1(ts) == KWhen && Kind1(Next(ts)).KIdentifier? && Kind1(Next(Next(ts))) == KEnters
  }

  function RawGuardIfAny(src: Source, ts: seq<Token>): (r: Parsed<Option<RawGuard>>)
    ensures r.Success? ==> |r.value.1| <= |ts|
  {
    if Kind1(ts) != KWhen || AtReactionHead(ts) then Success((None, ts))
    else
      var (guard, ts1) :- GuardText(src, ts);
      Success((Some(if guard.1 then Ref(guard.0) else Lit(guard.0)), ts1))
  }

  function PayloadIfAny(src: Source, ts: seq<Token>): (r: Parsed<Option<string>>)
    ensures r.Success? ==> |r.value.1| <= |ts|
  {
    if Kind1(ts) == KWith then
      var (text, ts1) :- BraceBlock(src, Next(ts));
      Success((Some(text), ts1))
    else if Kind1(ts) == KLBrace then
      var ts1 :- Expect(KRBrace, Next(ts));
      Success((None, ts1))
    else Success((None, ts))
  }

  function OnFailIfAny(ts: seq<Token>): (r: Parsed<Option<string>>)
    ensures r.Success? ==> |r.value.1| <= |ts|
  {
    if Kind1(ts) != KOnFail then Success((None, ts))
    else
      var ts1 :- Expect(KColon, Next(ts));
      var (id, ts2) :- Ident(ts1);
      Success((Some(id), ts2))
  }

  /** `signal enters state`. */
  function Trigger(ts: seq<Token>): (r: Parsed<(string, string)>)
    ensures r.Success? ==> |r.value.1| < |ts|
  {
    var (signal, ts1) :- Ident(ts);
    var ts2 :- Expect(KEnters, ts1);
    var (state, ts3) :- Ident(ts2);
    Success(((signal, state), ts3))
  }

  /** `-> signal event`. */
  function Effect(ts: seq<Token>): (r: Parsed<(string, string)>)
    ensures r.Success? ==> |r.value.1| < |ts|
  {
    var ts1 :- Expect(KArrow, ts);
    var (signal, ts2) :- Ident(ts1);
    var (event, ts3) :- Ident(ts2);
    Success(((signal, event), ts3))
  }

  function ReactionBody(src: Source, ts: seq<Token>): (r: Parsed<RawReaction>)
    ensures r.Success? ==> |r.value.1| < |ts|
    ensures r.Success? ==> r.value.0.joinGroup == None && r.value.0.needs == []
  {
    var ts1 :- Expect(KWhen, ts);
    var (from, ts2) :- Trigger(ts1);
    var (to, ts3) :- Effect(ts2);
    var (guard, ts4) :- RawGuardIfAny(src, ts3);
    var (payload, ts5) :- PayloadIfAny(src, ts4);
    var (onFail, ts6) :- OnFailIfAny(ts5);
    Success((RawReaction(from.0, from.1, to.0, to.1, guard, payload, None, [], onFail), ts6))
  }

  function Reaction(src: Source, ts: seq<Token>): (r: Parsed<RawReaction>)
    ensures r.Success? ==> |r.value.1| < |ts|
    ensures r.Success? ==> r.value.0.joinGroup == None && r.value.0.needs == []
  {
    var ts1 :- Expect(KReaction, ts);
    var ts2 :- Expect(KLBrace, ts1);
    var (reaction, ts3) :- ReactionBody(src, ts2);
    var ts4 :- Expect(KRBrace, ts3);
    Success((reaction, ts4))
  }

  /** The reactions of a block, each put into the group and made to wait as given. */
  function Bodies(src: Source, group: Option<string>, needs: seq<string>, ts: seq<Token>): (r: Parsed<seq<RawReaction>>)
    ensures r.Success? ==> |r.value.1| <= |ts|
    decreases |ts|
    ensures r.Success? ==> forall x :: x in r.value.0 ==> x.joinGroup == group && x.needs == needs
  {
    if Kind1(ts) != KWhen then Success(([], ts))
    else
      var (reaction, ts1) :- ReactionBody(src, ts);
      var (more, ts2) :- Bodies(src, group, needs, ts1);
      Success(([reaction.(joinGroup := group, needs := needs)] + more, ts2))
  }

  /** The name of the fork group that is opened after `n` others. */
  function ForkName(n: nat): string {
    "fork" + G.Decimal(n)
  }

  function ForkBlock(src: Source, forks: nat, ts: seq<Token>): (r: Parsed<seq<RawReaction>>)
    ensures r.Success? ==> |r.value.1| < |ts|
    ensures r.Success? ==> forall x :: x in r.value.0 ==> x.joinGroup == Some(ForkName(forks)) && x.needs == []
  {
    var ts1 :- Expect(KFork, ts);
    var ts2 :- Expect(KLBrace, ts1);
    var (reactions, ts3) :- Bodies(src, Some(ForkName(forks)), [], ts2);
    var ts4 :- Expect(KRBrace, ts3);
    Success((reactions, ts4))
  }

  /** A join block: the group it waits on, and its reactions. */
  function JoinBlock(src: Source, ts: seq<Token>): (r: Parsed<(string, seq<RawReaction>)>)
    ensures r.Success? ==> |r.value.1| < |ts|
    ensures r.Success? ==> forall x :: x in r.value.0.1 ==> x.joinGroup == None && x.needs == [r.value.0.0]
  {
    var ts1 :- Expect(KJoin, ts);
    var (group, ts2) :- Ident(ts1);
    var ts3 :- Expect(KLBrace, ts2);
    var (reactions, ts4) :- Bodies(src, None, [group], ts3);
    var ts5 :- Expect(KRBrace, ts4);
    Success(((group, reactions), ts5))
  }

  // ---- Guards, components, instances ---------------------------------------------------

  /** A text without the braces around it. */
  function Unbrace(s: string): string {
    if |s| >= 2 && s[0] == '{' && s[|s| - 1] == '}' then s[1..|s| - 1] else s
  }

  function Guard(src: Source, seen: set<string>, ts: seq<Token>): (r: Parsed<GuardDecl>)
    ensures r.Success? ==> |r.value.1| < |ts|
    ensures r.Success? ==> r.value.0.id !in seen
  {
    var ts1 :- Expect(KGuard, ts);
    var (id, ts2) :- Ident(ts1);
    if id in seen then Failure(Blame(Peek(ts1), DuplicateGuard(id)))
    else
      var (raw, ts3) :- BraceBlock(src, ts2);
      Success((GuardDecl(id, Trim(src.lx, Unbrace(raw))), ts3))
  }

  function Direction(word: string): Option<PortDirection> {
    if word == "in" then Some(In)
    else if word == "out" then Some(Out)
    else if word == "inout" then Some(InOut)
    else None
  }

  function PortDirectionOf(ts: seq<Token>): (r: Parsed<PortDirection>)
    ensures r.Success? ==> |r.value.1| < |ts|
  {
    var (word, ts1) :- Ident(ts);
    match Direction(word)
    case None => Failure(Blame(Peek(ts), WantedDirection(word)))
    case Some(direction) => Success((direction, ts1))
  }

  /** `signal.state`. */
  function PortSource(ts: seq<Token>): (r: Parsed<(string, string)>)
    ensures r.Success? ==> |r.value.1| < |ts|
  {
    var (signal, ts1) :- Ident(ts);
    var ts2 :- Expect(KDot, ts1);
    var (state, ts3) :- Ident(ts2);
    Success(((signal, state), ts3))
  }

  function AliasIfAny(ts: seq<Token>): (r: Parsed<Option<string>>)
    ensures r.Success? ==> |r.value.1| <= |ts|
  {
    if Kind1(ts) != KAs then Success((None, ts))
    else
      var (alias, ts1) :- Ident(Next(ts));
      Success((Some(alias), ts1))
  }

  function Port(ts: seq<Token>): (r: Parsed<PortDef>)
    ensures r.Success? ==> |r.value.1| < |ts|
  {
    var ts1 :- Expect(KPort, ts);
    var (direction, ts2) :- PortDirectionOf(ts1);
    var (at, ts3) :- PortSource(ts2);
    var (alias, ts4) :- AliasIfAny(ts3);
    Success((PortDef(direction, at.0, at.1, alias), ts4))
  }

  datatype RawComponent = RawComponent(
    id: string,
    params: seq<string>,
    ports: seq<PortDef>,
    signals: seq<SignalDecl>,
    reactions: seq<RawReaction>)

  /** The members of a component through its closing brace, added to those read before. */
  function Members(src: Source, c: RawComponent, ts: seq<Token>): (r: Parsed<RawComponent>)
    ensures r.Success? ==> |r.value.1| < |ts|
    decreases |ts|
    ensures SignalsFit(c.signals) && r.Success? ==> r.value.0.id == c.id && SignalsFit(r.value.0.signals)
  {
    var kind := Kind1(ts);
    if kind == KPort then
      var (port, ts1) :- Port(ts);
      Members(src, c.(ports := c.ports + [port]), ts1)
    else if kind == KSignal then
      var (signal, ts1) :- Signal(src, IdsOf(c.signals), ts);
      OneMoreFits(c.signals, signal);
      Members(src, c.(signals := c.signals + [signal]), ts1)
    else if kind == KReaction then
      var (reaction, ts1) :- Reaction(src, ts);
      Members(src, c.(reactions := c.reactions + [reaction]), ts1)
    else if kind == KRBrace then Success((c, Next(ts)))
    else if kind == KFork || kind == KJoin then Failure(Blame(Peek(ts), NestedFork))
    else if kind == KEof then Failure(Blame(Peek(ts), UnterminatedComponent(c.id)))
    else Failure(Blame(Peek(ts), WantedMember(kind)))
  }

  function ParamsIfAny(ts: seq<Token>): (r: Parsed<seq<string>>)
    ensures r.Success? ==> |r.value.1| <= |ts|
  {
    if Kind1(ts) != KParams then Success(([], ts))
    else
      var ts1 :- Expect(KColon, Next(ts));
      StateList(ts1)
  }

  function ComponentHead(seen: set<string>, ts: seq<Token>): (r: Parsed<string>)
    ensures r.Success? ==> |r.value.1| < |ts|
    ensures r.Success? ==> r.value.0 !in seen
  {
    var ts1 :- Expect(KComponent, ts);
    var (id, ts2) :- Ident(ts1);
    if id in seen then Failure(Blame(Peek(ts1), DuplicateComponent(id)))
    else
      var ts3 :- Expect(KLBrace, ts2);
      Success((id, ts3))
  }

  function Component(src: Source, seen: set<string>, ts: seq<Token>): (r: Parsed<RawComponent>)
    ensures r.Success? ==> |r.value.1| < |ts|
    ensures r.Success? ==> r.value.0.id !in seen && SignalsFit(r.value.0.signals)
  {
    NothingFits();
    var (id, ts1) :- ComponentHead(seen, ts);
    var (params, ts2) :- ParamsIfAny(ts1);
    Members(src, RawComponent(id, params, [], [], []), ts2)
  }

  function ConnectionsIfAny(ts: seq<Token>): (r: Parsed<seq<ConnectionDef>>)
    ensures r.Success? ==> |r.value.1| <= |ts|
  {
    if Kind1(ts) != KConnect then Success(([], ts))
    else
      var (pairs, ts1) :- PairList(Next(ts));
      Success((ConnectionsOf(pairs), ts1))
  }

  /** `instantiate component as name with`; the instance's own name is read and dropped. */
  function InstantiateHead(ts: seq<Token>): (r: Parsed<string>)
    ensures r.Success? ==> |r.value.1| < |ts|
  {
    var ts1 :- Expect(KInstantiate, ts);
    var (component, ts2) :- Ident(ts1);
    var ts3 :- Expect(KAs, ts2);
    var (_, ts4) :- Ident(ts3);
    var ts5 :- Expect(KWith, ts4);
    Success((component, ts5))
  }

  function Instantiate(ts: seq<Token>): (r: Parsed<InstanceDef>)
    ensures r.Success? ==> |r.value.1| < |ts|
  {
    var (component, ts1) :- InstantiateHead(ts);
    var (pairs, ts2) :- PairList(ts1);
    var (connections, ts3) :- ConnectionsIfAny(ts2);
    Success((InstanceDef(component, BindingsOf(pairs), connections), ts3))
  }

  // ---- Documents -----------------------------------------------------------------------

  /** What has been read of a document: `forks` blocks were opened, `joins` are the groups waited on. */
  datatype Draft = Draft(
    signals: seq<SignalDecl>,
    reactions: seq<RawReaction>,
    guards: seq<GuardDecl>,
    components: seq<RawComponent>,
    instantiates: seq<InstanceDef>,
    forks: nat,
    joins: seq<string>)

  const BLANK := Draft([], [], [], [], [], 0, [])

  predicate IsFork(group: string, forks: nat) {
    exists k :: 0 <= k < forks && group == ForkName(k)
  }

  /** A reaction is in a group that a fork block opened, and waits only on groups that join blocks name. */
  ghost predicate Grouped(r: RawReaction, forks: nat, joins: seq<string>) {
    (r.joinGroup.Some? ==> IsFork(r.joinGroup.value, forks)) && forall g :: g in r.needs ==> g in joins
  }

  /** What reading keeps: signals fit, also in components, no name is defined twice, and groups are opened. */
  ghost predicate DraftFits(d: Draft) {
    && SignalsFit(d.signals)
    && (forall c :: c in d.components ==> SignalsFit(c.signals))
    && (forall i, j :: 0 <= i < j < |d.components| ==> d.components[i].id != d.components[j].id)
    && (forall i, j :: 0 <= i < j < |d.guards| ==> d.guards[i].id != d.guards[j].id)
    && (forall r :: r in d.reactions ==> Grouped(r, d.forks, d.joins))
  }

  function AddSignal(d: Draft, signal: SignalDecl): (r: Draft)
    ensures DraftFits(d) && DeclFits(signal) && signal.id !in IdsOf(d.signals) ==> DraftFits(r)
  {
    OneMoreFits(d.signals, signal);
    d.(signals := d.signals + [signal])
  }

  function AddReaction(d: Draft, reaction: RawReaction): (r: Draft)
    ensures DraftFits(d) && reaction.joinGroup == None && reaction.needs == [] ==> DraftFits(r)
  {
    d.(reactions := d.reactions + [reaction])
  }

  function GuardIds(d: Draft): set<string> {
    set g | g in d.guards :: g.id
  }

  function AddGuard(d: Draft, guard: GuardDecl): (r: Draft)
    ensures DraftFits(d) && guard.id !in GuardIds(d) ==> DraftFits(r)
  {
    assert forall i :: 0 <= i < |d.guards| ==> d.guards[i].id in GuardIds(d);
    d.(guards := d.guards + [guard])
  }

  function AddFork(d: Draft, reactions: seq<RawReaction>): (r: Draft)
    ensures DraftFits(d) && (forall x :: x in reactions ==> x.joinGroup == Some(ForkName(d.forks)) && x.needs == [])
            ==> DraftFits(r)
  {
    assert IsFork(ForkName(d.forks), d.forks + 1);
    d.(reactions := d.reactions + reactions, forks := d.forks + 1)
  }

  function AddJoin(d: Draft, group: string, reactions: seq<RawReaction>): (r: Draft)
    ensures DraftFits(d) && (forall x :: x in reactions ==> x.joinGroup == None && x.needs == [group]) ==> DraftFits(r)
  {
    d.(reactions := d.reactions + reactions, joins := d.joins + [group])
  }

  function ComponentIds(d: Draft): set<string> {
    set c | c in d.components :: c.id
  }

  function AddComponent(d: Draft, component: RawComponent): (r: Draft)
    ensures DraftFits(d) && component.id !in ComponentIds(d) && SignalsFit(component.signals) ==> DraftFits(r)
  {
    assert forall i :: 0 <= i < |d.components| ==> d.components[i].id in ComponentIds(d);
    d.(components := d.components + [component])
  }

  function AddInstance(d: Draft, inst: InstanceDef): (r: Draft)
    ensures DraftFits(d) ==> DraftFits(r)
  {
    d.(instantiates := d.instantiates + [inst])
  }

  function Item(src: Source, d: Draft, ts: seq<Token>): (r: Parsed<Draft>)
    ensures r.Success? ==> |r.value.1| < |ts|
    ensures DraftFits(d) && r.Success? ==> DraftFits(r.value.0)
  {
    var kind := Kind1(ts);
    if kind == KSignal then
      var (signal, ts1) :- Signal(src, IdsOf(d.signals), ts);
      Success((AddSignal(d, signal), ts1))
    else if kind == KReaction then
      var (reaction, ts1) :- Reaction(src, ts);
      Success((AddReaction(d, reaction), ts1))
    else if kind == KGuard then
      var (guard, ts1) :- Guard(src, GuardIds(d), ts);
      Success((AddGuard(d, guard), ts1))
    else if kind == KFork then
      var (reactions, ts1) :- ForkBlock(src, d.forks, ts);
      Success((AddFork(d, reactions), ts1))
    else if kind == KJoin then
      var (block, ts1) :- JoinBlock(src, ts);
      Success((AddJoin(d, block.0, block.1), ts1))
    else if kind == KComponent then
      var (component, ts1) :- Component(src, ComponentIds(d), ts);
      Success((AddComponent(d, component), ts1))
    else if kind == KInstantiate then
      var (inst, ts1) :- Instantiate(ts);
      Success((AddInstance(d, inst), ts1))
    else Failure(Blame(Peek(ts), WantedItem(kind)))
  }

  function Sweep(src: Source, d: Draft, ts: seq<Token>): (r: Result<Draft, SyntaxError>)
    decreases |ts|
    ensures DraftFits(d) && r.Success? ==> DraftFits(r.value)
  {
    if Kind1(ts) == KEof then Success(d)
    else
      var (d1, ts1) :- Item(src, d, ts);
      Sweep(src, d1, ts1)
  }

  /** The first of the groups that no fork block opened. */
  function StrayJoin(joins: seq<string>, forks: nat): Option<string> {
    if joins == [] then None
    else if !IsFork(joins[0], forks) then Some(joins[0])
    else StrayJoin(joins[1..], forks)
  }

  function GuardMap(guards: seq<GuardDecl>): map<string, string> {
    if guards == [] then map[]
    else GuardMap(guards[..|guards| - 1])[guards[|guards| - 1].id := guards[|guards| - 1].expr]
  }

  function ResolveReaction(guards: map<string, string>, r: RawReaction): Result<ReactionDecl, SyntaxError> {
    var decl := ReactionDecl(r.fromSignal, r.fromState, r.toSignal, r.event, None, None, r.payload, r.joinGroup,
                             r.needs, r.onFail);
    match r.guard
    case None => Success(decl)
    case Some(Lit(text)) => Success(decl.(guard := Some(text)))
    case Some(Ref(id)) =>
      if id !in guards then Failure(UndefinedGuard(id, r.fromSignal, r.fromState))
      else Success(decl.(guard := Some(guards[id]), guardRef := Some(id)))
  }

  function ResolveReactions(guards: map<string, string>,
                            rs: seq<RawReaction>): (r: Result<seq<ReactionDecl>, SyntaxError>) {
    if rs == [] then Success([])
    else
      var first :- ResolveReaction(guards, rs[0]);
      var rest :- ResolveReactions(guards, rs[1..]);
      Success([first] + rest)
  }

  function ResolveComponents(guards: map<string, string>,
                             cs: seq<RawComponent>): Result<seq<ComponentDecl>, SyntaxError> {
    if cs == [] then Success([])
    else
      var reactions :- ResolveReactions(guards, cs[0].reactions);
      var rest :- ResolveComponents(guards, cs[1..]);
      Success([ComponentDecl(cs[0].id, cs[0].params, cs[0].ports, cs[0].signals, reactions)] + rest)
  }

  /** The document a draft stands for, once the whole text has been read. */
  function Settled(d: Draft): Result<DdlDoc, SyntaxError> {
    match StrayJoin(d.joins, d.forks)
    case Some(group) => Failure(UndefinedGroup(group, d.forks))
    case None =>
      var guards := GuardMap(d.guards);
      var reactions :- ResolveReactions(guards, d.reactions);
      var components :- ResolveComponents(guards, d.components);
      Success(DdlDoc(d.signals, reactions, d.guards, components, d.instantiates))
  }

  /** What parsing a token list yields. */
  function Doc(src: Source, ts: seq<Token>): Result<DdlDoc, SyntaxError> {
    var d :- Sweep(src, BLANK, ts);
    Settled(d)
  }
}
