/**
 Scripts: documents as they are written, with signals, guard declarations, reactions in fork
 and join blocks, components and their instances. A script prints to token kinds; where a text is taken verbatim, the
 print notes the text that the tokens have to show.
 */
module DdlScript {
  import opened Wrappers
  import opened Schema
  import opened DdlSyntax
  import opened DdlGrammar
  import G = GuardLexer

  // ---- Scripts -------------------------------------------------------------------------

  /** Tokens that are taken as text, and that text. */
  datatype Phrase = Phrase(kinds: seq<Kind>, text: string)

  /** A transition as written: its action block may be missing, and may be empty. */
  datatype Clause = Clause(event: string, from: string, to: string, guard: Option<Phrase>, block: Option<ActionBinding>)

  /** A signal as written. */
  datatype Sheet = Sheet(id: string, states: seq<string>, initial: string, clauses: seq<Clause>)

  /** What follows a reaction's guard: nothing, the empty braces, or a payload. */
  datatype Tail = Bare | Blank | Payload(inner: Phrase)

  /** A reaction as written. */
  datatype Rule = Rule(
    fromSignal: string,
    fromState: string,
    toSignal: string,
    event: string,
    guard: Option<Phrase>,
    tail: Tail,
    onFail: Option<string>)

  /** What a component can hold. */
  datatype Member = OfSheet(sheet: Sheet) | OfRule(rule: Rule) | OfPort(port: PortDef)

  type Pairs = seq<(string, string)>

  /** Besides reactions and guard declarations: a component, and a copy of one with its bindings and wires. */
  datatype Block =
    | Single(rule: Rule)
    | ForkOf(rules: seq<Rule>)
    | JoinOn(group: string, rules: seq<Rule>)
    | Define(id: string, body: Phrase)
    | Unit(id: string, params: Option<seq<string>>, members: seq<Member>)
    | Copy(component: string, name: string, bindings: Pairs, wires: Option<Pairs>)

  datatype Script = Script(signals: seq<Sheet>, blocks: seq<Block>)

  // ---- Printing ------------------------------------------------------------------------

  /** The text of a run of tokens that starts here. */
  datatype Note = Note(length: nat, text: string, trimmed: bool)

  datatype Mark = Mark(kind: Kind, note: Option<Note>)

  type Marks = seq<Mark>

  function J(kind: Kind): Mark {
    Mark(kind, None)
  }

  function Plain(kinds: seq<Kind>): (marks: Marks)
    ensures |marks| == |kinds| && forall i :: 0 <= i < |kinds| ==> marks[i] == J(kinds[i])
  {
    seq(|kinds|, i requires 0 <= i < |kinds| => J(kinds[i]))
  }

  function Noted(kinds: seq<Kind>, text: string, trimmed: bool): Marks {
    if kinds == [] then [] else [Mark(kinds[0], Some(Note(|kinds|, text, trimmed)))] + Plain(kinds[1..])
  }

  function PrintMore(names: seq<string>): Marks {
    if names == [] then [] else [J(KComma), J(KIdentifier(names[0]))] + PrintMore(names[1..])
  }

  function PrintStates(states: seq<string>): Marks {
    [J(KLBracket)] + (if states == [] then []
                      else [J(KIdentifier(states[0]))] + PrintMore(states[1..])) + [J(KRBracket)]
  }

  function PrintHook(hook: Kind, ids: seq<string>): Marks {
    if ids == [] then [] else [J(hook), J(KColon), J(KIdentifier(ids[0]))] + PrintMore(ids[1..])
  }

  function PrintHooks(a: ActionBinding): Marks {
    PrintHook(KOnExit, a.onExit) + PrintHook(KOnTransition, a.onTransition) + PrintHook(KOnEnter, a.onEnter)
  }

  function PrintActions(block: Option<ActionBinding>): Marks {
    match block
    case None => []
    case Some(a) => [J(KLBrace)] + (PrintHooks(a) + [J(KRBrace)])
  }

  function PrintGuard(guard: Option<Phrase>): Marks {
    match guard
    case None => []
    case Some(g) => [J(KWhen)] + Noted(g.kinds, g.text, true)
  }

  function PrintMove(c: Clause): Marks {
    [J(if c.from == WILDCARD then KMul else KIdentifier(c.from)), J(KArrow), J(KIdentifier(c.to))]
  }

  /** A transition up to its action block. */
  function PrintHead(c: Clause): Marks {
    [J(KOn), J(KIdentifier(c.event)), J(KFrom)] + (PrintMove(c) + PrintGuard(c.guard))
  }

  function PrintClause(c: Clause): Marks {
    PrintHead(c) + PrintActions(c.block)
  }

  function PrintClauses(cs: seq<Clause>): Marks {
    if cs == [] then [] else PrintClause(cs[0]) + PrintClauses(cs[1..])
  }

  function PrintSheet(d: Sheet): Marks {
    [J(KSignal), J(KIdentifier(d.id)), J(KLBrace)]
    + (([J(KStates), J(KColon)] + PrintStates(d.states))
       + ([J(KInitial), J(KColon), J(KIdentifier(d.initial))] + (PrintClauses(d.clauses) + [J(KRBrace)])))
  }

  function PrintBraced(p: Phrase): Marks {
    Noted([KLBrace] + p.kinds + [KRBrace], p.text, false)
  }

  function PrintTail(tail: Tail): Marks {
    match tail
    case Bare => []
    case Blank => [J(KLBrace)] + [J(KRBrace)]
    case Payload(inner) => [J(KWith)] + PrintBraced(inner)
  }

  function PrintOnFail(onFail: Option<string>): Marks {
    if onFail.None? then [] else [J(KOnFail), J(KColon), J(KIdentifier(onFail.value))] + []
  }

  /** A reaction up to what follows its guard. */
  function PrintRuleHead(r: Rule): Marks {
    [J(KWhen)]
    + ([J(KIdentifier(r.fromSignal)), J(KEnters), J(KIdentifier(r.fromState))]
       + ([J(KArrow), J(KIdentifier(r.toSignal)), J(KIdentifier(r.event))] + PrintGuard(r.guard)))
  }

  function PrintRule(r: Rule): Marks {
    PrintRuleHead(r) + (PrintTail(r.tail) + PrintOnFail(r.onFail))
  }

  function PrintRules(rs: seq<Rule>): Marks {
    if rs == [] then [] else PrintRule(rs[0]) + PrintRules(rs[1..])
  }

  function DirectionWord(d: PortDirection): string {
    match d
    case In => "in"
    case Out => "out"
    case InOut => "inout"
  }

  function PrintAlias(alias: Option<string>): Marks {
    match alias
    case None => []
    case Some(name) => [J(KAs)] + [J(KIdentifier(name))]
  }

  function PrintPort(p: PortDef): Marks {
    [J(KPort), J(KIdentifier(DirectionWord(p.direction)))]
    + ([J(KIdentifier(p.signal)), J(KDot), J(KIdentifier(p.state))] + PrintAlias(p.alias))
  }

  function PrintMember(m: Member): Marks {
    match m
    case OfSheet(d) => PrintSheet(d)
    case OfRule(r) => PrintSingle(r)
    case OfPort(p) => PrintPort(p)
  }

  function PrintMembers(ms: seq<Member>): Marks {
    if ms == [] then [] else PrintMember(ms[0]) + PrintMembers(ms[1..])
  }

  function PrintParams(params: Option<seq<string>>): Marks {
    match params
    case None => []
    case Some(names) => [J(KParams), J(KColon)] + PrintStates(names)
  }

  function PrintPair(p: (string, string)): Marks {
    [J(KIdentifier(p.0)), J(KArrow), J(KIdentifier(p.1))] + []
  }

  function PrintMorePairs(ps: Pairs): Marks {
    if ps == [] then [] else [J(KComma)] + (PrintPair(ps[0]) + PrintMorePairs(ps[1..]))
  }

  function PrintPairs(ps: Pairs): Marks {
    [J(KLBrace)] + (if ps == [] then [J(KRBrace)] else PrintPair(ps[0]) + (PrintMorePairs(ps[1..]) + [J(KRBrace)]))
  }

  function PrintWires(wires: Option<Pairs>): Marks {
    match wires
    case None => []
    case Some(ps) => [J(KConnect)] + PrintPairs(ps)
  }

  function PrintSingle(r: Rule): Marks {
    [J(KReaction), J(KLBrace)] + (PrintRule(r) + [J(KRBrace)])
  }

  function PrintBlock(b: Block): Marks {
    match b
    case Single(r) => PrintSingle(r)
    case ForkOf(rs) => [J(KFork), J(KLBrace)] + (PrintRules(rs) + [J(KRBrace)])
    case JoinOn(group, rs) => [J(KJoin), J(KIdentifier(group)), J(KLBrace)] + (PrintRules(rs) + [J(KRBrace)])
    case Define(id, body) => [J(KGuard), J(KIdentifier(id))] + PrintBraced(body)
    case Unit(id, params, members) =>
      [J(KComponent), J(KIdentifier(id)), J(KLBrace)] + (PrintParams(params) + (PrintMembers(members) + [J(KRBrace)]))
    case Copy(component, name, bindings, wires) =>
      [J(KInstantiate), J(KIdentifier(component)), J(KAs)]
      + ([J(KIdentifier(name)), J(KWith)] + (PrintPairs(bindings) + PrintWires(wires)))
  }

  function PrintSheets(ds: seq<Sheet>): Marks {
    if ds == [] then [] else PrintSheet(ds[0]) + PrintSheets(ds[1..])
  }

  function PrintBlocks(bs: seq<Block>): Marks {
    if bs == [] then [] else PrintBlock(bs[0]) + PrintBlocks(bs[1..])
  }

  function PrintScript(s: Script): Marks {
    PrintSheets(s.signals) + (PrintBlocks(s.blocks) + [J(KEof)])
  }

  // ---- What can be written -------------------------------------------------------------

  /** A guard has a token, and none that would end it. */
  predicate Sayable(g: Phrase) {
    g.kinds != [] && forall i :: 0 <= i < |g.kinds| ==> !EndsGuard(g.kinds[i])
  }

  /** A reaction's guard does not look like the next reaction. */
  predicate SayableInRule(g: Phrase) {
    Sayable(g) && !(|g.kinds| >= 2 && g.kinds[0].KIdentifier? && g.kinds[1] == KEnters)
  }

  /** Reading `kinds` within `depth` open braces closes all but one of them, and never the last one on the way. */
  predicate Balanced(kinds: seq<Kind>, depth: nat) {
    if kinds == [] then depth == 1
    else
      kinds[0] != KEof && depth > 0 && (kinds[0] == KRBrace ==> depth > 1)
      && Balanced(kinds[1..],
                  if kinds[0] == KLBrace then depth + 1 else if kinds[0] == KRBrace then depth - 1 else depth)
  }

  predicate GoodClause(c: Clause) {
    c.guard.Some? ==> Sayable(c.guard.value)
  }

  predicate GoodRule(r: Rule) {
    (r.guard.Some? ==> SayableInRule(r.guard.value)) && (r.tail.Payload? ==> Balanced(r.tail.inner.kinds, 1))
  }

  predicate GoodBlock(b: Block) {
    match b
    case Single(r) => GoodRule(r)
    case ForkOf(rs) => forall r :: r in rs ==> GoodRule(r)
    case JoinOn(_, rs) => forall r :: r in rs ==> GoodRule(r)
    case Define(_, body) => Balanced(body.kinds, 1)
    case Unit(_, _, members) => forall m :: m in members ==> GoodMember(m)
    case Copy(_, _, _, _) => true
  }

  predicate GoodSheet(d: Sheet) {
    forall c :: c in d.clauses ==> GoodClause(c)
  }

  predicate GoodMember(m: Member) {
    match m
    case OfSheet(d) => GoodSheet(d) && Closed(d.clauses)
    case OfRule(r) => GoodRule(r)
    case OfPort(_) => true
  }

  /** A guard with nothing after it that would end it. */
  predicate OpenClause(c: Clause) {
    c.guard.Some? && c.block.None?
  }

  predicate OpenRule(r: Rule) {
    r.guard.Some? && r.tail.Bare? && r.onFail.None?
  }

  /** Every guarded transition has an action block or is the last. */
  predicate Closed(cs: seq<Clause>) {
    forall i :: 0 <= i < |cs| - 1 ==> !OpenClause(cs[i])
  }

  /** Every guarded reaction of a block has something after its guard or is the last. */
  predicate ClosedRules(rs: seq<Rule>) {
    forall i :: 0 <= i < |rs| - 1 ==> !OpenRule(rs[i])
  }

  predicate ClosedBlock(b: Block) {
    match b
    case ForkOf(rs) => ClosedRules(rs)
    case JoinOn(_, rs) => ClosedRules(rs)
    case _ => true
  }

  /** Guards and texts can be read where they stand, and no guard and no component is declared twice. */
  ghost predicate GoodScript(s: Script) {
    && (forall d :: d in s.signals ==> GoodSheet(d) && Closed(d.clauses))
    && (forall b :: b in s.blocks ==> GoodBlock(b) && ClosedBlock(b))
    && DistinctDefinitions(s.blocks)
  }

  ghost predicate DistinctDefinitions(bs: seq<Block>) {
    && (forall i, j :: 0 <= i < j < |bs| && bs[i].Define? && bs[j].Define? ==> bs[i].id != bs[j].id)
    && (forall i, j :: 0 <= i < j < |bs| && bs[i].Unit? && bs[j].Unit? ==> bs[i].id != bs[j].id)
  }

  // ---- What a script means -------------------------------------------------------------

  function TextIfAny(guard: Option<Phrase>): Option<string> {
    match guard
    case None => None
    case Some(g) => Some(g.text)
  }

  function ClauseDecl(c: Clause): TransDecl {
    TransDecl(c.event, c.from, c.to, TextIfAny(c.guard), if c.block.Some? then c.block.value else NO_ACTIONS)
  }

  function ClauseDecls(cs: seq<Clause>): (trs: seq<TransDecl>)
    ensures |trs| == |cs| && forall i :: 0 <= i < |cs| ==> trs[i] == ClauseDecl(cs[i])
  {
    if cs == [] then [] else [ClauseDecl(cs[0])] + ClauseDecls(cs[1..])
  }

  function SheetDecl(d: Sheet): SignalDecl {
    SignalDecl(d.id, d.states, d.initial, ClauseDecls(d.clauses))
  }

  function SheetDecls(ds: seq<Sheet>): seq<SignalDecl> {
    if ds == [] then [] else [SheetDecl(ds[0])] + SheetDecls(ds[1..])
  }

  /** A guard of one name refers to a declaration. */
  function RawGuardOf(guard: Option<Phrase>): Option<RawGuard> {
    match guard
    case None => None
    case Some(g) => Some(if |g.kinds| == 1 && g.kinds[0].KIdentifier? then Ref(g.text) else Lit(g.text))
  }

  function RawTail(tail: Tail): Option<string> {
    if tail.Payload? then Some(tail.inner.text) else None
  }

  function Raw(r: Rule, group: Option<string>, needs: seq<string>): RawReaction {
    RawReaction(r.fromSignal, r.fromState, r.toSignal, r.event, RawGuardOf(r.guard), RawTail(r.tail), group, needs,
                r.onFail)
  }

  function RawAll(rs: seq<Rule>, group: Option<string>, needs: seq<string>): seq<RawReaction> {
    if rs == [] then [] else [Raw(rs[0], group, needs)] + RawAll(rs[1..], group, needs)
  }

  function SheetsOf(ms: seq<Member>): seq<Sheet> {
    if ms == [] then []
    else if ms[0].OfSheet? then [ms[0].sheet] + SheetsOf(ms[1..])
    else SheetsOf(ms[1..])
  }

  function RulesOf(ms: seq<Member>): seq<Rule> {
    if ms == [] then []
    else if ms[0].OfRule? then [ms[0].rule] + RulesOf(ms[1..])
    else RulesOf(ms[1..])
  }

  function PortsOf(ms: seq<Member>): seq<PortDef> {
    if ms == [] then []
    else if ms[0].OfPort? then [ms[0].port] + PortsOf(ms[1..])
    else PortsOf(ms[1..])
  }

  /** A component holds its ports, signals and reactions, each in the order in which they are written. */
  function RawUnit(id: string, params: Option<seq<string>>, ms: seq<Member>): RawComponent {
    RawComponent(id, if params.Some? then params.value else [], PortsOf(ms), SheetDecls(SheetsOf(ms)),
                 RawAll(RulesOf(ms), None, []))
  }

  /** An instance. Its own name is lost. */
  function RawCopy(component: string, bindings: Pairs, wires: Option<Pairs>): InstanceDef {
    InstanceDef(component, BindingsOf(bindings), if wires.Some? then ConnectionsOf(wires.value) else [])
  }

  ghost predicate UnitFits(b: Block) {
    b.Unit? ==> SignalsFit(SheetDecls(SheetsOf(b.members)))
  }

  /** The signals of the script, and those of each of its components, fit. */
  ghost predicate ScriptFits(s: Script) {
    SignalsFit(SheetDecls(s.signals)) && forall b :: b in s.blocks ==> UnitFits(b)
  }

  /** A draft with a block read after it. Fork blocks are named in the order in which they are written. */
  function Plus(lx: G.Lexicon, d: Draft, b: Block): Draft {
    match b
    case Single(r) => AddReaction(d, Raw(r, None, []))
    case ForkOf(rs) => AddFork(d, RawAll(rs, Some(ForkName(d.forks)), []))
    case JoinOn(group, rs) => AddJoin(d, group, RawAll(rs, None, [group]))
    case Define(id, body) => AddGuard(d, GuardDecl(id, Trim(lx, Unbrace(body.text))))
    case Unit(id, params, members) => AddComponent(d, RawUnit(id, params, members))
    case Copy(component, _, bindings, wires) => AddInstance(d, RawCopy(component, bindings, wires))
  }

  function PlusAll(lx: G.Lexicon, d: Draft, bs: seq<Block>): Draft
    decreases |bs|
  {
    if bs == [] then d else PlusAll(lx, Plus(lx, d, bs[0]), bs[1..])
  }

  function DraftOf(lx: G.Lexicon, s: Script): Draft {
    PlusAll(lx, BLANK.(signals := SheetDecls(s.signals)), s.blocks)
  }

  /** What parsing a script should give: joins and guard names, also components', are looked up in the whole of it. */
  function Outcome(lx: G.Lexicon, s: Script): Result<DdlDoc, SyntaxError> {
    Settled(DraftOf(lx, s))
  }
}
