/** Tokens of the domain description language (src/ddl/mod.rs) and its syntax tree (src/ddl/parser.rs). */
module DdlSyntax {
  import opened Wrappers
  import opened Schema

  datatype Kind =
    | KIdentifier(name: string)
    | KString(s: string)
    | KInteger(i: int)
    | KFloat(f: Double)
    | KBool(b: bool)
    | KSignal | KStates | KInitial | KOn | KFrom | KTo | KParams | KWhen | KReaction | KEnters | KWith
    | KOnExit | KOnTransition | KOnEnter | KOnFail | KGuard | KFork | KJoin
    | KComponent | KPort | KInstantiate | KConnect | KAs
    | KAnd | KOr | KNot
    | KLBracket | KRBracket | KLBrace | KRBrace | KLParen | KRParen | KArrow | KColon | KComma | KDot
    | KPlus | KMinus | KMul | KDiv | KEq | KNeq | KLt | KLte | KGt | KGte
    | KEof

  /** `line` and `col` count from one; `start` and `len` are in bytes. */
  datatype Token = Token(kind: Kind, line: nat, col: nat, start: nat, len: nat)

  datatype TransDecl = TransDecl(event: string, from: string, to: string, guard: Option<string>, actions: ActionBinding)

  datatype SignalDecl = SignalDecl(id: string, states: seq<string>, initial: string, transitions: seq<TransDecl>)

  /** `guardRef` names the guard declaration that `guard` was taken from. */
  datatype ReactionDecl = ReactionDecl(
    fromSignal: string,
    fromState: string,
    toSignal: string,
    event: string,
    guard: Option<string>,
    guardRef: Option<string>,
    payload: Option<string>,
    joinGroup: Option<string>,
    needs: seq<string>,
    onFail: Option<string>)

  datatype GuardDecl = GuardDecl(id: string, expr: string)

  datatype ComponentDecl = ComponentDecl(
    id: string,
    params: seq<string>,
    ports: seq<PortDef>,
    signals: seq<SignalDecl>,
    reactions: seq<ReactionDecl>)

  datatype DdlDoc = DdlDoc(
    signals: seq<SignalDecl>,
    reactions: seq<ReactionDecl>,
    guards: seq<GuardDecl>,
    components: seq<ComponentDecl>,
    instantiates: seq<InstanceDef>)

  // ---- Declarations that fit -----------------------------------------------------------

  ghost predicate DistinctDecls(decls: seq<SignalDecl>) {
    forall i, j :: 0 <= i < j < |decls| ==> decls[i].id != decls[j].id
  }

  /** `tr` leads from a state of `states`, or any, to a state of `states`. */
  predicate Within(tr: TransDecl, states: seq<string>) {
    tr.to in states && (tr.from == WILDCARD || tr.from in states)
  }

  /** Every transition stays among its signal's states. */
  ghost predicate DeclsFit(decls: seq<SignalDecl>) {
    forall d, tr :: d in decls && tr in d.transitions ==> Within(tr, d.states)
  }

  ghost predicate DeclFits(d: SignalDecl) {
    d.initial in d.states && forall tr :: tr in d.transitions ==> Within(tr, d.states)
  }

  /** Distinct signals, each starting in one of its states, and transitions between them. */
  ghost predicate SignalsFit(decls: seq<SignalDecl>) {
    DistinctDecls(decls) && DeclsFit(decls) && forall d :: d in decls ==> d.initial in d.states
  }

  function IdsOf(signals: seq<SignalDecl>): set<string> {
    set s | s in signals :: s.id
  }

  lemma OneMoreFits(decls: seq<SignalDecl>, d: SignalDecl)
    ensures SignalsFit(decls) && DeclFits(d) && d.id !in IdsOf(decls) ==> SignalsFit(decls + [d])
  {
    if SignalsFit(decls) && DeclFits(d) && d.id !in IdsOf(decls) {
      forall i | 0 <= i < |decls| ensures decls[i].id != d.id {
        assert decls[i].id in IdsOf(decls);
      }
    }
  }

  lemma NothingFits()
    ensures SignalsFit([])
  {}
}
