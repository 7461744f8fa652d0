/** Guard tokens and expressions (src/guard/token.rs, src/guard/ast.rs), and the grammar they follow. */
module GuardSyntax {
  import opened Wrappers
  import opened Schema

  datatype Token =
    | TInteger(i: int)
    | TFloat(f: Double)
    | TString(s: string)
    | TBool(b: bool)
    | TIdentifier(name: string)
    | TAnd | TOr | TNot
    | TEq | TNeq | TLt | TLte | TGt | TGte
    | TPlus | TMinus | TMul | TDiv
    | TLParen | TRParen | TDot
    | TEof

  datatype BinaryOp = Add | Sub | Mul | Div | Eq | Neq | Lt | Lte | Gt | Gte | And | Or

  datatype UnaryOp = Not | Neg

  datatype Literal = LInteger(i: int) | LFloat(f: Double) | LString(s: string) | LBool(b: bool)

  datatype Expr =
    | Binary(left: Expr, op: BinaryOp, right: Expr)
    | Unary(uop: UnaryOp, operand: Expr)
    | Lit(literal: Literal)
    | PayloadAccess(path: seq<string>)
    | Name(name: string)

  datatype SyntaxError =
    | TrailingToken(found: Token)
    | UnexpectedToken(found: Token)
    | ExpectedToken(expected: Token, found: Token)
    | ExpectedIdentifier(found: Token)

  type Parsed<T> = Result<(T, seq<Token>), SyntaxError>

  // ---- The grammar as functions on token lists -----------------------------------------

  /**
   The rungs of the precedence ladder, loosest first: `or`, `and`, comparison, addition,
   multiplication, unary, primary. All but comparison, unary and primary are left-associative.
   */
  type Rung = k: nat | k <= 6

  const OR: Rung := 0
  const AND: Rung := 1
  const COMPARISON: Rung := 2
  const ADDITION: Rung := 3
  const MULTIPLICATION: Rung := 4
  const UNARY: Rung := 5
  const PRIMARY: Rung := 6

  function RungOf(op: BinaryOp): Rung {
    match op
    case Or => OR
    case And => AND
    case Eq | Neq | Lt | Lte | Gt | Gte => COMPARISON
    case Add | Sub => ADDITION
    case Mul | Div => MULTIPLICATION
  }

  /** The binary operator that a token stands for. */
  function OpOf(t: Token): Option<BinaryOp> {
    match t
    case TOr => Some(Or)
    case TAnd => Some(And)
    case TEq => Some(Eq)
    case TNeq => Some(Neq)
    case TLt => Some(Lt)
    case TLte => Some(Lte)
    case TGt => Some(Gt)
    case TGte => Some(Gte)
    case TPlus => Some(Add)
    case TMinus => Some(Sub)
    case TMul => Some(Mul)
    case TDiv => Some(Div)
    case _ => None
  }

  /** The operator of rung `k` that a token stands for. */
  function OpAt(k: Rung, t: Token): Option<BinaryOp> {
    var op := OpOf(t);
    if op.Some? && RungOf(op.value) == k then op else None
  }

  function Peek(ts: seq<Token>): Token {
    if ts == [] then TEof else ts[0]
  }

  /** Parses an expression of rung `k` and returns it with the tokens that follow it. */
  function Parse(k: Rung, ts: seq<Token>): (r: Parsed<Expr>)
    ensures r.Success? ==> |r.value.1| < |ts|
    decreases |ts|, 7 - k, 0
  {
    if k == PRIMARY then ParsePrimary(ts)
    else if k == UNARY then
      if Peek(ts) == TNot || Peek(ts) == TMinus then
        var (e, rest) :- Parse(UNARY, ts[1..]);
        Success((Unary(if ts[0] == TNot then Not else Neg, e), rest))
      else Parse(PRIMARY, ts)
    else if k == COMPARISON then
      var (left, rest) :- Parse(ADDITION, ts);
      match OpAt(COMPARISON, Peek(rest))
      case None => Success((left, rest))
      case Some(op) =>
        var (right, rest1) :- Parse(ADDITION, rest[1..]);
        Success((Binary(left, op, right), rest1))
    else
      var (left, rest) :- Parse(k + 1, ts);
      Continue(k, left, rest)
  }

  /** Extends `left` to the left-associative chain of rung `k` that it starts. */
  function Continue(k: Rung, left: Expr, ts: seq<Token>): (r: Parsed<Expr>)
    requires k < PRIMARY
    ensures r.Success? ==> |r.value.1| <= |ts|
    decreases |ts|, 7 - k, 1
  {
    match OpAt(k, Peek(ts))
    case None => Success((left, ts))
    case Some(op) =>
      var (right, rest) :- Parse(k + 1, ts[1..]);
      Continue(k, Binary(left, op, right), rest)
  }

  function ParsePrimary(ts: seq<Token>): (r: Parsed<Expr>)
    ensures r.Success? ==> |r.value.1| < |ts|
    decreases |ts|, 0, 0
  {
    match Peek(ts)
    case TInteger(i) => Success((Lit(LInteger(i)), ts[1..]))
    case TFloat(f) => Success((Lit(LFloat(f)), ts[1..]))
    case TString(s) => Success((Lit(LString(s)), ts[1..]))
    case TBool(b) => Success((Lit(LBool(b)), ts[1..]))
    case TLParen =>
      var (e, rest) :- Parse(OR, ts[1..]);
      if Peek(rest) == TRParen then Success((e, rest[1..])) else Failure(ExpectedToken(TRParen, Peek(rest)))
    case TIdentifier(name) => NameFrom(name, ts[1..])
    case other => Failure(UnexpectedToken(other))
  }

  const PAYLOAD: string := "payload"

  /** The parts of a dotted name after the first. */
  function ParsePath(ts: seq<Token>): (r: Parsed<seq<string>>)
    ensures r.Success? ==> |r.value.1| <= |ts|
    decreases |ts|
  {
    if Peek(ts) != TDot then Success(([], ts))
    else if !Peek(ts[1..]).TIdentifier? then Failure(ExpectedIdentifier(Peek(ts[1..])))
    else
      var (tail, rest) :- ParsePath(ts[2..]);
      Success(([ts[1].name] + tail, rest))
  }

  function Dotted(path: seq<string>): string {
    if path == [] then "" else if |path| == 1 then path[0] else path[0] + "." + Dotted(path[1..])
  }

  /** The expression that a name and the parts after its dots stand for. */
  function NameOf(name: string, tail: seq<string>): Expr {
    if tail == [] then Name(name) else if name == PAYLOAD then PayloadAccess(tail) else Name(Dotted([name] + tail))
  }

  function NameFrom(name: string, ts: seq<Token>): (r: Parsed<Expr>)
    ensures r.Success? ==> |r.value.1| <= |ts|
  {
    var (tail, rest) :- ParsePath(ts);
    Success((NameOf(name, tail), rest))
  }

  /** A whole guard: an expression and then the end. */
  function ParseAll(ts: seq<Token>): Result<Expr, SyntaxError> {
    match Parse(OR, ts)
    case Failure(e) => Failure(e)
    case Success((e, rest)) => if Peek(rest) == TEof then Success(e) else Failure(TrailingToken(Peek(rest)))
  }
}
