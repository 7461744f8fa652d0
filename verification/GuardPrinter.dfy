/**
 Printing guard expressions with as few parentheses as the grammar allows, and the round
 trip: parsing what is printed gives the expression back.
 */
module GuardPrinter {
  import opened Wrappers
  import opened GuardSyntax

  // ---- The printer ---------------------------------------------------------------------

  function TokenOf(op: BinaryOp): Token {
    match op
    case Or => TOr
    case And => TAnd
    case Eq => TEq
    case Neq => TNeq
    case Lt => TLt
    case Lte => TLte
    case Gt => TGt
    case Gte => TGte
    case Add => TPlus
    case Sub => TMinus
    case Mul => TMul
    case Div => TDiv
  }

  /** The rung on which an expression can stand without parentheses. */
  function RungOfExpr(e: Expr): Rung {
    match e
    case Binary(_, op, _) => RungOf(op)
    case Unary(_, _) => UNARY
    case _ => PRIMARY
  }

  /** The expressions that can be written down: payload paths have at least one field. */
  predicate Printable(e: Expr) {
    match e
    case Binary(left, _, right) => Printable(left) && Printable(right)
    case Unary(_, operand) => Printable(operand)
    case PayloadAccess(path) => path != []
    case _ => true
  }

  function PrintPath(path: seq<string>): seq<Token> {
    if path == [] then [] else [TDot, TIdentifier(path[0])] + PrintPath(path[1..])
  }

  /** The tokens of `e` where an expression of rung `k` is expected. */
  function Print(e: Expr, k: Rung): seq<Token>
    decreases e, k
  {
    if RungOfExpr(e) < k then [TLParen] + Print(e, OR) + [TRParen]
    else
      match e
      case Binary(left, op, right) =>
        var j := RungOf(op);
        Print(left, if j == COMPARISON then ADDITION else j) + [TokenOf(op)] + Print(right, j + 1)
      case Unary(op, operand) => [if op == Not then TNot else TMinus] + Print(operand, UNARY)
      case Lit(LInteger(i)) => [TInteger(i)]
      case Lit(LFloat(f)) => [TFloat(f)]
      case Lit(LString(s)) => [TString(s)]
      case Lit(LBool(b)) => [TBool(b)]
      case PayloadAccess(path) => [TIdentifier(PAYLOAD)] + PrintPath(path)
      case Name(name) => [TIdentifier(name)]
  }

  // ---- The round trip ------------------------------------------------------------------

  /** The token cannot extend an expression of rung `k`. */
  predicate Stops(k: Rung, t: Token) {
    t != TDot && (OpOf(t).Some? ==> RungOf(OpOf(t).value) < k)
  }

  /** Rungs whose parser takes the longest chain of operators. */
  predicate Chains(k: Rung) {
    k != COMPARISON && k < UNARY
  }

  /** What parsing `e` followed by `rest` gives on rung `k`: `e`, or the chain that `e` starts. */
  function Expected(k: Rung, e: Expr, rest: seq<Token>): Parsed<Expr> {
    if Chains(k) then Continue(k, e, rest) else Success((e, rest))
  }

  lemma StopsMeans(k: Rung, e: Expr, rest: seq<Token>)
    requires Stops(k, Peek(rest))
    ensures Expected(k, e, rest) == Success((e, rest))
  {}

  lemma {:induction false} PathRoundTrip(path: seq<string>, rest: seq<Token>)
    requires Peek(rest) != TDot
    ensures ParsePath(PrintPath(path) + rest) == Success((path, rest))
  {
    if path == [] {
      assert [] + rest == rest;
    } else {
      var tail := PrintPath(path[1..]) + rest;
      var ts := PrintPath(path) + rest;
      assert ts == [TDot, TIdentifier(path[0])] + tail;
      assert ts[0] == TDot && ts[1..][0] == ts[1] == TIdentifier(path[0]) && ts[2..] == tail;
      PathRoundTrip(path[1..], rest);
      assert [path[0]] + path[1..] == path;
      hide PrintPath;
    }
  }

  /** Descending the ladder: an expression of a tighter rung is found by the looser rungs. */
  lemma {:induction false} Descend(k: Rung, ts: seq<Token>, e: Expr, rest: seq<Token>)
    requires k < PRIMARY && Parse(k + 1, ts) == Success((e, rest))
    requires k == UNARY ==> Peek(ts) != TNot && Peek(ts) != TMinus
    requires k == COMPARISON ==> Stops(COMPARISON, Peek(rest))
    ensures Parse(k, ts) == Expected(k, e, rest)
  {}

  /** What follows does not extend an expression printed for rung `k`. */
  predicate StopsAt(k: Rung, rest: seq<Token>) {
    Stops(if Chains(k) then k + 1 else k, Peek(rest))
  }

  /** What parses as a primary parses on every rung. */
  lemma {:induction false} DescendAll(k: Rung, ts: seq<Token>, e: Expr, rest: seq<Token>)
    requires Parse(PRIMARY, ts) == Success((e, rest)) && Peek(ts) != TNot && Peek(ts) != TMinus && StopsAt(k, rest)
    ensures Parse(k, ts) == Expected(k, e, rest)
    decreases PRIMARY - k
  {
    hide Parse;
    if k < PRIMARY {
      DescendAll(k + 1, ts, e, rest);
      StopsMeans(k + 1, e, rest);
      Descend(k, ts, e, rest);
    }
  }

  /** The main lemma, for an expression in any context that does not extend it. */
  lemma {:induction false} PrintParses(e: Expr, k: Rung, rest: seq<Token>)
    requires Printable(e) && StopsAt(k, rest)
    ensures Parse(k, Print(e, k) + rest) == Expected(k, e, rest)
    decreases e, if RungOfExpr(e) < k then 1 else 0, PRIMARY - k, 1
  {
    hide Parse, Continue, Print, Expected;
    var j := RungOfExpr(e);
    if j < k {
      PrintParses(e, OR, [TRParen] + rest);
      StopsMeans(OR, e, [TRParen] + rest);
      Parenthesized(e, k, rest);
    } else if j == PRIMARY {
      LeafParses(e, rest);
      PrintIsTight(e, k, PRIMARY);
      DescendAll(k, Print(e, PRIMARY) + rest, e, rest);
    } else if j > k {
      PrintIsTight(e, k, k + 1);
      PrintParses(e, k + 1, rest);
      StopsMeans(k + 1, e, rest);
      Descend(k, Print(e, k + 1) + rest, e, rest);
    } else if e.Unary? {
      PrintParses(e.operand, UNARY, rest);
      UnaryParses(e.uop, e.operand, rest);
    } else {
      BinaryParses(e.left, e.op, e.right, rest);
    }
  }

  lemma {:induction false} BinaryParses(left: Expr, op: BinaryOp, right: Expr, rest: seq<Token>)
    requires Printable(left) && Printable(right) && StopsAt(RungOf(op), rest)
    ensures var e, k := Binary(left, op, right), RungOf(op);
            Parse(k, Print(e, k) + rest) == Expected(k, e, rest)
    decreases Binary(left, op, right), 0, PRIMARY - RungOf(op), 0
  {
    hide Parse, Continue, Print, Expected;
    var e, k := Binary(left, op, right), RungOf(op);
    var sub := if k == COMPARISON then ADDITION else k;
    var after := Print(right, k + 1) + rest;
    PrintOfBinary(left, op, right, rest);
    TokenOfOp(op);
    PrintParses(left, sub, [TokenOf(op)] + after);
    PrintParses(right, k + 1, rest);
    StopsMeans(k + 1, right, rest);
    if k == COMPARISON {
      StopsMeans(ADDITION, left, [TokenOf(op)] + after);
      ComparisonParses(Print(e, k) + rest, left, op, after, right, rest);
    } else {
      ChainParses(k, left, op, after, right, rest);
    }
  }

  lemma PrintOfBinary(left: Expr, op: BinaryOp, right: Expr, rest: seq<Token>)
    ensures var k := RungOf(op);
            Print(Binary(left, op, right), k) + rest ==
            Print(left, if k == COMPARISON then ADDITION else k) + ([TokenOf(op)] + (Print(right, k + 1) + rest))
  {}

  /** Below its own rung an expression is printed alike on every rung. */
  lemma PrintIsTight(e: Expr, k: Rung, k': Rung)
    requires k <= RungOfExpr(e) && k' <= RungOfExpr(e)
    ensures Print(e, k) == Print(e, k')
  {}

  lemma Parenthesized(e: Expr, k: Rung, rest: seq<Token>)
    requires RungOfExpr(e) < k && StopsAt(k, rest)
    requires Parse(OR, Print(e, OR) + ([TRParen] + rest)) == Success((e, [TRParen] + rest))
    ensures Parse(k, Print(e, k) + rest) == Expected(k, e, rest)
  {
    hide Parse, Expected;
    var inner := Print(e, OR) + ([TRParen] + rest);
    assert Print(e, k) + rest == [TLParen] + inner;
    ParenthesesParse(inner, e, rest);
    DescendAll(k, [TLParen] + inner, e, rest);
  }

  lemma TokenOfOp(op: BinaryOp)
    ensures OpOf(TokenOf(op)) == Some(op) && TokenOf(op) != TDot
  {}

  lemma ParenthesesParse(inner: seq<Token>, e: Expr, rest: seq<Token>)
    requires Parse(OR, inner) == Success((e, [TRParen] + rest))
    ensures Parse(PRIMARY, [TLParen] + inner) == Success((e, rest))
  {
    assert ([TLParen] + inner)[1..] == inner && ([TRParen] + rest)[1..] == rest;
  }

  lemma LeafParses(e: Expr, rest: seq<Token>)
    requires RungOfExpr(e) == PRIMARY && Printable(e) && Peek(rest) != TDot
    ensures Parse(PRIMARY, Print(e, PRIMARY) + rest) == Success((e, rest))
    ensures Peek(Print(e, PRIMARY) + rest) != TNot && Peek(Print(e, PRIMARY) + rest) != TMinus
  {
    var ts := Print(e, PRIMARY) + rest;
    if e.PayloadAccess? {
      PathRoundTrip(e.path, rest);
      assert ts[1..] == PrintPath(e.path) + rest;
    } else {
      assert ts[1..] == rest;
      assert ParsePath(rest) == Success(([], rest));
    }
  }

  lemma UnaryParses(op: UnaryOp, e: Expr, rest: seq<Token>)
    requires Parse(UNARY, Print(e, UNARY) + rest) == Expected(UNARY, e, rest)
    ensures Parse(UNARY, Print(Unary(op, e), UNARY) + rest) == Expected(UNARY, Unary(op, e), rest)
  {
    var inner := Print(e, UNARY) + rest;
    var ts := Print(Unary(op, e), UNARY) + rest;
    assert ts == [if op == Not then TNot else TMinus] + inner;
    assert ts[1..] == inner;
    hide Print;
  }

  lemma ComparisonParses(ts: seq<Token>, left: Expr, op: BinaryOp, after: seq<Token>, right: Expr, rest: seq<Token>)
    requires RungOf(op) == COMPARISON
    requires Parse(ADDITION, ts) == Success((left, [TokenOf(op)] + after))
    requires Parse(ADDITION, after) == Success((right, rest))
    ensures Parse(COMPARISON, ts) == Expected(COMPARISON, Binary(left, op, right), rest)
  {
    TokenOfOp(op);
    assert ([TokenOf(op)] + after)[1..] == after;
  }

  lemma ChainParses(k: Rung, left: Expr, op: BinaryOp, after: seq<Token>, right: Expr, rest: seq<Token>)
    requires Chains(k) && RungOf(op) == k && Parse(k + 1, after) == Success((right, rest))
    ensures Expected(k, left, [TokenOf(op)] + after) == Expected(k, Binary(left, op, right), rest)
  {
    TokenOfOp(op);
    assert ([TokenOf(op)] + after)[1..] == after;
  }

  /** The round trip: the printed tokens of an expression parse to that expression. */
  lemma RoundTrip(e: Expr)
    requires Printable(e)
    ensures ParseAll(Print(e, OR) + [TEof]) == Success(e)
  {
    hide Parse, Print;
    PrintParses(e, OR, [TEof]);
    StopsMeans(OR, e, [TEof]);
  }

  // ---- What parses can be printed ------------------------------------------------------

  lemma {:induction false} ParsedIsPrintable(k: Rung, ts: seq<Token>)
    requires Parse(k, ts).Success?
    ensures Printable(Parse(k, ts).value.0)
    decreases |ts|, 7 - k, 0
  {
    if k == PRIMARY {
      if Peek(ts) == TLParen {
        ParsedIsPrintable(OR, ts[1..]);
      }
    } else if k == UNARY {
      if Peek(ts) == TNot || Peek(ts) == TMinus {
        ParsedIsPrintable(UNARY, ts[1..]);
      } else {
        ParsedIsPrintable(PRIMARY, ts);
      }
    } else if k == COMPARISON {
      ParsedIsPrintable(ADDITION, ts);
      var rest := Parse(ADDITION, ts).value.1;
      if OpAt(COMPARISON, Peek(rest)).Some? {
        ParsedIsPrintable(ADDITION, rest[1..]);
      }
    } else {
      ParsedIsPrintable(k + 1, ts);
      ContinuedIsPrintable(k, Parse(k + 1, ts).value.0, Parse(k + 1, ts).value.1);
    }
  }

  lemma {:induction false} ContinuedIsPrintable(k: Rung, left: Expr, ts: seq<Token>)
    requires k < PRIMARY && Printable(left) && Continue(k, left, ts).Success?
    ensures Printable(Continue(k, left, ts).value.0)
    decreases |ts|, 7 - k, 1
  {
    var op := OpAt(k, Peek(ts));
    if op.Some? {
      ParsedIsPrintable(k + 1, ts[1..]);
      var (right, rest) := Parse(k + 1, ts[1..]).value;
      ContinuedIsPrintable(k, Binary(left, op.value, right), rest);
    }
  }

  /** Normal form: whatever parses, printed with the fewest parentheses, parses to the same. */
  lemma PrintIsNormalForm(ts: seq<Token>)
    requires ParseAll(ts).Success?
    ensures ParseAll(Print(ParseAll(ts).value, OR) + [TEof]) == ParseAll(ts)
  {
    hide Print;
    ParsedIsPrintable(OR, ts);
    RoundTrip(ParseAll(ts).value);
  }
}
