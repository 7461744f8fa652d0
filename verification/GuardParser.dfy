/** The recursive-descent guard parser (src/guard/parser.rs), proved to follow the grammar. */
module GuardParser {
  import opened Wrappers
  import opened GuardSyntax

  /** A token list as the guard lexer delivers it: it ends with the end marker. */
  predicate Ended(ts: seq<Token>) {
    ts != [] && ts[|ts| - 1] == TEof
  }

  class Parser {
    const tokens: seq<Token>
    var pos: nat

    /** The position is on a token, at most on the end marker. */
    ghost predicate Valid()
      reads this
    {
      Ended(tokens) && pos < |tokens|
    }

    /** The tokens not consumed yet. */
    function Rest(): seq<Token>
      requires Valid()
      reads this
    {
      tokens[pos..]
    }

    constructor (tokens: seq<Token>)
      requires Ended(tokens)
      ensures Valid() && this.tokens == tokens && pos == 0
    {
      this.tokens := tokens;
      pos := 0;
    }

    function Current(): (t: Token)
      requires Valid()
      reads this
      ensures t == Peek(Rest())
    {
      tokens[pos]
    }

    /** Moves on, but never past the last token. */
    method Advance() returns (t: Token)
      requires Valid()
      modifies this`pos
      ensures Valid() && t == old(Current())
      ensures t != TEof ==> Rest() == old(Rest())[1..]
    {
      t := tokens[pos];
      if pos + 1 < |tokens| {
        pos := pos + 1;
      }
    }

    method Expect(t: Token) returns (error: Option<SyntaxError>)
      requires Valid() && t != TEof
      modifies this`pos
      ensures Valid()
      ensures error == if old(Current()) == t then None else Some(ExpectedToken(t, old(Current())))
      ensures error.None? ==> Rest() == old(Rest())[1..]
    {
      if Current() == t {
        var _ := Advance();
        return None;
      }
      return Some(ExpectedToken(t, Current()));
    }

    /** A method's outcome `r`, leaving the tokens `rest`, is what the grammar says. */
    ghost predicate Follows(r: Result<Expr, SyntaxError>, parsed: Parsed<Expr>)
      requires Valid()
      reads this
    {
      match parsed
      case Failure(e) => r == Failure(e)
      case Success((e, rest)) => r == Success(e) && Rest() == rest
    }

    method ParseOr() returns (r: Result<Expr, SyntaxError>)
      requires Valid()
      modifies this`pos
      ensures Valid() && Follows(r, Parse(OR, old(Rest())))
      decreases |tokens| - pos, 7
    {
      hide Parse, Continue;
      ChainSteps(OR, Rest(), Name(""), Rest());
      r := ParseAnd();
      if r.Failure? { return; }
      var left := r.value;
      ghost var start := old(Rest());
      while Current() == TOr
        invariant Valid() && |Rest()| < |start|
        invariant Parse(OR, start) == Continue(OR, left, Rest())
        decreases |tokens| - pos
      {
        ChainSteps(OR, start, left, Rest());
        var _ := Advance();
        r := ParseAnd();
        if r.Failure? { return; }
        left := Binary(left, Or, r.value);
      }
      ChainSteps(OR, start, left, Rest());
      return Success(left);
    }

    method ParseAnd() returns (r: Result<Expr, SyntaxError>)
      requires Valid()
      modifies this`pos
      ensures Valid() && Follows(r, Parse(AND, old(Rest())))
      decreases |tokens| - pos, 6
    {
      hide Parse, Continue;
      ChainSteps(AND, Rest(), Name(""), Rest());
      r := ParseComparison();
      if r.Failure? { return; }
      var left := r.value;
      ghost var start := old(Rest());
      while Current() == TAnd
        invariant Valid() && |Rest()| < |start|
        invariant Parse(AND, start) == Continue(AND, left, Rest())
        decreases |tokens| - pos
      {
        ChainSteps(AND, start, left, Rest());
        var _ := Advance();
        r := ParseComparison();
        if r.Failure? { return; }
        left := Binary(left, And, r.value);
      }
      ChainSteps(AND, start, left, Rest());
      return Success(left);
    }

    method ParseComparison() returns (r: Result<Expr, SyntaxError>)
      requires Valid()
      modifies this`pos
      ensures Valid() && Follows(r, Parse(COMPARISON, old(Rest())))
      decreases |tokens| - pos, 5
    {
      r := ParseAddition();
      if r.Failure? { return; }
      var left := r.value;
      var op := OpAt(COMPARISON, Current());
      if op.None? {
        return Success(left);
      }
      var _ := Advance();
      r := ParseAddition();
      if r.Failure? { return; }
      return Success(Binary(left, op.value, r.value));
    }

    method ParseAddition() returns (r: Result<Expr, SyntaxError>)
      requires Valid()
      modifies this`pos
      ensures Valid() && Follows(r, Parse(ADDITION, old(Rest())))
      decreases |tokens| - pos, 4
    {
      hide Parse, Continue;
      ChainSteps(ADDITION, Rest(), Name(""), Rest());
      r := ParseMultiplication();
      if r.Failure? { return; }
      var left := r.value;
      ghost var start := old(Rest());
      while Current() == TPlus || Current() == TMinus
        invariant Valid() && |Rest()| < |start|
        invariant Parse(ADDITION, start) == Continue(ADDITION, left, Rest())
        decreases |tokens| - pos
      {
        ChainSteps(ADDITION, start, left, Rest());
        var op := if Current() == TPlus then Add else Sub;
        var _ := Advance();
        r := ParseMultiplication();
        if r.Failure? { return; }
        left := Binary(left, op, r.value);
      }
      ChainSteps(ADDITION, start, left, Rest());
      return Success(left);
    }

    method ParseMultiplication() returns (r: Result<Expr, SyntaxError>)
      requires Valid()
      modifies this`pos
      ensures Valid() && Follows(r, Parse(MULTIPLICATION, old(Rest())))
      decreases |tokens| - pos, 3
    {
      hide Parse, Continue;
      ChainSteps(MULTIPLICATION, Rest(), Name(""), Rest());
      r := ParseUnary();
      if r.Failure? { return; }
      var left := r.value;
      ghost var start := old(Rest());
      while Current() == TMul || Current() == TDiv
        invariant Valid() && |Rest()| < |start|
        invariant Parse(MULTIPLICATION, start) == Continue(MULTIPLICATION, left, Rest())
        decreases |tokens| - pos
      {
        ChainSteps(MULTIPLICATION, start, left, Rest());
        var op := if Current() == TMul then Mul else Div;
        var _ := Advance();
        r := ParseUnary();
        if r.Failure? { return; }
        left := Binary(left, op, r.value);
      }
      ChainSteps(MULTIPLICATION, start, left, Rest());
      return Success(left);
    }

    method ParseUnary() returns (r: Result<Expr, SyntaxError>)
      requires Valid()
      modifies this`pos
      ensures Valid() && Follows(r, Parse(UNARY, old(Rest())))
      decreases |tokens| - pos, 2
    {
      if Current() == TNot || Current() == TMinus {
        var op := if Current() == TNot then Not else Neg;
        var _ := Advance();
        r := ParseUnary();
        if r.Failure? { return; }
        return Success(Unary(op, r.value));
      }
      r := ParsePrimaryExpr();
    }

    method ParsePrimaryExpr() returns (r: Result<Expr, SyntaxError>)
      requires Valid()
      modifies this`pos
      ensures Valid() && Follows(r, Parse(PRIMARY, old(Rest())))
      decreases |tokens| - pos, 1
    {
      var t := Current();
      match t
      case TInteger(i) =>
        var _ := Advance();
        return Success(Lit(LInteger(i)));
      case TFloat(f) =>
        var _ := Advance();
        return Success(Lit(LFloat(f)));
      case TString(s) =>
        var _ := Advance();
        return Success(Lit(LString(s)));
      case TBool(b) =>
        var _ := Advance();
        return Success(Lit(LBool(b)));
      case TLParen =>
        var _ := Advance();
        r := ParseOr();
        if r.Failure? { return; }
        var error := Expect(TRParen);
        if error.Some? {
          return Failure(error.value);
        }
      case TIdentifier(name) =>
        var _ := Advance();
        r := ParseName(name);
      case _ =>
        return Failure(UnexpectedToken(t));
    }

    /** The part of the source's `parse_primary` that follows an identifier. */
    method ParseName(name: string) returns (r: Result<Expr, SyntaxError>)
      requires Valid()
      modifies this`pos
      ensures Valid() && Follows(r, NameFrom(name, old(Rest())))
    {
      var path := [name];
      ghost var start := old(Rest());
      LongerSteps([], "", ParsePath(start));
      assert path[1..] == [];
      while Current() == TDot
        invariant Valid() && path != [] && path[0] == name
        invariant ParsePath(start) == Longer(path[1..], ParsePath(Rest()))
        decreases |tokens| - pos
      {
        ghost var before := Rest();
        var _ := Advance();
        assert Rest() == before[1..];
        if !Current().TIdentifier? {
          return Failure(ExpectedIdentifier(Current()));
        }
        var part := Current().name;
        var _ := Advance();
        assert Rest() == before[2..];
        LongerSteps(path[1..], part, ParsePath(Rest()));
        assert (path + [part])[1..] == path[1..] + [part];
        path := path + [part];
      }
      assert path == [name] + path[1..] && path[1..] + [] == path[1..];
      return Success(NameOf(name, path[1..]));
    }
  }

  /** How a left-associative rung starts, and how it goes on. */
  lemma ChainSteps(k: Rung, ts: seq<Token>, left: Expr, rest: seq<Token>)
    requires k in {OR, AND, ADDITION, MULTIPLICATION}
    ensures Parse(k, ts) == match Parse(k + 1, ts)
                            case Failure(e) => Failure(e)
                            case Success((e, after)) => Continue(k, e, after)
    ensures Continue(k, left, rest) == match OpAt(k, Peek(rest))
                                       case None => Success((left, rest))
                                       case Some(op) =>
                                         match Parse(k + 1, rest[1..])
                                         case Failure(e) => Failure(e)
                                         case Success((right, after)) => Continue(k, Binary(left, op, right), after)
  {}

  function Longer(done: seq<string>, r: Parsed<seq<string>>): Parsed<seq<string>> {
    match r
    case Failure(e) => Failure(e)
    case Success((tail, rest)) => Success((done + tail, rest))
  }

  lemma LongerSteps(done: seq<string>, part: string, r: Parsed<seq<string>>)
    ensures Longer([], r) == r
    ensures Longer(done, Longer([part], r)) == Longer(done + [part], r)
  {
    if r.Success? {
      assert [] + r.value.0 == r.value.0;
      assert done + ([part] + r.value.0) == done + [part] + r.value.0;
    }
  }

  method ParseGuard(tokens: seq<Token>) returns (r: Result<Expr, SyntaxError>)
    requires Ended(tokens)
    ensures r == ParseAll(tokens)
  {
    var parser := new Parser(tokens);
    r := parser.ParseOr();
    if r.Success? && parser.Current() != TEof {
      return Failure(TrailingToken(parser.Current()));
    }
  }
}
