/** Evaluating a guard text (src/guard/eval.rs, `eval_guard`): lexer, parser and evaluator together. */
module Guards {
  import opened Wrappers
  import opened Schema
  import opened GuardSyntax
  import E = GuardEval
  import L = GuardLexer
  import P = GuardParser
  import Pr = GuardPrinter

  datatype GuardError =
    | Lexical(lexError: L.LexError)
    | Syntactic(syntaxError: SyntaxError)
    | Semantic(evalError: E.EvalError)

  type Verdict = Result<bool, GuardError>

  /** What a guard text decides on a payload. */
  function Verdicts(lx: L.Lexicon, fl: E.FloatOps, text: string, payload: Option<Json>): Verdict {
    match L.Lex(lx, text)
    case Failure(e) => Failure(Lexical(e))
    case Success(tokens) =>
      match ParseAll(tokens)
      case Failure(e) => Failure(Syntactic(e))
      case Success(expr) => Decides(fl, expr, payload)
  }

  /** What an expression decides: the truth of its value. */
  function Decides(fl: E.FloatOps, e: Expr, payload: Option<Json>): Verdict {
    match E.Eval(e, payload, fl)
    case Failure(error) => Failure(Semantic(error))
    case Success(v) => Success(E.Truth(v, fl))
  }

  method EvalGuard(lx: L.Lexicon, fl: E.FloatOps, text: string, payload: Option<Json>) returns (r: Verdict)
    ensures r == Verdicts(lx, fl, text, payload)
  {
    var tokens := L.Tokenize(lx, text);
    if tokens.Failure? {
      return Failure(Lexical(tokens.error));
    }
    L.LexEnds(lx, text);
    var expr := P.ParseGuard(tokens.value);
    if expr.Failure? {
      return Failure(Syntactic(expr.error));
    }
    var v := E.Eval(expr.value, payload, fl);
    if v.Failure? {
      return Failure(Semantic(v.error));
    }
    return Success(E.Truth(v.value, fl));
  }

  // ---- Writing guards ------------------------------------------------------------------

  /** The text of an expression. */
  function Write(e: Expr): string {
    L.Spell(Pr.Print(e, OR))
  }

  /** The expressions whose literals and names can be spelled. */
  predicate Writable(lx: L.Lexicon, e: Expr) {
    match e
    case Binary(left, _, right) => Writable(lx, left) && Writable(lx, right)
    case Unary(_, operand) => Writable(lx, operand)
    case Lit(LInteger(i)) => 0 <= i <= E.MAX
    case Lit(LFloat(_)) => false
    case Lit(LString(s)) => '\'' !in s
    case Lit(LBool(_)) => true
    case PayloadAccess(path) => path != [] && forall f :: f in path ==> L.Spellable(lx, TIdentifier(f))
    case Name(name) => L.Spellable(lx, TIdentifier(name))
  }

  lemma {:induction false} PathIsSpellable(lx: L.Lexicon, path: seq<string>)
    requires forall f :: f in path ==> L.Spellable(lx, TIdentifier(f))
    ensures forall t :: t in Pr.PrintPath(path) ==> L.Spellable(lx, t)
  {
    if path != [] {
      assert path[0] in path;
      PathIsSpellable(lx, path[1..]);
    }
  }

  lemma {:induction false} WritableIsSpellable(lx: L.Lexicon, e: Expr, k: Rung)
    requires L.GuardSane(lx) && Writable(lx, e)
    ensures Pr.Printable(e) && forall t :: t in Pr.Print(e, k) ==> L.Spellable(lx, t)
    decreases e, k
  {
    if Pr.RungOfExpr(e) < k {
      WritableIsSpellable(lx, e, OR);
    } else {
      match e
      case Binary(left, op, right) =>
        var j := RungOf(op);
        WritableIsSpellable(lx, left, if j == COMPARISON then ADDITION else j);
        WritableIsSpellable(lx, right, j + 1);
      case Unary(_, operand) => WritableIsSpellable(lx, operand, UNARY);
      case PayloadAccess(path) =>
        PathIsSpellable(lx, path);
        L.KeywordlessPayload(lx);
      case _ =>
    }
  }

  /** A written expression decides, as a guard, what the expression decides. */
  lemma WrittenGuardDecides(lx: L.Lexicon, fl: E.FloatOps, e: Expr, payload: Option<Json>)
    requires L.GuardSane(lx) && Writable(lx, e)
    ensures Verdicts(lx, fl, Write(e), payload) == Decides(fl, e, payload)
  {
    hide Decides, ParseAll, Pr.Print, L.Lex;
    WritableIsSpellable(lx, e, OR);
    L.LexReadsSpelling(lx, Pr.Print(e, OR));
    Pr.RoundTrip(e);
  }

  /**
   What a written guard decides, apart from how it is evaluated: if no part of it is a float and
   no negation wraps, whether its meaning counts as true, if all its parts have a meaning in
   range; and else it fails.
   */
  lemma WrittenGuardMeans(lx: L.Lexicon, fl: E.FloatOps, e: Expr, payload: Option<Json>)
    requires L.GuardSane(lx) && Writable(lx, e)
    requires E.FloatFree(e, payload, fl) && !E.Wraps(e, payload, fl)
    ensures var verdict := Verdicts(lx, fl, Write(e), payload);
            if E.Representable(e, payload, fl)
            then verdict == Success(E.CountsAsTrue(E.Meaning(e, payload, fl).value))
            else verdict.Failure? && verdict.error.Semantic?
  {
    WrittenGuardDecides(lx, fl, e, payload);
    WritableLiterals(lx, e);
    E.EvalIsExact(e, payload, fl);
    E.SelfIsPart(e);
    hide Verdicts, E.Eval, E.Meaning, E.Truth;
    assert !E.IsFloat(E.Meaning(e, payload, fl));
    if E.Representable(e, payload, fl) {
      assert E.IsRepresented(E.Meaning(e, payload, fl));
      E.TruthMeans(E.Eval(e, payload, fl).value, fl);
    }
  }

  lemma {:induction false} WritableLiterals(lx: L.Lexicon, e: Expr)
    requires Writable(lx, e)
    ensures E.LiteralsFit(e)
  {
    match e
    case Binary(left, _, right) =>
      assert E.Parts(e) == {e} + (E.Parts(left) + E.Parts(right));
      WritableLiterals(lx, left);
      WritableLiterals(lx, right);
    case Unary(_, operand) =>
      assert E.Parts(e) == {e} + E.Parts(operand);
      WritableLiterals(lx, operand);
    case _ =>
      assert E.Parts(e) == {e};
  }
}
