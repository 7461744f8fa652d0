/** The guard lexer (src/guard/lexer.rs). */
module GuardLexer {
  import opened Wrappers
  import opened Schema
  import opened GuardSyntax
  import E = GuardEval

  datatype LexError =
    | UnterminatedString
    | ManyDecimalPoints
    | InvalidFloat
    | InvalidInteger
    | UnexpectedCharacter(c: char)

  /** The character classes of Unicode and the reading of floats, which the source takes from its library. */
  datatype Lexicon = Lexicon(
    isSpace: char -> bool,
    isLetter: char -> bool,
    isLetterOrDigit: char -> bool,
    float: string -> Option<Double>)

  type Lexed = Result<seq<Token>, LexError>

  // ---- Characters ----------------------------------------------------------------------

  predicate IsDigit(c: char) {
    '0' <= c <= '9'
  }

  predicate IsNumeric(c: char) {
    IsDigit(c) || c == '.'
  }

  predicate StartsNumber(s: string) {
    s != "" && (IsDigit(s[0]) || (s[0] == '.' && |s| > 1 && IsDigit(s[1])))
  }

  predicate StartsWord(lx: Lexicon, c: char) {
    lx.isLetter(c) || c == '_'
  }

  predicate InWord(lx: Lexicon, c: char) {
    lx.isLetterOrDigit(c) || c == '_'
  }

  /** The length of the longest prefix of `s` whose characters satisfy `p`. */
  function Span(s: string, p: char -> bool): (n: nat)
    ensures n <= |s| && (forall i :: 0 <= i < n ==> p(s[i])) && (n < |s| ==> !p(s[n]))
  {
    if s == "" || !p(s[0]) then 0 else 1 + Span(s[1..], p)
  }

  // ---- Numbers and words ---------------------------------------------------------------

  function DigitValue(c: char): nat
    requires IsDigit(c)
  {
    c as int - '0' as int
  }

  /** The number that a string of digits denotes. */
  function Number(s: string): nat
    requires forall c :: c in s ==> IsDigit(c)
  {
    if s == "" then 0 else 10 * Number(s[..|s| - 1]) + DigitValue(s[|s| - 1])
  }

  /** Points in `s`: a number may have one. */
  function Points(s: string): nat {
    if s == "" then 0 else (if s[0] == '.' then 1 else 0) + Points(s[1..])
  }

  lemma {:induction false} NoPoints(s: string)
    requires forall c :: c in s ==> IsNumeric(c)
    ensures Points(s) == 0 <==> forall c :: c in s ==> IsDigit(c)
  {
    if s != "" {
      assert s == [s[0]] + s[1..] && IsNumeric(s[0]);
      NoPoints(s[1..]);
    }
  }

  function NumberToken(lx: Lexicon, s: string): (r: Result<Token, LexError>)
    requires forall c :: c in s ==> IsNumeric(c)
    ensures r.Success? ==> r.value.TInteger? || r.value.TFloat?
  {
    if Points(s) > 1 then Failure(ManyDecimalPoints)
    else if Points(s) == 1 then
      match lx.float(s)
      case None => Failure(InvalidFloat)
      case Some(f) => Success(TFloat(f))
    else
      NoPoints(s);
      if Number(s) <= E.MAX then Success(TInteger(Number(s))) else Failure(InvalidInteger)
  }

  function WordToken(s: string): Token {
    if s == "and" then TAnd
    else if s == "or" then TOr
    else if s == "not" then TNot
    else if s == "true" then TBool(true)
    else if s == "false" then TBool(false)
    else TIdentifier(s)
  }

  /** The symbol at the start of `s`, and its length. */
  function Symbol(s: string): Result<(Token, nat), LexError>
    requires s != ""
  {
    var c, wide := s[0], |s| > 1 && s[1] == '=';
    if c == '(' then Success((TLParen, 1))
    else if c == ')' then Success((TRParen, 1))
    else if c == '.' then Success((TDot, 1))
    else if c == '+' then Success((TPlus, 1))
    else if c == '-' then Success((TMinus, 1))
    else if c == '*' then Success((TMul, 1))
    else if c == '/' then Success((TDiv, 1))
    else if c == '<' then Success(if wide then (TLte, 2) else (TLt, 1))
    else if c == '>' then Success(if wide then (TGte, 2) else (TGt, 1))
    else if c == '!' && wide then Success((TNeq, 2))
    else if c == '=' && wide then Success((TEq, 2))
    else Failure(UnexpectedCharacter(c))
  }

  // ---- Tokens --------------------------------------------------------------------------

  /** The first token of a text that does not start with a blank, and its length. */
  function FirstGuardToken(lx: Lexicon, s: string): (r: Result<(Token, nat), LexError>)
    requires s != ""
    ensures r.Success? ==> 0 < r.value.1 <= |s| && r.value.0 != TEof
  {
    if s[0] == '\'' then
      var n := Span(s[1..], c => c != '\'');
      if n + 1 == |s| then Failure(UnterminatedString) else Success((TString(s[1..][..n]), n + 2))
    else if StartsNumber(s) then
      var n := Span(s, IsNumeric);
      var t :- NumberToken(lx, s[..n]);
      Success((t, n))
    else if StartsWord(lx, s[0]) then
      var n := 1 + Span(s[1..], c => InWord(lx, c));
      Success((WordToken(s[..n]), n))
    else
      var r :- Symbol(s);
      Success(r)
  }

  /** The tokens of a text, with the end marker. */
  function Lex(lx: Lexicon, s: string): Lexed
    decreases |s|
  {
    if s == "" then Success([TEof])
    else if lx.isSpace(s[0]) then Lex(lx, s[1..])
    else
      var (t, n) :- FirstGuardToken(lx, s);
      After([t], Lex(lx, s[n..]))
  }

  // ---- The source's loops --------------------------------------------------------------

  lemma SpanIs(s: string, p: char -> bool, n: nat)
    requires n <= |s| && (forall i :: 0 <= i < n ==> p(s[i])) && (n < |s| ==> !p(s[n]))
    ensures Span(s, p) == n
  {}

  lemma {:induction false} PointsConcat(a: string, b: string)
    ensures Points(a + b) == Points(a) + Points(b)
  {
    if a == "" {
      assert a + b == b;
    } else {
      assert (a + b)[1..] == a[1..] + b;
      PointsConcat(a[1..], b);
    }
  }

  method ScanString(lx: Lexicon, input: string, i: nat) returns (r: Result<(Token, nat), LexError>)
    requires i < |input| && input[i] == '\''
    ensures r == FirstGuardToken(lx, input[i..])
  {
    var s := "";
    var j := i + 1;
    while j < |input| && input[j] != '\''
      invariant i + 1 <= j <= |input| && s == input[i + 1..j]
      invariant '\'' !in s
    {
      s := s + [input[j]];
      j := j + 1;
    }
    assert input[i..][1..] == input[i + 1..] && input[i + 1..][..|s|] == s;
    SpanIs(input[i + 1..], c => c != '\'', |s|);
    if j >= |input| {
      return Failure(UnterminatedString);
    }
    return Success((TString(s), |s| + 2));
  }

  method ScanNumber(lx: Lexicon, input: string, i: nat) returns (r: Result<(Token, nat), LexError>)
    requires i < |input| && StartsNumber(input[i..])
    ensures r == FirstGuardToken(lx, input[i..])
  {
    ghost var text := input[i..];
    ghost var n := Span(text, IsNumeric);
    var s, isFloat, j := "", false, i;
    while j < |input| && IsNumeric(input[j])
      invariant i <= j <= |input| && s == text[..j - i] && j - i <= n
      invariant Points(s) == if isFloat then 1 else 0
    {
      assert text[..j - i + 1] == s + [input[j]];
      PointsConcat(s, [input[j]]);
      if input[j] == '.' {
        if isFloat {
          assert text[..n] == text[..j - i + 1] + text[j - i + 1..n];
          PointsConcat(text[..j - i + 1], text[j - i + 1..n]);
          return Failure(ManyDecimalPoints);
        }
        isFloat := true;
      }
      s := s + [input[j]];
      j := j + 1;
    }
    assert j - i == n && s == text[..n];
    if isFloat {
      var f := lx.float(s);
      if f.None? {
        return Failure(InvalidFloat);
      }
      return Success((TFloat(f.value), |s|));
    }
    NoPoints(s);
    if Number(s) > E.MAX {
      return Failure(InvalidInteger);
    }
    return Success((TInteger(Number(s)), |s|));
  }

  method ScanWord(lx: Lexicon, input: string, i: nat) returns (r: Result<(Token, nat), LexError>)
    requires i < |input| && input[i] != '\'' && !StartsNumber(input[i..]) && StartsWord(lx, input[i])
    ensures r == FirstGuardToken(lx, input[i..])
  {
    ghost var text := input[i..];
    var s, j := [input[i]], i + 1;
    while j < |input| && InWord(lx, input[j])
      invariant i + 1 <= j <= |input| && s == text[..j - i]
      invariant forall k :: 0 < k < |s| ==> InWord(lx, s[k])
    {
      s := s + [input[j]];
      j := j + 1;
    }
    SpanIs(text[1..], c => InWord(lx, c), |s| - 1);
    return Success((WordToken(s), |s|));
  }

  method Tokenize(lx: Lexicon, input: string) returns (r: Lexed)
    ensures r == Lex(lx, input)
  {
    hide FirstGuardToken;
    var tokens: seq<Token>, i := [], 0;
    AfterNothing(Lex(lx, input));
    while i < |input|
      invariant 0 <= i <= |input|
      invariant Lex(lx, input) == After(tokens, Lex(lx, input[i..]))
    {
      if lx.isSpace(input[i]) {
        assert input[i..][1..] == input[i + 1..];
        i := i + 1;
      } else {
        var next := Scan(lx, input, i);
        if next.Failure? {
          return Failure(next.error);
        }
        var (t, n) := next.value;
        assert input[i..][n..] == input[i + n..];
        AfterOne(tokens, t, Lex(lx, input[i + n..]));
        tokens, i := tokens + [t], i + n;
      }
    }
    return Success(tokens + [TEof]);
  }

  method Scan(lx: Lexicon, input: string, i: nat) returns (r: Result<(Token, nat), LexError>)
    requires i < |input|
    ensures r == FirstGuardToken(lx, input[i..])
  {
    if input[i] == '\'' {
      r := ScanString(lx, input, i);
    } else if StartsNumber(input[i..]) {
      r := ScanNumber(lx, input, i);
    } else if StartsWord(lx, input[i]) {
      r := ScanWord(lx, input, i);
    } else {
      r := Symbol(input[i..]);
    }
  }

  /** What the lexer delivers ends with the end marker, and has it nowhere else. */
  lemma {:induction false} LexEnds(lx: Lexicon, s: string)
    requires Lex(lx, s).Success?
    ensures var ts := Lex(lx, s).value;
            ts != [] && ts[|ts| - 1] == TEof && forall i :: 0 <= i < |ts| - 1 ==> ts[i] != TEof
    decreases |s|
  {
    if s != "" {
      if lx.isSpace(s[0]) {
        LexEnds(lx, s[1..]);
      } else {
        hide FirstGuardToken;
        LexEnds(lx, s[FirstGuardToken(lx, s).value.1..]);
      }
    }
  }

  // ---- Spelling ------------------------------------------------------------------------

  function Decimal(n: nat): string {
    if n < 10 then [('0' as int + n) as char] else Decimal(n / 10) + [('0' as int + n % 10) as char]
  }

  function SpellSymbol(t: Token): string {
    match t
    case TEq => "=="
    case TNeq => "!="
    case TLt => "<"
    case TLte => "<="
    case TGt => ">"
    case TGte => ">="
    case TPlus => "+"
    case TMinus => "-"
    case TMul => "*"
    case TDiv => "/"
    case TLParen => "("
    case TRParen => ")"
    case TDot => "."
    case _ => ""
  }

  predicate IsSymbol(t: Token) {
    t in {TEq, TNeq, TLt, TLte, TGt, TGte, TPlus, TMinus, TMul, TDiv, TLParen, TRParen, TDot}
  }

  function SpellToken(t: Token): string {
    match t
    case TInteger(i) => if i >= 0 then Decimal(i) else ""
    case TString(s) => "'" + s + "'"
    case TBool(b) => if b then "true" else "false"
    case TIdentifier(name) => name
    case TAnd => "and"
    case TOr => "or"
    case TNot => "not"
    case _ => SpellSymbol(t)
  }

  /** The tokens spelled out, each followed by a blank. */
  function Spell(ts: seq<Token>): string {
    if ts == [] then "" else SpellToken(ts[0]) + " " + Spell(ts[1..])
  }

  predicate IsWord(lx: Lexicon, s: string) {
    s != "" && StartsWord(lx, s[0]) && forall c :: c in s ==> InWord(lx, c)
  }

  /** The tokens that have a spelling; floats have none of their own. */
  predicate Spellable(lx: Lexicon, t: Token) {
    match t
    case TInteger(i) => 0 <= i <= E.MAX
    case TString(s) => '\'' !in s
    case TIdentifier(name) => IsWord(lx, name) && WordToken(name) == t
    case TFloat(_) => false
    case TEof => false
    case _ => true
  }

  /** What the proofs need of the character classes; Unicode's have it. */
  predicate GuardSane(lx: Lexicon) {
    && lx.isSpace(' ')
    && (forall c :: lx.isSpace(c) ==> !lx.isLetter(c) && !lx.isLetterOrDigit(c) && c !in "'_.+-*/<>!=()" && !IsDigit(c))
    && (forall c :: lx.isLetter(c) ==> lx.isLetterOrDigit(c) && c !in "'.+-*/<>!=()" && !IsDigit(c))
    && (forall c :: 'a' <= c <= 'z' ==> lx.isLetter(c))
  }

  // ---- What a token's text is ----------------------------------------------------------

  function WordText(t: Token): string {
    match t
    case TAnd => "and"
    case TOr => "or"
    case TNot => "not"
    case TBool(b) => if b then "true" else "false"
    case TIdentifier(name) => name
    case _ => ""
  }

  /** The text of the first token of `s`, of length `n`, if the token is `t`. */
  predicate TextIs(lx: Lexicon, s: string, t: Token, n: nat)
    requires n <= |s|
  {
    var text := s[..n];
    match t
    case TString(body) => '\'' !in body && text == "'" + body + "'"
    case TInteger(i) => NumberEnds(s, n) && (forall c :: c in text ==> IsDigit(c)) && i == Number(text) <= E.MAX
    case TFloat(f) => NumberEnds(s, n) && Points(text) == 1 && lx.float(text) == Some(f)
    case TEof => false
    case TAnd | TOr | TNot | TBool(_) | TIdentifier(_) => text == WordText(t) && WordEnds(lx, s, n)
    case _ => text == SpellSymbol(t)
  }

  predicate WordEnds(lx: Lexicon, s: string, n: nat) {
    0 < n <= |s| && (lx.isLetter(s[0]) || s[0] == '_')
    && (forall i :: 1 <= i < n ==> lx.isLetterOrDigit(s[i]) || s[i] == '_')
    && (n < |s| ==> !lx.isLetterOrDigit(s[n]) && s[n] != '_')
  }

  predicate NumberEnds(s: string, n: nat) {
    0 < n <= |s| && (forall i :: 0 <= i < n ==> '0' <= s[i] <= '9' || s[i] == '.')
    && (n < |s| ==> !('0' <= s[n] <= '9') && s[n] != '.')
  }

  lemma WordShows(s: string)
    ensures WordText(WordToken(s)) == s
    ensures var t := WordToken(s); t.TAnd? || t.TOr? || t.TNot? || t.TBool? || t.TIdentifier?
  {}

  lemma SymbolShows(s: string)
    requires s != "" && Symbol(s).Success?
    ensures var (t, n) := Symbol(s).value;
            && n <= |s| && s[..n] == SpellSymbol(t) && !t.TString? && !t.TInteger? && !t.TFloat? && !t.TEof?
            && !t.TAnd? && !t.TOr? && !t.TNot? && !t.TBool? && !t.TIdentifier?
  {
    var (t, n) := Symbol(s).value;
    assert n == 1 ==> s[..n] == [s[0]];
    assert n == 2 ==> s[..n] == [s[0], s[1]];
  }

  /** What the text of a token is, whatever the text it is read from. */
  lemma TokenShows(lx: Lexicon, s: string)
    requires s != "" && FirstGuardToken(lx, s).Success?
    ensures TextIs(lx, s, FirstGuardToken(lx, s).value.0, FirstGuardToken(lx, s).value.1)
  {
    hide WordToken, SpellSymbol, Symbol, WordText, Number, Points;
    if s[0] == '\'' {
      var n := Span(s[1..], c => c != '\'');
      var body := s[1..][..n];
      assert forall i :: 0 <= i < n ==> s[1..][i] != '\'' && body[i] == s[1..][i];
      assert s[..n + 2] == "'" + body + "'";
    } else if StartsNumber(s) {
      var n := Span(s, IsNumeric);
      NoPoints(s[..n]);
    } else if StartsWord(lx, s[0]) {
      var n := 1 + Span(s[1..], c => InWord(lx, c));
      assert forall i :: 1 <= i < n ==> InWord(lx, s[1..][i - 1]) && s[i] == s[1..][i - 1];
      WordShows(s[..n]);
    } else {
      SymbolShows(s);
    }
  }

  /** Why `s` does not start with a token. */
  ghost predicate FlawIs(lx: Lexicon, s: string, e: LexError) {
    match e
    case UnterminatedString => s != "" && s[0] == '\'' && '\'' !in s[1..]
    case ManyDecimalPoints => exists n: nat :: NumberEnds(s, n) && Points(s[..n]) > 1
    case InvalidFloat => exists n: nat :: NumberEnds(s, n) && Points(s[..n]) == 1 && lx.float(s[..n]).None?
    case InvalidInteger =>
      exists n: nat :: NumberEnds(s, n) && (forall c :: c in s[..n] ==> IsDigit(c)) && Number(s[..n]) > E.MAX
    case UnexpectedCharacter(c) => s != "" && s[0] == c && !lx.isLetter(c) && c != '_' && !IsDigit(c) && c != '\''
  }

  lemma FlawShows(lx: Lexicon, s: string)
    requires s != "" && FirstGuardToken(lx, s).Failure?
    ensures FlawIs(lx, s, FirstGuardToken(lx, s).error)
  {
    hide WordToken, Number, Points;
    if s[0] == '\'' {
      var n := Span(s[1..], c => c != '\'');
      assert forall i :: 0 <= i < |s| - 1 ==> s[1..][i] != '\'';
    } else if StartsNumber(s) {
      var n := Span(s, IsNumeric);
      NoPoints(s[..n]);
      assert NumberEnds(s, n);
    }
  }

  // ---- The lexer reads back what is spelled --------------------------------------------

  lemma {:induction false} DecimalReads(n: nat)
    ensures Decimal(n) != "" && (forall c :: c in Decimal(n) ==> IsDigit(c)) && Number(Decimal(n)) == n
  {
    if n >= 10 {
      DecimalReads(n / 10);
      var s := Decimal(n);
      assert s[..|s| - 1] == Decimal(n / 10);
    }
  }

  lemma IntegerReads(lx: Lexicon, i: nat, rest: string)
    requires i <= E.MAX
    ensures FirstGuardToken(lx, Decimal(i) + " " + rest) == Success((TInteger(i), |Decimal(i)|))
  {
    var d := Decimal(i);
    var s := d + " " + rest;
    DecimalReads(i);
    assert s[0] == d[0] && IsDigit(s[0]);
    forall k | 0 <= k < |d| ensures IsNumeric(s[k]) {
      assert s[k] == d[k] && d[k] in d;
    }
    SpanIs(s, IsNumeric, |d|);
    assert s[..|d|] == d;
    NoPoints(d);
  }

  lemma StringReads(lx: Lexicon, body: string, rest: string)
    requires '\'' !in body
    ensures FirstGuardToken(lx, "'" + body + "'" + " " + rest) == Success((TString(body), |body| + 2))
  {
    var s := "'" + body + "'" + " " + rest;
    assert s[1..] == body + ("'" + " " + rest);
    forall k | 0 <= k < |body| ensures s[1..][k] != '\'' {
      assert s[1..][k] == body[k] && body[k] in body;
    }
    SpanIs(s[1..], c => c != '\'', |body|);
    assert s[1..][..|body|] == body;
  }

  lemma WordReads(lx: Lexicon, word: string, rest: string)
    requires GuardSane(lx) && IsWord(lx, word)
    ensures FirstGuardToken(lx, word + " " + rest) == Success((WordToken(word), |word|))
  {
    var s := word + " " + rest;
    assert s[0] == word[0] && s[1..] == word[1..] + (" " + rest);
    forall k | 0 <= k < |word| - 1 ensures InWord(lx, s[1..][k]) {
      assert s[1..][k] == word[k + 1] && word[k + 1] in word;
    }
    SpanIs(s[1..], c => InWord(lx, c), |word| - 1);
    assert s[..|word|] == word;
  }

  lemma SymbolStarts(t: Token)
    requires IsSymbol(t)
    ensures 1 <= |SpellSymbol(t)| <= 2 && SpellSymbol(t)[0] in ".+-*/<>!=()"
            && (|SpellSymbol(t)| == 2 ==> SpellSymbol(t)[1] == '=')
  {}

  lemma SymbolDecodes(t: Token, rest: string)
    requires IsSymbol(t)
    ensures Symbol(SpellSymbol(t) + " " + rest) == Success((t, |SpellSymbol(t)|))
  {
    var s := SpellSymbol(t) + " " + rest;
    assert s[0] == SpellSymbol(t)[0] && s[1] == if |SpellSymbol(t)| == 1 then ' ' else '=';
  }

  lemma SymbolReads(lx: Lexicon, t: Token, rest: string)
    requires GuardSane(lx) && IsSymbol(t)
    ensures FirstGuardToken(lx, SpellSymbol(t) + " " + rest) == Success((t, |SpellSymbol(t)|))
  {
    SymbolStarts(t);
    SymbolDecodes(t, rest);
    hide Symbol, SpellSymbol, IsSymbol;
    var s := SpellSymbol(t) + " " + rest;
    assert s[0] == SpellSymbol(t)[0] && s[1] == if |SpellSymbol(t)| == 1 then ' ' else '=';
    assert !lx.isLetter(s[0]);
  }

  lemma KeywordIsWord(lx: Lexicon, word: string)
    requires GuardSane(lx) && word in {"and", "or", "not", "true", "false"}
    ensures IsWord(lx, word)
  {
    forall c | c in word ensures 'a' <= c <= 'z' {}
    assert 'a' <= word[0] <= 'z';
  }

  lemma KeywordlessPayload(lx: Lexicon)
    requires GuardSane(lx)
    ensures Spellable(lx, TIdentifier(PAYLOAD))
  {
    forall c | c in PAYLOAD ensures 'a' <= c <= 'z' {}
    assert PAYLOAD[0] in PAYLOAD;
  }

  lemma TokenReads(lx: Lexicon, t: Token, rest: string)
    requires GuardSane(lx) && Spellable(lx, t)
    ensures SpellToken(t) != "" && !lx.isSpace(SpellToken(t)[0])
    ensures FirstGuardToken(lx, SpellToken(t) + " " + rest) == Success((t, |SpellToken(t)|))
  {
    hide FirstGuardToken;
    match t
    case TInteger(i) =>
      DecimalReads(i);
      IntegerReads(lx, i, rest);
      assert Decimal(i)[0] in Decimal(i);
    case TString(body) => StringReads(lx, body, rest);
    case TIdentifier(name) => WordReads(lx, name, rest);
    case TBool(_) | TAnd | TOr | TNot =>
      KeywordIsWord(lx, SpellToken(t));
      WordReads(lx, SpellToken(t), rest);
    case _ => SymbolReads(lx, t, rest);
  }

  lemma LexReadsOne(lx: Lexicon, t: Token, rest: string)
    requires GuardSane(lx) && Spellable(lx, t)
    ensures Lex(lx, SpellToken(t) + " " + rest) == After([t], Lex(lx, rest))
  {
    TokenReads(lx, t, rest);
    hide FirstGuardToken, SpellToken, Spellable;
    var s, n := SpellToken(t) + " " + rest, |SpellToken(t)|;
    assert s[0] == SpellToken(t)[0];
    assert s[n..] == " " + rest;
    LexSkipsBlank(lx, rest);
  }

  lemma LexSkipsBlank(lx: Lexicon, rest: string)
    requires lx.isSpace(' ')
    ensures Lex(lx, " " + rest) == Lex(lx, rest)
  {
    assert (" " + rest)[1..] == rest;
  }

  /** The round trip: a spelled token list is read back, with the end marker after it. */
  lemma {:induction false} LexReadsSpelling(lx: Lexicon, ts: seq<Token>)
    requires GuardSane(lx) && forall t :: t in ts ==> Spellable(lx, t)
    ensures Lex(lx, Spell(ts)) == Success(ts + [TEof])
  {
    hide Lex, Spellable, SpellToken, GuardSane;
    if ts == [] {
      LexNothing(lx);
      assert ts + [TEof] == [TEof];
    } else {
      LexReadsSpelling(lx, ts[1..]);
      LexReadsOne(lx, ts[0], Spell(ts[1..]));
      assert [ts[0]] + (ts[1..] + [TEof]) == ts + [TEof];
    }
  }

  lemma LexNothing(lx: Lexicon)
    ensures Lex(lx, "") == Success([TEof])
  {}
}
