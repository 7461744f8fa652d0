/** The lexer of the domain description language (src/ddl/lexer.rs). */
module DdlLexer {
  import opened Wrappers
  import opened DdlSyntax
  import G = GuardLexer

  type Lexicon = G.Lexicon

  /** A lexical error, at the line and column where the offending token starts. */
  datatype Flaw = Flaw(line: nat, col: nat, error: G.LexError)

  type Lexed = Result<seq<Token>, Flaw>

  // ---- One token -----------------------------------------------------------------------

  function Keyword(s: string): Kind {
    if s == "signal" then KSignal
    else if s == "states" then KStates
    else if s == "initial" then KInitial
    else if s == "on" then KOn
    else if s == "from" then KFrom
    else if s == "to" then KTo
    else if s == "params" then KParams
    else if s == "when" then KWhen
    else if s == "reaction" then KReaction
    else if s == "enters" then KEnters
    else if s == "with" then KWith
    else if s == "on_exit" then KOnExit
    else if s == "on_transition" then KOnTransition
    else if s == "on_enter" then KOnEnter
    else if s == "on_fail" then KOnFail
    else if s == "guard" then KGuard
    else if s == "fork" then KFork
    else if s == "join" then KJoin
    else if s == "component" then KComponent
    else if s == "port" then KPort
    else if s == "instantiate" then KInstantiate
    else if s == "connect" then KConnect
    else if s == "as" then KAs
    else if s == "and" then KAnd
    else if s == "or" then KOr
    else if s == "not" then KNot
    else if s == "true" then KBool(true)
    else if s == "false" then KBool(false)
    else KIdentifier(s)
  }

  predicate IsQuote(c: char) {
    c == '\'' || c == '"'
  }

  /** A character inside a string that `quote` opened. */
  predicate InString(quote: char, c: char) {
    c != quote && c != '\n'
  }

  /** The symbol at the start of `s`, and its length. */
  function Symbol(s: string): (r: Result<(Kind, nat), G.LexError>)
    requires s != ""
    ensures r.Success? ==> 0 < r.value.1 <= |s|
  {
    var c, next := s[0], if |s| > 1 then s[1] else ' ';
    if c == '[' then Success((KLBracket, 1))
    else if c == ']' then Success((KRBracket, 1))
    else if c == '{' then Success((KLBrace, 1))
    else if c == '}' then Success((KRBrace, 1))
    else if c == '(' then Success((KLParen, 1))
    else if c == ')' then Success((KRParen, 1))
    else if c == ':' then Success((KColon, 1))
    else if c == ',' then Success((KComma, 1))
    else if c == '.' then Success((KDot, 1))
    else if c == '+' then Success((KPlus, 1))
    else if c == '*' then Success((KMul, 1))
    else if c == '/' then Success((KDiv, 1))
    else if c == '-' then Success(if next == '>' then (KArrow, 2) else (KMinus, 1))
    else if c == '>' then Success(if next == '=' then (KGte, 2) else (KGt, 1))
    else if c == '<' then Success(if next == '=' then (KLte, 2) else (KLt, 1))
    else if c == '!' && next == '=' then Success((KNeq, 2))
    else if c == '=' && next == '=' then Success((KEq, 2))
    else Failure(G.UnexpectedCharacter(c))
  }

  function NumberKind(lx: Lexicon, s: string): Result<Kind, G.LexError>
    requires forall c :: c in s ==> G.IsNumeric(c)
  {
    var t :- G.NumberToken(lx, s);
    Success(if t.TInteger? then KInteger(t.i) else KFloat(t.f))
  }

  /** The first token of a text that starts with neither a blank nor a comment, and its length. */
  function FirstToken(lx: Lexicon, s: string): (r: Result<(Kind, nat), G.LexError>)
    requires s != ""
    ensures r.Success? ==> 0 < r.value.1 <= |s|
  {
    if IsQuote(s[0]) then
      var n := G.Span(s[1..], c => InString(s[0], c));
      if n + 1 < |s| && s[n + 1] == s[0] then Success((KString(s[1..][..n]), n + 2)) else Failure(G.UnterminatedString)
    else if G.IsDigit(s[0]) then
      var n := G.Span(s, G.IsNumeric);
      var k :- NumberKind(lx, s[..n]);
      Success((k, n))
    else if G.StartsWord(lx, s[0]) then
      var n := 1 + G.Span(s[1..], c => G.InWord(lx, c));
      Success((Keyword(s[..n]), n))
    else
      Symbol(s)
  }

  // ---- The whole text ------------------------------------------------------------------

  predicate StartsComment(s: string) {
    |s| > 1 && s[0] == '/' && s[1] == '/'
  }

  predicate IsBlank(c: char) {
    c == ' ' || c == '\t' || c == '\r'
  }

  /** The length of a comment: it ends before the line does. */
  function CommentLength(s: string): (n: nat)
    ensures n <= |s| && (n < |s| ==> s[n] == '\n')
    ensures StartsComment(s) ==> n >= 2
  {
    G.Span(s, c => c != '\n')
  }

  /** The length in bytes of a character in UTF-8. */
  function Width(c: char): (n: nat)
    ensures 1 <= n <= 4
  {
    var code := c as int;
    if code < 0x80 then 1 else if code < 0x800 then 2 else if code < 0x10000 then 3 else 4
  }

  function Bytes(s: string): nat {
    if s == "" then 0 else Bytes(s[..|s| - 1]) + Width(s[|s| - 1])
  }

  /** The character at byte offset `b`, rounded down to a character boundary. */
  function Index(s: string, b: nat): (i: nat)
    ensures i <= |s|
  {
    if s == "" || Bytes(s) <= b then |s| else Index(s[..|s| - 1], b)
  }

  /** The text between two byte offsets. */
  function Slice(s: string, from: nat, to: nat): string {
    var i, j := Index(s, from), Index(s, to);
    if i <= j then s[i..j] else ""
  }

  /** Where the lexer is: at a character, its byte, and the line and column it keeps. */
  datatype Cursor = Cursor(index: nat, byte: nat, line: nat, col: nat)

  const START := Cursor(0, 0, 1, 1)

  function Across(at: Cursor, s: string): Cursor {
    Cursor(at.index + |s|, at.byte + Bytes(s), at.line, at.col + |s|)
  }

  /** Over a comment, whose characters the source does not count in the column. */
  function Over(at: Cursor, comment: string): Cursor {
    Across(at, comment).(col := at.col)
  }

  function NextLine(at: Cursor): Cursor {
    Cursor(at.index + 1, at.byte + 1, at.line + 1, 1)
  }

  function TokenAt(at: Cursor, kind: Kind, len: nat): Token {
    Token(kind, at.line, at.col, at.byte, len)
  }

  /** The end marker: its start is the number of characters, not of bytes. */
  function EndAt(at: Cursor): Token {
    Token(KEof, at.line, at.col, at.index, 0)
  }

  /** The tokens of the text `s` that starts at `at`. */
  function LexFrom(lx: Lexicon, s: string, at: Cursor): Lexed
    decreases |s|
  {
    if s == "" then Success([EndAt(at)])
    else if StartsComment(s) then
      var n := CommentLength(s);
      LexFrom(lx, s[n..], Over(at, s[..n]))
    else if IsBlank(s[0]) then LexFrom(lx, s[1..], Across(at, s[..1]))
    else if s[0] == '\n' then LexFrom(lx, s[1..], NextLine(at))
    else
      match FirstToken(lx, s)
      case Failure(e) => Failure(Flaw(at.line, at.col, e))
      case Success((kind, n)) => After([TokenAt(at, kind, Bytes(s[..n]))], LexFrom(lx, s[n..], Across(at, s[..n])))
  }

  function Lex(lx: Lexicon, src: string): Lexed {
    LexFrom(lx, src, START)
  }

  // ---- The source's loops --------------------------------------------------------------

  lemma {:induction false} BytesSplit(s: string, i: nat, j: nat)
    requires i <= j <= |s|
    ensures Bytes(s[..j]) == Bytes(s[..i]) + Bytes(s[i..j])
  {
    if i < j {
      BytesSplit(s, i, j - 1);
      assert s[..j][..j - 1] == s[..j - 1] && s[i..j][..j - i - 1] == s[i..j - 1];
    }
  }

  method BytePositions(chars: string) returns (v: seq<nat>)
    ensures |v| == |chars| + 1 && forall k :: 0 <= k <= |chars| ==> v[k] == Bytes(chars[..k])
  {
    v := [];
    var b := 0;
    for i := 0 to |chars|
      invariant |v| == i && b == Bytes(chars[..i])
      invariant forall k :: 0 <= k < i ==> v[k] == Bytes(chars[..k])
    {
      v := v + [b];
      b := b + Width(chars[i]);
      assert chars[..i + 1][..i] == chars[..i];
    }
    assert chars[..|chars|] == chars;
    v := v + [b];
  }

  method ScanString(lx: Lexicon, input: string, i: nat) returns (r: Result<(Kind, nat), G.LexError>)
    requires i < |input| && IsQuote(input[i])
    ensures r == FirstToken(lx, input[i..])
  {
    var quote, s, j := input[i], "", i + 1;
    ghost var text := input[i..];
    while j < |input| && input[j] != quote
      invariant i + 1 <= j <= |input| && s == text[1..][..j - i - 1]
      invariant forall k :: 0 <= k < |s| ==> InString(quote, s[k])
    {
      if input[j] == '\n' {
        G.SpanIs(text[1..], c => InString(quote, c), |s|);
        return Failure(G.UnterminatedString);
      }
      s := s + [input[j]];
      j := j + 1;
    }
    G.SpanIs(text[1..], c => InString(quote, c), |s|);
    if j >= |input| {
      return Failure(G.UnterminatedString);
    }
    return Success((KString(s), |s| + 2));
  }

  method ScanNumber(lx: Lexicon, input: string, i: nat) returns (r: Result<(Kind, nat), G.LexError>)
    requires i < |input| && G.IsDigit(input[i])
    ensures r == FirstToken(lx, input[i..])
  {
    var number := G.ScanNumber(lx, input, i);
    if number.Failure? {
      return Failure(number.error);
    }
    var (t, n) := number.value;
    return Success((if t.TInteger? then KInteger(t.i) else KFloat(t.f), n));
  }

  method ScanWord(lx: Lexicon, input: string, i: nat) returns (r: Result<(Kind, nat), G.LexError>)
    requires i < |input| && !IsQuote(input[i]) && !G.IsDigit(input[i]) && G.StartsWord(lx, input[i])
    ensures r == FirstToken(lx, input[i..])
  {
    hide Keyword;
    ghost var text := input[i..];
    var s, j := [input[i]], i + 1;
    while j < |input| && G.InWord(lx, input[j])
      invariant i + 1 <= j <= |input| && s == text[..j - i]
      invariant forall k :: 0 < k < |s| ==> G.InWord(lx, s[k])
    {
      s := s + [input[j]];
      j := j + 1;
    }
    G.SpanIs(text[1..], c => G.InWord(lx, c), |s| - 1);
    return Success((Keyword(s), |s|));
  }

  method Scan(lx: Lexicon, input: string, i: nat) returns (r: Result<(Kind, nat), G.LexError>)
    requires i < |input|
    ensures r == FirstToken(lx, input[i..])
  {
    if IsQuote(input[i]) {
      r := ScanString(lx, input, i);
    } else if G.IsDigit(input[i]) {
      r := ScanNumber(lx, input, i);
    } else if G.StartsWord(lx, input[i]) {
      r := ScanWord(lx, input, i);
    } else {
      r := Symbol(input[i..]);
    }
  }

  method SkipComment(input: string, i: nat) returns (j: nat)
    requires i < |input| && StartsComment(input[i..])
    ensures i < j <= |input| && j == i + CommentLength(input[i..])
  {
    j := i;
    while j < |input| && input[j] != '\n'
      invariant i <= j <= |input|
      invariant forall k :: i <= k < j ==> input[k] != '\n'
    {
      j := j + 1;
    }
    ghost var s := input[i..];
    G.SpanIs(s, c => c != '\n', j - i);
  }

  /** `at` is a place in `src`, and its byte is right. */
  predicate On(src: string, at: Cursor) {
    at.index <= |src| && at.byte == Bytes(src[..at.index])
  }

  /** The place `j`, on the line and column given. */
  function To(src: string, j: nat, line: nat, col: nat): Cursor
    requires j <= |src|
  {
    Cursor(j, Bytes(src[..j]), line, col)
  }

  lemma SkipsComment(lx: Lexicon, src: string, at: Cursor, j: nat)
    requires On(src, at) && StartsComment(src[at.index..]) && j == at.index + CommentLength(src[at.index..])
    ensures LexFrom(lx, src[at.index..], at) == LexFrom(lx, src[j..], To(src, j, at.line, at.col))
  {
    hide Bytes, CommentLength;
    var s, n := src[at.index..], j - at.index;
    BytesSplit(src, at.index, j);
    assert s[..n] == src[at.index..j] && s[n..] == src[j..];
  }

  lemma SkipsBlank(lx: Lexicon, src: string, at: Cursor)
    requires On(src, at) && at.index < |src| && IsBlank(src[at.index])
    ensures LexFrom(lx, src[at.index..], at)
            == LexFrom(lx, src[at.index + 1..], To(src, at.index + 1, at.line, at.col + 1))
  {
    hide Bytes;
    var s := src[at.index..];
    BytesSplit(src, at.index, at.index + 1);
    assert s[..1] == src[at.index..at.index + 1] && s[1..] == src[at.index + 1..];
  }

  lemma SkipsNewline(lx: Lexicon, src: string, at: Cursor)
    requires On(src, at) && at.index < |src| && src[at.index] == '\n'
    ensures LexFrom(lx, src[at.index..], at) == LexFrom(lx, src[at.index + 1..], To(src, at.index + 1, at.line + 1, 1))
  {
    var s := src[at.index..];
    BytesSplit(src, at.index, at.index + 1);
    assert Bytes("\n") == 1 by { assert "\n"[..0] == ""; }
    hide Bytes;
    assert src[at.index..at.index + 1] == "\n" && s[1..] == src[at.index + 1..];
  }

  /** A token starts at `s`, not a blank or a comment. */
  predicate Solid(s: string) {
    s != "" && !StartsComment(s) && !IsBlank(s[0]) && s[0] != '\n'
  }

  lemma TakesToken(lx: Lexicon, src: string, at: Cursor, kind: Kind, n: nat)
    requires On(src, at) && Solid(src[at.index..]) && FirstToken(lx, src[at.index..]) == Success((kind, n))
    ensures var end := To(src, at.index + n, at.line, at.col + n);
            LexFrom(lx, src[at.index..], at) ==
            After([TokenAt(at, kind, Bytes(src[at.index..at.index + n]))], LexFrom(lx, src[at.index + n..], end))
  {
    hide Bytes, FirstToken;
    var s := src[at.index..];
    BytesSplit(src, at.index, at.index + n);
    assert s[..n] == src[at.index..at.index + n] && s[n..] == src[at.index + n..];
  }

  method Tokenize(lx: Lexicon, input: string) returns (r: Lexed)
    ensures r == Lex(lx, input)
  {
    hide FirstToken, Bytes, Width, CommentLength, LexFrom, After;
    var bytePos := BytePositions(input);
    var tokens: seq<Token>, i, line, col := [], 0, 1, 1;
    Begins(input);
    AfterNothing(Lex(lx, input));
    assert input[0..] == input;
    while i < |input|
      invariant 0 <= i <= |input|
      invariant Lex(lx, input) == After(tokens, LexFrom(lx, input[i..], To(input, i, line, col)))
    {
      ghost var at := To(input, i, line, col);
      if input[i] == '/' && i + 1 < |input| && input[i + 1] == '/' {
        var j := SkipComment(input, i);
        SkipsComment(lx, input, at, j);
        i := j;
      } else if IsBlank(input[i]) {
        SkipsBlank(lx, input, at);
        i, col := i + 1, col + 1;
      } else if input[i] == '\n' {
        SkipsNewline(lx, input, at);
        i, line, col := i + 1, line + 1, 1;
      } else {
        var next := Scan(lx, input, i);
        if next.Failure? {
          EndsAndFails(lx, input[i..], at);
          AfterLast(tokens, EndAt(START), Flaw(line, col, next.error));
          return Failure(Flaw(line, col, next.error));
        }
        var (kind, n) := next.value;
        TakesToken(lx, input, at, kind, n);
        BytesSplit(input, i, i + n);
        var t := Token(kind, line, col, bytePos[i], bytePos[i + n] - bytePos[i]);
        AfterOne(tokens, t, LexFrom(lx, input[i + n..], To(input, i + n, line, col + n)));
        tokens, i, col := tokens + [t], i + n, col + n;
      }
    }
    EndsAndFails(lx, input[i..], To(input, i, line, col));
    var end := Token(KEof, line, col, i, 0);
    AfterLast(tokens, end, Flaw(0, 0, G.UnterminatedString));
    return Success(tokens + [end]);
  }

  lemma Begins(src: string)
    ensures To(src, 0, 1, 1) == START
  {}

  lemma EndsAndFails(lx: Lexicon, s: string, at: Cursor)
    ensures s == "" ==> LexFrom(lx, s, at) == Success([EndAt(at)])
    ensures Solid(s) && FirstToken(lx, s).Failure?
            ==> LexFrom(lx, s, at) == Failure(Flaw(at.line, at.col, FirstToken(lx, s).error))
  {
    hide FirstToken;
  }
}
