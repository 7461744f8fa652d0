/** Scripts as text: what is written compiles to what was meant, guards and payloads included. */
module DdlSpelling {
  import opened Wrappers
  import opened Schema
  import opened DdlSyntax
  import opened DdlLexer
  import opened DdlPositions
  import opened DdlScript
  import opened DdlPrinter
  import opened DdlUnclosed
  import opened Codegen
  import A = DdlGrammar
  import C = DdlCompile
  import E = GuardEval
  import G = GuardLexer
  import V = DdlVerbatim

  // ---- Spelling ------------------------------------------------------------------------

  function BlockWord(k: Kind): string {
    match k
    case KSignal => "signal"
    case KStates => "states"
    case KInitial => "initial"
    case KReaction => "reaction"
    case KOn => "on"
    case KFork => "fork"
    case KJoin => "join"
    case _ => ""
  }

  function ClauseWord(k: Kind): string {
    match k
    case KWhen => "when"
    case KFrom => "from"
    case KEnters => "enters"
    case KOnExit => "on_exit"
    case KOnTransition => "on_transition"
    case KOnEnter => "on_enter"
    case KOnFail => "on_fail"
    case _ => ""
  }

  function PartWord(k: Kind): string {
    match k
    case KTo => "to"
    case KParams => "params"
    case KWith => "with"
    case KGuard => "guard"
    case KComponent => "component"
    case KPort => "port"
    case KInstantiate => "instantiate"
    case _ => ""
  }

  function LogicWord(k: Kind): string {
    match k
    case KConnect => "connect"
    case KAs => "as"
    case KAnd => "and"
    case KOr => "or"
    case KNot => "not"
    case KBool(b) => if b then "true" else "false"
    case _ => ""
  }

  function KeywordText(k: Kind): string {
    if BlockWord(k) != "" then BlockWord(k)
    else if ClauseWord(k) != "" then ClauseWord(k)
    else if PartWord(k) != "" then PartWord(k)
    else LogicWord(k)
  }

  function Sign(k: Kind): string {
    match k
    case KLBracket => "["
    case KRBracket => "]"
    case KLBrace => "{"
    case KRBrace => "}"
    case KArrow => "->"
    case KColon => ":"
    case KComma => ","
    case KMul => "*"
    case _ => ""
  }

  function Operator(k: Kind): string {
    match k
    case KLParen => "("
    case KRParen => ")"
    case KDot => "."
    case KPlus => "+"
    case KMinus => "-"
    case KDiv => "/"
    case KEq => "=="
    case KNeq => "!="
    case KLt => "<"
    case KLte => "<="
    case KGt => ">"
    case KGte => ">="
    case _ => ""
  }

  /** A string in single quotes, or in double ones if it has a single one in it. */
  function Quoted(s: string): string {
    if '\'' !in s then "'" + s + "'" else "\"" + s + "\""
  }

  function SpellKind(k: Kind): string {
    match k
    case KIdentifier(name) => name
    case KString(s) => Quoted(s)
    case KInteger(i) => if i >= 0 then G.Decimal(i) else ""
    case _ =>
      if KeywordText(k) != "" then KeywordText(k) else if Sign(k) != "" then Sign(k) else Operator(k)
  }

  /** The kinds spelled out, each followed by a blank. */
  function Spell(kinds: seq<Kind>): string {
    if kinds == [] then "" else SpellKind(kinds[0]) + " " + Spell(kinds[1..])
  }

  /** The kinds spelled out, with blanks between them. */
  function Piece(kinds: seq<Kind>): string {
    var s := Spell(kinds);
    if s == "" then "" else s[..|s| - 1]
  }

  /** A name that the lexer reads as an identifier. */
  predicate IsName(lx: Lexicon, name: string) {
    G.IsWord(lx, name) && Keyword(name) == KIdentifier(name)
  }

  ghost predicate Proper(lx: Lexicon, names: set<string>) {
    forall name :: name in names ==> IsName(lx, name)
  }

  predicate IsKeyword(k: Kind) {
    KeywordText(k) != ""
  }

  /** The kinds that have a spelling, of the identifiers those called one of `names`; floats have none of their own. */
  predicate Spellable(names: set<string>, k: Kind) {
    match k
    case KIdentifier(name) => name in names
    case KString(s) => '\n' !in s && ('\'' !in s || '"' !in s)
    case KInteger(i) => 0 <= i <= E.MAX
    case KFloat(_) => false
    case KEof => false
    case _ => true
  }

  /** What the proofs need of the character classes; Unicode's have it. */
  predicate SpellSane(lx: Lexicon) {
    && V.NameSane(lx)
    && forall c :: lx.isLetter(c) || lx.isLetterOrDigit(c) ==> c !in " \t\r\n\"[]{}:,"
  }

  // ---- What a token's text is ----------------------------------------------------------

  /** A word starts the text, and ends where the text does or before a character of no word. */
  predicate WordEnds(lx: Lexicon, s: string, n: nat) {
    0 < n <= |s| && (lx.isLetter(s[0]) || s[0] == '_')
    && (forall i :: 1 <= i < n ==> lx.isLetterOrDigit(s[i]) || s[i] == '_')
    && (n < |s| ==> !lx.isLetterOrDigit(s[n]) && s[n] != '_')
  }

  /** So does a number. */
  predicate NumberEnds(s: string, n: nat) {
    0 < n <= |s| && '0' <= s[0] <= '9' && (forall i :: 0 <= i < n ==> '0' <= s[i] <= '9' || s[i] == '.')
    && (n < |s| ==> !('0' <= s[n] <= '9') && s[n] != '.')
  }

  /** The text of the first token of `s`, of length `n`, if the token is of kind `k`. */
  predicate TextIs(lx: Lexicon, s: string, k: Kind, n: nat)
    requires n <= |s|
  {
    var text := s[..n];
    match k
    case KIdentifier(name) => text == name && WordEnds(lx, s, n)
    case KString(body) => '\n' !in body && n == |body| + 2 && IsQuote(s[0]) && s[0] !in body
      && text == [s[0]] + body + [s[0]]
    case KInteger(i) => NumberEnds(s, n) && (forall c :: c in text ==> G.IsDigit(c)) && i == G.Number(text) <= E.MAX
    case KFloat(f) => NumberEnds(s, n) && G.Points(text) == 1 && lx.float(text) == Some(f)
    case KEof => false
    case _ => text == SpellKind(k) && (IsKeyword(k) ==> WordEnds(lx, s, n))
  }

  lemma BlockWordShows(s: string)
    ensures BlockWord(Keyword(s)) != "" ==> BlockWord(Keyword(s)) == s
  {}

  lemma ClauseWordShows(s: string)
    ensures ClauseWord(Keyword(s)) != "" ==> ClauseWord(Keyword(s)) == s
  {}

  lemma PartWordShows(s: string)
    ensures PartWord(Keyword(s)) != "" ==> PartWord(Keyword(s)) == s
  {}

  lemma LogicWordShows(s: string)
    ensures LogicWord(Keyword(s)) != "" ==> LogicWord(Keyword(s)) == s
  {}

  /** The kinds that words are read as, names apart. */
  predicate Worded(k: Kind) {
    || k.KSignal? || k.KStates? || k.KInitial? || k.KReaction? || k.KOn? || k.KFork? || k.KJoin?
    || k.KWhen? || k.KFrom? || k.KEnters? || k.KOnExit? || k.KOnTransition? || k.KOnEnter? || k.KOnFail?
    || k.KTo? || k.KParams? || k.KWith? || k.KGuard? || k.KComponent? || k.KPort? || k.KInstantiate?
    || k.KConnect? || k.KAs? || k.KAnd? || k.KOr? || k.KNot? || k.KBool?
  }

  lemma WordIsWorded(s: string)
    ensures Keyword(s) == KIdentifier(s) || Worded(Keyword(s))
  {}

  lemma WordedIsKeyword(k: Kind)
    requires Worded(k)
    ensures IsKeyword(k)
  {}

  lemma WordShows(s: string)
    ensures Keyword(s) == KIdentifier(s) || (IsKeyword(Keyword(s)) && KeywordText(Keyword(s)) == s)
  {
    hide Keyword, BlockWord, ClauseWord, PartWord, LogicWord, Worded;
    WordIsWorded(s);
    if Worded(Keyword(s)) {
      WordedIsKeyword(Keyword(s));
    }
    BlockWordShows(s);
    ClauseWordShows(s);
    PartWordShows(s);
    LogicWordShows(s);
  }

  lemma KeywordIsSpelled(k: Kind)
    requires IsKeyword(k)
    ensures SpellKind(k) == KeywordText(k) && !k.KIdentifier? && !k.KString? && !k.KInteger? && !k.KFloat? && k != KEof
  {}

  /** The kinds that symbols are read as. */
  predicate Symbolic(k: Kind) {
    || k.KLBracket? || k.KRBracket? || k.KLBrace? || k.KRBrace? || k.KArrow? || k.KColon? || k.KComma? || k.KMul?
    || k.KLParen? || k.KRParen? || k.KDot? || k.KPlus? || k.KMinus? || k.KDiv?
    || k.KEq? || k.KNeq? || k.KLt? || k.KLte? || k.KGt? || k.KGte?
  }

  function SymbolText(k: Kind): string {
    if Sign(k) != "" then Sign(k) else Operator(k)
  }

  lemma SymbolIsSymbolic(s: string)
    requires s != "" && Symbol(s).Success?
    ensures Symbolic(Symbol(s).value.0) && Symbol(s).value.1 <= |s|
    ensures s[..Symbol(s).value.1] == SymbolText(Symbol(s).value.0)
  {
    var (k, n) := Symbol(s).value;
    assert n == 1 ==> s[..n] == [s[0]];
    assert n == 2 ==> s[..n] == [s[0], s[1]];
  }

  lemma SymbolicIsNoBlockWord(k: Kind)
    requires Symbolic(k)
    ensures BlockWord(k) == "" && ClauseWord(k) == ""
  {}

  lemma SymbolicIsNoPartWord(k: Kind)
    requires Symbolic(k)
    ensures PartWord(k) == "" && LogicWord(k) == ""
  {}

  lemma SymbolicIsSpelled(k: Kind)
    requires Symbolic(k)
    ensures !IsKeyword(k) && SpellKind(k) == SymbolText(k)
  {
    hide BlockWord, ClauseWord, PartWord, LogicWord, Sign, Operator;
    SymbolicIsNoBlockWord(k);
    SymbolicIsNoPartWord(k);
  }

  lemma SymbolShows(s: string)
    requires s != "" && Symbol(s).Success?
    ensures var (k, n) := Symbol(s).value;
            && n <= |s| && !IsKeyword(k) && !k.KIdentifier? && !k.KString? && !k.KInteger? && !k.KFloat? && k != KEof
            && s[..n] == SpellKind(k)
  {
    hide Symbol, SpellKind, KeywordText, Sign, Operator;
    SymbolIsSymbolic(s);
    SymbolicIsSpelled(Symbol(s).value.0);
  }

  /** What the text of a token is, whatever the text it is read from: spelled, quoted, or a number's digits. */
  lemma TokenShows(lx: Lexicon, s: string)
    requires s != "" && FirstToken(lx, s).Success?
    ensures TextIs(lx, s, FirstToken(lx, s).value.0, FirstToken(lx, s).value.1)
  {
    hide Keyword, SpellKind, Symbol, KeywordText, G.Number, G.Points;
    if IsQuote(s[0]) {
      var n := G.Span(s[1..], c => InString(s[0], c));
      var body := s[1..][..n];
      assert forall i :: 0 <= i < n ==> InString(s[0], s[1..][i]) && body[i] == s[1..][i];
      assert s[..n + 2] == [s[0]] + body + [s[0]];
    } else if G.IsDigit(s[0]) {
      var n := G.Span(s, G.IsNumeric);
      G.NoPoints(s[..n]);
    } else if G.StartsWord(lx, s[0]) {
      var n := 1 + G.Span(s[1..], c => G.InWord(lx, c));
      assert forall i :: 1 <= i < n ==> G.InWord(lx, s[1..][i - 1]) && s[i] == s[1..][i - 1];
      WordShows(s[..n]);
      if Keyword(s[..n]) != KIdentifier(s[..n]) {
        KeywordIsSpelled(Keyword(s[..n]));
      }
    } else {
      SymbolShows(s);
    }
  }

  /** Why `s` does not start with a token. */
  ghost predicate FlawIs(lx: Lexicon, s: string, e: G.LexError) {
    match e
    case UnterminatedString =>
      s != "" && IsQuote(s[0]) && forall j :: 0 < j < |s| && s[j] == s[0] ==> '\n' in s[1..j]
    case ManyDecimalPoints => exists n: nat :: NumberEnds(s, n) && G.Points(s[..n]) > 1
    case InvalidFloat => exists n: nat :: NumberEnds(s, n) && G.Points(s[..n]) == 1 && lx.float(s[..n]).None?
    case InvalidInteger =>
      exists n: nat :: NumberEnds(s, n) && (forall c :: c in s[..n] ==> G.IsDigit(c)) && G.Number(s[..n]) > E.MAX
    case UnexpectedCharacter(c) => s != "" && s[0] == c && !lx.isLetter(c) && c != '_' && !G.IsDigit(c) && !IsQuote(c)
  }

  lemma FlawShows(lx: Lexicon, s: string)
    requires s != "" && FirstToken(lx, s).Failure?
    ensures FlawIs(lx, s, FirstToken(lx, s).error)
  {
    hide Keyword, G.Number, G.Points;
    if IsQuote(s[0]) {
      var n := G.Span(s[1..], c => InString(s[0], c));
      forall j | 0 < j < |s| && s[j] == s[0] ensures '\n' in s[1..j] {
        assert s[1..][j - 1] == s[0] && n < |s| - 1 && n <= j - 1;
        assert s[n + 1] == s[1..][n] && !InString(s[0], s[n + 1]);
        assert s[n + 1] == '\n' && s[1..j][n] == s[n + 1];
      }
    } else if G.IsDigit(s[0]) {
      var n := G.Span(s, G.IsNumeric);
      G.NoPoints(s[..n]);
      assert NumberEnds(s, n);
    }
  }

  // ---- The lexer reads back what is spelled --------------------------------------------

  lemma BlockWordsRead()
    ensures Keyword("signal") == KSignal && Keyword("states") == KStates && Keyword("initial") == KInitial
            && Keyword("reaction") == KReaction
  {}

  lemma OtherBlockWordsRead()
    ensures Keyword("on") == KOn && Keyword("fork") == KFork && Keyword("join") == KJoin
  {}

  lemma ClauseWordsRead()
    ensures Keyword("when") == KWhen && Keyword("from") == KFrom && Keyword("enters") == KEnters
  {}

  lemma HookWordsRead()
    ensures Keyword("on_exit") == KOnExit && Keyword("on_transition") == KOnTransition
    ensures Keyword("on_enter") == KOnEnter && Keyword("on_fail") == KOnFail
  {}

  lemma PartWordsRead()
    ensures Keyword("to") == KTo && Keyword("params") == KParams && Keyword("with") == KWith
            && Keyword("guard") == KGuard
  {}

  lemma ComponentWordsRead()
    ensures Keyword("component") == KComponent && Keyword("port") == KPort && Keyword("instantiate") == KInstantiate
  {}

  lemma LogicWordsRead()
    ensures Keyword("and") == KAnd && Keyword("or") == KOr && Keyword("not") == KNot
  {}

  lemma OtherLogicWordsRead()
    ensures Keyword("connect") == KConnect && Keyword("as") == KAs
  {}

  lemma TruthWordsRead()
    ensures Keyword("true") == KBool(true) && Keyword("false") == KBool(false)
  {}

  lemma BlockWordReads(k: Kind)
    requires BlockWord(k) != ""
    ensures Keyword(BlockWord(k)) == k
  {
    hide Keyword;
    BlockWordsRead();
    OtherBlockWordsRead();
  }

  lemma ClauseWordReads(k: Kind)
    requires ClauseWord(k) != ""
    ensures Keyword(ClauseWord(k)) == k
  {
    hide Keyword;
    ClauseWordsRead();
    HookWordsRead();
  }

  lemma PartWordReads(k: Kind)
    requires PartWord(k) != ""
    ensures Keyword(PartWord(k)) == k
  {
    hide Keyword;
    PartWordsRead();
    ComponentWordsRead();
  }

  lemma LogicWordReads(k: Kind)
    requires LogicWord(k) != ""
    ensures Keyword(LogicWord(k)) == k
  {
    hide Keyword;
    LogicWordsRead();
    OtherLogicWordsRead();
    TruthWordsRead();
  }

  lemma KeywordReads(k: Kind)
    requires IsKeyword(k)
    ensures Keyword(KeywordText(k)) == k
  {
    hide Keyword, BlockWord, ClauseWord, PartWord, LogicWord;
    if BlockWord(k) != "" {
      BlockWordReads(k);
    } else if ClauseWord(k) != "" {
      ClauseWordReads(k);
    } else if PartWord(k) != "" {
      PartWordReads(k);
    } else {
      LogicWordReads(k);
    }
  }

  predicate InKeyword(c: char) {
    'a' <= c <= 'z' || c == '_'
  }

  /** A word of small letters and underscores that starts with a letter. */
  predicate Lettered(word: string) {
    word != "" && 'a' <= word[0] <= 'z' && forall i :: 0 <= i < |word| ==> InKeyword(word[i])
  }

  lemma BlockLetters(k: Kind)
    ensures BlockWord(k) != "" ==> Lettered(BlockWord(k))
  {}

  lemma ClauseLetters(k: Kind)
    ensures ClauseWord(k) != "" ==> Lettered(ClauseWord(k))
  {}

  lemma PartLetters(k: Kind)
    ensures PartWord(k) != "" ==> Lettered(PartWord(k))
  {}

  lemma LogicLetters(k: Kind)
    ensures LogicWord(k) != "" ==> Lettered(LogicWord(k))
  {}

  lemma KeywordIsWord(lx: Lexicon, word: string)
    requires G.GuardSane(lx) && Lettered(word)
    ensures G.IsWord(lx, word)
  {}

  /** The spelling of `k` is read as `k` and nothing more, before a blank and alone. */
  ghost predicate Reads(lx: Lexicon, k: Kind, rest: string) {
    var s := SpellKind(k) + " " + rest;
    SpellKind(k) != "" && Solid(s) && FirstToken(lx, s) == Success((k, |SpellKind(k)|))
  }

  lemma WordReads(lx: Lexicon, word: string, rest: string)
    requires SpellSane(lx) && G.IsWord(lx, word)
    ensures Solid(word + " " + rest) && FirstToken(lx, word + " " + rest) == Success((Keyword(word), |word|))
  {
    hide Keyword;
    var s := word + " " + rest;
    assert s[0] == word[0] && s[1..] == word[1..] + (" " + rest);
    forall k | 0 <= k < |word| - 1 ensures G.InWord(lx, s[1..][k]) {
      assert s[1..][k] == word[k + 1] && word[k + 1] in word;
    }
    G.SpanIs(s[1..], c => G.InWord(lx, c), |word| - 1);
    assert s[..|word|] == word;
  }

  lemma SignDecodes(k: Kind, rest: string)
    requires Sign(k) != ""
    ensures var s := Sign(k) + " " + rest; Solid(s) && Symbol(s) == Success((k, |Sign(k)|)) && s[0] in "[]{}:,*-"
  {
    var s := Sign(k) + " " + rest;
    assert s[0] == Sign(k)[0] && s[1] == if k == KArrow then '>' else ' ';
  }

  lemma OperatorDecodes(k: Kind, rest: string)
    requires Operator(k) != ""
    ensures var s := Operator(k) + " " + rest;
            Solid(s) && Symbol(s) == Success((k, |Operator(k)|)) && s[0] in "().+-/=!<>"
  {
    var s := Operator(k) + " " + rest;
    assert s[0] == Operator(k)[0] && s[1] == if |Operator(k)| == 1 then ' ' else '=';
  }

  /** A character that neither a string, a number nor a word starts with starts a symbol. */
  lemma SymbolReads(lx: Lexicon, s: string)
    requires SpellSane(lx) && s != "" && s[0] in "[]{}:,*-().+/=!<>"
    ensures FirstToken(lx, s) == Symbol(s)
  {
    hide Symbol;
    assert !lx.isLetter(s[0]);
  }

  lemma StringReads(lx: Lexicon, body: string, rest: string)
    requires '\n' !in body && ('\'' !in body || '"' !in body)
    ensures var s := Quoted(body) + " " + rest;
            Solid(s) && FirstToken(lx, s) == Success((KString(body), |Quoted(body)|))
  {
    hide FirstToken, Solid;
    QuotedReads(lx, if '\'' !in body then '\'' else '"', body, rest);
  }

  lemma QuotedReads(lx: Lexicon, quote: char, body: string, rest: string)
    requires IsQuote(quote) && quote !in body && '\n' !in body
    ensures var s := [quote] + body + [quote] + " " + rest;
            Solid(s) && FirstToken(lx, s) == Success((KString(body), |body| + 2))
  {
    hide NumberKind, Keyword, Symbol;
    var s := [quote] + body + [quote] + " " + rest;
    assert s[0] == quote && s[1..] == body + ([quote] + " " + rest);
    forall k | 0 <= k < |body| ensures InString(quote, s[1..][k]) {
      assert s[1..][k] == body[k] && body[k] in body;
    }
    G.SpanIs(s[1..], c => InString(quote, c), |body|);
    assert s[1..][..|body|] == body && s[|body| + 1] == quote;
  }

  lemma IntegerReads(lx: Lexicon, i: nat, rest: string)
    requires i <= E.MAX
    ensures var s := G.Decimal(i) + " " + rest; Solid(s) && FirstToken(lx, s) == Success((KInteger(i), |G.Decimal(i)|))
  {
    G.DecimalReads(i);
    var d := G.Decimal(i);
    var s := d + " " + rest;
    assert s[0] == d[0] && d[0] in d;
    forall k | 0 <= k < |d| ensures G.IsNumeric(s[k]) {
      assert s[k] == d[k] && d[k] in d;
    }
    G.SpanIs(s, G.IsNumeric, |d|);
    assert s[..|d|] == d;
    G.NoPoints(d);
  }

  lemma KeywordLetters(k: Kind)
    requires IsKeyword(k)
    ensures Lettered(KeywordText(k))
  {
    hide Lettered, BlockWord, ClauseWord, PartWord, LogicWord;
    BlockLetters(k);
    ClauseLetters(k);
    PartLetters(k);
    LogicLetters(k);
  }

  lemma KeywordSpelled(lx: Lexicon, k: Kind, rest: string)
    requires SpellSane(lx) && IsKeyword(k)
    ensures Reads(lx, k, rest)
  {
    assert SpellKind(k) == KeywordText(k);
    hide FirstToken, Solid, Keyword, Lettered, KeywordText, SpellKind;
    KeywordReads(k);
    KeywordLetters(k);
    KeywordIsWord(lx, KeywordText(k));
    WordReads(lx, KeywordText(k), rest);
  }

  lemma SymbolSpelled(lx: Lexicon, k: Kind, rest: string)
    requires SpellSane(lx) && (Sign(k) != "" || Operator(k) != "")
    ensures Reads(lx, k, rest)
  {
    assert SpellKind(k) == if Sign(k) != "" then Sign(k) else Operator(k);
    hide FirstToken, Solid, Symbol, SpellSane, SpellKind;
    if Sign(k) != "" {
      SignDecodes(k, rest);
      SymbolReads(lx, Sign(k) + " " + rest);
    } else {
      OperatorDecodes(k, rest);
      SymbolReads(lx, Operator(k) + " " + rest);
    }
  }

  lemma KindReads(lx: Lexicon, names: set<string>, k: Kind, rest: string)
    requires SpellSane(lx) && Proper(lx, names) && Spellable(names, k)
    ensures Reads(lx, k, rest)
  {
    if IsKeyword(k) {
      KeywordSpelled(lx, k, rest);
    } else if Sign(k) != "" || Operator(k) != "" {
      SymbolSpelled(lx, k, rest);
    } else {
      LiteralSpelled(lx, names, k, rest);
    }
  }

  lemma LiteralSpelled(lx: Lexicon, names: set<string>, k: Kind, rest: string)
    requires SpellSane(lx) && Proper(lx, names) && Spellable(names, k) && !IsKeyword(k) && Sign(k) == ""
             && Operator(k) == ""
    ensures Reads(lx, k, rest)
  {
    assert k.KIdentifier? || k.KString? || k.KInteger?;
    hide FirstToken, Solid, Keyword, SpellSane, KeywordText, Sign, Operator;
    if k.KIdentifier? {
      WordReads(lx, k.name, rest);
    } else if k.KString? {
      StringReads(lx, k.s, rest);
    } else {
      IntegerReads(lx, k.i, rest);
      G.DecimalReads(k.i);
    }
  }

  // ---- The tokens of a spelled list ----------------------------------------------------

  /** Where the lexer is after a token and the blank after it. */
  function AfterToken(at: Cursor, k: Kind): Cursor {
    Across(Across(at, SpellKind(k)), " ")
  }

  function SpelledTokens(kinds: seq<Kind>, at: Cursor): (ts: seq<Token>)
    ensures |ts| == |kinds|
    decreases |kinds|
  {
    if kinds == [] then []
    else [TokenAt(at, kinds[0], Bytes(SpellKind(kinds[0])))] + SpelledTokens(kinds[1..], AfterToken(at, kinds[0]))
  }

  function EndOf(kinds: seq<Kind>, at: Cursor): Cursor
    decreases |kinds|
  {
    if kinds == [] then at else EndOf(kinds[1..], AfterToken(at, kinds[0]))
  }

  /** What the lexer finds in a spelled text: a token for each kind, where it stands. */
  lemma {:induction false} LexReadsSpelling(lx: Lexicon, names: set<string>, kinds: seq<Kind>, at: Cursor)
    requires SpellSane(lx) && Proper(lx, names) && forall k :: k in kinds ==> Spellable(names, k)
    ensures LexFrom(lx, Spell(kinds), at) == Success(SpelledTokens(kinds, at) + [EndAt(EndOf(kinds, at))])
    decreases |kinds|
  {
    hide FirstToken, Solid, Spellable, SpellKind, Bytes, SpellSane, Proper;
    if kinds == [] {
      assert SpelledTokens(kinds, at) + [EndAt(at)] == [EndAt(at)];
    } else {
      var k, rest := kinds[0], Spell(kinds[1..]);
      KindReads(lx, names, k, rest);
      LexReadsSpelling(lx, names, kinds[1..], AfterToken(at, k));
      OneReads(lx, k, rest, at);
      var t, ts, end := TokenAt(at, k, Bytes(SpellKind(k))), SpelledTokens(kinds[1..], AfterToken(at, k)),
        EndAt(EndOf(kinds, at));
      assert [t] + (ts + [end]) == [t] + ts + [end];
    }
  }

  lemma OneReads(lx: Lexicon, k: Kind, rest: string, at: Cursor)
    requires Reads(lx, k, rest)
    ensures LexFrom(lx, SpellKind(k) + " " + rest, at) ==
            After([TokenAt(at, k, Bytes(SpellKind(k)))], LexFrom(lx, rest, AfterToken(at, k)))
  {
    hide FirstToken, Bytes, SpellKind;
    var s, n := SpellKind(k) + " " + rest, |SpellKind(k)|;
    assert s[..n] == SpellKind(k) && s[n..] == " " + rest;
    assert (" " + rest)[1..] == rest && (" " + rest)[..1] == " ";
  }

  lemma {:induction false} SpellConcat(a: seq<Kind>, b: seq<Kind>)
    ensures Spell(a + b) == Spell(a) + Spell(b)
  {
    hide SpellKind;
    if a == [] {
      assert a + b == b;
    } else {
      assert (a + b)[1..] == a[1..] + b;
      SpellConcat(a[1..], b);
    }
  }

  lemma BytesConcat(a: string, b: string)
    ensures Bytes(a + b) == Bytes(a) + Bytes(b)
  {
    hide Bytes;
    BytesSplit(a + b, |a|, |a + b|);
    assert (a + b)[..|a + b|] == a + b && (a + b)[..|a|] == a && (a + b)[|a|..|a + b|] == b;
  }

  /** The kind and the bytes of a token of a spelled list. */
  lemma {:induction false} TokenPlace(kinds: seq<Kind>, at: Cursor, i: nat)
    requires i < |kinds|
    ensures var t := SpelledTokens(kinds, at)[i];
            t.kind == kinds[i] && t.start == at.byte + Bytes(Spell(kinds[..i])) && t.len == Bytes(SpellKind(kinds[i]))
    decreases |kinds|
  {
    hide SpellKind;
    if i > 0 {
      hide Bytes;
      TokenPlace(kinds[1..], AfterToken(at, kinds[0]), i - 1);
      assert kinds[..i][1..] == kinds[1..][..i - 1];
      BytesConcat(SpellKind(kinds[0]) + " ", Spell(kinds[1..][..i - 1]));
      BytesConcat(SpellKind(kinds[0]), " ");
      assert SpellKind(kinds[0]) + " " + Spell(kinds[1..][..i - 1]) == Spell(kinds[..i]);
    } else {
      assert kinds[..0] == [];
    }
  }

  lemma {:induction false} SpellEnds(kinds: seq<Kind>)
    requires kinds != []
    ensures var s, last := Spell(kinds), kinds[|kinds| - 1];
            s != "" && s[|s| - 1] == ' ' && Piece(kinds) == Spell(kinds[..|kinds| - 1]) + SpellKind(last)
  {
    hide SpellKind;
    var front, last := kinds[..|kinds| - 1], kinds[|kinds| - 1];
    assert kinds == front + [last];
    SpellConcat(front, [last]);
    assert Spell([last]) == SpellKind(last) + " " + Spell([last][1..]) && [last][1..] == [];
  }

  /** Cutting at the bytes of a part gives the part. */
  lemma PartIsSlice(before: string, part: string, after: string)
    ensures Slice(before + part + after, Bytes(before), Bytes(before + part)) == part
  {
    hide Bytes, Index;
    var text := before + part + after;
    assert text[..|before|] == before && text[..|before + part|] == before + part;
    IndexOfBytes(text, |before|);
    IndexOfBytes(text, |before + part|);
  }

  /** Cutting a spelled text at its tokens' bytes gives the spelling of those tokens. */
  lemma PieceIsSlice(kinds: seq<Kind>, i: nat, n: nat)
    requires 0 < n && i + n <= |kinds|
    ensures var ts := SpelledTokens(kinds, START);
            Slice(Spell(kinds), ts[i].start, ts[i + n - 1].start + ts[i + n - 1].len) == Piece(kinds[i..i + n])
  {
    hide *;
    var before, run, after := Spell(kinds[..i]), kinds[i..i + n], Spell(kinds[i + n..]);
    FirstPlace(kinds, i);
    LastPlace(kinds, i, n);
    SpellSplits(kinds, i, n);
    PartIsSlice(before, Piece(run), " " + after);
  }

  /** Where the first token of a run starts. */
  lemma FirstPlace(kinds: seq<Kind>, i: nat)
    requires i < |kinds|
    ensures SpelledTokens(kinds, START)[i].start == Bytes(Spell(kinds[..i]))
  {
    hide Bytes, SpellKind, SpelledTokens, Spell;
    TokenPlace(kinds, START, i);
  }

  /** Where the last token of a run ends. */
  lemma LastPlace(kinds: seq<Kind>, i: nat, n: nat)
    requires 0 < n && i + n <= |kinds|
    ensures var t := SpelledTokens(kinds, START)[i + n - 1];
            t.start + t.len == Bytes(Spell(kinds[..i]) + Piece(kinds[i..i + n]))
  {
    hide Bytes, SpellKind, SpelledTokens, Spell, Piece;
    TokenPlace(kinds, START, i + n - 1);
    SpellUpTo(kinds, i, n);
    BytesConcat(Spell(kinds[..i + n - 1]), SpellKind(kinds[i + n - 1]));
  }

  lemma SpellUpTo(kinds: seq<Kind>, i: nat, n: nat)
    requires 0 < n && i + n <= |kinds|
    ensures Spell(kinds[..i]) + Piece(kinds[i..i + n]) == Spell(kinds[..i + n - 1]) + SpellKind(kinds[i + n - 1])
  {
    hide SpellKind, Spell, Piece;
    var run := kinds[i..i + n];
    SpellEnds(run);
    assert kinds[..i + n - 1] == kinds[..i] + run[..n - 1] && kinds[i + n - 1] == run[n - 1];
    SpellConcat(kinds[..i], run[..n - 1]);
    Shift(Spell(kinds[..i]), Spell(run[..n - 1]), SpellKind(run[n - 1]), "");
  }

  lemma SpellAround(before: seq<Kind>, run: seq<Kind>, after: seq<Kind>)
    requires run != []
    ensures Spell(before + run + after) == Spell(before) + Piece(run) + (" " + Spell(after))
  {
    hide SpellKind, Spell;
    SpellConcat(before + run, after);
    SpellConcat(before, run);
    SpellEnds(run);
    assert Spell(run) == Piece(run) + " ";
    Shift(Spell(before), Piece(run), " ", Spell(after));
  }

  lemma Thirds<T>(s: seq<T>, i: nat, n: nat)
    requires i + n <= |s|
    ensures s == s[..i] + s[i..i + n] + s[i + n..]
  {}

  lemma SpellSplits(kinds: seq<Kind>, i: nat, n: nat)
    requires 0 < n && i + n <= |kinds|
    ensures Spell(kinds) == Spell(kinds[..i]) + Piece(kinds[i..i + n]) + (" " + Spell(kinds[i + n..]))
  {
    hide SpellKind, Spell, Piece;
    Thirds(kinds, i, n);
    SpellAround(kinds[..i], kinds[i..i + n], kinds[i + n..]);
  }

  lemma Shift(a: string, b: string, c: string, d: string)
    ensures a + (b + c) + d == a + b + (c + d)
  {}

  /** A spelling has no blank at either end. */
  lemma SpellingIsTrimmed(lx: Lexicon, names: set<string>, k: Kind)
    requires SpellSane(lx) && Proper(lx, names) && Spellable(names, k)
    ensures SpellKind(k) != "" && !lx.isSpace(SpellKind(k)[0]) && !lx.isSpace(SpellKind(k)[|SpellKind(k)| - 1])
  {
    hide FirstToken, Spellable, SpellKind;
    KindReads(lx, names, k, "");
    var s, word := SpellKind(k) + " " + "", SpellKind(k);
    assert s[..|word|] == word && s[0] == word[0];
    FirstAlone(lx, s);
    assert Solid(word);
    V.TokenIsTrimmed(lx, word);
  }

  lemma PieceIsTrimmed(lx: Lexicon, names: set<string>, kinds: seq<Kind>)
    requires SpellSane(lx) && Proper(lx, names) && kinds != [] && forall k :: k in kinds ==> Spellable(names, k)
    ensures A.Trim(lx, Piece(kinds)) == Piece(kinds)
  {
    hide SpellSane, Proper, Spellable, SpellKind, A.Trim;
    var last := kinds[|kinds| - 1];
    SpellingIsTrimmed(lx, names, kinds[0]);
    SpellingIsTrimmed(lx, names, last);
    SpellEnds(kinds);
    var piece := Piece(kinds);
    assert piece[|piece| - 1] == SpellKind(last)[|SpellKind(last)| - 1];
    assert Spell(kinds)[0] == SpellKind(kinds[0])[0];
    V.TrimKeeps(lx, piece);
  }

  // ---- Prints and their texts ----------------------------------------------------------

  /** Every text that is noted is the spelling of its tokens. */
  ghost predicate Spoken(marks: Marks) {
    forall i :: 0 <= i < |marks| && marks[i].note.Some? ==>
      var n := marks[i].note.value;
      0 < n.length && i + n.length <= |marks| && n.text == Piece(KindsOf(marks)[i..i + n.length])
  }

  ghost predicate AllSpellable(names: set<string>, marks: Marks) {
    forall i :: 0 <= i < |marks| ==> Spellable(names, marks[i].kind)
  }

  /** The print of a script, without the end marker. */
  function Body(s: Script): Marks {
    PrintSheets(s.signals) + PrintBlocks(s.blocks)
  }

  /** The text of a script. */
  function TextOf(s: Script): string {
    Spell(KindsOf(Body(s)))
  }

  /** The tokens of a spelled text show what its marks say. */
  lemma SpellingShows(lx: Lexicon, names: set<string>, marks: Marks)
    requires SpellSane(lx) && Proper(lx, names) && AllSpellable(names, marks) && Spoken(marks)
    ensures var kinds := KindsOf(marks); var ts := SpelledTokens(kinds, START);
            Leads(A.Source(lx, Spell(kinds)), ts + [EndAt(EndOf(kinds, START))], marks + [J(KEof)], [])
  {
    hide SpellSane, Proper, Spellable, SpellKind, Holds;
    var kinds := KindsOf(marks);
    var src, ts, end, all := A.Source(lx, Spell(kinds)), SpelledTokens(kinds, START), EndAt(EndOf(kinds, START)),
      marks + [J(KEof)];
    var tokens := ts + [end];
    forall i | 0 <= i < |all|
      ensures tokens[i].kind == all[i].kind && (all[i].note.Some? ==> Holds(src, tokens[i..], all[i].note.value))
    {
      if i < |marks| {
        TokenPlace(kinds, START, i);
        if marks[i].note.Some? {
          NoteShows(lx, names, marks, i, end);
        }
      }
    }
  }

  lemma NoteShows(lx: Lexicon, names: set<string>, marks: Marks, i: nat, end: Token)
    requires SpellSane(lx) && Proper(lx, names) && AllSpellable(names, marks) && Spoken(marks)
    requires i < |marks| && marks[i].note.Some?
    ensures var kinds := KindsOf(marks);
            Holds(A.Source(lx, Spell(kinds)), (SpelledTokens(kinds, START) + [end])[i..], marks[i].note.value)
  {
    hide SpellSane, Proper, Spellable, SpellKind, Slice, A.Trim, Spell, SpelledTokens;
    var kinds, n := KindsOf(marks), marks[i].note.value;
    var ts := SpelledTokens(kinds, START);
    var run := kinds[i..i + n.length];
    PieceIsSlice(kinds, i, n.length);
    forall k | k in run ensures Spellable(names, k) {
      var j :| 0 <= j < |run| && run[j] == k;
      assert marks[i + j].kind == k;
    }
    PieceIsTrimmed(lx, names, run);
    assert (ts + [end])[i..][0] == ts[i] && (ts + [end])[i..][n.length - 1] == ts[i + n.length - 1];
  }

  // ---- Scripts whose texts are their spelling ------------------------------------------

  /** A guard reads as its tokens are spelled. */
  predicate SpokenGuard(guard: Option<Phrase>) {
    guard.Some? ==> guard.value.text == Piece(guard.value.kinds)
  }

  /** A text in braces reads as its tokens are spelled, braces included. */
  predicate SpokenBraced(p: Phrase) {
    p.text == Piece([KLBrace] + p.kinds + [KRBrace])
  }

  predicate SpokenSheet(d: Sheet) {
    forall c :: c in d.clauses ==> SpokenGuard(c.guard)
  }

  predicate SpokenRule(r: Rule) {
    SpokenGuard(r.guard) && (r.tail.Payload? ==> SpokenBraced(r.tail.inner))
  }

  predicate SpokenMember(m: Member) {
    match m
    case OfSheet(d) => SpokenSheet(d)
    case OfRule(r) => SpokenRule(r)
    case OfPort(_) => true
  }

  predicate SpokenBlock(b: Block) {
    match b
    case Single(r) => SpokenRule(r)
    case ForkOf(rs) => forall r :: r in rs ==> SpokenRule(r)
    case JoinOn(_, rs) => forall r :: r in rs ==> SpokenRule(r)
    case Define(_, body) => SpokenBraced(body)
    case Unit(_, _, members) => forall m :: m in members ==> SpokenMember(m)
    case Copy(_, _, _, _) => true
  }

  /** Every guard and every text in braces of a script reads as its tokens are spelled. */
  predicate SpokenScript(s: Script) {
    (forall d :: d in s.signals ==> SpokenSheet(d)) && forall b :: b in s.blocks ==> SpokenBlock(b)
  }

  /** Prints whose texts are spelled can be put together. */
  lemma SpokenConcat(a: Marks, b: Marks)
    requires Spoken(a) && Spoken(b)
    ensures Spoken(a + b)
  {
    hide Piece;
    var marks := a + b;
    forall i | 0 <= i < |marks| && marks[i].note.Some?
      ensures var n := marks[i].note.value;
              0 < n.length && i + n.length <= |marks| && n.text == Piece(KindsOf(marks)[i..i + n.length])
    {
      var n := marks[i].note.value;
      if i < |a| {
        assert KindsOf(marks)[i..i + n.length] == KindsOf(a)[i..i + n.length];
      } else {
        assert KindsOf(marks)[i..i + n.length] == KindsOf(b)[i - |a|..i - |a| + n.length];
      }
    }
  }

  /** A guard whose text is its spelling, and a block whose text is its spelling with the braces. */
  lemma PhraseSpoken(p: Phrase)
    ensures p.text == Piece(p.kinds) ==> Spoken(Noted(p.kinds, p.text, true))
    ensures p.text == Piece([KLBrace] + p.kinds + [KRBrace]) ==> Spoken(PrintBraced(p))
  {
    hide Piece;
    NotedSpoken(p.kinds, p.text, true);
    NotedSpoken([KLBrace] + p.kinds + [KRBrace], p.text, false);
  }

  lemma NotedSpoken(kinds: seq<Kind>, text: string, trimmed: bool)
    ensures text == Piece(kinds) ==> Spoken(Noted(kinds, text, trimmed))
  {
    hide Piece;
    var marks := Noted(kinds, text, trimmed);
    if kinds != [] && text == Piece(kinds) {
      assert KindsOf(marks) == kinds && kinds[0..|kinds|] == kinds;
    }
  }

  predicate Silent(marks: Marks) {
    forall m :: m in marks ==> m.note.None?
  }

  lemma SilentSpoken(marks: Marks)
    requires Silent(marks)
    ensures Spoken(marks)
  {
    forall i | 0 <= i < |marks| ensures marks[i].note.None? {
      assert marks[i] in marks;
    }
  }

  lemma {:induction false} MoreSilent(names: seq<string>)
    ensures Silent(PrintMore(names))
  {
    if names != [] {
      MoreSilent(names[1..]);
    }
  }

  lemma StatesSilent(states: seq<string>)
    ensures Silent(PrintStates(states))
  {
    hide PrintMore;
    if states != [] {
      MoreSilent(states[1..]);
    }
  }

  lemma HookSilent(hook: Kind, ids: seq<string>)
    ensures Silent(PrintHook(hook, ids))
  {
    hide PrintMore;
    if ids != [] {
      MoreSilent(ids[1..]);
    }
  }

  lemma ActionsSilent(block: Option<ActionBinding>)
    ensures Silent(PrintActions(block))
  {
    hide PrintHook;
    if block.Some? {
      HookSilent(KOnExit, block.value.onExit);
      HookSilent(KOnTransition, block.value.onTransition);
      HookSilent(KOnEnter, block.value.onEnter);
    }
  }

  lemma {:induction false} MorePairsSilent(ps: Pairs)
    ensures Silent(PrintMorePairs(ps))
  {
    if ps != [] {
      MorePairsSilent(ps[1..]);
    }
  }

  lemma PairsSilent(ps: Pairs)
    ensures Silent(PrintPairs(ps))
  {
    hide PrintMorePairs;
    if ps != [] {
      MorePairsSilent(ps[1..]);
    }
  }

  lemma GuardSpoken(guard: Option<Phrase>)
    requires SpokenGuard(guard)
    ensures Spoken(PrintGuard(guard))
  {
    hide Piece, Noted, Spoken;
    match guard
    case None =>
      SilentSpoken([]);
    case Some(g) =>
      PhraseSpoken(g);
      SilentSpoken([J(KWhen)]);
      SpokenConcat([J(KWhen)], Noted(g.kinds, g.text, true));
  }

  lemma ClauseSpoken(c: Clause)
    requires SpokenGuard(c.guard)
    ensures Spoken(PrintClause(c))
  {
    hide Spoken, PrintGuard, PrintActions, SpokenGuard;
    var on := [J(KOn), J(KIdentifier(c.event)), J(KFrom)];
    GuardSpoken(c.guard);
    SilentSpoken(PrintMove(c));
    SpokenConcat(PrintMove(c), PrintGuard(c.guard));
    SilentSpoken(on);
    SpokenConcat(on, PrintMove(c) + PrintGuard(c.guard));
    ActionsSilent(c.block);
    SilentSpoken(PrintActions(c.block));
    SpokenConcat(PrintHead(c), PrintActions(c.block));
  }

  lemma {:induction false} ClausesSpoken(cs: seq<Clause>)
    requires forall c :: c in cs ==> SpokenGuard(c.guard)
    ensures Spoken(PrintClauses(cs))
  {
    hide Spoken, PrintClause, SpokenGuard;
    if cs == [] {
      SilentSpoken([]);
    } else {
      ClauseSpoken(cs[0]);
      ClausesSpoken(cs[1..]);
      SpokenConcat(PrintClause(cs[0]), PrintClauses(cs[1..]));
    }
  }

  lemma SheetSpoken(d: Sheet)
    requires SpokenSheet(d)
    ensures Spoken(PrintSheet(d))
  {
    ClausesSpoken(d.clauses);
    StatesSilent(d.states);
    hide Spoken, PrintClauses, PrintStates;
    var states, initial := [J(KStates), J(KColon)] + PrintStates(d.states),
      [J(KInitial), J(KColon), J(KIdentifier(d.initial))];
    var head := [J(KSignal), J(KIdentifier(d.id)), J(KLBrace)];
    Between(initial, PrintClauses(d.clauses), [J(KRBrace)]);
    SilentSpoken(states);
    SpokenConcat(states, initial + (PrintClauses(d.clauses) + [J(KRBrace)]));
    SilentSpoken(head);
    SpokenConcat(head, states + (initial + (PrintClauses(d.clauses) + [J(KRBrace)])));
  }

  lemma Between(a: Marks, b: Marks, c: Marks)
    requires Silent(a) && Spoken(b) && Silent(c)
    ensures Spoken(a + (b + c))
  {
    hide Spoken;
    SilentSpoken(a);
    SilentSpoken(c);
    SpokenConcat(b, c);
    SpokenConcat(a, b + c);
  }

  lemma TailSpoken(tail: Tail)
    requires tail.Payload? ==> SpokenBraced(tail.inner)
    ensures Spoken(PrintTail(tail))
  {
    hide Spoken, PrintBraced, Piece;
    match tail
    case Bare =>
      SilentSpoken([]);
    case Blank =>
      SilentSpoken([J(KLBrace)] + [J(KRBrace)]);
    case Payload(inner) =>
      PhraseSpoken(inner);
      SilentSpoken([J(KWith)]);
      SpokenConcat([J(KWith)], PrintBraced(inner));
  }

  lemma RuleSpoken(r: Rule)
    requires SpokenRule(r)
    ensures Spoken(PrintRule(r))
  {
    TailSpoken(r.tail);
    GuardSpoken(r.guard);
    hide Spoken, PrintTail, PrintGuard;
    var trigger, effect := [J(KIdentifier(r.fromSignal)), J(KEnters), J(KIdentifier(r.fromState))],
      [J(KArrow), J(KIdentifier(r.toSignal)), J(KIdentifier(r.event))];
    SilentSpoken(effect);
    SpokenConcat(effect, PrintGuard(r.guard));
    SilentSpoken(trigger);
    SpokenConcat(trigger, effect + PrintGuard(r.guard));
    SilentSpoken([J(KWhen)]);
    SpokenConcat([J(KWhen)], trigger + (effect + PrintGuard(r.guard)));
    SilentSpoken(PrintOnFail(r.onFail));
    SpokenConcat(PrintTail(r.tail), PrintOnFail(r.onFail));
    SpokenConcat(PrintRuleHead(r), PrintTail(r.tail) + PrintOnFail(r.onFail));
  }

  lemma {:induction false} RulesSpoken(rs: seq<Rule>)
    requires forall r :: r in rs ==> SpokenRule(r)
    ensures Spoken(PrintRules(rs))
  {
    hide Spoken, PrintRule, SpokenRule;
    if rs == [] {
      SilentSpoken([]);
    } else {
      RuleSpoken(rs[0]);
      RulesSpoken(rs[1..]);
      SpokenConcat(PrintRule(rs[0]), PrintRules(rs[1..]));
    }
  }

  lemma MemberSpoken(m: Member)
    requires SpokenMember(m)
    ensures Spoken(PrintMember(m))
  {
    hide Spoken, PrintSheet, PrintRule, SpokenSheet, SpokenRule;
    match m
    case OfSheet(d) => SheetSpoken(d);
    case OfRule(r) =>
      RuleSpoken(r);
      Between([J(KReaction), J(KLBrace)], PrintRule(r), [J(KRBrace)]);
    case OfPort(p) => SilentSpoken(PrintPort(p));
  }

  lemma {:induction false} MembersSpoken(ms: seq<Member>)
    requires forall m :: m in ms ==> SpokenMember(m)
    ensures Spoken(PrintMembers(ms))
  {
    hide Spoken, PrintMember, SpokenMember;
    if ms == [] {
      SilentSpoken([]);
    } else {
      MemberSpoken(ms[0]);
      MembersSpoken(ms[1..]);
      SpokenConcat(PrintMember(ms[0]), PrintMembers(ms[1..]));
    }
  }

  lemma UnitSpoken(b: Block)
    requires b.Unit? && SpokenBlock(b)
    ensures Spoken(PrintBlock(b))
  {
    if b.params.Some? {
      StatesSilent(b.params.value);
    }
    MembersSpoken(b.members);
    hide Spoken, PrintStates, PrintMembers;
    var head := [J(KComponent), J(KIdentifier(b.id)), J(KLBrace)];
    Between(PrintParams(b.params), PrintMembers(b.members), [J(KRBrace)]);
    SilentSpoken(head);
    SpokenConcat(head, PrintParams(b.params) + (PrintMembers(b.members) + [J(KRBrace)]));
  }

  lemma CopySilent(b: Block)
    requires b.Copy?
    ensures Silent(PrintBlock(b))
  {
    PairsSilent(b.bindings);
    if b.wires.Some? {
      PairsSilent(b.wires.value);
    }
    hide PrintPairs;
  }

  lemma BlockSpoken(b: Block)
    requires SpokenBlock(b)
    ensures Spoken(PrintBlock(b))
  {
    hide Spoken, PrintRule, PrintRules, PrintBraced, PrintMembers, PrintParams, PrintPairs, PrintWires, Piece,
         SpokenRule, SpokenMember;
    match b
    case Single(r) =>
      RuleSpoken(r);
      Between([J(KReaction), J(KLBrace)], PrintRule(r), [J(KRBrace)]);
    case ForkOf(rs) =>
      RulesSpoken(rs);
      Between([J(KFork), J(KLBrace)], PrintRules(rs), [J(KRBrace)]);
    case JoinOn(group, rs) =>
      RulesSpoken(rs);
      Between([J(KJoin), J(KIdentifier(group)), J(KLBrace)], PrintRules(rs), [J(KRBrace)]);
    case Define(id, body) =>
      PhraseSpoken(body);
      SilentSpoken([J(KGuard), J(KIdentifier(id))]);
      SpokenConcat([J(KGuard), J(KIdentifier(id))], PrintBraced(body));
    case Unit(_, _, _) => UnitSpoken(b);
    case Copy(_, _, _, _) =>
      CopySilent(b);
      SilentSpoken(PrintBlock(b));
  }

  lemma {:induction false} SheetsSpoken(ds: seq<Sheet>)
    requires forall d :: d in ds ==> SpokenSheet(d)
    ensures Spoken(PrintSheets(ds))
  {
    hide Spoken, PrintSheet, SpokenSheet;
    if ds == [] {
      SilentSpoken([]);
    } else {
      SheetSpoken(ds[0]);
      SheetsSpoken(ds[1..]);
      SpokenConcat(PrintSheet(ds[0]), PrintSheets(ds[1..]));
    }
  }

  lemma {:induction false} BlocksSpoken(bs: seq<Block>)
    requires forall b :: b in bs ==> SpokenBlock(b)
    ensures Spoken(PrintBlocks(bs))
  {
    hide Spoken, PrintBlock, SpokenBlock;
    if bs == [] {
      SilentSpoken([]);
    } else {
      BlockSpoken(bs[0]);
      BlocksSpoken(bs[1..]);
      SpokenConcat(PrintBlock(bs[0]), PrintBlocks(bs[1..]));
    }
  }

  /** The print of a script whose texts are their spelling notes nothing but spellings. */
  lemma ScriptSpoken(s: Script)
    requires SpokenScript(s)
    ensures Spoken(Body(s))
  {
    hide Spoken, PrintSheets, PrintBlocks, SpokenSheet, SpokenBlock;
    SheetsSpoken(s.signals);
    BlocksSpoken(s.blocks);
    SpokenConcat(PrintSheets(s.signals), PrintBlocks(s.blocks));
  }

  // ---- Whole scripts -------------------------------------------------------------------

  /** What is written reads as what it means: the text of a script whose texts are their spelling. */
  lemma TextReads(lx: Lexicon, names: set<string>, s: Script)
    requires SpellSane(lx) && Proper(lx, names) && AllSpellable(names, Body(s)) && SpokenScript(s)
    requires GoodScript(s) && ScriptFits(s)
    ensures C.Read(A.Source(lx, TextOf(s))) ==
            match Outcome(lx, s)
            case Success(doc) => Success(doc)
            case Failure(e) => Failure(C.Syntactic(e))
  {
    hide Proper, PrintSheets, PrintBlocks, Spellable, GoodScript, ScriptFits, A.Doc, Leads, LexFrom, SpellSane, Outcome,
         Spoken, SpokenScript;
    var marks := Body(s);
    var kinds := KindsOf(marks);
    forall k | k in kinds ensures Spellable(names, k) {
      var i :| 0 <= i < |kinds| && kinds[i] == k;
      assert marks[i].kind == k;
    }
    ScriptSpoken(s);
    LexReadsSpelling(lx, names, kinds, START);
    SpellingShows(lx, names, marks);
    assert marks + [J(KEof)] == PrintScript(s);
    ScriptReads(A.Source(lx, TextOf(s)), s, SpelledTokens(kinds, START) + [EndAt(EndOf(kinds, START))]);
  }

  /**
   The main result. The text of a script whose signals fit, in its components too, compiles
   exactly when its joins and guard names are declared in it and the document it means
   expands: to the schema expanded from that document.
   */
  lemma WrittenCompiles(lx: Lexicon, json: JsonReader, names: set<string>, s: Script)
    requires SpellSane(lx) && Proper(lx, names) && AllSpellable(names, Body(s)) && SpokenScript(s)
    requires GoodScript(s) && ScriptFits(s)
    ensures var compiled, doc := C.Compiled(A.Source(lx, TextOf(s)), json), Outcome(lx, s);
            && (compiled.Success? <==> doc.Success? && C.Flattened(json, doc.value).Success?)
            && (compiled.Success? ==>
                  doc.value.signals == SheetDecls(s.signals) && C.Flattened(json, doc.value) == Success(compiled.value))
  {
    hide Proper, C.Read, C.Flattened, ScriptFits, GoodScript, TextOf, SheetDecls, SpellSane, SpokenScript, Body,
      Outcome;
    TextReads(lx, names, s);
    if Outcome(lx, s).Success? {
      OutcomeSignals(lx, s);
    }
  }

  /** `schema` is what document `doc` means. */
  ghost predicate Compiles(json: JsonReader, schema: TopologySchema, doc: DdlDoc) {
    && schema.signals == Signals(doc.signals) && schema.transitions == Lowered(doc.signals)
    && EmitReactions(json, doc.reactions) == Success(schema.reactions)
  }

  /**
   Without instances there is nothing to expand: the text compiles exactly when its joins and
   guard names are declared and its payloads are JSON, to its signals, its transitions lowered,
   and its reactions, with guards and payloads as they were written.
   */
  lemma WrittenAloneCompiles(lx: Lexicon, json: JsonReader, names: set<string>, s: Script)
    requires SpellSane(lx) && Proper(lx, names) && AllSpellable(names, Body(s)) && SpokenScript(s)
    requires GoodScript(s) && ScriptFits(s) && forall b :: b in s.blocks ==> !b.Copy?
    ensures var compiled, doc := C.Compiled(A.Source(lx, TextOf(s)), json), Outcome(lx, s);
            && (compiled.Success? <==> doc.Success? && EmitReactions(json, doc.value.reactions).Success?
                                       && EmitComponents(json, doc.value.components, map[]).Success?)
            && (compiled.Success? ==> Compiles(json, compiled.value, doc.value))
  {
    hide Proper, C.Read, ScriptFits, GoodScript, TextOf, Signals, Lowered, EmitReactions, EmitComponents, SheetDecls,
         SpellSane, SpokenScript, Body, Outcome;
    WrittenCompiles(lx, json, names, s);
    if Outcome(lx, s).Success? {
      OutcomeCopies(lx, s);
    }
  }

  /** The instances of a script, in order. */
  function CopiesOf(bs: seq<Block>): seq<InstanceDef> {
    if bs == [] then []
    else if bs[0].Copy? then [RawCopy(bs[0].component, bs[0].bindings, bs[0].wires)] + CopiesOf(bs[1..])
    else CopiesOf(bs[1..])
  }

  lemma OutcomeCopies(lx: Lexicon, s: Script)
    requires Outcome(lx, s).Success?
    ensures Outcome(lx, s).value.instantiates == CopiesOf(s.blocks)
    ensures (forall b :: b in s.blocks ==> !b.Copy?) ==> Outcome(lx, s).value.instantiates == []
  {
    hide PlusAll, A.ResolveReactions, A.ResolveComponents, A.StrayJoin, SheetDecls;
    BlocksAddCopies(lx, A.BLANK.(signals := SheetDecls(s.signals)), s.blocks);
    assert [] + CopiesOf(s.blocks) == CopiesOf(s.blocks);
    NoCopies(s.blocks);
  }

  lemma {:induction false} NoCopies(bs: seq<Block>)
    ensures (forall b :: b in bs ==> !b.Copy?) ==> CopiesOf(bs) == []
  {
    if bs != [] {
      assert bs[0] in bs && forall b :: b in bs[1..] ==> b in bs;
      NoCopies(bs[1..]);
    }
  }

  lemma {:induction false} BlocksAddCopies(lx: Lexicon, d: A.Draft, bs: seq<Block>)
    ensures PlusAll(lx, d, bs).instantiates == d.instantiates + CopiesOf(bs)
    decreases |bs|
  {
    hide RawAll, A.Trim, A.Unbrace, RawUnit, RawCopy;
    if bs != [] {
      BlocksAddCopies(lx, Plus(lx, d, bs[0]), bs[1..]);
      if bs[0].Copy? {
        var copy := RawCopy(bs[0].component, bs[0].bindings, bs[0].wires);
        assert d.instantiates + ([copy] + CopiesOf(bs[1..])) == d.instantiates + [copy] + CopiesOf(bs[1..]);
      }
    }
  }
}
