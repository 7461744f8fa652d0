/** Guards are captured as the user wrote them: what the parser cuts out by byte offsets is the text of its tokens. */
module DdlVerbatim {
  import opened Wrappers
  import opened DdlSyntax
  import opened DdlLexer
  import opened DdlPositions
  import A = DdlGrammar
  import G = GuardLexer

  lemma {:induction false} TrimKeeps(lx: Lexicon, s: string)
    requires s != "" && !lx.isSpace(s[0]) && !lx.isSpace(s[|s| - 1])
    ensures A.Trim(lx, s) == s
  {}

  /** What the proofs need of the character classes; Unicode's have it. */
  predicate NameSane(lx: Lexicon) {
    OneLine(lx) && G.GuardSane(lx) && forall c :: c in "\"[]{}:," ==> !lx.isSpace(c)
  }

  /** The text of a token has no blank at either end. */
  lemma TokenIsTrimmed(lx: Lexicon, s: string)
    requires NameSane(lx) && Solid(s) && FirstToken(lx, s).Success? && FirstToken(lx, s).value.1 == |s|
    ensures !lx.isSpace(s[0]) && !lx.isSpace(s[|s| - 1])
  {
    hide Keyword;
    if IsQuote(s[0]) {
      assert s[|s| - 1] == s[0];
    } else if G.IsDigit(s[0]) {
      assert G.IsNumeric(s[|s| - 1]);
    } else if G.StartsWord(lx, s[0]) {
      assert |s| > 1 ==> G.InWord(lx, s[1..][|s| - 2]);
    } else {
      SymbolChars(s);
    }
  }

  lemma SymbolChars(s: string)
    requires s != "" && Symbol(s).Success? && Symbol(s).value.1 == |s|
    ensures s[0] in "[]{}():,.+*/-><!=" && s[|s| - 1] in "[]{}():,.+*/-><!="
  {}

  lemma IdentifierIsItsText(lx: Lexicon, s: string, name: string)
    requires Solid(s) && FirstToken(lx, s) == Success((KIdentifier(name), |s|))
    ensures name == s
  {
    hide G.NumberToken;
    if !IsQuote(s[0]) && !G.IsDigit(s[0]) && G.StartsWord(lx, s[0]) {
      assert s[..|s|] == s;
    } else {
      hide Keyword;
    }
  }

  /** `text` is the text from the first character of token `first` through the last of token `last`. */
  predicate Covers(src: string, rs: seq<Range>, first: nat, last: nat, text: string) {
    first <= last < |rs| && rs[first].from <= rs[last].to <= |src| && text == src[rs[first].from..rs[last].to]
  }

  /**
   The main result. The guard that the parser takes from the tokens of a text is the text
   itself, from the first character of its first token through the last of its last, up to
   the first token that ends a guard. If it is one identifier, it is that name.
   */
  lemma GuardIsVerbatim(src: A.Source, ts: seq<Token>, rs: seq<Range>, p: nat, text: string, single: bool,
                        rest: seq<Token>)
    requires NameSane(src.lx) && Lex(src.lx, src.text) == Success(ts) && Tiles(src.lx, src.text, 0, ts, rs)
    requires p < |ts| && A.GuardText(src, ts[p..]) == Success(((text, single), rest))
    ensures var n := A.GuardLength(ts[p + 1..]);
            Covers(src.text, rs, p + 1, p + n, text) && rest == ts[p + 1 + n..] && A.EndsGuard(A.Kind1(rest))
    ensures single ==> p + 1 < |ts| && ts[p + 1].kind == KIdentifier(text)
  {
    hide *;
    var n := A.GuardLength(ts[p + 1..]);
    GuardUnfolds(src, ts, p, text, single, rest, n);
    GuardInside(src, ts, rs, p, n);
    GuardSlice(src, ts, rs, p + 1, p + n);
    if single {
      CoversIdentifier(src, ts, rs, p + 1, text);
    }
  }

  lemma GuardUnfolds(src: A.Source, ts: seq<Token>, p: nat, text: string, single: bool, rest: seq<Token>, n: nat)
    requires p < |ts| && A.GuardText(src, ts[p..]) == Success(((text, single), rest)) && n == A.GuardLength(ts[p + 1..])
    ensures 0 < n && p + n < |ts| && ts[p + n].kind != KEof && rest == ts[p + 1 + n..] && A.EndsGuard(A.Kind1(rest))
    ensures text == A.Trim(src.lx, A.Verbatim(src, ts[p + 1], ts[p + n]))
    ensures single ==> n == 1 && ts[p + 1].kind.KIdentifier?
  {
    hide A.Verbatim, A.Trim;
    var ts1 := ts[p + 1..];
    assert ts[p..][1..] == ts1;
    assert ts1[n..] == ts[p + 1 + n..];
    assert n > 0 ==> ts1[0] == ts[p + 1] && ts1[n - 1] == ts[p + n];
  }

  lemma GuardInside(src: A.Source, ts: seq<Token>, rs: seq<Range>, p: nat, n: nat)
    requires Tiles(src.lx, src.text, 0, ts, rs) && 0 < n && p + n < |ts| && ts[p + n].kind != KEof
    ensures |ts| == |rs| + 1 && p + n < |rs|
  {
    hide Filler, Marks;
    OneEnd(src.lx, src.text, 0, ts, rs);
  }

  lemma GuardSlice(src: A.Source, ts: seq<Token>, rs: seq<Range>, first: nat, last: nat)
    requires NameSane(src.lx) && Tiles(src.lx, src.text, 0, ts, rs) && |ts| == |rs| + 1 && first <= last < |rs|
    ensures Marks(src.lx, src.text, ts[first], rs[first])
    ensures Covers(src.text, rs, first, last, A.Trim(src.lx, A.Verbatim(src, ts[first], ts[last])))
  {
    hide Tiles, FirstToken, Slice, A.Trim, NameSane, Marks;
    var r, s := rs[first], rs[last];
    InOrder(src.lx, src.text, ts, rs, first, last);
    MarksInside(src.lx, src.text, ts[first], r);
    MarksInside(src.lx, src.text, ts[last], s);
    SliceOfTokens(src.lx, src.text, ts[first], ts[last], r, s);
    TokenEnds(src.lx, src.text, ts[first], r);
    TokenEnds(src.lx, src.text, ts[last], s);
    var text := src.text[r.from..s.to];
    assert text[0] == src.text[r.from] && text[|text| - 1] == src.text[s.to - 1];
    TrimKeeps(src.lx, text);
  }

  lemma InOrder(lx: Lexicon, src: string, ts: seq<Token>, rs: seq<Range>, j: nat, k: nat)
    requires Tiles(lx, src, 0, ts, rs) && |ts| == |rs| + 1 && j <= k < |rs|
    ensures Marks(lx, src, ts[j], rs[j]) && Marks(lx, src, ts[k], rs[k]) && rs[j].from <= rs[k].from
  {
    hide Tiles, Marks;
    RangesAscend(lx, src, 0, ts, rs);
    MarksInside(lx, src, ts[j], rs[j]);
  }

  lemma TokenEnds(lx: Lexicon, src: string, t: Token, r: Range)
    requires NameSane(lx) && Marks(lx, src, t, r)
    ensures !lx.isSpace(src[r.from]) && !lx.isSpace(src[r.to - 1])
  {
    hide FirstToken, NameSane;
    TokenIsTrimmed(lx, src[r.from..r.to]);
  }

  lemma CoversIdentifier(src: A.Source, ts: seq<Token>, rs: seq<Range>, k: nat, text: string)
    requires k < |ts| && k < |rs| && Marks(src.lx, src.text, ts[k], rs[k]) && ts[k].kind.KIdentifier?
             && Covers(src.text, rs, k, k, text)
    ensures ts[k].kind == KIdentifier(text)
  {
    hide Marks;
    MarkedIdentifier(src.lx, src.text, ts[k], rs[k]);
  }

  lemma MarkedIdentifier(lx: Lexicon, src: string, t: Token, r: Range)
    requires Marks(lx, src, t, r) && t.kind.KIdentifier?
    ensures t.kind == KIdentifier(src[r.from..r.to])
  {
    hide FirstToken;
    IdentifierIsItsText(lx, src[r.from..r.to], t.kind.name);
  }
}
