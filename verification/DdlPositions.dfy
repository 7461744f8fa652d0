/**
 Where tokens are. The lexer keeps a line, a column and byte offsets as it goes; here they
 are compared with the text itself, and so is the text that offsets cut out.
 */
module DdlPositions {
  import opened Wrappers
  import opened DdlSyntax
  import opened DdlLexer
  import G = GuardLexer

  // ---- Lines, columns and gaps, read off the text --------------------------------------

  /** One plus the newlines of `s`. */
  function Line(s: string): nat {
    if s == "" then 1 else Line(s[..|s| - 1]) + if s[|s| - 1] == '\n' then 1 else 0
  }

  /** One plus the characters of `s` since its last newline. */
  function Column(s: string): nat {
    if s == "" || s[|s| - 1] == '\n' then 1 else Column(s[..|s| - 1]) + 1
  }

  /** Only blanks, newlines and comments, which start with two slashes and end before the line does. */
  predicate Filler(s: string)
    decreases |s|
  {
    s == ""
    || (|s| > 1 && s[0] == '/' && s[1] == '/' && Filler(s[CommentLength(s)..]))
    || ((s[0] == ' ' || s[0] == '\t' || s[0] == '\r' || s[0] == '\n') && Filler(s[1..]))
  }

  /** The length of the comment that a filler ends in, if no newline follows it. */
  function OpenComment(s: string): nat
    decreases |s|
  {
    if s == "" then 0
    else if StartsComment(s) then
      if CommentLength(s) == |s| then |s| else OpenComment(s[CommentLength(s)..])
    else OpenComment(s[1..])
  }

  datatype Range = Range(from: nat, to: nat)

  /**
   `t` is the token at the characters `r` of `src`: its bytes are theirs, its line and
   column are where they start, and by themselves they read as this one token.
   */
  ghost predicate Marks(lx: Lexicon, src: string, t: Token, r: Range) {
    && r.from < r.to <= |src|
    && t.start == Bytes(src[..r.from]) && t.start + t.len == Bytes(src[..r.to])
    && t.line == Line(src[..r.from]) && t.col == Column(src[..r.from])
    && Solid(src[r.from..r.to]) && FirstToken(lx, src[r.from..r.to]) == Success((t.kind, r.to - r.from))
  }

  /** The end marker: its column misses the comment that the text ends in, `gap` being the text after the last token. */
  ghost predicate Closes(src: string, gap: string, t: Token) {
    && t.kind == KEof && t.start == |src| && t.len == 0
    && t.line == Line(src) && t.col + OpenComment(gap) == Column(src)
  }

  /** From character `i` on, `src` is a gap, a token, a gap, a token and so on, and ends in a gap. */
  ghost predicate Tiles(lx: Lexicon, src: string, i: nat, ts: seq<Token>, rs: seq<Range>)
    decreases |rs|
  {
    && i <= |src| && |ts| == |rs| + 1
    && if rs == [] then Filler(src[i..]) && Closes(src, src[i..], ts[0])
       else i <= rs[0].from < rs[0].to <= |src| && Filler(src[i..rs[0].from]) && Marks(lx, src, ts[0], rs[0])
            && Tiles(lx, src, rs[0].to, ts[1..], rs[1..])
  }

  // ---- Moving along a line -------------------------------------------------------------

  lemma {:induction false} AlongLine(src: string, i: nat, j: nat)
    requires i <= j <= |src| && forall k :: i <= k < j ==> src[k] != '\n'
    ensures Line(src[..j]) == Line(src[..i]) && Column(src[..j]) == Column(src[..i]) + (j - i)
  {
    if i < j {
      AlongLine(src, i, j - 1);
      assert src[..j][..j - 1] == src[..j - 1];
    }
  }

  lemma PastNewline(src: string, i: nat)
    requires i < |src| && src[i] == '\n'
    ensures Line(src[..i + 1]) == Line(src[..i]) + 1 && Column(src[..i + 1]) == 1
  {
    assert src[..i + 1][..i] == src[..i];
  }

  /** No character class of the lexer takes a newline for part of a word. */
  predicate OneLine(lx: Lexicon) {
    !lx.isLetter('\n') && !lx.isLetterOrDigit('\n')
  }

  // ---- A token stands alone ------------------------------------------------------------

  lemma SpanAlone(s: string, p: char -> bool, n: nat)
    requires n <= |s| && G.Span(s, p) >= n
    ensures G.Span(s[..n], p) == n
  {
    G.SpanIs(s[..n], p, n);
  }

  lemma StringAlone(lx: Lexicon, s: string)
    requires s != "" && IsQuote(s[0]) && FirstToken(lx, s).Success?
    ensures var (k, n) := FirstToken(lx, s).value;
            FirstToken(lx, s[..n]) == FirstToken(lx, s) && forall i :: 0 <= i < n ==> s[i] != '\n'
  {
    var (k, n) := FirstToken(lx, s).value;
    var p := c => InString(s[0], c);
    assert s[..n][1..] == s[1..][..n - 1];
    G.SpanIs(s[..n][1..], p, n - 2);
    assert s[..n][1..][..n - 2] == s[1..][..n - 2];
    forall i | 0 < i < n - 1 ensures s[i] != '\n' {
      assert p(s[1..][i - 1]);
    }
  }

  lemma NumberAlone(lx: Lexicon, s: string)
    requires s != "" && G.IsDigit(s[0]) && FirstToken(lx, s).Success?
    ensures var (k, n) := FirstToken(lx, s).value;
            FirstToken(lx, s[..n]) == FirstToken(lx, s) && forall i :: 0 <= i < n ==> s[i] != '\n'
  {
    hide NumberKind;
    var (k, n) := FirstToken(lx, s).value;
    SpanAlone(s, G.IsNumeric, n);
    assert s[..n][..n] == s[..n];
    forall i | 0 <= i < n ensures s[i] != '\n' {
      assert G.IsNumeric(s[i]);
    }
  }

  lemma WordAlone(lx: Lexicon, s: string)
    requires OneLine(lx) && s != "" && !IsQuote(s[0]) && !G.IsDigit(s[0]) && G.StartsWord(lx, s[0])
    ensures var (k, n) := FirstToken(lx, s).value;
            FirstToken(lx, s[..n]) == FirstToken(lx, s) && forall i :: 0 <= i < n ==> s[i] != '\n'
  {
    hide Keyword;
    var (k, n) := FirstToken(lx, s).value;
    var p := c => G.InWord(lx, c);
    assert s[..n][1..] == s[1..][..n - 1];
    G.SpanIs(s[..n][1..], p, n - 1);
    assert s[..n][..n] == s[..n];
    forall i | 0 < i < n ensures s[i] != '\n' {
      assert p(s[1..][i - 1]);
    }
  }

  lemma SymbolAlone(s: string)
    requires s != "" && Symbol(s).Success?
    ensures var (k, n) := Symbol(s).value;
            Symbol(s[..n]) == Symbol(s) && forall i :: 0 <= i < n ==> s[i] != '\n'
  {}

  /** The text of a token has no newline, and reads as the same token without what follows it. */
  lemma FirstAlone(lx: Lexicon, s: string)
    requires OneLine(lx) && s != "" && FirstToken(lx, s).Success?
    ensures var (k, n) := FirstToken(lx, s).value;
            FirstToken(lx, s[..n]) == FirstToken(lx, s) && forall i :: 0 <= i < n ==> s[i] != '\n'
  {
    if IsQuote(s[0]) {
      StringAlone(lx, s);
    } else if G.IsDigit(s[0]) {
      NumberAlone(lx, s);
    } else if G.StartsWord(lx, s[0]) {
      WordAlone(lx, s);
    } else {
      SymbolAlone(s);
      hide Symbol;
    }
  }

  // ---- Positions -----------------------------------------------------------------------

  /** The lexer's line and column are those of the text before its place. */
  predicate Located(src: string, at: Cursor) {
    On(src, at) && at.line == Line(src[..at.index]) && at.col == Column(src[..at.index])
  }

  /** `src` from `i` to `j` is filler that may be put before any gap that starts at `j`. */
  ghost predicate Extends(src: string, i: nat, j: nat) {
    i <= j <= |src| &&
    forall k :: j <= k <= |src| ==>
      Filler(src[i..k]) == Filler(src[j..k]) && OpenComment(src[i..k]) == OpenComment(src[j..k])
  }

  lemma TilesEarlier(lx: Lexicon, src: string, i: nat, j: nat, ts: seq<Token>, rs: seq<Range>)
    requires Extends(src, i, j) && Tiles(lx, src, j, ts, rs)
    ensures Tiles(lx, src, i, ts, rs)
  {
    hide Marks, Filler, OpenComment;
    assert src[i..] == src[i..|src|] && src[j..] == src[j..|src|];
  }

  lemma BlankExtends(src: string, i: nat)
    requires i < |src| && (IsBlank(src[i]) || src[i] == '\n')
    ensures Extends(src, i, i + 1)
  {
    forall k | i + 1 <= k <= |src|
      ensures Filler(src[i..k]) == Filler(src[i + 1..k]) && OpenComment(src[i..k]) == OpenComment(src[i + 1..k])
    {
      assert src[i..k][1..] == src[i + 1..k];
    }
  }

  /** A comment with the newline after it. */
  lemma CommentExtends(src: string, i: nat, j: nat)
    requires i < |src| && StartsComment(src[i..]) && j == i + CommentLength(src[i..]) && j < |src|
    ensures src[j] == '\n' && Extends(src, i, j + 1)
  {
    BlankExtends(src, j);
    forall k | j + 1 <= k <= |src|
      ensures Filler(src[i..k]) == Filler(src[j + 1..k]) && OpenComment(src[i..k]) == OpenComment(src[j + 1..k])
    {
      var gap := src[i..k];
      G.SpanIs(gap, c => c != '\n', j - i);
      assert gap[j - i..] == src[j..k];
    }
  }

  lemma BlankLocates(src: string, at: Cursor)
    requires Located(src, at) && at.index < |src| && IsBlank(src[at.index])
    ensures Located(src, To(src, at.index + 1, at.line, at.col + 1))
  {
    AlongLine(src, at.index, at.index + 1);
  }

  lemma NewlineLocates(src: string, at: Cursor)
    requires Located(src, at) && at.index < |src| && src[at.index] == '\n'
    ensures Located(src, To(src, at.index + 1, at.line + 1, 1))
  {
    PastNewline(src, at.index);
  }

  /** What the lexer finds from `at` on tiles the text from there. */
  lemma {:induction false} LexTiles(lx: Lexicon, src: string, at: Cursor) returns (rs: seq<Range>)
    requires OneLine(lx) && Located(src, at) && LexFrom(lx, src[at.index..], at).Success?
    ensures Tiles(lx, src, at.index, LexFrom(lx, src[at.index..], at).value, rs)
    decreases |src| - at.index
  {
    hide FirstToken, Bytes, Line, Column, CommentLength, Tiles, Extends;
    var i := at.index;
    var s := src[i..];
    if s == "" {
      rs := [];
      EndTiles(lx, src, at);
    } else if StartsComment(s) {
      rs := CommentTiles(lx, src, at);
    } else if IsBlank(s[0]) {
      SkipsBlank(lx, src, at);
      BlankLocates(src, at);
      rs := LexTiles(lx, src, To(src, i + 1, at.line, at.col + 1));
      BlankExtends(src, i);
      TilesEarlier(lx, src, i, i + 1, LexFrom(lx, s, at).value, rs);
    } else if s[0] == '\n' {
      SkipsNewline(lx, src, at);
      NewlineLocates(src, at);
      rs := LexTiles(lx, src, To(src, i + 1, at.line + 1, 1));
      BlankExtends(src, i);
      TilesEarlier(lx, src, i, i + 1, LexFrom(lx, s, at).value, rs);
    } else {
      rs := TokenTiles(lx, src, at);
    }
  }

  lemma TokenTiles(lx: Lexicon, src: string, at: Cursor) returns (rs: seq<Range>)
    requires OneLine(lx) && Located(src, at) && Solid(src[at.index..]) && LexFrom(lx, src[at.index..], at).Success?
    ensures Tiles(lx, src, at.index, LexFrom(lx, src[at.index..], at).value, rs)
    decreases |src| - at.index, 0
  {
    hide FirstToken, Bytes, Line, Column, Tiles;
    var i := at.index;
    var (kind, n) := FirstToken(lx, src[i..]).value;
    TakesToken(lx, src, at, kind, n);
    TokenMarks(lx, src, at, kind, n);
    var end := To(src, i + n, at.line, at.col + n);
    var rest := LexTiles(lx, src, end);
    rs := [Range(i, i + n)] + rest;
    TilesCons(lx, src, i, TokenAt(at, kind, Bytes(src[i..i + n])), Range(i, i + n),
              LexFrom(lx, src[i + n..], end).value, rest);
  }

  lemma TilesCons(lx: Lexicon, src: string, i: nat, t: Token, r: Range, ts: seq<Token>, rs: seq<Range>)
    requires Marks(lx, src, t, r) && r.from == i && Tiles(lx, src, r.to, ts, rs)
    ensures Tiles(lx, src, i, [t] + ts, [r] + rs)
  {
    hide Marks, Filler;
    assert r.from < r.to <= |src| by { MarksInside(lx, src, t, r); }
    NoGap(src, i);
    assert ([t] + ts)[1..] == ts && ([r] + rs)[1..] == rs;
  }

  lemma MarksInside(lx: Lexicon, src: string, t: Token, r: Range)
    requires Marks(lx, src, t, r)
    ensures r.from < r.to <= |src|
  {}

  lemma NoGap(src: string, i: nat)
    requires i <= |src|
    ensures Filler(src[i..i])
  {
    assert src[i..i] == "";
  }

  lemma EndTiles(lx: Lexicon, src: string, at: Cursor)
    requires at.index == |src| && Located(src, at)
    ensures Tiles(lx, src, at.index, [EndAt(at)], [])
  {
    assert src[..at.index] == src && src[at.index..] == "";
  }

  lemma CommentLocates(src: string, at: Cursor, j: nat)
    requires Located(src, at) && StartsComment(src[at.index..]) && j == at.index + CommentLength(src[at.index..])
             && j < |src|
    ensures src[j] == '\n' && Located(src, To(src, j + 1, at.line + 1, 1))
  {
    var s := src[at.index..];
    forall k | at.index <= k < j ensures src[k] != '\n' {
      assert src[k] == s[k - at.index];
    }
    AlongLine(src, at.index, j);
    PastNewline(src, j);
  }

  /** A comment and the newline after it leave the lexer at the start of a line. */
  lemma PastComment(lx: Lexicon, src: string, at: Cursor, j: nat)
    requires Located(src, at) && StartsComment(src[at.index..]) && j == at.index + CommentLength(src[at.index..])
             && j < |src|
    ensures src[j] == '\n' && Located(src, To(src, j + 1, at.line + 1, 1))
    ensures LexFrom(lx, src[at.index..], at) == LexFrom(lx, src[j + 1..], To(src, j + 1, at.line + 1, 1))
  {
    CommentLocates(src, at, j);
    hide LexFrom, CommentLength, Bytes, Line, Column;
    SkipsComment(lx, src, at, j);
    SkipsNewline(lx, src, To(src, j, at.line, at.col));
  }

  /** A comment at the end of the text leaves nothing. */
  lemma LastComment(lx: Lexicon, src: string, at: Cursor)
    requires Located(src, at) && StartsComment(src[at.index..]) && at.index + CommentLength(src[at.index..]) == |src|
    ensures LexFrom(lx, src[at.index..], at) == Success([EndAt(To(src, |src|, at.line, at.col))])
  {
    hide CommentLength, Bytes, Line, Column;
    SkipsComment(lx, src, at, |src|);
    assert src[|src|..] == "";
    EndsAndFails(lx, "", To(src, |src|, at.line, at.col));
  }

  lemma CommentTiles(lx: Lexicon, src: string, at: Cursor) returns (rs: seq<Range>)
    requires OneLine(lx) && Located(src, at) && LexFrom(lx, src[at.index..], at).Success?
             && StartsComment(src[at.index..])
    ensures Tiles(lx, src, at.index, LexFrom(lx, src[at.index..], at).value, rs)
    decreases |src| - at.index, 0
  {
    hide LexFrom, Bytes, Line, Column, CommentLength, Tiles, Extends;
    var i, s := at.index, src[at.index..];
    var j := i + CommentLength(s);
    if j == |src| {
      rs := [];
      LastComment(lx, src, at);
      LastCommentTiles(lx, src, at);
    } else {
      PastComment(lx, src, at, j);
      rs := LexTiles(lx, src, To(src, j + 1, at.line + 1, 1));
      CommentExtends(src, i, j);
      TilesEarlier(lx, src, i, j + 1, LexFrom(lx, s, at).value, rs);
    }
  }

  lemma LastCommentTiles(lx: Lexicon, src: string, at: Cursor)
    requires Located(src, at) && StartsComment(src[at.index..]) && at.index + CommentLength(src[at.index..]) == |src|
    ensures Tiles(lx, src, at.index, [EndAt(To(src, |src|, at.line, at.col))], [])
  {
    hide Bytes, Line, Column, Filler, OpenComment;
    var s := src[at.index..];
    forall k | at.index <= k < |src| ensures src[k] != '\n' {
      assert src[k] == s[k - at.index];
    }
    AlongLine(src, at.index, |src|);
    OpenAtEnd(s);
    assert src[..|src|] == src;
  }

  lemma OpenAtEnd(s: string)
    requires StartsComment(s) && CommentLength(s) == |s|
    ensures Filler(s) && OpenComment(s) == |s|
  {
    assert s[|s|..] == "";
  }

  lemma TokenMarks(lx: Lexicon, src: string, at: Cursor, kind: Kind, n: nat)
    requires OneLine(lx) && Located(src, at) && Solid(src[at.index..])
             && FirstToken(lx, src[at.index..]) == Success((kind, n))
    ensures Marks(lx, src, TokenAt(at, kind, Bytes(src[at.index..at.index + n])), Range(at.index, at.index + n))
    ensures Located(src, To(src, at.index + n, at.line, at.col + n))
  {
    hide Bytes, FirstToken, Line, Column;
    var i, s := at.index, src[at.index..];
    FirstAlone(lx, s);
    assert s[..n] == src[i..i + n];
    forall k | i <= k < i + n ensures src[k] != '\n' {
      assert src[k] == s[k - i];
    }
    AlongLine(src, i, i + n);
    BytesSplit(src, i, i + n);
  }

  /**
   The main result. When the lexer succeeds, the text is tokens with filler between them:
   every token has the bytes, the line and the column of its characters, and only the end
   marker's column can be off, by the length of a comment that the text ends in.
   */
  lemma TokensTileTheText(lx: Lexicon, src: string)
    requires OneLine(lx) && Lex(lx, src).Success?
    ensures exists rs :: Tiles(lx, src, 0, Lex(lx, src).value, rs)
  {
    hide Tiles, LexFrom;
    Begins(src);
    assert src[0..] == src;
    var rs := LexTiles(lx, src, START);
  }

  // ---- What follows --------------------------------------------------------------------

  /** Every token is where its range is, and the ranges come in order without overlapping. */
  lemma {:induction false} RangesAscend(lx: Lexicon, src: string, i: nat, ts: seq<Token>, rs: seq<Range>)
    requires Tiles(lx, src, i, ts, rs)
    ensures forall k :: 0 <= k < |rs| ==> i <= rs[k].from && Marks(lx, src, ts[k], rs[k])
    ensures forall j, k :: 0 <= j < k < |rs| ==> rs[j].to <= rs[k].from
    decreases |rs|
  {
    hide Filler, Marks;
    if rs != [] {
      var ts1, rs1 := ts[1..], rs[1..];
      RangesAscend(lx, src, rs[0].to, ts1, rs1);
      forall k | 0 < k < |rs| ensures rs[0].to <= rs[k].from && Marks(lx, src, ts[k], rs[k]) {
        assert rs[k] == rs1[k - 1] && ts[k] == ts1[k - 1];
      }
      forall j, k | 0 < j < k < |rs| ensures rs[j].to <= rs[k].from {
        assert rs[j] == rs1[j - 1] && rs[k] == rs1[k - 1];
      }
    }
  }

  /** So the tokens' bytes do not overlap either. */
  lemma TokensAscend(lx: Lexicon, src: string, ts: seq<Token>, rs: seq<Range>, j: nat, k: nat)
    requires Tiles(lx, src, 0, ts, rs) && j < k < |rs|
    ensures ts[j].start + ts[j].len <= ts[k].start
  {
    hide Tiles;
    RangesAscend(lx, src, 0, ts, rs);
    BytesSplit(src, rs[j].to, rs[k].from);
  }

  /** Only the last token is an end marker. */
  lemma {:induction false} OneEnd(lx: Lexicon, src: string, i: nat, ts: seq<Token>, rs: seq<Range>)
    requires Tiles(lx, src, i, ts, rs)
    ensures ts[|rs|].kind == KEof && forall k :: 0 <= k < |rs| ==> ts[k].kind != KEof
    decreases |rs|
  {
    hide Filler, Marks;
    if rs != [] {
      OneEnd(lx, src, rs[0].to, ts[1..], rs[1..]);
      MarkedIsNoEnd(lx, src, ts[0], rs[0]);
    }
  }

  lemma MarkedIsNoEnd(lx: Lexicon, src: string, t: Token, r: Range)
    requires Marks(lx, src, t, r)
    ensures t.kind != KEof
  {
    NeverEnd(lx, src[r.from..r.to]);
  }

  lemma NeverEnd(lx: Lexicon, s: string)
    requires s != "" && FirstToken(lx, s).Success?
    ensures FirstToken(lx, s).value.0 != KEof
  {}

  /** The end marker's start, a number of characters, is a byte offset only where all of them are ASCII. */
  lemma {:induction false} CharactersAsBytes(s: string)
    ensures |s| <= Bytes(s) && (|s| == Bytes(s) <==> forall i :: 0 <= i < |s| ==> s[i] as int < 0x80)
  {
    if s != "" {
      var front, last := s[..|s| - 1], s[|s| - 1];
      CharactersAsBytes(front);
      assert forall i :: 0 <= i < |front| ==> front[i] == s[i];
    }
  }

  lemma {:induction false} IndexOfBytes(s: string, i: nat)
    requires i <= |s|
    ensures Index(s, Bytes(s[..i])) == i
  {
    assert s[..|s|] == s;
    if i < |s| {
      BytesSplit(s, i, |s| - 1);
      assert s[..|s| - 1][..i] == s[..i];
      IndexOfBytes(s[..|s| - 1], i);
    }
  }

  /** Cutting the text at tokens' bytes gives the characters from the first token through the last. */
  lemma SliceOfTokens(lx: Lexicon, src: string, t: Token, u: Token, r: Range, s: Range)
    requires Marks(lx, src, t, r) && Marks(lx, src, u, s) && r.from <= s.to
    ensures Slice(src, t.start, u.start + u.len) == src[r.from..s.to]
  {
    IndexOfBytes(src, r.from);
    IndexOfBytes(src, s.to);
  }

  /** From character `from` on there is one where no token can be read, and the error says where and why. */
  ghost predicate FlawAfter(lx: Lexicon, src: string, from: nat, f: Flaw) {
    exists i :: from <= i < |src| && Solid(src[i..]) && FirstToken(lx, src[i..]) == Failure(f.error)
                && f.line == Line(src[..i]) && f.col == Column(src[..i])
  }

  lemma FlawEarlier(lx: Lexicon, src: string, i: nat, j: nat, f: Flaw)
    requires i <= j && FlawAfter(lx, src, j, f)
    ensures FlawAfter(lx, src, i, f)
  {
    hide FirstToken, Line, Column, Solid;
  }

  lemma {:induction false} FlawIsLocatedFrom(lx: Lexicon, src: string, at: Cursor)
    requires OneLine(lx) && Located(src, at) && LexFrom(lx, src[at.index..], at).Failure?
    ensures FlawAfter(lx, src, at.index, LexFrom(lx, src[at.index..], at).error)
    decreases |src| - at.index
  {
    hide FirstToken, Bytes, Line, Column, CommentLength, FlawAfter;
    var i, s := at.index, src[at.index..];
    var f := LexFrom(lx, s, at).error;
    if StartsComment(s) {
      CommentFlaw(lx, src, at);
    } else if IsBlank(s[0]) {
      SkipsBlank(lx, src, at);
      BlankLocates(src, at);
      FlawIsLocatedFrom(lx, src, To(src, i + 1, at.line, at.col + 1));
      FlawEarlier(lx, src, i, i + 1, f);
    } else if s[0] == '\n' {
      SkipsNewline(lx, src, at);
      NewlineLocates(src, at);
      FlawIsLocatedFrom(lx, src, To(src, i + 1, at.line + 1, 1));
      FlawEarlier(lx, src, i, i + 1, f);
    } else if FirstToken(lx, s).Success? {
      var (kind, n) := FirstToken(lx, s).value;
      TakesToken(lx, src, at, kind, n);
      TokenMarks(lx, src, at, kind, n);
      FlawIsLocatedFrom(lx, src, To(src, i + n, at.line, at.col + n));
      FlawEarlier(lx, src, i, i + n, f);
    } else {
      FlawHere(lx, src, at);
    }
  }

  lemma FlawHere(lx: Lexicon, src: string, at: Cursor)
    requires Located(src, at) && Solid(src[at.index..]) && FirstToken(lx, src[at.index..]).Failure?
    ensures LexFrom(lx, src[at.index..], at).Failure?
            && FlawAfter(lx, src, at.index, LexFrom(lx, src[at.index..], at).error)
  {
    hide FirstToken, Bytes, Line, Column;
    EndsAndFails(lx, src[at.index..], at);
  }

  lemma CommentFlaw(lx: Lexicon, src: string, at: Cursor)
    requires OneLine(lx) && Located(src, at) && LexFrom(lx, src[at.index..], at).Failure?
             && StartsComment(src[at.index..])
    ensures FlawAfter(lx, src, at.index, LexFrom(lx, src[at.index..], at).error)
    decreases |src| - at.index, 0
  {
    hide LexFrom, Bytes, Line, Column, CommentLength, FlawAfter;
    var i, s := at.index, src[at.index..];
    var j := i + CommentLength(s);
    if j == |src| {
      LastComment(lx, src, at);
    } else {
      PastComment(lx, src, at, j);
      FlawIsLocatedFrom(lx, src, To(src, j + 1, at.line + 1, 1));
      FlawEarlier(lx, src, i, j + 1, LexFrom(lx, s, at).error);
    }
  }

  /** A lexical error is reported at the line and column of a character where no token can be read. */
  lemma FlawIsLocated(lx: Lexicon, src: string)
    requires OneLine(lx) && Lex(lx, src).Failure?
    ensures FlawAfter(lx, src, 0, Lex(lx, src).error)
  {
    hide FirstToken, LexFrom, FlawAfter;
    Begins(src);
    assert src[0..] == src;
    FlawIsLocatedFrom(lx, src, START);
  }
}
