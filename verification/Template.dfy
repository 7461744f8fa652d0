/** `${param}` substitution in component texts (src/compose.rs, `subst` and `find_unresolved`). */
module Template {
  import opened Wrappers

  type Bindings = map<string, string>

  // ---- Searching -----------------------------------------------------------------------

  predicate OpenAt(s: string, i: nat) {
    i + 1 < |s| && s[i] == '$' && s[i + 1] == '{'
  }

  /** The position of the first `${`. */
  function FindOpen(s: string): (r: Option<nat>)
    ensures r.Some? ==> OpenAt(s, r.value) && forall i: nat :: i < r.value ==> !OpenAt(s, i)
    ensures r.None? ==> forall i: nat :: !OpenAt(s, i)
  {
    if |s| < 2 then None
    else if OpenAt(s, 0) then Some(0)
    else
      assert forall i: nat :: OpenAt(s, i + 1) == OpenAt(s[1..], i);
      assert forall i: nat :: OpenAt(s, i) ==> i > 0 && OpenAt(s[1..], i - 1);
      match FindOpen(s[1..])
      case None => None
      case Some(i) => Some(i + 1)
  }

  /** The position of the first `}`. */
  function FindClose(s: string): (r: Option<nat>)
    ensures r.Some? ==> r.value < |s| && s[r.value] == '}' && '}' !in s[..r.value]
    ensures r.None? ==> '}' !in s
  {
    if s == "" then None
    else if s[0] == '}' then Some(0)
    else
      match FindClose(s[1..])
      case None => None
      case Some(i) => assert s[..i + 1] == [s[0]] + s[1..][..i]; Some(i + 1)
  }

  // ---- Templates -----------------------------------------------------------------------

  /** A text as literals with named holes between them. */
  datatype Template = End(text: string) | Slot(text: string, name: string, rest: Template)

  /** The left-to-right decomposition of a text; a `${` that is never closed is literal. */
  function Parse(s: string): Template
    decreases |s|
  {
    match FindOpen(s)
    case None => End(s)
    case Some(open) =>
      match FindClose(s[open + 2..])
      case None => End(s)
      case Some(close) =>
        Slot(s[..open], s[open + 2..][..close], Parse(s[open + 2..][close + 1..]))
  }

  /** How a hole is written. */
  function Hole(name: string): string {
    "${" + name + "}"
  }

  /** The text in which every hole bound by `b` is replaced by its value, and no other. */
  function Render(t: Template, b: Bindings): string {
    match t
    case End(text) => text
    case Slot(text, name, rest) => text + (if name in b then b[name] else Hole(name)) + Render(rest, b)
  }

  /** One turn of the source's loop: how the text up to and including a closed hole renders. */
  lemma RenderHole(s: string, b: Bindings, open: nat, close: nat)
    requires FindOpen(s) == Some(open) && FindClose(s[open + 2..]) == Some(close)
    ensures var name := s[open + 2..][..close];
            Hole(name) == s[open..open + 2 + close + 1]
            && Render(Parse(s), b) == s[..open] + (if name in b then b[name]
                                                   else Hole(name)) + Render(Parse(s[open + 2..][close + 1..]), b)
  {
    SliceIsHole(s, open, close);
    var name, rest := s[open + 2..][..close], s[open + 2..][close + 1..];
    assert Parse(s) == Slot(s[..open], name, Parse(rest));
    hide Parse, Hole, FindOpen, FindClose;
    assert Render(Slot(s[..open], name, Parse(rest)), b)
        == s[..open] + (if name in b then b[name] else Hole(name)) + Render(Parse(rest), b);
  }

  lemma SliceIsHole(s: string, open: nat, close: nat)
    requires OpenAt(s, open) && open + 2 + close < |s| && s[open + 2 + close] == '}'
    ensures Hole(s[open + 2..][..close]) == s[open..open + 2 + close + 1]
  {
    var piece := s[open..open + 2 + close + 1];
    var name := s[open + 2..][..close];
    assert |piece| == |Hole(name)|;
    forall i | 0 <= i < |piece| ensures piece[i] == Hole(name)[i] {
      assert 2 <= i < 2 + close ==> Hole(name)[i] == name[i - 2];
    }
  }

  lemma RenderRest(s: string, b: Bindings)
    requires FindOpen(s).None? || FindClose(s[FindOpen(s).value + 2..]).None?
    ensures Render(Parse(s), b) == s
  {}

  /** The source's single pass: values go to the output and are never scanned again. */
  method Subst(s: string, bound: Bindings) returns (out: string)
    ensures out == Render(Parse(s), bound)
  {
    hide Render, Parse, FindOpen, FindClose;
    out := "";
    var rest := s;
    var open := FindOpen(rest);
    while open.Some?
      invariant open == FindOpen(rest)
      invariant Render(Parse(s), bound) == out + Render(Parse(rest), bound)
      decreases |rest|
    {
      var piece, next := SubstFirst(rest, open.value, bound);
      ghost var tail := Render(Parse(next), bound);
      assert out + (piece + tail) == out + piece + tail;
      out, rest := out + piece, next;
      open := FindOpen(rest);
    }
    RenderRest(rest, bound);
    out := out + rest;
  }

  /** One turn of the loop: the output up to the first hole and its value, and what is left to scan. */
  method SubstFirst(rest: string, open: nat, bound: Bindings) returns (piece: string, next: string)
    requires FindOpen(rest) == Some(open)
    ensures |next| < |rest| && Render(Parse(rest), bound) == piece + Render(Parse(next), bound)
  {
    hide Render, Parse, FindOpen, FindClose;
    var lead, afterOpen := rest[..open], rest[open + 2..];
    var close := FindClose(afterOpen);
    if close.Some? {
      RenderHole(rest, bound, open, close.value);
      var name := afterOpen[..close.value];
      piece := lead + if name in bound then bound[name] else rest[open..open + 2 + close.value + 1];
      next := afterOpen[close.value + 1..];
    } else {
      RenderRest(rest, bound);
      RenderRest("", bound);
      piece, next := lead + rest[open..], "";
      assert piece + "" == rest;
    }
  }

  // ---- The decomposition is faithful ---------------------------------------------------

  /** Rendering with nothing bound gives the text back. */
  lemma {:induction false} RenderNothing(s: string)
    ensures Render(Parse(s), map[]) == s
    decreases |s|
  {
    var open := FindOpen(s);
    if open.Some? && FindClose(s[open.value + 2..]).Some? {
      var close := FindClose(s[open.value + 2..]).value;
      RenderHole(s, map[], open.value, close);
      RenderNothing(s[open.value + 2..][close + 1..]);
      assert s[open.value + 2..][close + 1..] == s[open.value + 2 + close + 1..];
    }
  }

  /** Templates that are the decomposition of their own text. */
  predicate Canonical(t: Template) {
    match t
    case End(text) =>
      var open := FindOpen(text);
      open.None? || FindClose(text[open.value + 2..]).None?
    case Slot(text, name, rest) => FindOpen(text).None? && '}' !in name && Canonical(rest)
  }

  lemma NoEarlierOpen(s: string, open: nat)
    requires FindOpen(s) == Some(open)
    ensures FindOpen(s[..open]).None?
  {
    forall i: nat ensures !OpenAt(s[..open], i) {
      assert !OpenAt(s, i) || i >= open;
    }
  }

  lemma {:induction false} ParseIsCanonical(s: string)
    ensures Canonical(Parse(s))
    decreases |s|
  {
    hide FindClose;
    var open := FindOpen(s);
    if open.Some? && FindClose(s[open.value + 2..]).Some? {
      var close := FindClose(s[open.value + 2..]).value;
      NoEarlierOpen(s, open.value);
      ParseIsCanonical(s[open.value + 2..][close + 1..]);
    }
  }

  lemma FindOpenIs(s: string, i: nat)
    requires OpenAt(s, i) && forall j: nat :: j < i ==> !OpenAt(s, j)
    ensures FindOpen(s) == Some(i)
  {}

  lemma FindCloseIs(s: string, i: nat)
    requires i < |s| && s[i] == '}' && '}' !in s[..i]
    ensures FindClose(s) == Some(i)
  {}

  lemma {:induction false} ParseRender(t: Template)
    requires Canonical(t)
    ensures Parse(Render(t, map[])) == t
  {
    match t
    case End(text) =>
    case Slot(text, name, rest) =>
      var after := Render(rest, map[]);
      var s := Render(t, map[]);
      assert s == text + Hole(name) + after;
      ParseRender(rest);
      ParseSlot(text, name, after);
  }

  lemma ParseSlot(text: string, name: string, after: string)
    requires FindOpen(text).None? && '}' !in name
    ensures Parse(text + Hole(name) + after) == Slot(text, name, Parse(after))
  {
    var s, open := text + Hole(name) + after, |text|;
    assert OpenAt(s, open);
    forall j: nat | j < open ensures !OpenAt(s, j) {
      assert !OpenAt(text, j);
    }
    FindOpenIs(s, open);
    var tail := s[open + 2..];
    assert tail == name + "}" + after;
    assert tail[..|name|] == name;
    FindCloseIs(tail, |name|);
    assert s[..open] == text && tail[|name| + 1..] == after;
  }

  // ---- Substituting in stages ----------------------------------------------------------

  /** Puts `s` before a template. */
  function Prefix(s: string, t: Template): Template {
    match t
    case End(text) => End(s + text)
    case Slot(text, name, rest) => Slot(s + text, name, rest)
  }

  /** The template with the holes bound by `b` filled in. */
  function Fill(t: Template, b: Bindings): Template {
    match t
    case End(_) => t
    case Slot(text, name, rest) =>
      if name in b then Prefix(text + b[name], Fill(rest, b)) else Slot(text, name, Fill(rest, b))
  }

  /**
   A value that cannot take part in a hole: it contains no `${`, and cannot complete one
   with its neighbours or let them complete one.
   */
  predicate Inert(v: string) {
    v != "" && v[0] != '{' && v[|v| - 1] != '$' && FindOpen(v).None?
  }

  /** The values that can be substituted are inert: no hole has a name with a `}` in it. */
  predicate AllInert(b: Bindings) {
    forall p :: p in b && '}' !in p ==> Inert(b[p])
  }

  lemma {:induction false} FillRenders(t: Template, b: Bindings, b': Bindings)
    requires b.Keys !! b'.Keys
    ensures Render(Fill(t, b), b') == Render(t, b + b')
  {
    match t
    case End(_) =>
    case Slot(text, name, rest) =>
      FillRenders(rest, b, b');
      if name in b {
        PrefixRenders(text + b[name], Fill(rest, b), b');
      }
  }

  lemma PrefixRenders(s: string, t: Template, b: Bindings)
    ensures Render(Prefix(s, t), b) == s + Render(t, b)
  {
    if t.Slot? {
      var value := if t.name in b then b[t.name] else Hole(t.name);
      assert s + t.text + value + Render(t.rest, b) == s + (t.text + value + Render(t.rest, b));
    }
  }

  lemma {:induction false} FillIsCanonical(t: Template, b: Bindings)
    requires Canonical(t) && AllInert(b)
    ensures Canonical(Fill(t, b))
  {
    match t
    case End(_) =>
    case Slot(text, name, rest) =>
      FillIsCanonical(rest, b);
      if name in b {
        PrefixIsCanonical(text, b[name], Fill(rest, b));
      }
  }

  lemma PrefixIsCanonical(text: string, v: string, t: Template)
    requires FindOpen(text).None? && Inert(v) && Canonical(t)
    ensures Canonical(Prefix(text + v, t))
  {
    var s := text + v + t.text;
    forall i: nat ensures OpenAt(s, i) <==> i >= |text + v| && OpenAt(t.text, i - |text + v|) {
      assert !OpenAt(text, i);
      assert i >= |text| ==> !OpenAt(v, i - |text|);
    }
    var open := FindOpen(t.text);
    if open.Some? {
      FindOpenIs(s, |text + v| + open.value);
      assert s[|text + v| + open.value + 2..] == t.text[open.value + 2..];
    } else {
      forall i: nat ensures !OpenAt(s, i) {}
    }
  }

  /** What substituting inert values leaves is the template with those holes filled in. */
  lemma SubstFills(s: string, b: Bindings)
    requires AllInert(b)
    ensures Parse(Render(Parse(s), b)) == Fill(Parse(s), b)
  {
    hide *;
    ParseIsCanonical(s);
    FillIsCanonical(Parse(s), b);
    ParseRender(Fill(Parse(s), b));
    FillRenders(Parse(s), b, map[]);
    assert b + map[] == b;
  }

  /** Substituting in two stages is substituting at once, when the first values are inert. */
  lemma SubstInStages(s: string, b1: Bindings, b2: Bindings)
    requires AllInert(b1) && b1.Keys !! b2.Keys
    ensures Render(Parse(Render(Parse(s), b1)), b2) == Render(Parse(s), b1 + b2)
  {
    SubstFills(s, b1);
    FillRenders(Parse(s), b1, b2);
  }

  // ---- Exactly the inert values are safe -----------------------------------------------

  /** Substituting `v` for a parameter first, and other parameters later, is always substituting at once. */
  ghost predicate Stageable(v: string) {
    forall s, p, b :: '}' !in p && p !in b ==>
      Render(Parse(Render(Parse(s), map[p := v])), b) == Render(Parse(s), map[p := v] + b)
  }

  /** A caller can tell beforehand which values may be substituted in stages: exactly the inert ones. */
  lemma InertIffStageable(v: string)
    ensures Inert(v) <==> Stageable(v)
  {
    if Inert(v) {
      forall s, p, b: Bindings | '}' !in p && p !in b
        ensures Render(Parse(Render(Parse(s), map[p := v])), b) == Render(Parse(s), map[p := v] + b)
      {
        SubstInStages(s, map[p := v], b);
      }
    } else {
      NotInertNotStageable(v);
    }
  }

  lemma NotInertNotStageable(v: string)
    requires !Inert(v)
    ensures !Stageable(v)
  {
    if v == "" {
      Unsafe(v, "$", "{q}", 0, 1);
    } else if FindOpen(v).Some? {
      var open := FindOpen(v).value;
      assert "" + v == v;
      ClosedBy(v, "", "}", open);
    } else if v[0] == '{' {
      assert OpenAt("$" + v, 0);
      ClosedBy(v, "$", "}", 0);
    } else {
      var w := "" + v + "{q}";
      assert w[|v| - 1 + 2..] == "q}";
      forall j: nat | j < |v| - 1 ensures !OpenAt(w, j) {
        assert !OpenAt(v, j);
      }
      FindOpenIs(w, |v| - 1);
      Unsafe(v, "", "{q}", |v| - 1, 1);
    }
  }

  /** A `}` after an opened hole closes one. */
  lemma ClosedBy(v: string, before: string, after: string, open: nat)
    requires FindOpen(before).None? && FindOpen(before + v) == Some(open) && after == "}"
    ensures !Stageable(v)
  {
    var w := before + v + after;
    assert w[..|before + v|] == before + v;
    assert OpenAt(before + v, open);
    forall j: nat | j < open ensures !OpenAt(w, j) {
      assert !OpenAt(before + v, j);
    }
    FindOpenIs(w, open);
    assert w[open + 2..][|w| - open - 3] == '}';
    Unsafe(v, before, after, open, FindClose(w[open + 2..]).value);
  }

  /** When `before`, `v` and `after` together contain a hole, filling it later is not filling it at once. */
  lemma Unsafe(v: string, before: string, after: string, open: nat, close: nat)
    requires FindOpen(before).None? && FindOpen(after).None?
    requires var w := before + v + after; FindOpen(w) == Some(open) && FindClose(w[open + 2..]) == Some(close)
    ensures !Stageable(v)
  {
    hide Render, Parse, FindOpen, FindClose;
    var w := before + v + after;
    var name := w[open + 2..][..close];
    var p := name + "x";
    assert '}' !in p && p != name by {
      assert |p| != |name|;
    }
    var s, b1, b2 := before + Hole(p) + after, map[p := v], map[name := ""];
    hide Hole;
    RenderOneHole(before, p, after, b1);
    RenderOneHole(before, p, after, b1 + b2);
    HoleShrinks(w, open, close);
    assert Render(Parse(s), b1) == w == Render(Parse(s), b1 + b2);
    NotStageableBy(v, s, p, b2);
  }

  lemma NotStageableBy(v: string, s: string, p: string, b: Bindings)
    requires '}' !in p && p !in b
    requires Render(Parse(Render(Parse(s), map[p := v])), b) != Render(Parse(s), map[p := v] + b)
    ensures !Stageable(v)
  {
    hide Render, Parse;
  }

  lemma RenderOneHole(before: string, p: string, after: string, b: Bindings)
    requires FindOpen(before).None? && FindOpen(after).None? && '}' !in p && p in b
    ensures Render(Parse(before + Hole(p) + after), b) == before + b[p] + after
  {
    ParseSlot(before, p, after);
  }

  lemma HoleShrinks(w: string, open: nat, close: nat)
    requires FindOpen(w) == Some(open) && FindClose(w[open + 2..]) == Some(close)
    ensures Render(Parse(w), map[w[open + 2..][..close] := ""]) != w
  {
    var name := w[open + 2..][..close];
    var rest := w[open + 2..][close + 1..];
    RenderHole(w, map[name := ""], open, close);
    RenderShrinks(Parse(rest), name);
    RenderNothing(rest);
    hide Render, Parse;
    assert |Render(Parse(w), map[name := ""])| < |w|;
  }

  lemma {:induction false} RenderShrinks(t: Template, name: string)
    ensures |Render(t, map[name := ""])| <= |Render(t, map[])|
  {
    if t.Slot? {
      RenderShrinks(t.rest, name);
    }
  }
}
