/** Substitution with its check for leftover holes (src/compose.rs, `resolve`), and what the check is worth. */
module Resolution {
  import opened Wrappers
  import opened Errors
  import opened Template

  type Maybe<T> = Result<T, EngineError>

  // ---- Texts ---------------------------------------------------------------------------

  /** What the source's `subst` returns. */
  function Sub(s: string, b: Bindings): string {
    Render(Parse(s), b)
  }

  function SubAll(items: seq<string>, b: Bindings): seq<string> {
    if items == [] then [] else [Sub(items[0], b)] + SubAll(items[1..], b)
  }

  /** The name in the first hole, if there is one. */
  function FindUnresolved(s: string): Option<string> {
    match FindOpen(s)
    case None => None
    case Some(open) =>
      match FindClose(s[open + 2..])
      case None => None
      case Some(close) => Some(s[open + 2..][..close])
  }

  /** Substitutes, and fails if the first hole left over names no parameter. */
  function Resolve(s: string, owner: string, params: seq<string>, b: Bindings): Maybe<string> {
    var text := Sub(s, b);
    match FindUnresolved(text)
    case Some(name) => if name in params then Success(text) else Failure(InvalidParamRef(owner, name))
    case None => Success(text)
  }

  function ResolveAll(items: seq<string>, owner: string, params: seq<string>, b: Bindings): Maybe<seq<string>> {
    if items == [] then Success([])
    else
      var first :- Resolve(items[0], owner, params, b);
      var rest :- ResolveAll(items[1..], owner, params, b);
      Success([first] + rest)
  }

  /** The names of the holes of a template, in order. */
  function Holes(t: Template): seq<string> {
    match t
    case End(_) => []
    case Slot(_, name, rest) => [name] + Holes(rest)
  }

  /** The first of `names` that is not in `known`. */
  function FirstUnknown(names: seq<string>, known: seq<string>): Option<string> {
    if names == [] then None else if names[0] !in known then Some(names[0]) else FirstUnknown(names[1..], known)
  }

  lemma UnresolvedIsFirstHole(s: string)
    ensures FindUnresolved(s) == if Holes(Parse(s)) == [] then None else Some(Holes(Parse(s))[0])
  {}

  /**
   With inert values for exactly the parameters, resolving a text succeeds exactly when
   every hole of the text names a parameter; if not, the error names the first that does not.
   */
  lemma ResolveIff(s: string, owner: string, params: seq<string>, b: Bindings)
    requires AllInert(b) && forall p :: p in b <==> p in params
    ensures Resolve(s, owner, params, b)
         == match FirstUnknown(Holes(Parse(s)), params)
            case None => Success(Sub(s, b))
            case Some(name) => Failure(InvalidParamRef(owner, name))
    ensures FirstUnknown(Holes(Parse(s)), params).None? <==> forall h :: h in Holes(Parse(s)) ==> h in params
  {
    hide Parse, Render, FindUnresolved;
    SubstFills(s, b);
    UnresolvedIsFirstHole(Sub(s, b));
    HolesOfFill(Parse(s), params, b);
    FirstUnknownIff(Holes(Parse(s)), params);
  }

  lemma {:induction false} HolesOfFill(t: Template, params: seq<string>, b: Bindings)
    requires forall p :: p in b <==> p in params
    ensures var left, unknown := Holes(Fill(t, b)), FirstUnknown(Holes(t), params);
            (unknown.None? ==> left == [])
              && (unknown.Some? ==> left != [] && left[0] == unknown.value && left[0] !in params)
  {
    if t.Slot? {
      HolesOfFill(t.rest, params, b);
      if t.name in b {
        assert Holes(Fill(t, b)) == Holes(Fill(t.rest, b));
      }
    }
  }

  lemma {:induction false} FirstUnknownIff(names: seq<string>, known: seq<string>)
    ensures FirstUnknown(names, known).None? <==> forall h :: h in names ==> h in known
  {
    if names != [] {
      assert names == [names[0]] + names[1..];
      FirstUnknownIff(names[1..], known);
    }
  }

  // ---- Exactly when resolving checks every hole ----------------------------------------

  predicate AllKnown(s: string, params: seq<string>) {
    forall h :: h in Holes(Parse(s)) ==> h in params
  }

  /** Whatever the text, resolving it succeeds exactly when every hole of it names a parameter. */
  ghost predicate ChecksEveryHole(owner: string, params: seq<string>, b: Bindings) {
    forall s :: Resolve(s, owner, params, b).Success? <==> AllKnown(s, params)
  }

  /**
   Exactly when the check can be relied on. For bindings of exactly the parameters, resolving
   succeeds on just the texts whose holes all name parameters, if and only if every value
   that can be substituted is inert. For any other bindings there is a text that fools it.
   */
  lemma ChecksEveryHoleIff(owner: string, params: seq<string>, b: Bindings)
    requires forall p :: p in b <==> p in params
    ensures ChecksEveryHole(owner, params, b) <==> AllInert(b)
  {
    hide Resolve, Parse, Inert, Holes, FirstUnknown;
    if AllInert(b) {
      forall s ensures Resolve(s, owner, params, b).Success? <==> AllKnown(s, params) {
        ResolveIff(s, owner, params, b);
      }
    } else {
      var p :| p in b && '}' !in p && !Inert(b[p]);
      NotInertIsFooled(owner, params, b, p);
    }
  }

  /** A name longer than all of `params`, and so none of them. */
  function LongName(params: seq<string>): (u: string)
    ensures u != "" && (forall c :: c in u ==> c == 'x') && (forall p :: p in params ==> |p| < |u|)
  {
    if params == [] then "x"
    else
      var u := LongName(params[1..]);
      if |params[0]| < |u| then u else seq(|params[0]| + 1, i => 'x')
  }

  lemma NotInertIsFooled(owner: string, params: seq<string>, b: Bindings, p: string)
    requires (forall p :: p in b <==> p in params) && p in b && '}' !in p && !Inert(b[p])
    ensures !ChecksEveryHole(owner, params, b)
  {
    hide ChecksEveryHole, FindOpen, FindClose, FindUnresolved;
    var v, u := b[p], LongName(params);
    assert FindOpen("").None? && FindOpen("$").None? by { NoOpen("", ""); NoOpen("$", ""); }
    if v == "" {
      OpenCloses("$", u);
      NoOpen("{", u);
      assert "$" + v + ("{" + u + "}") == "$" + "{" + u + "}";
      Fooled(owner, params, b, "$", p, "{" + u + "}", u);
    } else if FindOpen(v).Some? {
      assert "" + v == v;
      OpenIsFooled(owner, params, b, "", p, FindOpen(v).value);
    } else if v[0] == '{' {
      assert OpenAt("$" + v, 0);
      FindOpenIs("$" + v, 0);
      OpenIsFooled(owner, params, b, "$", p, 0);
    } else {
      OpenCloses(v, u);
      NoOpen("{", u);
      assert "" + v + ("{" + u + "}") == v + "{" + u + "}";
      Fooled(owner, params, b, "", p, "{" + u + "}", u);
    }
  }

  lemma NoOpen(a: string, u: string)
    requires |a| <= 1 && (forall c :: c in u ==> c == 'x') && (a == "$" ==> u == "")
    ensures FindOpen(a + u + "}").None? && FindOpen(a + u).None? && FindOpen(a).None?
  {
    var s := a + u + "}";
    forall i: nat ensures !OpenAt(s, i) && !OpenAt(a + u, i) && !OpenAt(a, i) {
      if |a| <= i < |a| + |u| {
        assert s[i] == u[i - |a|] && u[i - |a|] in u;
      }
    }
  }

  /** A `$` at the end and a `{` after it open a hole, here called `u`. */
  lemma OpenCloses(v: string, u: string)
    requires v != "" && v[|v| - 1] == '$' && FindOpen(v).None? && '}' !in u
    ensures FindUnresolved(v + "{" + u + "}") == Some(u)
  {
    var w := v + "{" + u + "}";
    assert OpenAt(w, |v| - 1);
    forall j: nat | j < |v| - 1 ensures !OpenAt(w, j) {
      assert !OpenAt(v, j);
    }
    FindOpenIs(w, |v| - 1);
    assert w[|v| - 1 + 2..] == u + "}";
    FindCloseIs(u + "}", |u|);
  }

  /** Text after an opened hole does not change where it opens. */
  lemma StillOpens(w: string, open: nat, rest: string)
    requires FindOpen(w) == Some(open)
    ensures FindOpen(w + rest) == Some(open) && (w + rest)[open + 2..] == w[open + 2..] + rest
  {
    assert OpenAt(w + rest, open);
    forall j: nat | j < open ensures !OpenAt(w + rest, j) {
      assert !OpenAt(w, j);
    }
    FindOpenIs(w + rest, open);
  }

  lemma StillCloses(tail: string, close: nat, rest: string)
    requires FindClose(tail) == Some(close)
    ensures FindClose(tail + rest) == Some(close) && (tail + rest)[..close] == tail[..close]
  {
    assert (tail + rest)[..close] == tail[..close];
    FindCloseIs(tail + rest, close);
  }

  /** A value that opens a hole, perhaps with the text before it, is read together with the text after it. */
  lemma OpenIsFooled(owner: string, params: seq<string>, b: Bindings, before: string, p: string, open: nat)
    requires (forall p :: p in b <==> p in params) && p in b && '}' !in p
    requires FindOpen(before).None? && FindOpen(before + b[p]) == Some(open)
    ensures !ChecksEveryHole(owner, params, b)
  {
    hide ChecksEveryHole, FindOpen, FindClose, FindUnresolved, LongName;
    var w, u := before + b[p], LongName(params);
    var tail := w[open + 2..];
    match FindClose(tail)
    case Some(close) =>
      var n := tail[..close];
      if n in params {
        HoleStays(w, open, close, Hole(u));
        FooledLater(owner, params, b, before, p, u, n);
      } else {
        HoleStays(w, open, close, "");
        NoOpen("", "");
        Fooled(owner, params, b, before, p, "", n);
      }
    case None =>
      HoleCloses(w, open, u);
      NoOpen("", u);
      assert "" + u + "}" == u + "}";
      Fooled(owner, params, b, before, p, u + "}", tail + u);
  }

  /** A closed hole is the first one whatever follows. */
  lemma HoleStays(w: string, open: nat, close: nat, rest: string)
    requires FindOpen(w) == Some(open) && FindClose(w[open + 2..]) == Some(close)
    ensures FindUnresolved(w + rest) == Some(w[open + 2..][..close])
  {
    StillOpens(w, open, rest);
    StillCloses(w[open + 2..], close, rest);
  }

  /** An open hole is closed by the next `}`. */
  lemma HoleCloses(w: string, open: nat, u: string)
    requires FindOpen(w) == Some(open) && FindClose(w[open + 2..]).None? && '}' !in u
    ensures FindUnresolved(w + (u + "}")) == Some(w[open + 2..] + u)
  {
    var tail := w[open + 2..];
    StillOpens(w, open, u + "}");
    assert tail + (u + "}") == tail + u + "}";
    assert (tail + u + "}")[..|tail + u|] == tail + u;
    FindCloseIs(tail + u + "}", |tail + u|);
  }

  /** All holes are known, but an unknown one turns up in the output. */
  lemma Fooled(owner: string, params: seq<string>, b: Bindings, before: string, p: string, after: string, n: string)
    requires (forall p :: p in b <==> p in params) && p in b && '}' !in p
    requires FindOpen(before).None? && FindOpen(after).None?
    requires FindUnresolved(before + b[p] + after) == Some(n) && n !in params
    ensures !ChecksEveryHole(owner, params, b)
  {
    hide Parse, Render, Hole, FindUnresolved, FindOpen;
    var s := before + Hole(p) + after;
    RenderOneHole(before, p, after, b);
    ParseSlot(before, p, after);
    ParsePlain(after);
    assert Holes(Parse(s)) == [p];
    assert Resolve(s, owner, params, b).Failure?;
  }

  lemma ParsePlain(s: string)
    requires FindOpen(s).None?
    ensures Parse(s) == End(s)
  {}

  /** An unknown hole is overlooked behind a known one that turns up in the output. */
  lemma FooledLater(owner: string, params: seq<string>, b: Bindings, before: string, p: string, u: string, n: string)
    requires (forall p :: p in b <==> p in params) && p in b && '}' !in p && u !in params && '}' !in u
    requires FindOpen(before).None? && FindUnresolved(before + b[p] + Hole(u)) == Some(n) && n in params
    ensures !ChecksEveryHole(owner, params, b)
  {
    hide Parse, Render, Hole, FindUnresolved, FindOpen;
    var s := before + Hole(p) + Hole(u);
    ParseSlot(before, p, Hole(u));
    ParseOneHole(u);
    RenderLater(before, p, u, b);
    assert Sub(s, b) == before + b[p] + Hole(u);
    assert u in Holes(Parse(s));
    assert Resolve(s, owner, params, b).Success?;
  }

  lemma ParseOneHole(u: string)
    requires '}' !in u
    ensures Parse(Hole(u)) == Slot("", u, End(""))
  {
    hide Hole;
    assert "" + Hole(u) + "" == Hole(u);
    ParseSlot("", u, "");
  }

  lemma RenderLater(before: string, p: string, u: string, b: Bindings)
    requires p in b && u !in b
    ensures Render(Slot(before, p, Slot("", u, End(""))), b) == before + b[p] + Hole(u)
    ensures Holes(Slot(before, p, Slot("", u, End("")))) == [p, u]
  {
    hide Hole;
    assert Render(Slot("", u, End("")), b) == Hole(u);
    assert Holes(Slot("", u, End(""))) == [u];
  }

  /** For example, a value that is itself a parameter's hole hides the unknown name after it. */
  lemma ResolveMissesLaterHoles(p: string, unknown: string, owner: string)
    requires '}' !in p && '}' !in unknown && p != unknown
    ensures Holes(Parse(Hole(p) + Hole(unknown))) == [p, unknown]
    ensures Resolve(Hole(p) + Hole(unknown), owner, [p], map[p := Hole(p)]) == Success(Hole(p) + Hole(unknown))
  {
    hide Parse, Render, Hole, FindUnresolved, Holes;
    ParseTwoHoles(p, unknown);
    RenderTwoHoles(p, unknown, Hole(p));
    UnresolvedIsFirstHole(Hole(p) + Hole(unknown));
  }

  lemma RenderTwoHoles(p: string, q: string, v: string)
    requires p != q
    ensures Render(Slot("", p, Slot("", q, End(""))), map[p := v]) == v + Hole(q)
    ensures Holes(Slot("", p, Slot("", q, End("")))) == [p, q]
  {
    hide Hole;
    assert Holes(Slot("", q, End(""))) == [q];
    assert Render(Slot("", q, End("")), map[p := v]) == Hole(q);
  }

  lemma ParseTwoHoles(p: string, q: string)
    requires '}' !in p && '}' !in q
    ensures Parse(Hole(p) + Hole(q)) == Slot("", p, Slot("", q, End("")))
  {
    hide Hole;
    assert "" + Hole(p) + Hole(q) == Hole(p) + Hole(q) && "" + Hole(q) + "" == Hole(q);
    ParseSlot("", p, Hole(q));
    ParseSlot("", q, "");
  }
}
