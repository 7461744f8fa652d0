/**
 Guard evaluation (src/guard/eval.rs). Integers are 64-bit and checked; floats are opaque,
 with their operations as a parameter. On guards that meet no float, evaluation is proved
 to be exact: it computes over the unbounded integers, and fails when they leave the range.
 */
module GuardEval {
  import opened Wrappers
  import opened Schema
  import opened GuardSyntax

  datatype Value = VInteger(i: int) | VFloat(f: Double) | VString(s: string) | VBool(b: bool) | VNull

  datatype EvalError =
    | NoPayload
    | UnsupportedValue
    | UnknownIdentifier(name: string)
    | CannotNegate(v: Value)
    | IntegerOverflow
    | DivisionByZero
    | NotNumeric(left: Value, right: Value)
    | NotComparable(left: Value, right: Value)

  datatype Order = Less | Equal | Greater

  /** The machine's float operations. */
  datatype FloatOps = FloatOps(
    ofInt: int -> Double,
    neg: Double -> Double,
    add: (Double, Double) -> Double,
    sub: (Double, Double) -> Double,
    mul: (Double, Double) -> Double,
    div: (Double, Double) -> Double,
    isZero: Double -> bool,
    same: (Double, Double) -> bool,
    compare: (Double, Double) -> Option<Order>)

  const MIN: int := -0x8000_0000_0000_0000
  const MAX: int := 0x7FFF_FFFF_FFFF_FFFF

  predicate InRange(i: int) {
    MIN <= i <= MAX
  }

  /** Division that truncates toward zero. */
  function Quotient(a: int, b: int): int
    requires b != 0
  {
    if a >= 0 then (if b > 0 then a / b else -(a / -b))
    else (if b > 0 then -(-a / b) else -a / -b)
  }

  /** What makes it the truncating quotient: the remainder is smaller than the divisor and has the dividend's sign. */
  lemma QuotientTruncates(a: int, b: int)
    requires b != 0
    ensures var r := a - b * Quotient(a, b);
            (a >= 0 ==> 0 <= r < if b > 0 then b else -b) && (a <= 0 ==> (if b > 0 then -b else b) < r <= 0)
  {
    var n, d := if a >= 0 then a else -a, if b > 0 then b else -b;
    var q := n / d;
    Division(n, d);
    Signs(d, q);
    assert b * Quotient(a, b) == if a >= 0 then d * q else -(d * q);
  }

  lemma Division(n: int, d: int)
    requires d > 0
    ensures n == d * (n / d) + n % d && 0 <= n % d < d
  {}

  lemma Signs(x: int, y: int)
    ensures -x * y == x * -y == -(x * y) && -x * -y == x * y
  {}

  type Evaluated = Result<Value, EvalError>

  // ---- Values --------------------------------------------------------------------------

  function Truth(v: Value, fl: FloatOps): bool {
    match v
    case VBool(b) => b
    case VNull => false
    case VInteger(i) => i != 0
    case VFloat(f) => !fl.isZero(f)
    case VString(s) => s != ""
  }

  function SameValue(a: Value, b: Value, fl: FloatOps): bool {
    match (a, b)
    case (VNull, VNull) => true
    case (VBool(x), VBool(y)) => x == y
    case (VInteger(x), VInteger(y)) => x == y
    case (VInteger(x), VFloat(y)) => fl.same(fl.ofInt(x), y)
    case (VFloat(x), VInteger(y)) => fl.same(x, fl.ofInt(y))
    case (VFloat(x), VFloat(y)) => fl.same(x, y)
    case (VString(x), VString(y)) => x == y
    case _ => false
  }

  function CompareInts(a: int, b: int): Order {
    if a < b then Less else if a == b then Equal else Greater
  }

  function CompareStrings(a: string, b: string): Order {
    if a == "" && b == "" then Equal
    else if a == "" then Less
    else if b == "" then Greater
    else if a[0] != b[0] then CompareInts(a[0] as int, b[0] as int)
    else CompareStrings(a[1..], b[1..])
  }

  function Ordering(a: Value, b: Value, fl: FloatOps): Option<Order> {
    match (a, b)
    case (VInteger(x), VInteger(y)) => Some(CompareInts(x, y))
    case (VInteger(x), VFloat(y)) => fl.compare(fl.ofInt(x), y)
    case (VFloat(x), VInteger(y)) => fl.compare(x, fl.ofInt(y))
    case (VFloat(x), VFloat(y)) => fl.compare(x, y)
    case (VString(x), VString(y)) => Some(CompareStrings(x, y))
    case _ => None
  }

  /** Comparing with null is false, whatever the operator. */
  function Compare(op: BinaryOp, a: Value, b: Value, fl: FloatOps): Evaluated
    requires op in {Lt, Lte, Gt, Gte}
  {
    if a == VNull || b == VNull then Success(VBool(false))
    else
      match Ordering(a, b, fl)
      case None => Failure(NotComparable(a, b))
      case Some(o) =>
        Success(VBool(match op
                      case Lt => o == Less
                      case Lte => o != Greater
                      case Gt => o == Greater
                      case _ => o != Less))
  }

  // ---- The payload ---------------------------------------------------------------------

  function Scalar(j: Json, fl: FloatOps): Evaluated {
    match j
    case JsonNull => Success(VNull)
    case JsonBool(b) => Success(VBool(b))
    case JsonInteger(i) => Success(if InRange(i) then VInteger(i) else VFloat(fl.ofInt(i)))
    case JsonFloat(f) => Success(VFloat(f))
    case JsonString(s) => Success(VString(s))
    case _ => Failure(UnsupportedValue)
  }

  /** The value at `path`: null below anything that is not an object, and for missing fields. */
  function At(j: Json, path: seq<string>, fl: FloatOps): Evaluated
    decreases |path|
  {
    if path == [] then Scalar(j, fl)
    else
      match j
      case JsonObject(fields) => At(if path[0] in fields then fields[path[0]] else JsonNull, path[1..], fl)
      case _ => Success(VNull)
  }

  method AccessPayload(payload: Json, path: seq<string>, fl: FloatOps) returns (r: Evaluated)
    ensures r == At(payload, path, fl)
  {
    var current := payload;
    for i := 0 to |path|
      invariant At(payload, path, fl) == At(current, path[i..], fl)
    {
      assert path[i..][1..] == path[i + 1..];
      match current
      case JsonObject(fields) =>
        current := if path[i] in fields then fields[path[i]] else JsonNull;
      case _ =>
        return Success(VNull);
    }
    return Scalar(current, fl);
  }

  // ---- Evaluation ----------------------------------------------------------------------

  function Checked(i: int): Evaluated {
    if InRange(i) then Success(VInteger(i)) else Failure(IntegerOverflow)
  }

  predicate Arithmetic(op: BinaryOp) {
    op == Add || op == Sub || op == Mul || op == Div
  }

  /** Division by zero and the one quotient that overflows are reported alike. */
  function CheckedInt(op: BinaryOp, a: int, b: int): Evaluated
    requires Arithmetic(op)
  {
    if op == Add then Checked(a + b)
    else if op == Sub then Checked(a - b)
    else if op == Mul then Checked(a * b)
    else if b == 0 || !InRange(Quotient(a, b)) then Failure(DivisionByZero)
    else Success(VInteger(Quotient(a, b)))
  }

  function FloatArith(op: BinaryOp, a: Double, b: Double, fl: FloatOps): Evaluated
    requires Arithmetic(op)
  {
    if op == Add then Success(VFloat(fl.add(a, b)))
    else if op == Sub then Success(VFloat(fl.sub(a, b)))
    else if op == Mul then Success(VFloat(fl.mul(a, b)))
    else if fl.isZero(b) then Failure(DivisionByZero)
    else Success(VFloat(fl.div(a, b)))
  }

  function Arith(op: BinaryOp, a: Value, b: Value, fl: FloatOps): Evaluated
    requires Arithmetic(op)
  {
    match (a, b)
    case (VInteger(x), VInteger(y)) => CheckedInt(op, x, y)
    case (VInteger(x), VFloat(y)) => FloatArith(op, fl.ofInt(x), y, fl)
    case (VFloat(x), VInteger(y)) => FloatArith(op, x, fl.ofInt(y), fl)
    case (VFloat(x), VFloat(y)) => FloatArith(op, x, y, fl)
    case _ => Failure(NotNumeric(a, b))
  }

  /** Both operands have been evaluated: `and` and `or` do not skip the right one. */
  function Combine(op: BinaryOp, a: Value, b: Value, fl: FloatOps): Evaluated {
    match op
    case Add | Sub | Mul | Div => Arith(op, a, b, fl)
    case Eq => Success(VBool(SameValue(a, b, fl)))
    case Neq => Success(VBool(!SameValue(a, b, fl)))
    case Lt | Lte | Gt | Gte => Compare(op, a, b, fl)
    case And => Success(VBool(Truth(a, fl) && Truth(b, fl)))
    case Or => Success(VBool(Truth(a, fl) || Truth(b, fl)))
  }

  /** Negation is not checked: the smallest integer, whose negation is out of range, wraps to itself. */
  function Negate(v: Value, fl: FloatOps): Evaluated {
    match v
    case VInteger(i) => Success(VInteger(if i == MIN then MIN else -i))
    case VFloat(f) => Success(VFloat(fl.neg(f)))
    case _ => Failure(CannotNegate(v))
  }

  function LiteralValue(l: Literal): Value {
    match l
    case LInteger(i) => VInteger(i)
    case LFloat(f) => VFloat(f)
    case LString(s) => VString(s)
    case LBool(b) => VBool(b)
  }

  function Eval(e: Expr, payload: Option<Json>, fl: FloatOps): Evaluated {
    match e
    case Lit(l) => Success(LiteralValue(l))
    case PayloadAccess(path) => if payload.None? then Failure(NoPayload) else At(payload.value, path, fl)
    case Name(name) => Failure(UnknownIdentifier(name))
    case Unary(op, operand) =>
      var v :- Eval(operand, payload, fl);
      if op == Not then Success(VBool(!Truth(v, fl))) else Negate(v, fl)
    case Binary(left, op, right) =>
      var a :- Eval(left, payload, fl);
      var b :- Eval(right, payload, fl);
      Combine(op, a, b, fl)
  }

  // ---- The exact meaning ---------------------------------------------------------------

  /** A value counts as true unless it is null, false, zero or the empty string. */
  predicate CountsAsTrue(v: Value) {
    || v == VBool(true)
    || (v.VInteger? && v.i != 0)
    || (v.VString? && |v.s| > 0)
  }

  /** `a` comes before `b`: it is a proper prefix of it, or smaller at the first difference. */
  ghost predicate Precedes(a: string, b: string) {
    exists k :: DiffersAt(a, b, k) && (k == |a| || (k < |b| && a[k] < b[k]))
  }

  /** `a` and `b` agree up to `k`, where the one ends or they differ. */
  predicate DiffersAt(a: string, b: string, k: int) {
    0 <= k <= |a| && k <= |b| && a[..k] == b[..k] && (k < |a| || k < |b|) && (k < |a| && k < |b| ==> a[k] != b[k])
  }

  /** Field `name` of an object; null if there is no such field, or no object. */
  function Field(j: Json, name: string): Json {
    if j.JsonObject? && name in j.fields then j.fields[name] else JsonNull
  }

  /** What the fields `path`, one within the other, lead to. */
  function Descend(j: Json, path: seq<string>): Json {
    if path == [] then j else Field(Descend(j, path[..|path| - 1]), path[|path| - 1])
  }

  /** What a JSON value means to a guard. An integer that does not fit is a float; lists and objects mean nothing. */
  function JsonMeaning(j: Json, fl: FloatOps): Option<Value> {
    if j.JsonNull? then Some(VNull)
    else if j.JsonBool? then Some(VBool(j.b))
    else if j.JsonString? then Some(VString(j.s))
    else if j.JsonInteger? && InRange(j.i) then Some(VInteger(j.i))
    else if j.JsonInteger? then Some(VFloat(fl.ofInt(j.i)))
    else if j.JsonFloat? then Some(VFloat(j.f))
    else None
  }

  function LiteralMeaning(l: Literal): Value {
    if l.LInteger? then VInteger(l.i)
    else if l.LBool? then VBool(l.b)
    else if l.LString? then VString(l.s)
    else VFloat(l.f)
  }

  /** The integer operations without a range. */
  function ExactInt(op: BinaryOp, a: int, b: int): Option<int>
    requires Arithmetic(op)
  {
    if op == Add then Some(a + b)
    else if op == Sub then Some(a - b)
    else if op == Mul then Some(a * b)
    else if b == 0 then None
    else Some(Quotient(a, b))
  }

  /** What `e` means over the unbounded integers, if every part of it has a meaning. */
  ghost function Meaning(e: Expr, payload: Option<Json>, fl: FloatOps): Option<Value> {
    match e
    case Lit(l) => Some(LiteralMeaning(l))
    case PayloadAccess(path) => if payload.None? then None else JsonMeaning(Descend(payload.value, path), fl)
    case Name(_) => None
    case Unary(op, operand) =>
      var v := Meaning(operand, payload, fl);
      if v.None? then None
      else if op == Not then Some(VBool(!CountsAsTrue(v.value)))
      else if v.value.VInteger? then Some(VInteger(-v.value.i))
      else None
    case Binary(left, op, right) =>
      var a, b := Meaning(left, payload, fl), Meaning(right, payload, fl);
      if a.None? || b.None? then None else CombinedMeaning(op, a.value, b.value)
  }

  /**
   What an operator makes of two values other than floats. Equality is that of the values, so
   none across types. Order is that of the integers and of strings, and never holds of null.
   */
  ghost function CombinedMeaning(op: BinaryOp, a: Value, b: Value): Option<Value> {
    match op
    case Eq => Some(VBool(a == b))
    case Neq => Some(VBool(a != b))
    case And => Some(VBool(CountsAsTrue(a) && CountsAsTrue(b)))
    case Or => Some(VBool(CountsAsTrue(a) || CountsAsTrue(b)))
    case Lt | Lte | Gt | Gte =>
      if a == VNull || b == VNull then Some(VBool(false))
      else if a.VInteger? && b.VInteger? then Some(VBool(OrderedInts(op, a.i, b.i)))
      else if a.VString? && b.VString? then Some(VBool(OrderedStrings(op, a.s, b.s)))
      else None
    case Add | Sub | Mul | Div =>
      if !a.VInteger? || !b.VInteger? then None
      else
        var i := ExactInt(op, a.i, b.i);
        if i.None? then None else Some(VInteger(i.value))
  }

  predicate OrderedInts(op: BinaryOp, a: int, b: int)
    requires op in {Lt, Lte, Gt, Gte}
  {
    if op == Lt then a < b else if op == Lte then a <= b else if op == Gt then a > b else a >= b
  }

  ghost predicate OrderedStrings(op: BinaryOp, a: string, b: string)
    requires op in {Lt, Lte, Gt, Gte}
  {
    if op == Lt then Precedes(a, b)
    else if op == Lte then Precedes(a, b) || a == b
    else if op == Gt then Precedes(b, a)
    else Precedes(b, a) || a == b
  }

  // ---- The order of strings ------------------------------------------------------------

  /** Where two different strings differ first. */
  lemma {:induction false} FirstDifference(a: string, b: string) returns (k: nat)
    requires a != b
    ensures DiffersAt(a, b, k)
  {
    if a == "" || b == "" || a[0] != b[0] {
      k := 0;
    } else {
      assert a == [a[0]] + a[1..] && b == [b[0]] + b[1..];
      var k1 := FirstDifference(a[1..], b[1..]);
      k := k1 + 1;
      assert a[..k] == [a[0]] + a[1..][..k1] && b[..k] == [b[0]] + b[1..][..k1];
    }
  }

  lemma OneDifference(a: string, b: string, j: nat, k: nat)
    requires DiffersAt(a, b, j) && DiffersAt(a, b, k)
    ensures j == k
  {
    forall x | 0 <= x < j ensures a[x] == b[x] {
      assert a[..j][x] == b[..j][x];
    }
    forall x | 0 <= x < k ensures a[x] == b[x] {
      assert a[..k][x] == b[..k][x];
    }
  }

  /** Of two different strings exactly one comes before the other, and none before itself. */
  lemma StringsAreOrdered(a: string, b: string)
    ensures !Precedes(a, a)
    ensures a != b ==> (Precedes(a, b) <==> !Precedes(b, a))
  {
    if a != b {
      var k := FirstDifference(a, b);
      assert DiffersAt(b, a, k);
      if Precedes(a, b) && Precedes(b, a) {
        var i :| DiffersAt(a, b, i) && (i == |a| || (i < |b| && a[i] < b[i]));
        var j :| DiffersAt(b, a, j) && (j == |b| || (j < |a| && b[j] < a[j]));
        OneDifference(a, b, i, k);
        OneDifference(b, a, j, k);
      }
    }
  }

  lemma PrecedesInTurn(a: string, b: string, c: string)
    requires Precedes(a, b) && Precedes(b, c)
    ensures Precedes(a, c)
  {
    var i :| DiffersAt(a, b, i) && (i == |a| || (i < |b| && a[i] < b[i]));
    var j :| DiffersAt(b, c, j) && (j == |b| || (j < |c| && b[j] < c[j]));
    var k := if i < j then i else j;
    assert a[..k] == a[..i][..k] == b[..i][..k] == b[..k];
    assert c[..k] == c[..j][..k] == b[..j][..k] == b[..k];
    if i < j {
      assert b[i] == b[..j][i] && c[i] == c[..j][i];
    } else if j < i {
      assert a[j] == a[..i][j] && b[j] == b[..i][j];
    }
    assert DiffersAt(a, c, k);
  }

  /** The comparison that the evaluator makes, character by character, finds this order. */
  lemma {:induction false} ComparedStrings(a: string, b: string)
    ensures CompareStrings(a, b) == Less <==> Precedes(a, b)
    ensures CompareStrings(a, b) == Equal <==> a == b
    ensures CompareStrings(a, b) == Greater <==> Precedes(b, a)
  {
    StringsAreOrdered(a, b);
    if a != b {
      var k := FirstDifference(a, b);
      assert DiffersAt(b, a, k);
      ComparedAt(a, b, k);
    } else {
      ComparedSame(a);
    }
  }

  lemma {:induction false} ComparedSame(a: string)
    ensures CompareStrings(a, a) == Equal
  {
    if a != "" {
      ComparedSame(a[1..]);
    }
  }

  lemma {:induction false} ComparedAt(a: string, b: string, k: nat)
    requires DiffersAt(a, b, k)
    ensures CompareStrings(a, b) == if k == |a| || (k < |b| && a[k] < b[k]) then Less else Greater
    decreases k
  {
    if k > 0 {
      assert a[..k][0] == b[..k][0];
      assert a[1..][..k - 1] == a[..k][1..] && b[1..][..k - 1] == b[..k][1..];
      ComparedAt(a[1..], b[1..], k - 1);
    }
  }

  // ---- The payload, apart from the loop ------------------------------------------------

  lemma {:induction false} DescendFirst(j: Json, path: seq<string>)
    requires path != []
    ensures Descend(j, path) == Descend(Field(j, path[0]), path[1..])
  {
    if |path| > 1 {
      assert path[..|path| - 1][1..] == path[1..][..|path| - 2] && path[..|path| - 1][0] == path[0];
      DescendFirst(j, path[..|path| - 1]);
    }
  }

  lemma {:induction false} NothingBelow(j: Json, path: seq<string>)
    requires !j.JsonObject? && path != []
    ensures Descend(j, path) == JsonNull
    decreases |path|
  {
    if |path| > 1 {
      NothingBelow(j, path[..|path| - 1]);
    }
  }

  /** What the evaluator finds at a path is what the fields lead to, if a guard can read that. */
  lemma {:induction false} AtMeans(j: Json, path: seq<string>, fl: FloatOps)
    ensures var m := JsonMeaning(Descend(j, path), fl);
            At(j, path, fl) == if m.None? then Failure(UnsupportedValue) else Success(m.value)
    decreases |path|
  {
    if path != [] {
      DescendFirst(j, path);
      if j.JsonObject? {
        AtMeans(Field(j, path[0]), path[1..], fl);
      } else {
        NothingBelow(j, path);
      }
    }
  }

  /** A path all of whose fields are there leads to the last of them. */
  lemma {:induction false} DescendReaches(j: Json, path: seq<string>, nodes: seq<Json>)
    requires |nodes| == |path| + 1 && nodes[0] == j
    requires forall k :: 0 <= k < |path| ==>
               nodes[k].JsonObject? && path[k] in nodes[k].fields && nodes[k + 1] == nodes[k].fields[path[k]]
    ensures Descend(j, path) == nodes[|path|]
  {
    if path != [] {
      var front := path[..|path| - 1];
      assert forall k :: 0 <= k < |front| ==> front[k] == path[k];
      DescendReaches(j, front, nodes[..|path|]);
    }
  }

  /** A path is null from the first field on that is missing, or asked of something else than an object. */
  lemma {:induction false} DescendMisses(j: Json, path: seq<string>, k: nat)
    requires k < |path|
    requires var node := Descend(j, path[..k]); !node.JsonObject? || path[k] !in node.fields
    ensures Descend(j, path) == JsonNull
    decreases |path|
  {
    var front := path[..|path| - 1];
    if k < |front| {
      assert front[..k] == path[..k];
      DescendMisses(j, front, k);
    } else {
      assert path[..k] == front;
    }
  }

  /** The parts of an expression, itself included. */
  function Parts(e: Expr): set<Expr> {
    {e} + match e
          case Binary(left, _, right) => Parts(left) + Parts(right)
          case Unary(_, operand) => Parts(operand)
          case _ => {}
  }

  ghost predicate IsFloat(v: Option<Value>) {
    v.Some? && v.value.VFloat?
  }

  /** No part of `e` is a float: no float literal, and no float in the payload where `e` looks. */
  ghost predicate FloatFree(e: Expr, payload: Option<Json>, fl: FloatOps) {
    forall p :: p in Parts(e) ==> !IsFloat(Meaning(p, payload, fl))
  }

  /** Every part of `e` has a meaning, and where this is an integer it is in range. */
  ghost predicate Representable(e: Expr, payload: Option<Json>, fl: FloatOps) {
    forall p :: p in Parts(e) ==> IsRepresented(Meaning(p, payload, fl))
  }

  ghost predicate IsRepresented(v: Option<Value>) {
    v.Some? && (v.value.VInteger? ==> InRange(v.value.i))
  }

  /** Some part of `e` negates an operand that means the smallest integer and does so in range. */
  ghost predicate Wraps(e: Expr, payload: Option<Json>, fl: FloatOps) {
    exists p :: p in Parts(e) && NegatesMin(p, payload, fl)
  }

  ghost predicate NegatesMin(p: Expr, payload: Option<Json>, fl: FloatOps) {
    p.Unary? && p.uop == Neg && Meaning(p.operand, payload, fl) == Some(VInteger(MIN))
      && Representable(p.operand, payload, fl)
  }

  /** Integer literals are 64-bit, as the lexer makes them. */
  predicate LiteralsFit(e: Expr) {
    forall p :: p in Parts(e) && p.Lit? && p.literal.LInteger? ==> InRange(p.literal.i)
  }

  lemma SelfIsPart(e: Expr)
    ensures e in Parts(e)
  {}

  /** Checked arithmetic succeeds exactly when the exact result fits, and then gives it. */
  lemma CombineIsExact(op: BinaryOp, a: Value, b: Value, fl: FloatOps)
    requires !a.VFloat? && !b.VFloat?
    ensures Combine(op, a, b, fl).Success? <==> IsRepresented(CombinedMeaning(op, a, b))
    ensures Combine(op, a, b, fl).Success? ==> CombinedMeaning(op, a, b) == Some(Combine(op, a, b, fl).value)
  {
    hide Compare, Truth, Precedes, Quotient;
    TruthMeans(a, fl);
    TruthMeans(b, fl);
    if op in {Lt, Lte, Gt, Gte} {
      CompareIsExact(op, a, b, fl);
    }
  }

  lemma CompareIsExact(op: BinaryOp, a: Value, b: Value, fl: FloatOps)
    requires op in {Lt, Lte, Gt, Gte} && !a.VFloat? && !b.VFloat?
    ensures match CombinedMeaning(op, a, b)
            case None => Compare(op, a, b, fl).Failure?
            case Some(v) => v.VBool? && Compare(op, a, b, fl) == Success(v)
  {
    hide CompareStrings, Precedes;
    if a.VString? && b.VString? {
      ComparedStrings(a.s, b.s);
      StringsAreOrdered(a.s, b.s);
    }
  }

  /** A number as a float. */
  function AsFloat(v: Value, fl: FloatOps): Double
    requires v.VInteger? || v.VFloat?
  {
    if v.VInteger? then fl.ofInt(v.i) else v.f
  }

  /** Where a float is involved, both numbers are taken as floats, and the machine's operations decide. */
  lemma FloatsCombine(a: Value, b: Value, fl: FloatOps)
    requires (a.VFloat? && (b.VFloat? || b.VInteger?)) || (a.VInteger? && b.VFloat?)
    ensures var x, y := AsFloat(a, fl), AsFloat(b, fl);
            && Combine(Add, a, b, fl) == Success(VFloat(fl.add(x, y)))
            && Combine(Sub, a, b, fl) == Success(VFloat(fl.sub(x, y)))
            && Combine(Mul, a, b, fl) == Success(VFloat(fl.mul(x, y)))
            && Combine(Div, a, b, fl) == (if fl.isZero(y) then Failure(DivisionByZero)
                                          else Success(VFloat(fl.div(x, y))))
            && Combine(Eq, a, b, fl) == Success(VBool(fl.same(x, y)))
            && Combine(Neq, a, b, fl) == Success(VBool(!fl.same(x, y)))
            && match fl.compare(x, y)
               case None => forall op :: op in {Lt, Lte, Gt, Gte}
                              ==> Combine(op, a, b, fl) == Failure(NotComparable(a, b))
               case Some(o) =>
                 && Combine(Lt, a, b, fl) == Success(VBool(o == Less))
                 && Combine(Gt, a, b, fl) == Success(VBool(o == Greater))
                 && Combine(Lte, a, b, fl) == Success(VBool(o == Less || o == Equal))
                 && Combine(Gte, a, b, fl) == Success(VBool(o == Greater || o == Equal))
  {}

  /** By which error an operator fails on values other than floats. */
  lemma CombineFails(op: BinaryOp, a: Value, b: Value, fl: FloatOps)
    requires !a.VFloat? && !b.VFloat? && Combine(op, a, b, fl).Failure?
    ensures Combine(op, a, b, fl).error
         == if !Arithmetic(op) then NotComparable(a, b)
            else if !a.VInteger? || !b.VInteger? then NotNumeric(a, b)
            else if op == Div then DivisionByZero
            else IntegerOverflow
    ensures op == Div && a.VInteger? && b.VInteger? ==> b.i == 0 || (a.i == MIN && b.i == -1) || !InRange(a.i)
  {
    if op == Div && a.VInteger? && b.VInteger? && b.i != 0 && InRange(a.i) {
      OnlyOverflow(a.i, b.i);
    }
  }

  /** The one quotient of 64-bit integers that is none. */
  lemma OnlyOverflow(a: int, b: int)
    requires InRange(a) && b != 0 && !InRange(Quotient(a, b))
    ensures a == MIN && b == -1
  {
    var n, d := if a >= 0 then a else -a, if b > 0 then b else -b;
    Division(n, d);
    QuotientShrinks(n, d);
  }

  lemma QuotientShrinks(n: nat, d: int)
    requires d > 0
    ensures 0 <= n / d <= n && (d > 1 ==> 2 * (n / d) <= n)
  {
    Division(n, d);
    Products(d, n / d);
  }

  lemma Products(d: int, q: int)
    requires d > 0
    ensures q >= 0 ==> d * q >= q
    ensures q >= 0 && d > 1 ==> d * q >= 2 * q
    ensures q < 0 ==> d * q <= -d
  {
    if q >= 0 {
      Times(d, q);
    } else {
      Times(d, -q);
      Signs(d, q);
    }
  }

  lemma {:induction false} Times(d: int, q: nat)
    requires d > 0
    ensures d * q >= q && (d > 1 ==> d * q >= 2 * q) && (q > 0 ==> d * q >= d)
  {
    if q > 0 {
      Times(d, q - 1);
      assert d * q == d * (q - 1) + d;
    }
  }

  lemma TruthMeans(v: Value, fl: FloatOps)
    requires !v.VFloat?
    ensures Truth(v, fl) == CountsAsTrue(v)
  {}

  /**
   Exactness: unless a negation wraps, evaluation succeeds exactly when every part of the
   guard has a meaning over the unbounded integers that fits 64 bits, even parts an `and` or
   `or` does not need; and then the result is that meaning.
   */
  lemma {:induction false} EvalIsExact(e: Expr, payload: Option<Json>, fl: FloatOps)
    requires LiteralsFit(e) && FloatFree(e, payload, fl) && !Wraps(e, payload, fl)
    ensures Exact(e, payload, fl)
  {
    SelfIsPart(e);
    match e
    case Lit(_) =>
      assert Parts(e) == {e};
    case PayloadAccess(path) =>
      assert Parts(e) == {e};
      if payload.Some? {
        AtMeans(payload.value, path, fl);
        PayloadInRange(payload.value, path, fl);
      }
    case Name(_) =>
    case Unary(op, operand) =>
      assert Parts(e) == {e} + Parts(operand);
      EvalIsExact(operand, payload, fl);
      SelfIsPart(operand);
      assert !IsFloat(Meaning(operand, payload, fl));
      assert !NegatesMin(e, payload, fl);
      if Eval(operand, payload, fl).Success? {
        TruthMeans(Eval(operand, payload, fl).value, fl);
      }
    case Binary(left, op, right) =>
      assert Parts(e) == {e} + (Parts(left) + Parts(right));
      EvalIsExact(left, payload, fl);
      EvalIsExact(right, payload, fl);
      SelfIsPart(left);
      SelfIsPart(right);
      assert !IsFloat(Meaning(left, payload, fl)) && !IsFloat(Meaning(right, payload, fl));
      if Eval(left, payload, fl).Success? && Eval(right, payload, fl).Success? {
        CombineIsExact(op, Eval(left, payload, fl).value, Eval(right, payload, fl).value, fl);
      }
  }

  /** Evaluating `e` fails exactly when the exact meaning of a part is missing or out of range, and else gives it. */
  ghost predicate Exact(e: Expr, payload: Option<Json>, fl: FloatOps) {
    && (Eval(e, payload, fl).Success? <==> Representable(e, payload, fl))
    && (Eval(e, payload, fl).Success? ==> Meaning(e, payload, fl) == Some(Eval(e, payload, fl).value))
  }

  lemma {:induction false} PartsOfPart(e: Expr, p: Expr)
    requires p in Parts(e)
    ensures Parts(p) <= Parts(e)
  {
    if p != e {
      match e
      case Unary(_, operand) => PartsOfPart(operand, p);
      case Binary(left, _, right) =>
        if p in Parts(left) {
          PartsOfPart(left, p);
        } else {
          PartsOfPart(right, p);
        }
      case _ =>
    }
  }

  /** What is in range throughout does not negate the smallest integer anywhere. */
  lemma RepresentableDoesNotWrap(e: Expr, payload: Option<Json>, fl: FloatOps)
    requires Representable(e, payload, fl)
    ensures !Wraps(e, payload, fl)
  {
    if p :| p in Parts(e) && NegatesMin(p, payload, fl) {
      assert IsRepresented(Meaning(p, payload, fl));
    }
  }

  /** Negating the smallest integer is the one operation that is not exact: it gives the number itself. */
  lemma NegatingMinIsInexact(operand: Expr, payload: Option<Json>, fl: FloatOps)
    requires LiteralsFit(operand) && FloatFree(operand, payload, fl)
    requires Meaning(operand, payload, fl) == Some(VInteger(MIN)) && Representable(operand, payload, fl)
    ensures Eval(Unary(Neg, operand), payload, fl) == Success(VInteger(MIN))
    ensures Meaning(Unary(Neg, operand), payload, fl) == Some(VInteger(-MIN))
            && !Representable(Unary(Neg, operand), payload, fl)
    ensures !Exact(Unary(Neg, operand), payload, fl)
  {
    RepresentableDoesNotWrap(operand, payload, fl);
    EvalIsExact(operand, payload, fl);
    SelfIsPart(Unary(Neg, operand));
  }

  /** `-(-9223372036854775807 - 1)` is such a guard. */
  lemma LeastIntegerWraps(payload: Option<Json>, fl: FloatOps)
    ensures var least := Binary(Unary(Neg, Lit(LInteger(MAX))), Sub, Lit(LInteger(1))); var e := Unary(Neg, least);
            && LiteralsFit(e) && FloatFree(e, payload, fl) && Wraps(e, payload, fl)
            && Eval(e, payload, fl) == Success(VInteger(MIN)) && Meaning(e, payload, fl) == Some(VInteger(-MIN))
  {
    var max, one := Lit(LInteger(MAX)), Lit(LInteger(1));
    var low := Unary(Neg, max);
    var least := Binary(low, Sub, one);
    assert Parts(low) == {low, max} && Parts(least) == {least, low, max, one};
    assert Meaning(max, payload, fl) == Some(VInteger(MAX)) && Meaning(one, payload, fl) == Some(VInteger(1));
    assert Meaning(low, payload, fl) == Some(VInteger(-MAX));
    assert Meaning(least, payload, fl) == Some(VInteger(MIN));
    assert NegatesMin(Unary(Neg, least), payload, fl);
    SelfIsPart(Unary(Neg, least));
    NegatingMinIsInexact(least, payload, fl);
  }

  /** Exactly which guards are exact: those in which no negation wraps. */
  lemma ExactIffNoWrap(e: Expr, payload: Option<Json>, fl: FloatOps)
    requires LiteralsFit(e) && FloatFree(e, payload, fl)
    ensures (forall p :: p in Parts(e) ==> Exact(p, payload, fl)) <==> !Wraps(e, payload, fl)
  {
    hide Eval, Meaning, Exact;
    forall p | p in Parts(e)
      ensures !Wraps(e, payload, fl) ==> Exact(p, payload, fl)
      ensures NegatesMin(p, payload, fl) ==> !Exact(p, payload, fl)
    {
      PartsOfPart(e, p);
      if !Wraps(e, payload, fl) {
        EvalIsExact(p, payload, fl);
      }
      if NegatesMin(p, payload, fl) {
        assert Parts(p) == {p} + Parts(p.operand);
        NegatingMinIsInexact(p.operand, payload, fl);
      }
    }
  }

  lemma {:induction false} PayloadInRange(j: Json, path: seq<string>, fl: FloatOps)
    ensures var r := At(j, path, fl);
            r.Success? && r.value.VInteger? ==> InRange(r.value.i)
    decreases |path|
  {
    if path != [] && j.JsonObject? {
      PayloadInRange(if path[0] in j.fields then j.fields[path[0]] else JsonNull, path[1..], fl);
    }
  }
}
