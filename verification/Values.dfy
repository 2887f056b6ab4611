/** Parsed JSON values and Python's equality on them. */
module Values {
  import opened Outcomes

  /** A float: exact real value, or one of the three special values JSON text can name. */
  datatype Float = Finite(r: real) | PosInf | NegInf | NaN

  datatype Value =
    | Null
    | Bool(b: bool)
    | Int(i: int)
    | Flt(f: Float)
    | Str(s: string)
    | List(items: seq<Value>)
    | Dict(fields: map<string, Value>)

  /** Booleans count as the integers 0 and 1, and numbers of all types compare by exact value. */
  function Number(v: Value): Option<Float> {
    match v
    case Bool(b) => Some(Finite(if b then 1.0 else 0.0))
    case Int(i) => Some(Finite(i as real))
    case Flt(f) => Some(f)
    case _ => None
  }

  predicate IsNaN(v: Value) {
    v == Flt(NaN)
  }

  /** Equality as containers test it on their members: identity or ==. Every NaN a parser yields
      is one and the same object, so inside a container NaN equals itself. */
  predicate Same(x: Value, y: Value)
    decreases x
  {
    match (x, y)
    case (Null, Null) => true
    case (Str(s), Str(t)) => s == t
    case (List(a), List(b)) => |a| == |b| && forall i | 0 <= i < |a| :: Same(a[i], b[i])
    case (Dict(m), Dict(n)) => m.Keys == n.Keys && forall k | k in m :: Same(m[k], n[k])
    case _ => Number(x).Some? && Number(x) == Number(y)
  }

  /** The == operator: as Same, except that NaN itself is not equal to anything. */
  predicate Equal(x: Value, y: Value) {
    Same(x, y) && !IsNaN(x)
  }

  predicate HasNaN(v: Value) {
    match v
    case Flt(f) => f == NaN
    case List(items) => exists i | 0 <= i < |items| :: HasNaN(items[i])
    case Dict(fields) => exists k | k in fields :: HasNaN(fields[k])
    case _ => false
  }

  /** Numbers of every type compare by value, True as 1 and False as 0. */
  lemma EqualNumbers(b: bool, c: bool, i: int, j: int, r: real, q: real)
    ensures Equal(Bool(b), Bool(c)) <==> b == c
    ensures Equal(Int(i), Int(j)) <==> i == j
    ensures Equal(Flt(Finite(r)), Flt(Finite(q))) <==> r == q
    ensures Equal(Bool(b), Int(i)) <==> i == if b then 1 else 0
    ensures Equal(Int(i), Bool(b)) <==> i == if b then 1 else 0
    ensures Equal(Int(i), Flt(Finite(r))) <==> i as real == r
    ensures Equal(Flt(Finite(r)), Int(i)) <==> i as real == r
    ensures Equal(Bool(b), Flt(Finite(r))) <==> r == if b then 1.0 else 0.0
    ensures Equal(Flt(Finite(r)), Bool(b)) <==> r == if b then 1.0 else 0.0
  {
  }

  predicate IsNumber(v: Value) {
    v.Bool? || v.Int? || v.Flt?
  }

  /** Infinities equal only themselves, NaN nothing at all, and no number anything but a number. */
  lemma EqualSpecials(v: Value)
    ensures Equal(Flt(PosInf), v) <==> v == Flt(PosInf)
    ensures Equal(Flt(NegInf), v) <==> v == Flt(NegInf)
    ensures !Equal(Flt(NaN), v) && !Equal(v, Flt(NaN))
    ensures Equal(Null, v) <==> v == Null
    ensures forall n | IsNumber(n) && !IsNumber(v) :: !Equal(n, v) && !Equal(v, n)
  {
  }

  /** Strings equal the same string, lists and dicts those with the same members, taking NaN as equal to itself there. */
  lemma EqualContainers(x: Value, y: Value)
    ensures Same(x, y) <==> Equal(x, y) || (x == Flt(NaN) && y == Flt(NaN))
    ensures x.Str? ==> (Equal(x, y) <==> y == x)
    ensures x.List? ==> (Equal(x, y) <==>
              y.List? && |x.items| == |y.items| && forall i | 0 <= i < |x.items| :: Same(x.items[i], y.items[i]))
    ensures x.Dict? ==> (Equal(x, y) <==>
              y.Dict? && x.fields.Keys == y.fields.Keys && forall k | k in x.fields :: Same(x.fields[k], y.fields[k]))
  {
  }

  lemma {:induction false} SameRefl(x: Value)
    ensures Same(x, x)
  {
    match x
    case List(a) =>
      forall i | 0 <= i < |a| ensures Same(a[i], a[i]) { SameRefl(a[i]); }
    case Dict(m) =>
      forall k | k in m ensures Same(m[k], m[k]) { SameRefl(m[k]); }
    case _ =>
  }

  lemma {:induction false} SameSym(x: Value, y: Value)
    requires Same(x, y)
    ensures Same(y, x)
    decreases x
  {
    match (x, y)
    case (List(a), List(b)) =>
      forall i | 0 <= i < |a| ensures Same(b[i], a[i]) { SameSym(a[i], b[i]); }
    case (Dict(m), Dict(n)) =>
      forall k | k in n ensures Same(n[k], m[k]) { SameSym(m[k], n[k]); }
    case _ =>
  }

  lemma {:induction false} SameTrans(x: Value, y: Value, z: Value)
    requires Same(x, y) && Same(y, z)
    ensures Same(x, z)
    decreases x
  {
    match (x, y, z)
    case (List(a), List(b), List(c)) =>
      forall i | 0 <= i < |a| ensures Same(a[i], c[i]) { SameTrans(a[i], b[i], c[i]); }
    case (Dict(m), Dict(n), Dict(o)) =>
      forall k | k in m ensures Same(m[k], o[k]) { SameTrans(m[k], n[k], o[k]); }
    case _ =>
  }

  lemma {:induction false} SameNaN(x: Value, y: Value)
    requires Same(x, y)
    ensures HasNaN(x) <==> HasNaN(y)
    decreases x
  {
    match (x, y)
    case (List(a), List(b)) =>
      forall i | 0 <= i < |a| ensures HasNaN(a[i]) <==> HasNaN(b[i]) { SameNaN(a[i], b[i]); }
    case (Dict(m), Dict(n)) =>
      forall k | k in m ensures HasNaN(m[k]) <==> HasNaN(n[k]) { SameNaN(m[k], n[k]); }
    case _ =>
  }
}
