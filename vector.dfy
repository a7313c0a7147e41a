/** `Math::Vector<T, N>` (src/math/vector.h) over integer components: a
    vector is the sequence of its `N` components. The binary operators build
    a fresh vector and are functions here; the compound operators update the
    component buffer in place and are methods on an array. Integer division
    truncates toward zero, as C++ integer division does. The float instances
    are modelled over these integers too, and the 32-bit wrap of the
    unsigned instances is not modelled. */
module Vector {
  import opened Wrappers
  import Functionals
  import Bits

  type Vec = seq<int>

  /** `Vector(v)`: every component `v`. */
  function Fill(v: int, n: nat): (r: Vec)
    ensures |r| == n && forall i :: 0 <= i < n ==> r[i] == v
  {
    seq(n, _ => v)
  }

  /** `Zero()` and the default constructor. */
  function Zero(n: nat): (r: Vec)
    ensures |r| == n && forall i :: 0 <= i < n ==> r[i] == 0
  {
    Fill(0, n)
  }

  /** The variadic constructor: the given components first, and any
      component not given is zero. */
  function FromArgs(args: seq<int>, n: nat): (r: Vec)
    requires |args| <= n
    ensures |r| == n && r[..|args|] == args
    ensures forall i :: |args| <= i < n ==> r[i] == 0
  {
    args + Zero(n - |args|)
  }

  /** Narrowing from a longer vector: its first `n` components. */
  function Narrow(other: Vec, n: nat): (r: Vec)
    requires n <= |other|
    ensures |r| == n && forall i :: 0 <= i < n ==> r[i] == other[i]
  {
    other[..n]
  }

  /** Widening a shorter vector: its components, then the given extra
      ones, then zeros. */
  function Widen(other: Vec, args: seq<int>, n: nat): (r: Vec)
    requires |other| < n && |args| <= n - |other|
    ensures |r| == n && r[..|other|] == other
    ensures r[|other|..] == FromArgs(args, n - |other|)
  {
    assert (other + FromArgs(args, n - |other|))[..|other|] == other;
    other + FromArgs(args, n - |other|)
  }

  /** `operator==`: every component equal. */
  function Equal(a: Vec, b: Vec): (r: bool)
    requires |a| == |b|
    ensures r <==> a == b
  {
    forall i :: 0 <= i < |a| ==> a[i] == b[i]
  }

  /** `operator!=`, the negation of `==`. */
  function NotEqual(a: Vec, b: Vec): (r: bool)
    requires |a| == |b|
    ensures r <==> exists i :: 0 <= i < |a| && a[i] != b[i]
  {
    !Equal(a, b)
  }

  function Add(a: Vec, b: Vec): (r: Vec)
    requires |a| == |b|
    ensures |r| == |a|
  {
    seq(|a|, i requires 0 <= i < |a| => a[i] + b[i])
  }

  function AddScalar(a: Vec, s: int): (r: Vec)
    ensures |r| == |a|
  {
    seq(|a|, i requires 0 <= i < |a| => a[i] + s)
  }

  function Sub(a: Vec, b: Vec): (r: Vec)
    requires |a| == |b|
    ensures |r| == |a|
  {
    seq(|a|, i requires 0 <= i < |a| => a[i] - b[i])
  }

  function SubScalar(a: Vec, s: int): (r: Vec)
    ensures |r| == |a|
  {
    seq(|a|, i requires 0 <= i < |a| => a[i] - s)
  }

  function Mul(a: Vec, b: Vec): (r: Vec)
    requires |a| == |b|
    ensures |r| == |a|
  {
    seq(|a|, i requires 0 <= i < |a| => a[i] * b[i])
  }

  function MulScalar(a: Vec, s: int): (r: Vec)
    ensures |r| == |a|
  {
    seq(|a|, i requires 0 <= i < |a| => a[i] * s)
  }

  /** Integer division truncating toward zero. */
  function Quot(x: int, y: int): (q: int)
    requires y != 0
    ensures y > 0 && x >= 0 ==> q == x / y
  {
    var m := (if x < 0 then -x else x) / (if y < 0 then -y else y);
    if (x < 0) != (y < 0) then -m else m
  }

  /** The component-wise quotient, defined when no divisor is zero. */
  function Quotients(a: Vec, b: Vec): (r: Vec)
    requires |a| == |b| && forall i :: 0 <= i < |b| ==> b[i] != 0
    ensures |r| == |a|
  {
    seq(|a|, i requires 0 <= i < |a| => Quot(a[i], b[i]))
  }

  /** `operator/` by a vector: fails when any divisor is zero. */
  function Div(a: Vec, b: Vec): (r: Result<Vec>)
    requires |a| == |b|
    ensures r.Err? <==> exists i :: 0 <= i < |b| && b[i] == 0
    ensures r.Ok? ==> |r.value| == |a| && forall i :: 0 <= i < |a| ==> r.value[i] == Quot(a[i], b[i])
  {
    if exists i :: 0 <= i < |b| && b[i] == 0 then Err("Division by zero") else Ok(Quotients(a, b))
  }

  /** `operator/` by a scalar: fails when the scalar is zero. */
  function DivScalar(a: Vec, s: int): (r: Result<Vec>)
    ensures r.Err? <==> s == 0
    ensures r.Ok? ==> |r.value| == |a| && forall i :: 0 <= i < |a| ==> r.value[i] == Quot(a[i], s)
  {
    if s == 0 then Err("Division by zero") else Ok(seq(|a|, i requires 0 <= i < |a| => Quot(a[i], s)))
  }

  /** Unary minus. */
  function Neg(a: Vec): (r: Vec)
    ensures |r| == |a|
  {
    seq(|a|, i requires 0 <= i < |a| => -a[i])
  }

  /** `Dot`: the sum of the component products. A vector dotted with
      itself is never negative, and any vector dotted with zero is zero. */
  function Dot(a: Vec, b: Vec): (r: int)
    requires |a| == |b|
    ensures a == b ==> r >= 0
    ensures (forall i :: 0 <= i < |b| ==> b[i] == 0) ==> r == 0
  {
    if a == [] then 0 else a[0] * b[0] + Dot(a[1..], b[1..])
  }

  /** `Min` and `Max`, component-wise. */
  function Min(a: Vec, b: Vec): (r: Vec)
    requires |a| == |b|
    ensures |r| == |a|
    ensures forall i :: 0 <= i < |a| ==> r[i] <= a[i] && r[i] <= b[i] && (r[i] == a[i] || r[i] == b[i])
  {
    seq(|a|, i requires 0 <= i < |a| => if a[i] <= b[i] then a[i] else b[i])
  }

  function Max(a: Vec, b: Vec): (r: Vec)
    requires |a| == |b|
    ensures |r| == |a|
    ensures forall i :: 0 <= i < |a| ==> r[i] >= a[i] && r[i] >= b[i] && (r[i] == a[i] || r[i] == b[i])
  {
    seq(|a|, i requires 0 <= i < |a| => if a[i] >= b[i] then a[i] else b[i])
  }

  /** Component-wise order. */
  predicate AtMost(a: Vec, b: Vec)
    requires |a| == |b|
  {
    forall i :: 0 <= i < |a| ==> a[i] <= b[i]
  }

  // Algebra of the operators.

  /** Subtraction undoes addition, and adding zero changes nothing. */
  lemma SubUndoesAdd(a: Vec, b: Vec)
    requires |a| == |b|
    ensures Sub(Add(a, b), b) == a
    ensures Add(a, Zero(|a|)) == a
  {
  }

  lemma AddCommutes(a: Vec, b: Vec)
    requires |a| == |b|
    ensures Add(a, b) == Add(b, a) && Mul(a, b) == Mul(b, a)
  {
  }

  /** Negating twice gives the vector back, and `a - b` is `a + (-b)`. */
  lemma NegInvolution(a: Vec, b: Vec)
    requires |a| == |b|
    ensures Neg(Neg(a)) == a
    ensures Sub(a, b) == Add(a, Neg(b))
  {
  }

  /** Dividing by the scalar a vector was multiplied by gives it back. */
  lemma DivUndoesMulScalar(a: Vec, s: int)
    requires s != 0
    ensures DivScalar(MulScalar(a, s), s) == Ok(a)
  {
    var m := MulScalar(a, s);
    forall i | 0 <= i < |a|
      ensures Quot(m[i], s) == a[i]
    {
      QuotOfProduct(a[i], s);
    }
    assert seq(|m|, i requires 0 <= i < |m| => Quot(m[i], s)) == a;
  }

  lemma QuotOfProduct(x: int, s: int)
    requires s != 0
    ensures Quot(x * s, s) == x
  {
    var ax := if x < 0 then -x else x;
    var as' := if s < 0 then -s else s;
    var p := ax * as';
    if x == 0 {
      assert x * s == 0;
    } else {
      assert p > 0 by { MulPositive(ax, as'); }
      assert x * s == p || x * s == -p by { SignedProduct(x, s); }
      assert (x * s < 0) == ((x < 0) != (s < 0)) by { SignedProduct(x, s); }
      Bits.DivUnique(p, as', ax, 0);
    }
  }

  lemma MulPositive(a: int, b: int)
    requires a > 0 && b > 0
    ensures a * b > 0
  {
  }

  lemma SignedProduct(x: int, s: int)
    requires x != 0 && s != 0
    ensures x * s == (if x < 0 then -x else x) * (if s < 0 then -s else s) ==> (x < 0) == (s < 0)
    ensures x * s == -((if x < 0 then -x else x) * (if s < 0 then -s else s)) ==> (x < 0) != (s < 0)
    ensures x * s == (if x < 0 then -x else x) * (if s < 0 then -s else s)
            || x * s == -((if x < 0 then -x else x) * (if s < 0 then -s else s))
  {
    if x < 0 && s < 0 {
      assert x * s == (-x) * (-s);
      MulPositive(-x, -s);
    } else if x < 0 {
      assert x * s == -((-x) * s);
      MulPositive(-x, s);
    } else if s < 0 {
      assert x * s == -(x * (-s));
      MulPositive(x, -s);
    } else {
      MulPositive(x, s);
    }
  }

  lemma {:induction false} DotSymmetric(a: Vec, b: Vec)
    requires |a| == |b|
    ensures Dot(a, b) == Dot(b, a)
  {
    if a != [] {
      DotSymmetric(a[1..], b[1..]);
    }
  }

  /** The dot product with the zero vector is zero, and dot products add
      over vector addition. */
  lemma {:induction false} DotLinear(a: Vec, b: Vec, c: Vec)
    requires |a| == |b| == |c|
    ensures Dot(a, Zero(|a|)) == 0
    ensures Dot(Add(a, b), c) == Dot(a, c) + Dot(b, c)
  {
    if a != [] {
      DotLinear(a[1..], b[1..], c[1..]);
      assert Add(a, b)[1..] == Add(a[1..], b[1..]);
      assert Add(a, b)[0] * c[0] == a[0] * c[0] + b[0] * c[0];
    }
  }

  /** `Min` is the greatest lower bound and `Max` the least upper bound in
      the component-wise order; both are idempotent and commute. */
  lemma MinMaxBounds(a: Vec, b: Vec, m: Vec)
    requires |a| == |b| == |m|
    ensures AtMost(m, a) && AtMost(m, b) ==> AtMost(m, Min(a, b))
    ensures AtMost(a, m) && AtMost(b, m) ==> AtMost(Max(a, b), m)
    ensures Min(a, a) == a && Max(a, a) == a
    ensures Min(a, b) == Min(b, a) && Max(a, b) == Max(b, a)
  {
  }

  // The compound operators: in place on the component buffer.

  /** One pass over the buffer, combining each component with the
      matching one of `other`. */
  method Combine(v: array<int>, other: Vec, op: (int, int) -> int)
    requires v.Length == |other|
    modifies v
    ensures forall i :: 0 <= i < v.Length ==> v[i] == op(old(v[i]), other[i])
  {
    var i := 0;
    while i < v.Length
      invariant 0 <= i <= v.Length
      invariant forall j :: 0 <= j < i ==> v[j] == op(old(v[j]), other[j])
      invariant forall j :: i <= j < v.Length ==> v[j] == old(v[j])
    {
      v[i] := op(v[i], other[i]);
      i := i + 1;
    }
  }

  /** `+=` by a vector. */
  method AddAssign(v: array<int>, other: Vec)
    requires v.Length == |other|
    modifies v
    ensures v[..] == Add(old(v[..]), other)
  {
    Combine(v, other, (x, y) => x + y);
  }

  /** `+=` by a scalar. */
  method AddScalarAssign(v: array<int>, s: int)
    modifies v
    ensures v[..] == AddScalar(old(v[..]), s)
  {
    Combine(v, Fill(s, v.Length), (x, y) => x + y);
  }

  method SubAssign(v: array<int>, other: Vec)
    requires v.Length == |other|
    modifies v
    ensures v[..] == Sub(old(v[..]), other)
  {
    Combine(v, other, (x, y) => x - y);
  }

  method SubScalarAssign(v: array<int>, s: int)
    modifies v
    ensures v[..] == SubScalar(old(v[..]), s)
  {
    Combine(v, Fill(s, v.Length), (x, y) => x - y);
  }

  method MulAssign(v: array<int>, other: Vec)
    requires v.Length == |other|
    modifies v
    ensures v[..] == Mul(old(v[..]), other)
  {
    Combine(v, other, (x, y) => x * y);
  }

  method MulScalarAssign(v: array<int>, s: int)
    modifies v
    ensures v[..] == MulScalar(old(v[..]), s)
  {
    Combine(v, Fill(s, v.Length), (x, y) => x * y);
  }

  /** The index of the first zero divisor, or the length when none. */
  function FirstZero(b: Vec): (k: nat)
    ensures k <= |b| && (k < |b| ==> b[k] == 0) && forall j :: 0 <= j < k ==> b[j] != 0
  {
    Functionals.FirstIndex(b, x => x == 0)
  }

  /** `/=` by a vector: components are divided in order, and the first
      zero divisor stops the loop with an error, the components before it
      already divided and the rest untouched. */
  method DivAssign(v: array<int>, other: Vec) returns (r: Result<()>)
    requires v.Length == |other|
    modifies v
    ensures r.Ok? <==> Div(old(v[..]), other).Ok?
    ensures r.Ok? ==> v[..] == Div(old(v[..]), other).value
    ensures forall i :: 0 <= i < FirstZero(other) ==> v[i] == Quot(old(v[i]), other[i])
    ensures forall i :: FirstZero(other) <= i < v.Length ==> v[i] == old(v[i])
  {
    var i := 0;
    while i < v.Length
      invariant 0 <= i <= v.Length && i <= FirstZero(other)
      invariant forall j :: 0 <= j < i ==> other[j] != 0 && v[j] == Quot(old(v[j]), other[j])
      invariant forall j :: i <= j < v.Length ==> v[j] == old(v[j])
    {
      if other[i] == 0 {
        return Err("Division by zero");
      }
      v[i] := Quot(v[i], other[i]);
      i := i + 1;
    }
    r := Ok(());
  }

  /** `/=` by a scalar: a zero scalar fails before anything changes. */
  method DivScalarAssign(v: array<int>, s: int) returns (r: Result<()>)
    modifies v
    ensures r.Err? <==> s == 0
    ensures r.Err? ==> v[..] == old(v[..])
    ensures r.Ok? ==> Ok(v[..]) == DivScalar(old(v[..]), s)
  {
    if s == 0 {
      return Err("Division by zero");
    }
    var i := 0;
    while i < v.Length
      invariant 0 <= i <= v.Length
      invariant forall j :: 0 <= j < i ==> v[j] == Quot(old(v[j]), s)
      invariant forall j :: i <= j < v.Length ==> v[j] == old(v[j])
    {
      v[i] := Quot(v[i], s);
      i := i + 1;
    }
    assert v[..] == seq(v.Length, j requires 0 <= j < v.Length => Quot(old(v[..])[j], s));
    r := Ok(());
  }
}
