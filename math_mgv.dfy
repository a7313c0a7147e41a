/** The older two-component math (src/math/mathMGV.h) over integers:
    `Vector2` values with their operators, and a rectangle whose corners
    `GrowToInclude` widens field by field. */
module MathMgv {

  datatype Vector2 = Vector2(x: int, y: int)

  /** `operator+`: subtracting either operand from the sum gives the
      other. */
  function Add(a: Vector2, b: Vector2): (r: Vector2)
    ensures Sub(r, b) == a && Sub(r, a) == b
  {
    Vector2(a.x + b.x, a.y + b.y)
  }

  /** `operator-`: the difference is what has to be added back to `b` to
      reach `a`, and a vector minus itself is zero. */
  function Sub(a: Vector2, b: Vector2): (r: Vector2)
    ensures r.x + b.x == a.x && r.y + b.y == a.y
    ensures a == b ==> r == Vector2(0, 0)
  {
    Vector2(a.x - b.x, a.y - b.y)
  }

  /** `operator*` by a scalar: the result is parallel to `a`, scaling by
      one changes nothing and by zero gives the zero vector. */
  function Scale(a: Vector2, s: int): (r: Vector2)
    ensures Cross(a, r) == Vector2(0, 0)
    ensures s == 1 ==> r == a
    ensures s == 0 ==> r == Vector2(0, 0)
  {
    assert a.x * (a.y * s) == a.y * (a.x * s);
    Vector2(a.x * s, a.y * s)
  }

  /** `operator/` by a scalar; it has no zero check, and integer division
      by zero is undefined, so the model demands a non-zero divisor. The
      quotient truncates toward zero. */
  function DivScalar(a: Vector2, s: int): (r: Vector2)
    requires s != 0
    ensures s > 0 && a.x >= 0 && a.y >= 0 ==> r == Vector2(a.x / s, a.y / s)
  {
    Vector2(Quot(a.x, s), Quot(a.y, s))
  }

  function Quot(x: int, y: int): (q: int)
    requires y != 0
    ensures y > 0 && x >= 0 ==> q == x / y
  {
    var m := (if x < 0 then -x else x) / (if y < 0 then -y else y);
    if (x < 0) != (y < 0) then -m else m
  }

  /** `Dot`: symmetric, and never negative on a vector with itself. */
  function Dot(a: Vector2, b: Vector2): (r: int)
    ensures r == b.x * a.x + b.y * a.y
    ensures a == b ==> r >= 0
  {
    a.x * b.x + a.y * b.y
  }

  /** `Cross`: the scalar cross product, and its negation. */
  function Cross(a: Vector2, b: Vector2): (r: Vector2)
    ensures r.y == -r.x
  {
    Vector2(a.x * b.y - a.y * b.x, a.y * b.x - a.x * b.y)
  }

  /** Swapping the operands negates the cross product, and a vector
      crossed with itself or a multiple of itself gives zero. */
  lemma CrossAntisymmetric(a: Vector2, b: Vector2, k: int)
    ensures Cross(a, b) == Vector2(-Cross(b, a).x, -Cross(b, a).y)
    ensures Cross(a, Scale(a, k)) == Vector2(0, 0)
  {
    assert a.x * (a.y * k) == a.y * (a.x * k);
  }

  /** `Lerp(a, b, t) = a + (b - a) * t`. */
  function Lerp(a: Vector2, b: Vector2, t: int): (r: Vector2)
    ensures t == 0 ==> r == a
    ensures t == 1 ==> r == b
  {
    Add(a, Scale(Sub(b, a), t))
  }

  function Min(a: Vector2, b: Vector2): (r: Vector2)
    ensures r.x <= a.x && r.x <= b.x && (r.x == a.x || r.x == b.x)
    ensures r.y <= a.y && r.y <= b.y && (r.y == a.y || r.y == b.y)
  {
    Vector2(if a.x < b.x then a.x else b.x, if a.y < b.y then a.y else b.y)
  }

  function Max(a: Vector2, b: Vector2): (r: Vector2)
    ensures r.x >= a.x && r.x >= b.x && (r.x == a.x || r.x == b.x)
    ensures r.y >= a.y && r.y >= b.y && (r.y == a.y || r.y == b.y)
  {
    Vector2(if a.x > b.x then a.x else b.x, if a.y > b.y then a.y else b.y)
  }

  /** Subtraction undoes addition; the dot product is symmetric and a
      vector's dot with itself is never negative. */
  lemma VectorAlgebra(a: Vector2, b: Vector2)
    ensures Sub(Add(a, b), b) == a
    ensures Dot(a, b) == Dot(b, a)
    ensures Dot(a, a) >= 0
  {
    assert a.x * a.x >= 0 && a.y * a.y >= 0 by {
      SquareNonNegative(a.x);
      SquareNonNegative(a.y);
    }
  }

  lemma SquareNonNegative(v: int)
    ensures v * v >= 0
  {
    if v < 0 {
      assert v * v == (-v) * (-v);
    }
  }

  /** `Rect` of the older math: two corners updated in place. The source's
      corners hold floats; here they are integer vectors. */
  class Rect {
    var min: Vector2
    var max: Vector2

    /** The default rectangle and `Zero()`. */
    constructor ()
      ensures min == Vector2(0, 0) && max == Vector2(0, 0)
    {
      min, max := Vector2(0, 0), Vector2(0, 0);
    }

    /** `GrowToInclude(rect)`: each coordinate of each corner widened. */
    method GrowToIncludeRect(other: Rect)
      modifies this
      ensures min == Min(old(min), old(other.min)) && max == Max(old(max), old(other.max))
    {
      var oMin, oMax := other.min, other.max;
      min := min.(x := if min.x < oMin.x then min.x else oMin.x);
      min := min.(y := if min.y < oMin.y then min.y else oMin.y);
      max := max.(x := if max.x > oMax.x then max.x else oMax.x);
      max := max.(y := if max.y > oMax.y then max.y else oMax.y);
    }

    /** `GrowToInclude(point)`: afterwards the point lies inside. */
    method GrowToIncludePoint(p: Vector2)
      modifies this
      ensures min.x <= p.x <= max.x && min.y <= p.y <= max.y
      ensures min == Min(old(min), p) && max == Max(old(max), p)
    {
      min := min.(x := if min.x < p.x then min.x else p.x);
      min := min.(y := if min.y < p.y then min.y else p.y);
      max := max.(x := if max.x > p.x then max.x else p.x);
      max := max.(y := if max.y > p.y then max.y else p.y);
    }
  }
}
