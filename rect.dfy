/** Screen rectangles (src/math/rect.h): a pair of two-component corners
    that `GrowToInclude` widens in place. The source's corners are
    `Vector2<f32>`; here their components are integers. */
module Rect {
  import V = Vector

  class Rect {
    var min: V.Vec
    var max: V.Vec

    predicate Valid()
      reads this
    {
      |min| == 2 && |max| == 2
    }

    /** The default rectangle and `Zero()`: both corners at the origin. */
    constructor ()
      ensures Valid() && min == V.Zero(2) && max == V.Zero(2)
    {
      min, max := V.Zero(2), V.Zero(2);
    }

    constructor FromCorners(min: V.Vec, max: V.Vec)
      requires |min| == 2 && |max| == 2
      ensures Valid() && this.min == min && this.max == max
    {
      this.min, this.max := min, max;
    }

    /** `GrowToInclude(rect)`: corner-wise minimum and maximum. */
    method GrowToIncludeRect(other: Rect)
      requires Valid() && other.Valid()
      modifies this
      ensures Valid()
      ensures min == V.Min(old(min), old(other.min)) && max == V.Max(old(max), old(other.max))
    {
      min := V.Min(min, other.min);
      max := V.Max(max, other.max);
    }

    /** `GrowToInclude(point)`: afterwards `min <= point <= max`. */
    method GrowToIncludePoint(p: V.Vec)
      requires Valid() && |p| == 2
      modifies this
      ensures Valid() && V.AtMost(min, p) && V.AtMost(p, max)
      ensures min == V.Min(old(min), p) && max == V.Max(old(max), p)
    {
      min := V.Min(min, p);
      max := V.Max(max, p);
    }
  }

  /** `Zero()`. */
  method Zero() returns (r: Rect)
    ensures fresh(r) && r.Valid() && r.min == [0, 0] && r.max == [0, 0]
  {
    r := new Rect();
  }

  /** Growing a rectangle by another makes it hold the other's corners, and
      doing it twice is doing it once. */
  lemma GrowToIncludeRectHolds(lo: V.Vec, hi: V.Vec, oLo: V.Vec, oHi: V.Vec)
    requires |lo| == |hi| == |oLo| == |oHi|
    ensures V.AtMost(V.Min(lo, oLo), oLo) && V.AtMost(oHi, V.Max(hi, oHi))
    ensures V.Min(V.Min(lo, oLo), oLo) == V.Min(lo, oLo) && V.Max(V.Max(hi, oHi), oHi) == V.Max(hi, oHi)
  {
  }
}
