/** Axis-aligned bounding boxes (src/math/aabb.h): a box is a pair of
    three-component corners that `Grow` widens in place. The source's corners
    are `Vector3<f32>`; here their components are integers. */
module Aabb {
  import V = Vector

  class AABB {
    var min: V.Vec
    var max: V.Vec

    predicate Valid()
      reads this
    {
      |min| == 3 && |max| == 3
    }

    /** The default box: both corners at the origin. */
    constructor ()
      ensures Valid() && min == V.Zero(3) && max == V.Zero(3)
    {
      min, max := V.Zero(3), V.Zero(3);
    }

    constructor FromCorners(min: V.Vec, max: V.Vec)
      requires |min| == 3 && |max| == 3
      ensures Valid() && this.min == min && this.max == max
    {
      this.min, this.max := min, max;
    }

    /** Whether a point lies inside the box, corners included. */
    predicate Contains(p: V.Vec)
      requires Valid() && |p| == 3
      reads this
    {
      V.AtMost(min, p) && V.AtMost(p, max)
    }

    /** `Grow(point)`: the box now contains the point, and grows no further
        than it must. */
    method GrowPoint(p: V.Vec)
      requires Valid() && |p| == 3
      modifies this
      ensures Valid() && Contains(p)
      ensures min == V.Min(old(min), p) && max == V.Max(old(max), p)
    {
      min := V.Min(min, p);
      max := V.Max(max, p);
    }

    /** `Grow(aabb)`: the smallest box holding both boxes' corners. */
    method GrowBox(other: AABB)
      requires Valid() && other.Valid()
      modifies this
      ensures Valid()
      ensures min == V.Min(old(min), old(other.min)) && max == V.Max(old(max), old(other.max))
    {
      min := V.Min(min, other.min);
      max := V.Max(max, other.max);
    }
  }

  /** `Union(a, b)`: a new box whose corners are the corner-wise minimum
      and maximum. */
  method Union(a: AABB, b: AABB) returns (r: AABB)
    requires a.Valid() && b.Valid()
    ensures fresh(r) && r.Valid()
    ensures r.min == V.Min(a.min, b.min) && r.max == V.Max(a.max, b.max)
  {
    r := new AABB.FromCorners(V.Min(a.min, b.min), V.Max(a.max, b.max));
  }

  /** Union is commutative, and it is the box `a` grown by `b`: both give
      the same corners. */
  lemma UnionCommutes(aMin: V.Vec, aMax: V.Vec, bMin: V.Vec, bMax: V.Vec)
    requires |aMin| == |aMax| == |bMin| == |bMax|
    ensures V.Min(aMin, bMin) == V.Min(bMin, aMin) && V.Max(aMax, bMax) == V.Max(bMax, aMax)
  {
    V.MinMaxBounds(aMin, bMin, aMin);
    V.MinMaxBounds(aMax, bMax, aMax);
  }

  /** Growing twice by the same point or box is growing once. */
  lemma GrowIdempotent(lo: V.Vec, hi: V.Vec, pLo: V.Vec, pHi: V.Vec)
    requires |lo| == |hi| == |pLo| == |pHi|
    ensures V.Min(V.Min(lo, pLo), pLo) == V.Min(lo, pLo)
    ensures V.Max(V.Max(hi, pHi), pHi) == V.Max(hi, pHi)
  {
  }

  /** A grown box still contains everything the box contained. */
  lemma GrowKeepsContents(lo: V.Vec, hi: V.Vec, p: V.Vec, q: V.Vec)
    requires |lo| == |hi| == |p| == |q|
    requires V.AtMost(lo, q) && V.AtMost(q, hi)
    ensures V.AtMost(V.Min(lo, p), q) && V.AtMost(q, V.Max(hi, p))
  {
  }
}
