/** The layout passes of a GUI element tree (`Reef::Element`,
    src/gui/elements/element.cpp): minimum sizes built bottom-up, the fit
    pass sizing each element around its children, the grow pass handing
    spare room to growable children, and the position pass. Elements are
    values here: a pass returns the updated tree instead of writing the
    fields of each element in place. Sizes are reals. */
module GuiElement {

  datatype Axis = Horizontal | Vertical

  datatype Size = Size(width: real, height: real)
  datatype Point = Point(x: real, y: real)
  datatype Padding = Padding(left: real, right: real, top: real, bottom: real)

  /** The style an element is built with: the axis it lays its children
      along, its requested size, its padding, the gap between children
      and the corner radius it is drawn with. */
  datatype Style = Style(direction: Axis, size: Size, padding: Padding, spacing: real, cornerRadius: real)

  /** How an element answers `RecreateRequired`: the base rule, or a
      subclass override that answers for itself. */
  datatype Kind = Plain | Custom(required: bool)

  /** An element and its layout state. */
  datatype Element = Element(kind: Kind, style: Style, baseSize: Size, minSize: Size, currentSize: Size,
                             childrenSize: Size, position: Point, children: seq<Element>)

  /** The requested-size sentinels: `Grow` asks for all the room the parent
      can give, a size at most `Shrink` asks to wrap the children. */
  const Grow: real := -1.0
  const Shrink: real := -2.0
  /** `Math::Epsilon<f32>()`, the single-precision machine epsilon. */
  const Epsilon: real := 0.00000011920928955078125
  /** `std::numeric_limits<f32>::max()`. */
  const FloatMax: real := 340282346638528859811704183484516925440.0

  function Other(a: Axis): (r: Axis)
    ensures r != a
  {
    if a == Horizontal then Vertical else Horizontal
  }

  /** `CurrentSize(axis)` / `BaseSize(axis)`: the width or the height. */
  function Along(s: Size, a: Axis): real
  {
    if a == Horizontal then s.width else s.height
  }

  function SetAlong(s: Size, a: Axis, v: real): (r: Size)
    ensures Along(r, a) == v && Along(r, Other(a)) == Along(s, Other(a))
  {
    if a == Horizontal then s.(width := v) else s.(height := v)
  }

  /** `Padding(axis)`: the padding on both sides along `a`. */
  function PaddingAlong(p: Padding, a: Axis): real
  {
    if a == Horizontal then p.left + p.right else p.top + p.bottom
  }

  /** `ChildrenSize(axis)`: the extent the children take along `a`. */
  function ChildrenAlong(e: Element, a: Axis): real
  {
    Along(e.childrenSize, a)
  }

  function SetChildrenAlong(e: Element, a: Axis, v: real): (r: Element)
    ensures ChildrenAlong(r, a) == v && ChildrenAlong(r, Other(a)) == ChildrenAlong(e, Other(a))
    ensures r == e.(childrenSize := r.childrenSize)
  {
    e.(childrenSize := SetAlong(e.childrenSize, a, v))
  }

  /** `IsGrowOnAxis`: the requested size along `a` is exactly `Grow`. */
  predicate IsGrowOnAxis(e: Element, a: Axis)
  {
    Along(e.baseSize, a) == Grow
  }

  /** `IsShrinkOnAxis`: the requested size along `a` is at most `Shrink`. */
  predicate IsShrinkOnAxis(e: Element, a: Axis)
  {
    Along(e.baseSize, a) <= Shrink
  }

  /** The minimum sizes along `a` of the children. */
  function Mins(kids: seq<Element>, a: Axis): (r: seq<real>)
    ensures |r| == |kids| && forall i :: 0 <= i < |kids| ==> r[i] == Along(kids[i].minSize, a)
  {
    seq(|kids|, i requires 0 <= i < |kids| => Along(kids[i].minSize, a))
  }

  /** The sum of `xs`. */
  function Total(xs: seq<real>): real
  {
    if xs == [] then 0.0 else Total(xs[..|xs| - 1]) + xs[|xs| - 1]
  }

  /** The running `std::max` of `xs` from 0. */
  function Largest(xs: seq<real>): real
  {
    if xs == [] then 0.0 else Max(Largest(xs[..|xs| - 1]), xs[|xs| - 1])
  }

  function Max(a: real, b: real): real
  {
    if a < b then b else a
  }

  function Min(a: real, b: real): real
  {
    if b < a then b else a
  }

  /** `Largest` is the maximum of 0 and the elements. */
  lemma {:induction false} LargestIsMaximum(xs: seq<real>)
    ensures Largest(xs) >= 0.0 && forall i :: 0 <= i < |xs| ==> xs[i] <= Largest(xs)
    ensures Largest(xs) == 0.0 || exists i :: 0 <= i < |xs| && xs[i] == Largest(xs)
  {
    if xs != [] {
      var init := xs[..|xs| - 1];
      LargestIsMaximum(init);
      assert forall i :: 0 <= i < |init| ==> xs[i] == init[i];
      if Largest(init) != 0.0 && Largest(xs) == Largest(init) {
        var k :| 0 <= k < |init| && init[k] == Largest(init);
        assert xs[k] == Largest(xs);
      }
    }
  }

  /** The gap the children take: `spacing` between each two. */
  function Gaps(style: Style, n: nat): real
  {
    if n == 0 then 0.0 else style.spacing * (n - 1) as real
  }

  /** `m` is the minimum size the constructor gives an element with
      `style` and `kids`. */
  ghost predicate MinSized(m: Size, style: Style, kids: seq<Element>)
  {
    if |kids| == 0 then m == Size(0.0, 0.0)
    else
      && Along(m, style.direction) ==
           Total(Mins(kids, style.direction)) + PaddingAlong(style.padding, style.direction) + Gaps(style, |kids|)
      && Along(m, Other(style.direction)) ==
           Largest(Mins(kids, Other(style.direction))) + PaddingAlong(style.padding, Other(style.direction))
  }

  /** The minimum size of an element with `kids` (the constructor and
      `RecreateRequired`): along the direction the children's minimum
      sizes add up, across it the largest counts; padding and spacing come
      on top, and no children leave it at zero. */
  method MinSizeOf(style: Style, kids: seq<Element>) returns (m: Size)
    ensures MinSized(m, style, kids)
  {
    var d := style.direction;
    m := Size(0.0, 0.0);
    for i := 0 to |kids|
      invariant Along(m, d) == Total(Mins(kids, d)[..i])
      invariant Along(m, Other(d)) == Largest(Mins(kids, Other(d))[..i])
    {
      assert Mins(kids, d)[..i + 1][..i] == Mins(kids, d)[..i];
      assert Mins(kids, Other(d))[..i + 1][..i] == Mins(kids, Other(d))[..i];
      if d == Horizontal {
        m := Size(m.width + kids[i].minSize.width, Max(m.height, kids[i].minSize.height));
      } else {
        m := Size(Max(m.width, kids[i].minSize.width), m.height + kids[i].minSize.height);
      }
    }
    assert Mins(kids, d)[..|kids|] == Mins(kids, d);
    assert Mins(kids, Other(d))[..|kids|] == Mins(kids, Other(d));
    if |kids| == 0 {
      return;
    }
    m := Size(m.width + PaddingAlong(style.padding, Horizontal), m.height + PaddingAlong(style.padding, Vertical));
    m := SetAlong(m, d, Along(m, d) + style.spacing * (|kids| - 1) as real);
  }

  /** Across the direction the minimum size holds the largest child's
      minimum size and the padding, and is no more than that. */
  lemma MinSizeHoldsChildren(m: Size, style: Style, kids: seq<Element>, i: nat)
    requires MinSized(m, style, kids) && i < |kids|
    ensures Along(kids[i].minSize, Other(style.direction)) + PaddingAlong(style.padding, Other(style.direction))
      <= Along(m, Other(style.direction))
    ensures (var inside := Along(m, Other(style.direction)) - PaddingAlong(style.padding, Other(style.direction));
      inside == 0.0 || exists j :: 0 <= j < |kids| && inside == Along(kids[j].minSize, Other(style.direction)))
  {
    var ms := Mins(kids, Other(style.direction));
    LargestIsMaximum(ms);
    if Largest(ms) != 0.0 {
      var j :| 0 <= j < |ms| && ms[j] == Largest(ms);
    }
  }

  /** The constructor: the requested size, the minimum size around the
      children, and everything else zero. */
  method Create(style: Style, kids: seq<Element>) returns (e: Element)
    ensures e.kind == Plain && e.style == style && e.baseSize == style.size && e.children == kids
    ensures e.currentSize == Size(0.0, 0.0) && e.childrenSize == Size(0.0, 0.0) && e.position == Point(0.0, 0.0)
    ensures MinSized(e.minSize, style, kids)
  {
    var m := MinSizeOf(style, kids);
    e := Element(Plain, style, style.size, m, Size(0.0, 0.0), Size(0.0, 0.0), Point(0.0, 0.0), kids);
  }

  // ---------------------------------------------------------------- fit

  /** The children's sizes along `a`, added up. */
  function SumAlong(kids: seq<Element>, a: Axis): real
  {
    if kids == [] then 0.0 else SumAlong(kids[..|kids| - 1], a) + Along(kids[|kids| - 1].currentSize, a)
  }

  /** The largest of the children's sizes along `a`, and 0. */
  function MaxAlong(kids: seq<Element>, a: Axis): real
  {
    if kids == [] then 0.0 else Max(MaxAlong(kids[..|kids| - 1], a), Along(kids[|kids| - 1].currentSize, a))
  }

  /** What the children need along `a`: their fitted sizes and the gaps
      along the direction, the largest across it. */
  function Need(e: Element, a: Axis): real
  {
    if a == e.style.direction then SumAlong(e.children, a) + Gaps(e.style, |e.children|)
    else MaxAlong(e.children, a)
  }

  /** The fit pass has run along `a` on every element of the tree: each
      records what its children need, and a growing or shrinking element
      takes that plus its padding while any other keeps its requested
      size. */
  ghost predicate Fitted(e: Element, a: Axis)
  {
    && ChildrenAlong(e, a) == Need(e, a)
    && Along(e.currentSize, a) ==
         (if IsGrowOnAxis(e, a) || IsShrinkOnAxis(e, a) then ChildrenAlong(e, a) + PaddingAlong(e.style.padding, a)
          else Along(e.baseSize, a))
    && forall i :: 0 <= i < |e.children| ==> Fitted(e.children[i], a)
  }

  /** `f` is `e` with only the sizes along `a` a fit pass writes changed. */
  ghost predicate Refits(e: Element, f: Element, a: Axis)
  {
    && f.kind == e.kind && f.style == e.style && f.baseSize == e.baseSize && f.minSize == e.minSize && f.position == e.position
    && Along(f.currentSize, Other(a)) == Along(e.currentSize, Other(a))
    && ChildrenAlong(f, Other(a)) == ChildrenAlong(e, Other(a))
    && |f.children| == |e.children|
    && forall i :: 0 <= i < |e.children| ==> Refits(e.children[i], f.children[i], a)
  }

  /** The first `|out|` children of `kids`, fitted along `a`. */
  ghost predicate FitsPrefix(kids: seq<Element>, out: seq<Element>, a: Axis)
  {
    |out| <= |kids| && forall j :: 0 <= j < |out| ==> Fitted(out[j], a) && Refits(kids[j], out[j], a)
  }

  /** The fit loop after the children in `out`: `sum` is their sizes
      added up along the direction, or the largest across it. */
  ghost predicate FitLoop(e: Element, out: seq<Element>, sum: real, a: Axis)
  {
    && FitsPrefix(e.children, out, a)
    && sum == if a == e.style.direction then SumAlong(out, a) else MaxAlong(out, a)
  }

  lemma FitStep(e: Element, out: seq<Element>, sum: real, c: Element, a: Axis)
    requires FitLoop(e, out, sum, a) && |out| < |e.children| && Fitted(c, a) && Refits(e.children[|out|], c, a)
    ensures FitLoop(e, out + [c], if a == e.style.direction then sum + Along(c.currentSize, a) else Max(sum, Along(c.currentSize, a)), a)
  {
    assert (out + [c])[..|out|] == out;
  }

  /** `e` with its fitted children, the size they need and its own size
      along `a`. */
  function Fitting(e: Element, out: seq<Element>, need: real, a: Axis): Element
  {
    var current := if IsGrowOnAxis(e, a) || IsShrinkOnAxis(e, a) then need + PaddingAlong(e.style.padding, a)
                   else Along(e.baseSize, a);
    SetChildrenAlong(e, a, need).(currentSize := SetAlong(e.currentSize, a, current), children := out)
  }

  lemma FittingFits(e: Element, out: seq<Element>, need: real, a: Axis)
    requires FitsPrefix(e.children, out, a) && |out| == |e.children|
    requires need == Need(e.(children := out), a)
    ensures Fitted(Fitting(e, out, need, a), a) && Refits(e, Fitting(e, out, need, a), a)
  {
    var f := Fitting(e, out, need, a);
    assert f.children == out;
    assert Need(f, a) == need;
  }

  /** `ComputeFitSizeOnAxis`: fits every element of the tree along `a`,
      children first, and returns the root's new size. */
  method Fit(e: Element, a: Axis) returns (f: Element, size: real)
    ensures Fitted(f, a) && Refits(e, f, a)
    ensures size == Along(f.currentSize, a)
    decreases e, 1
  {
    var out, need := FitChildren(e, a);
    FittingFits(e, out, need, a);
    f := Fitting(e, out, need, a);
    size := Along(f.currentSize, a);
  }

  /** The loop of `ComputeFitSizeOnAxis`: each child fitted in turn, its
      size added along the direction or maximised across it. */
  method FitChildren(e: Element, a: Axis) returns (out: seq<Element>, need: real)
    ensures |out| == |e.children| && FitsPrefix(e.children, out, a)
    ensures need == Need(e.(children := out), a)
    decreases e, 0
  {
    out := [];
    var sum := 0.0;
    for i := 0 to |e.children|
      invariant |out| == i && FitLoop(e, out, sum, a)
    {
      var c, s := Fit(e.children[i], a);
      FitStep(e, out, sum, c, a);
      if a == e.style.direction {
        sum := sum + s;
      } else {
        sum := Max(sum, s);
      }
      out := out + [c];
    }
    need := sum;
    if a == e.style.direction && |e.children| > 0 {
      need := need + e.style.spacing * (|e.children| - 1) as real;
    }
  }

  /** Two fitted trees that differ only in what a fit pass writes are the
      same tree: the pass's result depends on nothing it overwrites. */
  lemma {:induction false} FitDetermined(f: Element, g: Element, a: Axis)
    requires Refits(f, g, a) && Fitted(f, a) && Fitted(g, a)
    ensures f == g
    decreases f
  {
    forall i | 0 <= i < |f.children|
      ensures f.children[i] == g.children[i]
    {
      FitDetermined(f.children[i], g.children[i], a);
    }
    assert f.children == g.children;
    SizesMatch(f.currentSize, g.currentSize, a);
    SizesMatch(f.childrenSize, g.childrenSize, a);
  }

  /** Two sizes agreeing along both axes are equal. */
  lemma SizesMatch(s: Size, t: Size, a: Axis)
    requires Along(s, a) == Along(t, a) && Along(s, Other(a)) == Along(t, Other(a))
    ensures s == t
  {
  }

  /** A fit pass along one axis keeps a fit along the other: the two
      passes of `ComputeLayout` do not disturb each other. */
  lemma {:induction false} FitKeepsOtherAxis(e: Element, f: Element, a: Axis)
    requires Fitted(e, Other(a)) && Refits(e, f, a)
    ensures Fitted(f, Other(a))
    decreases e
  {
    forall i | 0 <= i < |e.children|
      ensures Fitted(f.children[i], Other(a))
    {
      FitKeepsOtherAxis(e.children[i], f.children[i], a);
    }
    AlongKept(e.children, f.children, Other(a));
  }

  /** Children of equal sizes along `a` need the same room along `a`. */
  lemma {:induction false} AlongKept(kids: seq<Element>, out: seq<Element>, a: Axis)
    requires |kids| == |out| && forall i :: 0 <= i < |kids| ==> Along(out[i].currentSize, a) == Along(kids[i].currentSize, a)
    ensures SumAlong(out, a) == SumAlong(kids, a) && MaxAlong(out, a) == MaxAlong(kids, a)
  {
    if kids != [] {
      AlongKept(kids[..|kids| - 1], out[..|out| - 1], a);
    }
  }

  // --------------------------------------------------------------- grow

  /** `e` with its size along `a` set to `v`. */
  function Resize(e: Element, a: Axis, v: real): (r: Element)
    ensures Along(r.currentSize, a) == v && Along(r.currentSize, Other(a)) == Along(e.currentSize, Other(a))
    ensures r == e.(currentSize := r.currentSize)
  {
    e.(currentSize := SetAlong(e.currentSize, a, v))
  }

  /** `out` is `kids` with only sizes along `a` changed. */
  ghost predicate Resized(kids: seq<Element>, out: seq<Element>, a: Axis)
  {
    |out| == |kids| && forall i :: 0 <= i < |kids| ==> out[i] == Resize(kids[i], a, Along(out[i].currentSize, a))
  }

  /** How many of `kids` grow along `a`. */
  function Growable(kids: seq<Element>, a: Axis): nat
  {
    if kids == [] then 0 else Growable(kids[..|kids| - 1], a) + (if IsGrowOnAxis(kids[|kids| - 1], a) then 1 else 0)
  }

  /** The count loop of the grow pass. */
  method CountGrowable(kids: seq<Element>, a: Axis) returns (n: nat)
    ensures n == Growable(kids, a)
  {
    n := 0;
    for i := 0 to |kids|
      invariant n == Growable(kids[..i], a)
    {
      assert kids[..i + 1][..i] == kids[..i];
      if IsGrowOnAxis(kids[i], a) {
        n := n + 1;
      }
    }
    assert kids[..|kids|] == kids;
  }

  /** Changing one child's size changes the sum by the difference. */
  lemma {:induction false} SumResize(kids: seq<Element>, i: nat, v: real, a: Axis)
    requires i < |kids|
    ensures SumAlong(kids[i := Resize(kids[i], a, v)], a) == SumAlong(kids, a) - Along(kids[i].currentSize, a) + v
  {
    var out := kids[i := Resize(kids[i], a, v)];
    if i < |kids| - 1 {
      assert out[..|out| - 1] == kids[..|kids| - 1][i := Resize(kids[i], a, v)];
      SumResize(kids[..|kids| - 1], i, v, a);
    } else {
      assert out[..|out| - 1] == kids[..|kids| - 1];
    }
  }

  /** `k` shares of at most `r / g` each, `k <= g`, fit in `r`. */
  lemma ShareFits(k: nat, g: nat, x: real, r: real)
    requires 0 < g && k <= g && 0.0 <= x && x <= r / g as real && 0.0 <= r
    ensures 0.0 <= k as real * x <= r
  {
    assert k as real * x <= g as real * x;
    assert g as real * x <= g as real * (r / g as real);
  }

  /** The scan of one grow round: the smallest growable size, and how
      much to add to the children of that size. */
  method SmallestShare(kids: seq<Element>, a: Axis, remaining: real) returns (smallest: real, share: real)
    requires remaining > 0.0
    ensures share >= 0.0
  {
    smallest := FloatMax;
    var second := FloatMax;
    share := remaining;
    for i := 0 to |kids|
      invariant second >= smallest && share >= 0.0
    {
      if IsGrowOnAxis(kids[i], a) {
        var size := Along(kids[i].currentSize, a);
        if size < smallest {
          second := smallest;
          smallest := size;
        } else if size > smallest {
          second := Min(second, size);
          share := second - smallest;
        }
      }
    }
  }

  /** The add loop of a grow round after the children before `i`: only
      growable children before `i` changed, and none got smaller. */
  ghost predicate RoundFrame(kids: seq<Element>, out: seq<Element>, a: Axis, i: nat)
  {
    && i <= |kids| && Resized(kids, out, a)
    && (forall j :: 0 <= j < |kids| && (i <= j || !IsGrowOnAxis(kids[j], a)) ==> out[j] == kids[j])
    && (forall j :: 0 <= j < |kids| ==> Along(kids[j].currentSize, a) <= Along(out[j].currentSize, a))
  }

  /** ... and `added` of them, growable, took `share` each from the room
      left. */
  ghost predicate RoundBudget(kids: seq<Element>, out: seq<Element>, a: Axis, i: nat, added: nat, share: real,
                              remaining: real, left: real)
    requires i <= |kids|
  {
    && added <= Growable(kids[..i], a)
    && left == remaining - added as real * share
    && SumAlong(out, a) == SumAlong(kids, a) + added as real * share
  }

  lemma FrameStep(kids: seq<Element>, out: seq<Element>, a: Axis, i: nat, share: real, grow: bool)
    requires RoundFrame(kids, out, a, i) && i < |kids| && share >= 0.0
    requires grow ==> IsGrowOnAxis(kids[i], a)
    ensures var next := if grow then out[i := Resize(out[i], a, Along(out[i].currentSize, a) + share)] else out;
            RoundFrame(kids, next, a, i + 1)
  {
  }

  lemma BudgetStep(kids: seq<Element>, out: seq<Element>, a: Axis, i: nat, added: nat, share: real,
                   remaining: real, left: real, grow: bool)
    requires i < |kids| == |out| && RoundBudget(kids, out, a, i, added, share, remaining, left)
    requires grow ==> IsGrowOnAxis(kids[i], a)
    ensures var next := if grow then out[i := Resize(out[i], a, Along(out[i].currentSize, a) + share)] else out;
            RoundBudget(kids, next, a, i + 1, if grow then added + 1 else added, share, remaining,
                        if grow then left - share else left)
  {
    assert kids[..i + 1][..i] == kids[..i];
    if grow {
      SumResize(out, i, Along(out[i].currentSize, a) + share, a);
      assert (added + 1) as real * share == added as real * share + share;
    }
  }

  /** One iteration of the add loop keeps both frames. */
  lemma RoundStep(kids: seq<Element>, out: seq<Element>, next: seq<Element>, a: Axis, i: nat, added: nat, added': nat,
                  share: real, remaining: real, left: real, left': real, grow: bool)
    requires i < |kids| && share >= 0.0
    requires RoundFrame(kids, out, a, i) && RoundBudget(kids, out, a, i, added, share, remaining, left)
    requires grow ==> IsGrowOnAxis(kids[i], a)
    requires next == if grow then out[i := Resize(out[i], a, Along(out[i].currentSize, a) + share)] else out
    requires added' == (if grow then added + 1 else added) && left' == (if grow then left - share else left)
    ensures RoundFrame(kids, next, a, i + 1) && RoundBudget(kids, next, a, i + 1, added', share, remaining, left')
  {
    FrameStep(kids, out, a, i, share, grow);
    BudgetStep(kids, out, a, i, added, share, remaining, left, grow);
  }

  /** After the add loop: the round's outcome. */
  lemma RoundDone(kids: seq<Element>, out: seq<Element>, a: Axis, added: nat, growable: nat,
                  share: real, remaining: real, left: real)
    requires RoundFrame(kids, out, a, |kids|) && RoundBudget(kids, out, a, |kids|, added, share, remaining, left)
    requires 0 < growable == Growable(kids, a) && 0.0 <= share <= remaining / growable as real && 0.0 < remaining
    ensures Resized(kids, out, a)
    ensures forall j :: 0 <= j < |kids| && !IsGrowOnAxis(kids[j], a) ==> out[j] == kids[j]
    ensures forall j :: 0 <= j < |kids| ==> Along(kids[j].currentSize, a) <= Along(out[j].currentSize, a)
    ensures SumAlong(out, a) + left == SumAlong(kids, a) + remaining
    ensures 0.0 <= left <= remaining
  {
    assert kids[..|kids|] == kids;
    ShareFits(added, growable, share, remaining);
    var used := added as real * share;
    assert left == remaining - used && SumAlong(out, a) == SumAlong(kids, a) + used;
  }

  /** One round of the main-axis grow loop: the growable children of the
      smallest size each get the same share, the share is at most the
      room left over the growable count, and what they get comes out of
      the room. */
  method GrowRound(kids: seq<Element>, a: Axis, remaining: real, growable: nat) returns (out: seq<Element>, left: real)
    requires remaining > Epsilon && growable == Growable(kids, a) && growable > 0
    ensures Resized(kids, out, a)
    ensures forall j :: 0 <= j < |kids| && !IsGrowOnAxis(kids[j], a) ==> out[j] == kids[j]
    ensures forall j :: 0 <= j < |kids| ==> Along(kids[j].currentSize, a) <= Along(out[j].currentSize, a)
    ensures SumAlong(out, a) + left == SumAlong(kids, a) + remaining
    ensures 0.0 <= left <= remaining
  {
    var smallest, share := SmallestShare(kids, a, remaining);
    share := Min(share, remaining / growable as real);
    out := kids;
    left := remaining;
    var added: nat := 0;
    for i := 0 to |kids|
      invariant RoundFrame(kids, out, a, i) && RoundBudget(kids, out, a, i, added, share, remaining, left)
    {
      var grow := IsGrowOnAxis(out[i], a) && Along(out[i].currentSize, a) == smallest;
      var next, left', added' := out, left, added;
      if grow {
        next := out[i := Resize(out[i], a, Along(out[i].currentSize, a) + share)];
        left' := left - share;
        added' := added + 1;
      }
      RoundStep(kids, out, next, a, i, added, added', share, remaining, left, left', grow);
      out, left, added := next, left', added';
    }
    RoundDone(kids, out, a, added, growable, share, remaining, left);
  }

  /** The rounds after which `out` and `left` stand. */
  ghost predicate Shared(kids: seq<Element>, out: seq<Element>, a: Axis, remaining: real, left: real)
  {
    && Resized(kids, out, a)
    && (forall j :: 0 <= j < |kids| && !IsGrowOnAxis(kids[j], a) ==> out[j] == kids[j])
    && (forall j :: 0 <= j < |kids| ==> Along(kids[j].currentSize, a) <= Along(out[j].currentSize, a))
    && SumAlong(out, a) + left == SumAlong(kids, a) + remaining
    && ((out == kids && left == remaining) || 0.0 <= left <= remaining)
  }

  lemma SharedStep(kids: seq<Element>, mid: seq<Element>, out: seq<Element>, a: Axis, remaining: real, left: real, left': real)
    requires Shared(kids, mid, a, remaining, left) && 0.0 < left
    requires Resized(mid, out, a)
    requires forall j :: 0 <= j < |mid| && !IsGrowOnAxis(mid[j], a) ==> out[j] == mid[j]
    requires forall j :: 0 <= j < |mid| ==> Along(mid[j].currentSize, a) <= Along(out[j].currentSize, a)
    requires SumAlong(out, a) + left' == SumAlong(mid, a) + left && 0.0 <= left' <= left
    ensures Shared(kids, out, a, remaining, left')
  {
  }

  /** The main-axis grow loop: rounds while room above epsilon is left and
      some child grows, at most `fuel` of them. Only growable children
      change, they only get larger, and they take no more than the room
      there was. */
  method Distribute(kids: seq<Element>, a: Axis, remaining: real, growable: nat, fuel: nat) returns (out: seq<Element>, left: real)
    requires growable == Growable(kids, a)
    ensures Shared(kids, out, a, remaining, left)
  {
    out := kids;
    left := remaining;
    var rounds := fuel;
    while left > Epsilon && growable > 0 && rounds > 0
      invariant Shared(kids, out, a, remaining, left) && growable == Growable(out, a)
      decreases rounds
    {
      var next, left' := GrowRound(out, a, left, growable);
      SharedStep(kids, out, next, a, remaining, left, left');
      GrowableKept(out, next, a);
      out, left := next, left';
      rounds := rounds - 1;
    }
  }

  /** Resizing keeps which children grow. */
  lemma {:induction false} GrowableKept(kids: seq<Element>, out: seq<Element>, a: Axis)
    requires Resized(kids, out, a)
    ensures Growable(out, a) == Growable(kids, a)
  {
    if kids != [] {
      GrowableKept(kids[..|kids| - 1], out[..|out| - 1], a);
    }
  }

  /** The cross-axis step of the grow pass: every growable child takes
      `room`, the others keep their size. */
  method Stretch(kids: seq<Element>, a: Axis, room: real) returns (out: seq<Element>)
    ensures Resized(kids, out, a)
    ensures forall i :: 0 <= i < |kids| ==>
      Along(out[i].currentSize, a) == if IsGrowOnAxis(kids[i], a) then room else Along(kids[i].currentSize, a)
  {
    out := kids;
    for i := 0 to |kids|
      invariant Resized(kids, out, a)
      invariant forall j :: 0 <= j < |kids| ==>
        Along(out[j].currentSize, a) == if j < i && IsGrowOnAxis(kids[j], a) then room else Along(kids[j].currentSize, a)
    {
      if IsGrowOnAxis(out[i], a) {
        out := out[i := Resize(out[i], a, room)];
      }
    }
  }

  /** The room the children leave along the direction. */
  function Spare(e: Element, a: Axis): real
  {
    Along(e.currentSize, a) - ChildrenAlong(e, a) - PaddingAlong(e.style.padding, a)
  }

  /** The step the grow pass takes at `e` along `a`, `g` after it: along
      the direction only growable children change, none shrinks and they
      take at most the spare room; across it every growable child takes
      the element's size less its padding and the others keep theirs. */
  ghost predicate Stepped(e: Element, g: Element, a: Axis)
    requires |g.children| == |e.children|
  {
    var cs, gs := e.children, g.children;
    if a == e.style.direction then
      && (forall i :: 0 <= i < |cs| && !IsGrowOnAxis(cs[i], a) ==> Along(gs[i].currentSize, a) == Along(cs[i].currentSize, a))
      && (forall i :: 0 <= i < |cs| ==> Along(cs[i].currentSize, a) <= Along(gs[i].currentSize, a))
      && SumAlong(gs, a) <= SumAlong(cs, a) + Max(0.0, Spare(e, a))
    else
      forall i :: 0 <= i < |cs| ==>
        (Along(gs[i].currentSize, a) ==
         if IsGrowOnAxis(cs[i], a) then Along(e.currentSize, a) - PaddingAlong(e.style.padding, a) else Along(cs[i].currentSize, a))
  }

  /** The grow pass has run along `a` from `e` to `g`: the element itself
      is as it was, its children took the step, keep their size across
      `a`, and each went through the pass from the size it was given. */
  ghost predicate Grown(e: Element, g: Element, a: Axis)
    decreases g
  {
    && g.(children := e.children) == e
    && |g.children| == |e.children|
    && (forall i :: 0 <= i < |e.children| ==>
          Along(g.children[i].currentSize, Other(a)) == Along(e.children[i].currentSize, Other(a)))
    && Stepped(e, g, a)
    && forall i :: 0 <= i < |g.children| ==>
         Grown(Resize(e.children[i], a, Along(g.children[i].currentSize, a)), g.children[i], a)
  }

  /** The height of a tree, the measure the grow pass descends by. */
  function Depth(e: Element): nat
  {
    1 + Deepest(e.children)
  }

  function Deepest(kids: seq<Element>): (r: nat)
    ensures forall i :: 0 <= i < |kids| ==> Depth(kids[i]) <= r
  {
    if kids == [] then 0 else Max'(Deepest(kids[..|kids| - 1]), Depth(kids[|kids| - 1]))
  }

  function Max'(a: nat, b: nat): nat
  {
    if a < b then b else a
  }

  /** Resizing children keeps their depth. */
  lemma {:induction false} DeepestKept(kids: seq<Element>, out: seq<Element>, a: Axis)
    requires Resized(kids, out, a)
    ensures Deepest(out) == Deepest(kids)
  {
    if kids != [] {
      DeepestKept(kids[..|kids| - 1], out[..|out| - 1], a);
    }
  }

  /** `ComputeGrowSizeOnAxis`: the step at `e` (the grow rounds along the
      direction, at most `fuel` of them, or the stretch across it), then
      the pass on every child. */
  method GrowPass(e: Element, a: Axis, fuel: nat) returns (g: Element)
    ensures Grown(e, g, a)
    decreases Depth(e), 0
  {
    var resized;
    if a == e.style.direction {
      var growable := CountGrowable(e.children, a);
      var left;
      resized, left := Distribute(e.children, a, Spare(e, a), growable, fuel);
      SpareBound(e.children, resized, a, Spare(e, a), left);
    } else {
      resized := Stretch(e.children, a, Along(e.currentSize, a) - PaddingAlong(e.style.padding, a));
    }
    DeepestKept(e.children, resized, a);
    var out := GrowChildren(resized, a, fuel);
    g := e.(children := out);
    GrownStep(e, resized, out, a);
  }

  /** The pass leaves the size of the element it starts from alone. */
  lemma GrownKeepsSize(e: Element, g: Element, a: Axis)
    requires Grown(e, g, a)
    ensures g.currentSize == e.currentSize
  {
    assert g.(children := e.children).currentSize == e.currentSize;
  }

  /** Children with the same sizes add up to the same total. */
  lemma {:induction false} SameSum(kids: seq<Element>, out: seq<Element>, a: Axis)
    requires |out| == |kids| && forall i :: 0 <= i < |kids| ==> out[i].currentSize == kids[i].currentSize
    ensures SumAlong(out, a) == SumAlong(kids, a)
  {
    if kids != [] {
      SameSum(kids[..|kids| - 1], out[..|out| - 1], a);
    }
  }

  /** The step at `e` followed by the pass on every child is the pass. */
  lemma GrownStep(e: Element, resized: seq<Element>, out: seq<Element>, a: Axis)
    requires Resized(e.children, resized, a)
    requires Stepped(e, e.(children := resized), a)
    requires |out| == |resized| && forall i :: 0 <= i < |resized| ==> Grown(resized[i], out[i], a)
    ensures Grown(e, e.(children := out), a)
  {
    forall i | 0 <= i < |resized|
      ensures out[i].currentSize == resized[i].currentSize
    {
      GrownKeepsSize(resized[i], out[i], a);
    }
    SameSum(resized, out, a);
  }

  /** The children's sizes after the rounds are within the spare room. */
  lemma SpareBound(kids: seq<Element>, out: seq<Element>, a: Axis, remaining: real, left: real)
    requires Shared(kids, out, a, remaining, left)
    ensures SumAlong(out, a) <= SumAlong(kids, a) + Max(0.0, remaining)
  {
  }

  /** The last loop of `ComputeGrowSizeOnAxis`: the pass on each child. */
  method GrowChildren(kids: seq<Element>, a: Axis, fuel: nat) returns (out: seq<Element>)
    ensures |out| == |kids|
    ensures forall i :: 0 <= i < |kids| ==> Grown(kids[i], out[i], a)
    decreases Deepest(kids), 1
  {
    out := [];
    for i := 0 to |kids|
      invariant |out| == i && forall j :: 0 <= j < i ==> Grown(kids[j], out[j], a)
    {
      var c := GrowPass(kids[i], a, fuel);
      out := out + [c];
    }
  }

  // ----------------------------------------------------------- position

  /** A point moved by `delta` along `a`. */
  function Move(p: Point, a: Axis, delta: real): (r: Point)
    ensures a == Horizontal ==> r == Point(p.x + delta, p.y)
    ensures a == Vertical ==> r == Point(p.x, p.y + delta)
  {
    if a == Horizontal then p.(x := p.x + delta) else p.(y := p.y + delta)
  }

  /** Where the first child of an element at `pos` goes: inside the left
      and top padding. */
  function Inner(style: Style, pos: Point): Point
  {
    Point(pos.x + style.padding.left, pos.y + style.padding.top)
  }

  /** How far along the direction child `i` starts from the first one: the
      sizes of the children before it, each followed by the spacing. */
  function Offset(kids: seq<Element>, i: nat, style: Style): real
    requires i <= |kids|
  {
    SumAlong(kids[..i], style.direction) + i as real * style.spacing
  }

  /** `p` is `e` positioned at `pos`: the element moved there, its
      children placed one after the other along the direction from inside
      its padding, and nothing but positions changed. */
  ghost predicate Placed(e: Element, p: Element, pos: Point)
    decreases p
  {
    && p.(position := e.position, children := e.children) == e
    && p.position == pos
    && |p.children| == |e.children|
    && forall i :: 0 <= i < |e.children| ==>
         Placed(e.children[i], p.children[i], Move(Inner(e.style, pos), e.style.direction, Offset(e.children, i, e.style)))
  }

  /** `SetPosition`: the element at `pos`, then each child at the running
      position, which advances by the child's size and the spacing. */
  method SetPosition(e: Element, pos: Point) returns (p: Element)
    ensures Placed(e, p, pos)
    decreases Depth(e), 0
  {
    var out := PlaceChildren(e.children, e.style, Inner(e.style, pos));
    p := e.(position := pos, children := out);
  }

  method PlaceChildren(kids: seq<Element>, style: Style, start: Point) returns (out: seq<Element>)
    ensures |out| == |kids|
    ensures forall i :: 0 <= i < |kids| ==> Placed(kids[i], out[i], Move(start, style.direction, Offset(kids, i, style)))
    decreases Deepest(kids), 1
  {
    var d := style.direction;
    var cur := start;
    out := [];
    for i := 0 to |kids|
      invariant |out| == i && cur == Move(start, d, Offset(kids, i, style))
      invariant forall j :: 0 <= j < i ==> Placed(kids[j], out[j], Move(start, d, Offset(kids, j, style)))
    {
      var c := SetPosition(kids[i], cur);
      out := out + [c];
      assert kids[..i + 1][..i] == kids[..i];
      cur := Move(cur, d, Along(kids[i].currentSize, d) + style.spacing);
    }
  }

  /** Only positions differ between `e` and `p`, at every level. */
  ghost predicate Moved(e: Element, p: Element)
    decreases p
  {
    && p.(position := e.position, children := e.children) == e
    && |p.children| == |e.children|
    && forall i :: 0 <= i < |e.children| ==> Moved(e.children[i], p.children[i])
  }

  /** The position pass changes no size, style or state but positions. */
  lemma {:induction false} PlacedOnlyMoves(e: Element, p: Element, pos: Point)
    requires Placed(e, p, pos)
    ensures Moved(e, p)
    decreases p
  {
    forall i | 0 <= i < |e.children|
      ensures Moved(e.children[i], p.children[i])
    {
      PlacedOnlyMoves(e.children[i], p.children[i], Move(Inner(e.style, pos), e.style.direction, Offset(e.children, i, e.style)));
    }
  }

  /** The coordinate of a point along `a`. */
  function Coord(p: Point, a: Axis): real
  {
    if a == Horizontal then p.x else p.y
  }

  /** With non-negative sizes and spacing, the placed children follow one
      another along the direction without overlapping, and all sit at the
      same place across it. */
  lemma PlacedInOrder(e: Element, p: Element, pos: Point, i: nat, j: nat)
    requires Placed(e, p, pos)
    requires i < j < |e.children| && e.style.spacing >= 0.0
    requires forall k :: 0 <= k < |e.children| ==> Along(e.children[k].currentSize, e.style.direction) >= 0.0
    ensures (var d, c := e.style.direction, p.children;
      && Coord(c[i].position, d) + Along(c[i].currentSize, d) <= Coord(c[j].position, d)
      && Coord(c[i].position, Other(d)) == Coord(c[j].position, Other(d)) == Coord(Inner(e.style, pos), Other(d)))
  {
    var d := e.style.direction;
    var kids := e.children;
    assert p.children[i].currentSize == kids[i].currentSize;
    OffsetGrows(kids, i, j, e.style);
  }

  /** Child `j` starts at least the size of child `i` and a gap after it. */
  lemma {:induction false} OffsetGrows(kids: seq<Element>, i: nat, j: nat, style: Style)
    requires i < j <= |kids| && style.spacing >= 0.0
    requires forall k :: 0 <= k < |kids| ==> Along(kids[k].currentSize, style.direction) >= 0.0
    ensures Offset(kids, i, style) + Along(kids[i].currentSize, style.direction) <= Offset(kids, j, style)
    decreases j
  {
    var d := style.direction;
    assert kids[..j][..j - 1] == kids[..j - 1];
    if j > i + 1 {
      OffsetGrows(kids, i, j - 1, style);
    }
  }

  // ------------------------------------------------------------ recreate

  /** The answer `RecreateRequired` gives for `e`: an override answers
      for itself, the base rule asks every child and reports whether any
      said yes. */
  function Required(e: Element): bool
    decreases e, 1
  {
    match e.kind
    case Custom(r) => r
    case Plain => AnyRequired(e.children)
  }

  function AnyRequired(kids: seq<Element>): bool
    decreases kids, 0
  {
    kids != [] && (AnyRequired(kids[..|kids| - 1]) || Required(kids[|kids| - 1]))
  }

  /** `f` is `e` after `RecreateRequired`: nothing changes where nothing
      was required; otherwise a base-rule element has its children
      refreshed and its minimum size recomputed around them. */
  ghost predicate Refreshed(e: Element, f: Element)
    decreases f
  {
    if !Required(e) || e.kind.Custom? then f == e
    else
      && f == e.(children := f.children, minSize := f.minSize)
      && |f.children| == |e.children|
      && MinSized(f.minSize, e.style, f.children)
      && forall i :: 0 <= i < |e.children| ==> Refreshed(e.children[i], f.children[i])
  }

  /** `RecreateRequired`: every child is asked (none is skipped once one
      says yes), and a yes makes the element recompute its minimum size. */
  method RecreateRequired(e: Element) returns (f: Element, r: bool)
    ensures r == Required(e) && Refreshed(e, f)
    decreases Depth(e), 0
  {
    if e.kind.Custom? {
      return e, e.kind.required;
    }
    var out;
    out, r := RecreateChildren(e.children);
    if r {
      var m := MinSizeOf(e.style, out);
      f := e.(children := out, minSize := m);
    } else {
      f := e;
    }
  }

  method RecreateChildren(kids: seq<Element>) returns (out: seq<Element>, r: bool)
    ensures r == AnyRequired(kids) && |out| == |kids|
    ensures forall i :: 0 <= i < |kids| ==> Refreshed(kids[i], out[i])
    ensures !r ==> out == kids
    decreases Deepest(kids), 1
  {
    out := [];
    r := false;
    for i := 0 to |kids|
      invariant |out| == i && r == AnyRequired(kids[..i])
      invariant forall j :: 0 <= j < i ==> Refreshed(kids[j], out[j])
      invariant !r ==> out == kids[..i]
    {
      var c, ri := RecreateRequired(kids[i]);
      assert kids[..i + 1][..i] == kids[..i];
      out := out + [c];
      r := r || ri;
    }
    assert kids[..|kids|] == kids;
  }

  /** Whether some element of the tree overrides `RecreateRequired`. */
  function Overrides(e: Element): bool
    decreases e, 1
  {
    e.kind.Custom? || AnyOverrides(e.children)
  }

  function AnyOverrides(kids: seq<Element>): bool
    decreases kids, 0
  {
    kids != [] && (AnyOverrides(kids[..|kids| - 1]) || Overrides(kids[|kids| - 1]))
  }

  /** Only an override can start a recreate: under the base rule alone a
      tree never asks for one, and `RecreateRequired` leaves it as it is. */
  lemma {:induction false} RequiredNeedsOverride(e: Element)
    ensures Required(e) ==> Overrides(e)
    decreases e, 1
  {
    if e.kind.Plain? {
      AnyRequiredNeedsOverride(e.children);
    }
  }

  lemma {:induction false} AnyRequiredNeedsOverride(kids: seq<Element>)
    ensures AnyRequired(kids) ==> AnyOverrides(kids)
    decreases kids, 0
  {
    if kids != [] {
      AnyRequiredNeedsOverride(kids[..|kids| - 1]);
      RequiredNeedsOverride(kids[|kids| - 1]);
    }
  }

  // -------------------------------------------------------------- layout

  /** `ComputeLayout`: fit across then down, grow across then down, and
      place the tree at its own position. */
  method ComputeLayout(e: Element, fuel: nat) returns (l: Element)
    ensures exists h, v, gh, gv ::
      && Refits(e, h, Horizontal) && Fitted(h, Horizontal)
      && Refits(h, v, Vertical) && Fitted(v, Vertical)
      && Grown(v, gh, Horizontal) && Grown(gh, gv, Vertical)
      && Placed(gv, l, e.position)
  {
    var h, _ := Fit(e, Horizontal);
    var v, _ := Fit(h, Vertical);
    var gh := GrowPass(v, Horizontal, fuel);
    var gv := GrowPass(gh, Vertical, fuel);
    GrownKeepsSize(v, gh, Horizontal);
    GrownKeepsSize(gh, gv, Vertical);
    l := SetPosition(gv, e.position);
  }

  /** The corner radius `Render` draws with: the style's, cut to half the
      smaller side when it is larger. */
  function CornerRadius(e: Element): (r: real)
    ensures r <= e.style.cornerRadius
    ensures 2.0 * r <= Min(e.currentSize.width, e.currentSize.height) || r == e.style.cornerRadius
    ensures 2.0 * e.style.cornerRadius <= Min(e.currentSize.width, e.currentSize.height) ==> r == e.style.cornerRadius
    ensures 2.0 * e.style.cornerRadius > Min(e.currentSize.width, e.currentSize.height) ==> 2.0 * r == Min(e.currentSize.width, e.currentSize.height)
  {
    var smaller := Min(e.currentSize.width, e.currentSize.height);
    if e.style.cornerRadius * 2.0 > smaller then smaller / 2.0 else e.style.cornerRadius
  }
}
