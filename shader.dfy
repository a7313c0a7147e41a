/** The shader vocabulary of src/shader/shader.h: the `Stage` bit mask with
    its operators, the reflected `Descriptor` and its ordering, and the
    `std::set<Descriptor>` a shader keeps its descriptors in. */
module Shader {
  import opened FlagSets

  type Stage = bv32

  const VERTEX: Stage := 0x1
  const TESSELLATION_CONTROL: Stage := 0x2
  const TESSELLATION_EVALUATION: Stage := 0x4
  const GEOMETRY: Stage := 0x8
  const FRAGMENT: Stage := 0x10
  const ALL_GRAPHICS: Stage := 0x1F
  const COMPUTE: Stage := 0x20
  const TASK: Stage := 0x40
  const MESH: Stage := 0x80
  const RAYGEN: Stage := 0x100
  const ANY_HIT: Stage := 0x200
  const CLOSEST_HIT: Stage := 0x400
  const MISS: Stage := 0x800
  const INTERSECTION: Stage := 0x1000
  const ALL_RAY_TRACING: Stage := 0x1F00
  const CALLABLE: Stage := 0x2000
  const ALL: Stage := 0x7FFF_FFFF

  /** The fourteen single stages, in declaration order. */
  function SingleStages(): seq<Stage>
  {
    [VERTEX, TESSELLATION_CONTROL, TESSELLATION_EVALUATION, GEOMETRY, FRAGMENT, COMPUTE,
     TASK, MESH, RAYGEN, ANY_HIT, CLOSEST_HIT, MISS, INTERSECTION, CALLABLE]
  }

  predicate PowerOfTwo(s: Stage)
  {
    s != 0 && s & (s - 1) == 0
  }

  /** Each single stage is one bit and no two share it; the two group
      values are the ORs of their members, and `All` covers every stage. */
  lemma StageBits()
    ensures forall i :: 0 <= i < |SingleStages()| ==> PowerOfTwo(SingleStages()[i])
    ensures forall i, j :: 0 <= i < j < |SingleStages()| ==> SingleStages()[i] & SingleStages()[j] == 0
    ensures ALL_GRAPHICS == VERTEX | TESSELLATION_CONTROL | TESSELLATION_EVALUATION | GEOMETRY | FRAGMENT
    ensures ALL_RAY_TRACING == RAYGEN | ANY_HIT | CLOSEST_HIT | MISS | INTERSECTION
    ensures forall i :: 0 <= i < |SingleStages()| ==> Covers(ALL, SingleStages()[i])
  {
  }

  /** `operator|`, and `|=` applied to its left operand: a mask holding
      both; `OrLeast` shows it is the least one. */
  function Or(lhs: Stage, rhs: Stage): (r: Stage)
    ensures Covers(r, lhs) && Covers(r, rhs)
  {
    CoversWiden(lhs, rhs, lhs);
    CoversWiden(rhs, lhs, rhs);
    assert rhs | lhs == lhs | rhs;
    lhs | rhs
  }

  lemma OrLeast(lhs: Stage, rhs: Stage, m: Stage)
    requires Covers(m, lhs) && Covers(m, rhs)
    ensures Covers(m, Or(lhs, rhs))
  {
    CoversOr(m, lhs, rhs);
  }

  /** `operator&`, and `&=` applied to its left operand: a mask both hold;
      `AndGreatest` shows it is the greatest one. */
  function And(lhs: Stage, rhs: Stage): (r: Stage)
    ensures Covers(lhs, r) && Covers(rhs, r)
  {
    lhs & rhs
  }

  lemma AndGreatest(lhs: Stage, rhs: Stage, m: Stage)
    requires Covers(lhs, m) && Covers(rhs, m)
    ensures Covers(And(lhs, rhs), m)
  {
    assert m & (lhs & rhs) == (m & lhs) & rhs;
  }

  /** A reflected descriptor; `kind` is the `vk::DescriptorType`. */
  datatype Descriptor = Descriptor(setIndex: nat, binding: nat, kind: nat, count: nat)

  /** `operator<=>`: by set, then by binding; type and count are ignored. */
  function Compare(a: Descriptor, b: Descriptor): (r: int)
    ensures r == 0 <==> a.setIndex == b.setIndex && a.binding == b.binding
    ensures r < 0 <==> a.setIndex < b.setIndex || (a.setIndex == b.setIndex && a.binding < b.binding)
  {
    if a.setIndex != b.setIndex then (if a.setIndex < b.setIndex then -1 else 1)
    else if a.binding < b.binding then -1
    else if a.binding == b.binding then 0
    else 1
  }

  /** The ordering is a strict weak order: antisymmetric and transitive. */
  lemma CompareOrder(a: Descriptor, b: Descriptor, c: Descriptor)
    ensures Compare(a, b) < 0 <==> Compare(b, a) > 0
    ensures Compare(a, b) < 0 && Compare(b, c) < 0 ==> Compare(a, c) < 0
    ensures Compare(a, b) == 0 && Compare(b, c) == 0 ==> Compare(a, c) == 0
  {
  }

  /** The descriptors in strictly increasing order, as a `std::set` holds
      them. */
  predicate Ordered(s: seq<Descriptor>)
  {
    forall i, j :: 0 <= i < j < |s| ==> Compare(s[i], s[j]) < 0
  }

  predicate HasKey(s: seq<Descriptor>, setIndex: nat, binding: nat)
  {
    exists i :: 0 <= i < |s| && s[i].setIndex == setIndex && s[i].binding == binding
  }

  /** `std::set::emplace`: a descriptor equivalent to a present one is
      dropped, any other goes in at its place in the order. */
  function Insert(s: seq<Descriptor>, d: Descriptor): seq<Descriptor>
  {
    if s == [] then [d]
    else if Compare(d, s[0]) < 0 then [d] + s
    else if Compare(d, s[0]) == 0 then s
    else [s[0]] + Insert(s[1..], d)
  }

  predicate SameKey(a: Descriptor, b: Descriptor)
  {
    a.setIndex == b.setIndex && a.binding == b.binding
  }

  /** Inserting a present key changes nothing; inserting a new one adds
      exactly that descriptor. */
  lemma InsertElements(s: seq<Descriptor>, d: Descriptor)
    requires Ordered(s)
    ensures HasKey(s, d.setIndex, d.binding) ==> Insert(s, d) == s
    ensures !HasKey(s, d.setIndex, d.binding) ==> forall x :: x in Insert(s, d) <==> x in s || x == d
  {
    if HasKey(s, d.setIndex, d.binding) {
      InsertPresent(s, d);
    } else {
      InsertAbsent(s, d);
    }
  }

  lemma {:induction false} InsertPresent(s: seq<Descriptor>, d: Descriptor)
    requires Ordered(s) && HasKey(s, d.setIndex, d.binding)
    ensures Insert(s, d) == s
  {
    var i :| 0 <= i < |s| && s[i].setIndex == d.setIndex && s[i].binding == d.binding;
    if i > 0 {
      assert Compare(s[0], s[i]) < 0;
      var tail := s[1..];
      assert s == [s[0]] + tail;
      TailOrdered(s);
      assert tail[i - 1] == s[i];
      InsertPresent(tail, d);
    }
  }

  lemma {:induction false} InsertAbsent(s: seq<Descriptor>, d: Descriptor)
    requires Ordered(s) && !HasKey(s, d.setIndex, d.binding)
    ensures forall x :: x in Insert(s, d) <==> x in s || x == d
  {
    if s != [] && Compare(d, s[0]) > 0 {
      var tail := s[1..];
      assert s == [s[0]] + tail;
      TailOrdered(s);
      assert !HasKey(tail, d.setIndex, d.binding) by {
        forall k | 0 <= k < |tail| ensures !(tail[k].setIndex == d.setIndex && tail[k].binding == d.binding) {
          assert tail[k] == s[k + 1];
        }
      }
      InsertAbsent(tail, d);
    }
  }

  /** A key is present after inserting `d` exactly when it was present
      before or is `d`'s. */
  lemma InsertKeys(s: seq<Descriptor>, d: Descriptor, st: nat, b: nat)
    requires Ordered(s)
    ensures HasKey(Insert(s, d), st, b) <==> HasKey(s, st, b) || (st == d.setIndex && b == d.binding)
  {
    InsertElements(s, d);
    var r := Insert(s, d);
    if !HasKey(s, d.setIndex, d.binding) {
      if HasKey(r, st, b) {
        var i :| 0 <= i < |r| && r[i].setIndex == st && r[i].binding == b;
        assert r[i] in r;
        if r[i] != d {
          var k :| 0 <= k < |s| && s[k] == r[i];
        }
      }
      if HasKey(s, st, b) {
        var k :| 0 <= k < |s| && s[k].setIndex == st && s[k].binding == b;
        assert s[k] in r;
        var i :| 0 <= i < |r| && r[i] == s[k];
      }
      if st == d.setIndex && b == d.binding {
        assert d in r;
        var i :| 0 <= i < |r| && r[i] == d;
      }
    }
  }

  /** A descriptor below every element of an ordered sequence can head it. */
  lemma ConsOrdered(x: Descriptor, t: seq<Descriptor>)
    requires Ordered(t)
    requires forall y :: y in t ==> Compare(x, y) < 0
    ensures Ordered([x] + t)
  {
    var r := [x] + t;
    forall i, j | 0 <= i < j < |r| ensures Compare(r[i], r[j]) < 0 {
      assert r[j] == t[j - 1];
      if i > 0 {
        assert r[i] == t[i - 1];
      }
    }
  }

  lemma TailOrdered(s: seq<Descriptor>)
    requires Ordered(s) && s != []
    ensures Ordered(s[1..])
    ensures forall y :: y in s[1..] ==> Compare(s[0], y) < 0
  {
    var t := s[1..];
    forall i, j | 0 <= i < j < |t| ensures Compare(t[i], t[j]) < 0 {
      assert t[i] == s[i + 1] && t[j] == s[j + 1];
    }
    forall y | y in t ensures Compare(s[0], y) < 0 {
      var k :| 0 <= k < |t| && t[k] == y;
      assert s[k + 1] == y;
    }
  }

  /** Inserting keeps the descriptors in order. */
  lemma {:induction false} InsertOrdered(s: seq<Descriptor>, d: Descriptor)
    requires Ordered(s)
    ensures Ordered(Insert(s, d))
  {
    if s == [] {
    } else if Compare(d, s[0]) < 0 {
      forall y | y in s ensures Compare(d, y) < 0 {
        if y != s[0] {
          var k :| 0 <= k < |s| && s[k] == y;
          CompareOrder(d, s[0], y);
        }
      }
      ConsOrdered(d, s);
    } else if Compare(d, s[0]) == 0 {
    } else {
      TailOrdered(s);
      InsertOrdered(s[1..], d);
      InsertElements(s[1..], d);
      ConsOrdered(s[0], Insert(s[1..], d));
    }
  }

  /** Two descriptors with one set and binding, whatever their types, leave
      one entry: the first. */
  lemma OneEntryPerBinding(a: Descriptor, b: Descriptor)
    requires a.setIndex == b.setIndex && a.binding == b.binding
    ensures Insert(Insert([], a), b) == [a]
  {
  }

  /** A push-constant block of the shader. */
  datatype PushConstantRange = PushConstantRange(size: nat, offset: nat)

  /** The keys of a list of reflected descriptors. */
  predicate Declares(reflected: seq<Descriptor>, setIndex: nat, binding: nat)
  {
    HasKey(reflected, setIndex, binding)
  }

  /** `x` is the `k`-th reflected descriptor and no earlier one has its set
      and binding. */
  predicate FirstAt(reflected: seq<Descriptor>, k: int, x: Descriptor)
  {
    0 <= k < |reflected| && reflected[k] == x && !HasKey(reflected[..k], x.setIndex, x.binding)
  }

  /** `x` is the first reflected descriptor with its set and binding, the
      one `std::set::emplace` keeps. */
  predicate FirstFound(reflected: seq<Descriptor>, x: Descriptor)
  {
    exists k :: 0 <= k < |reflected| && FirstAt(reflected, k, x)
  }

  /** Reflection inserts each descriptor it finds into `m_descriptors` in
      turn: the result is ordered, holds one entry per key found, and each
      entry is the first descriptor found with its key, type and count
      included. */
  method CollectDescriptors(reflected: seq<Descriptor>) returns (descriptors: seq<Descriptor>)
    ensures Ordered(descriptors)
    ensures forall st, b :: HasKey(descriptors, st, b) <==> Declares(reflected, st, b)
    ensures forall x :: x in descriptors ==> x in reflected
    ensures forall x :: x in descriptors ==> FirstFound(reflected, x)
  {
    descriptors := [];
    var i := 0;
    while i < |reflected|
      invariant i <= |reflected|
      invariant Ordered(descriptors)
      invariant forall st, b :: HasKey(descriptors, st, b) <==> HasKey(reflected[..i], st, b)
      invariant forall x :: x in descriptors ==> exists k :: 0 <= k < i && FirstAt(reflected, k, x)
    {
      var d := reflected[i];
      InsertOrdered(descriptors, d);
      KeepsFirst(reflected, i, descriptors);
      forall st, b ensures HasKey(Insert(descriptors, d), st, b) <==> HasKey(reflected[..i + 1], st, b) {
        InsertKeys(descriptors, d, st, b);
        PrefixKeys(reflected, i, st, b);
      }
      descriptors := Insert(descriptors, d);
      i := i + 1;
    }
    assert reflected[..i] == reflected;
    forall x | x in descriptors ensures x in reflected {
      var k :| 0 <= k < |reflected| && FirstAt(reflected, k, x);
    }
  }

  /** One emplace step: every entry is still the first descriptor found with
      its key. */
  lemma KeepsFirst(reflected: seq<Descriptor>, i: nat, s: seq<Descriptor>)
    requires i < |reflected| && Ordered(s)
    requires forall st, b :: HasKey(s, st, b) <==> HasKey(reflected[..i], st, b)
    requires forall x :: x in s ==> exists k :: 0 <= k < i && FirstAt(reflected, k, x)
    ensures forall x :: x in Insert(s, reflected[i]) ==> exists k :: 0 <= k < i + 1 && FirstAt(reflected, k, x)
  {
    var d := reflected[i];
    InsertElements(s, d);
    forall x | x in Insert(s, d) ensures exists k :: 0 <= k < i + 1 && FirstAt(reflected, k, x) {
      if x in s {
        var k :| 0 <= k < i && FirstAt(reflected, k, x);
      } else {
        assert x == d;
        assert FirstAt(reflected, i, d);
      }
    }
  }

  lemma PrefixKeys(reflected: seq<Descriptor>, i: nat, st: nat, b: nat)
    requires i < |reflected|
    ensures HasKey(reflected[..i + 1], st, b) <==> HasKey(reflected[..i], st, b) || (st == reflected[i].setIndex && b == reflected[i].binding)
  {
    var p := reflected[..i + 1];
    if HasKey(p, st, b) {
      var k :| 0 <= k < |p| && p[k].setIndex == st && p[k].binding == b;
      if k < i {
        assert reflected[..i][k] == p[k];
      }
    }
    if HasKey(reflected[..i], st, b) {
      var k :| 0 <= k < i && reflected[..i][k].setIndex == st && reflected[..i][k].binding == b;
      assert p[k] == reflected[..i][k];
    }
    assert p[i] == reflected[i];
  }

  /** The reflected state of one shader: its stage and the descriptors and
      push-constant ranges found in its code. */
  class Shader {
    const path: string
    const stage: Stage
    var valid: bool
    var changed: bool
    var descriptors: seq<Descriptor>
    var pushConstantRanges: seq<PushConstantRange>

    /** A new shader starts valid and unchanged, with the reflected
        descriptors collected into its ordered set. */
    constructor (path: string, stage: Stage, reflected: seq<Descriptor>, ranges: seq<PushConstantRange>)
      ensures this.path == path && this.stage == stage
      ensures valid && !changed
      ensures Ordered(descriptors)
      ensures forall st, b :: HasKey(descriptors, st, b) <==> Declares(reflected, st, b)
      ensures forall x :: x in descriptors ==> x in reflected
      ensures forall x :: x in descriptors ==> FirstFound(reflected, x)
      ensures pushConstantRanges == ranges
    {
      this.path, this.stage := path, stage;
      valid, changed := true, false;
      var collected := CollectDescriptors(reflected);
      descriptors := collected;
      pushConstantRanges := ranges;
    }
  }
}
