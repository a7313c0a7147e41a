/** The merge at the heart of `Graphics::Pipeline::Builder::Build`
    (src/graphics/pipeline.cpp:126-154): every shader's reflected
    descriptors are folded into one set-layout builder per descriptor set,
    and its push-constant ranges into one list for the pipeline layout.
    Shaders are visited in the order their map yields them, each shader's
    descriptors in their set order; `Item` is one such visit. */
module LayoutMerge {
  import opened FlagSets
  import opened Shader
  import SL = SetLayout
  import Functionals

  /** One descriptor of one shader, with that shader's stage. */
  datatype Item = Item(stage: Stage, d: Descriptor)

  /** The visits one shader contributes. */
  function ShaderItems(stage: Stage, descriptors: seq<Descriptor>): (r: seq<Item>)
    ensures |r| == |descriptors|
    ensures forall i :: 0 <= i < |r| ==> r[i] == Item(stage, descriptors[i])
  {
    if descriptors == [] then []
    else [Item(stage, descriptors[0])] + ShaderItems(stage, descriptors[1..])
  }

  /** `layoutBuilders.resize(n)` when `n` is larger: empty builders are
      appended. */
  function Grow(layouts: seq<SL.Bindings>, n: nat): (r: seq<SL.Bindings>)
    ensures |r| == if n > |layouts| then n else |layouts|
    ensures forall s :: 0 <= s < |layouts| ==> r[s] == layouts[s]
    ensures forall s :: |layouts| <= s < |r| ==> r[s] == map[]
    decreases n - |layouts|
  {
    if n <= |layouts| then layouts else Grow(layouts + [map[]], n)
  }

  /** The body of the descriptor loop: make room for the descriptor's set,
      then OR the stage into an existing binding or add the binding with
      this stage, type and count. */
  function MergeOne(layouts: seq<SL.Bindings>, item: Item): seq<SL.Bindings>
  {
    var grown := Grow(layouts, item.d.setIndex + 1);
    var current := grown[item.d.setIndex];
    var b := item.d.binding;
    if b in current then
      grown[item.d.setIndex := current[b := current[b].(stageFlags := Or(current[b].stageFlags, item.stage))]]
    else
      grown[item.d.setIndex := SL.Emplace(current, SL.LayoutBinding(b, item.d.kind, item.d.count, item.stage))]
  }

  function MergeAll(layouts: seq<SL.Bindings>, items: seq<Item>): seq<SL.Bindings>
    decreases |items|
  {
    if items == [] then layouts else MergeAll(MergeOne(layouts, items[0]), items[1..])
  }

  function Max(a: nat, b: nat): nat
  {
    if a < b then b else a
  }

  /** One more than the highest set number visited, or 0. */
  function SetCount(items: seq<Item>): nat
  {
    if items == [] then 0 else Max(items[0].d.setIndex + 1, SetCount(items[1..]))
  }

  /** The visit is to binding `b` of set `s`. */
  function KeyIs(s: nat, b: nat): Item -> bool
  {
    (it: Item) => it.d.setIndex == s && it.d.binding == b
  }

  /** `KeyIs` as a plain predicate. */
  predicate AtKey(it: Item, s: nat, b: nat)
  {
    it.d.setIndex == s && it.d.binding == b
  }

  predicate Declared(items: seq<Item>, s: nat, b: nat)
  {
    exists i :: 0 <= i < |items| && AtKey(items[i], s, b)
  }

  /** `acc` ORed with the stage of every visit to binding `b` of set `s`. */
  function OrStages(acc: Flags, items: seq<Item>, s: nat, b: nat): Flags
    decreases |items|
  {
    if items == [] then acc
    else OrStages(if AtKey(items[0], s, b) then Or(acc, items[0].stage) else acc, items[1..], s, b)
  }

  /** The stages ORed together are covered: the starting mask and the
      stage of every visit to the binding. */
  lemma {:induction false} OrStagesCovers(acc: Flags, items: seq<Item>, s: nat, b: nat)
    ensures Covers(OrStages(acc, items, s, b), acc)
    ensures forall i :: 0 <= i < |items| && AtKey(items[i], s, b) ==> Covers(OrStages(acc, items, s, b), items[i].stage)
    decreases |items|
  {
    if items != [] {
      var x := items[0];
      var next := if AtKey(x, s, b) then Or(acc, x.stage) else acc;
      OrStagesCovers(next, items[1..], s, b);
      var r := OrStages(next, items[1..], s, b);
      assert r == OrStages(acc, items, s, b);
      if AtKey(x, s, b) {
        CoversTrans(r, next, acc);
        CoversTrans(r, next, x.stage);
      }
      forall i | 0 < i < |items| && AtKey(items[i], s, b) ensures Covers(r, items[i].stage) {
        assert items[1..][i - 1] == items[i];
      }
    }
  }

  /** Nothing else is ORed in: a mask covering the starting mask and every
      declaring stage covers the result. */
  lemma {:induction false} OrStagesLeast(acc: Flags, items: seq<Item>, s: nat, b: nat, m: Flags)
    requires Covers(m, acc)
    requires forall i :: 0 <= i < |items| && AtKey(items[i], s, b) ==> Covers(m, items[i].stage)
    ensures Covers(m, OrStages(acc, items, s, b))
    decreases |items|
  {
    if items != [] {
      var x := items[0];
      if AtKey(x, s, b) {
        OrLeast(acc, x.stage, m);
      }
      forall i | 0 <= i < |items[1..]| && AtKey(items[1..][i], s, b) ensures Covers(m, items[1..][i].stage) {
        assert items[1..][i] == items[i + 1];
      }
      OrStagesLeast(if AtKey(x, s, b) then Or(acc, x.stage) else acc, items[1..], s, b, m);
    }
  }

  lemma OrZero(f: Flags)
    ensures Or(0, f) == f
  {
  }

  lemma CoversTrans(a: Flags, b: Flags, c: Flags)
    requires Covers(a, b) && Covers(b, c)
    ensures Covers(a, c)
  {
    assert c & a == (c & b) & a;
    assert (c & b) & a == c & (b & a);
  }

  /** What one visit does to binding `b` of set `s`. */
  lemma MergeOneAt(layouts: seq<SL.Bindings>, x: Item, s: nat, b: nat)
    ensures |MergeOne(layouts, x)| == Max(|layouts|, x.d.setIndex + 1)
    ensures s < |MergeOne(layouts, x)| ==>
              (b in MergeOne(layouts, x)[s] <==> (s < |layouts| && b in layouts[s]) || AtKey(x, s, b))
    ensures s < |layouts| && b in layouts[s] ==>
              MergeOne(layouts, x)[s][b]
              == layouts[s][b].(stageFlags := if AtKey(x, s, b) then Or(layouts[s][b].stageFlags, x.stage)
                                              else layouts[s][b].stageFlags)
    ensures !(s < |layouts| && b in layouts[s]) && AtKey(x, s, b) ==>
              MergeOne(layouts, x)[s][b] == SL.LayoutBinding(b, x.d.kind, x.d.count, x.stage)
  {
    var grown := Grow(layouts, x.d.setIndex + 1);
    assert s < |grown| && s >= |layouts| ==> grown[s] == map[];
  }

  /** The merged builders: how many there are. */
  lemma {:induction false} MergeCount(layouts: seq<SL.Bindings>, items: seq<Item>)
    ensures |MergeAll(layouts, items)| == Max(|layouts|, SetCount(items))
    decreases |items|
  {
    if items != [] {
      MergeOneAt(layouts, items[0], 0, 0);
      MergeCount(MergeOne(layouts, items[0]), items[1..]);
    }
  }

  /** The merged builders, binding by binding: a binding is present exactly
      when it was already or some shader declares it; one that was present
      keeps its entry with every declaring stage ORed in; a new one takes
      the type and count of its first declaration and the OR of every
      declaring stage. */
  lemma {:induction false} MergeEntry(layouts: seq<SL.Bindings>, items: seq<Item>, s: nat, b: nat)
    ensures s < |MergeAll(layouts, items)| ==>
              (b in MergeAll(layouts, items)[s] <==> (s < |layouts| && b in layouts[s]) || Declared(items, s, b))
    ensures s < |layouts| && b in layouts[s] ==>
              s < |MergeAll(layouts, items)| && b in MergeAll(layouts, items)[s] &&
              MergeAll(layouts, items)[s][b]
              == layouts[s][b].(stageFlags := OrStages(layouts[s][b].stageFlags, items, s, b))
    ensures !(s < |layouts| && b in layouts[s]) && Declared(items, s, b) ==>
              s < |MergeAll(layouts, items)| && b in MergeAll(layouts, items)[s] &&
              var first := Functionals.FindIf(items, KeyIs(s, b)).value.d;
              MergeAll(layouts, items)[s][b] == SL.LayoutBinding(b, first.kind, first.count, OrStages(0, items, s, b))
    decreases |items|
  {
    if items != [] {
      var x := items[0];
      var rest := items[1..];
      var next := MergeOne(layouts, x);
      MergeOneAt(layouts, x, s, b);
      MergeEntry(next, rest, s, b);
      MergeCount(next, rest);
      MergeCount(layouts, items);
      assert MergeAll(layouts, items) == MergeAll(next, rest);
      assert Declared(items, s, b) <==> AtKey(x, s, b) || Declared(rest, s, b) by {
        if Declared(rest, s, b) {
          var i :| 0 <= i < |rest| && AtKey(rest[i], s, b);
          assert items[i + 1] == rest[i];
        }
        if Declared(items, s, b) && !AtKey(x, s, b) {
          var i :| 0 <= i < |items| && AtKey(items[i], s, b);
          assert rest[i - 1] == items[i];
        }
      }
      if AtKey(x, s, b) {
        assert KeyIs(s, b)(x);
        assert Functionals.FirstIndex(items, KeyIs(s, b)) == 0;
        OrZero(x.stage);
      } else if Declared(rest, s, b) {
        assert Functionals.FirstIndex(items, KeyIs(s, b)) == 1 + Functionals.FirstIndex(rest, KeyIs(s, b));
      }
    }
  }

  /** Every declared binding ends up in the layout of its set, holding at
      least every stage that declares it. */
  lemma EveryDeclarationBound(items: seq<Item>, i: nat)
    requires i < |items|
    ensures var s, b := items[i].d.setIndex, items[i].d.binding;
            s < |MergeAll([], items)| && b in MergeAll([], items)[s]
            && MergeAll([], items)[s][b].binding == b
            && Covers(MergeAll([], items)[s][b].stageFlags, items[i].stage)
  {
    var s, b := items[i].d.setIndex, items[i].d.binding;
    assert AtKey(items[i], s, b);
    MergeEntry([], items, s, b);
    OrStagesCovers(0, items, s, b);
  }

  // ---------------------------------------------------------------------
  // Push-constant ranges.

  /** `vk::PushConstantRange`. */
  datatype PushRange = PushRange(offset: nat, size: nat, stageFlags: Flags)

  /** One push-constant range of one shader, with that shader's stage. */
  datatype RangeItem = RangeItem(stage: Stage, range: PushConstantRange)

  /** The lambda handed to `FindIf`: same offset and size. */
  function SameBlock(offset: nat, size: nat): PushRange -> bool
  {
    (r: PushRange) => r.offset == offset && r.size == size
  }

  predicate HasRange(ranges: seq<PushRange>, offset: nat, size: nat)
  {
    Functionals.FindIf(ranges, SameBlock(offset, size)).Some?
  }

  /** The stage flags of the first range for the block. */
  function FlagsOf(ranges: seq<PushRange>, offset: nat, size: nat): Flags
    requires HasRange(ranges, offset, size)
  {
    Functionals.FindIf(ranges, SameBlock(offset, size)).value.stageFlags
  }

  /** The push-constant loop body as written: `FindIf` returns a copy, so
      the `|=` on a found range changes the copy only and the stored range
      keeps the stage of the shader that added it. */
  function PushAsWritten(ranges: seq<PushRange>, x: RangeItem): seq<PushRange>
  {
    var found := Functionals.FindIf(ranges, SameBlock(x.range.offset, x.range.size));
    if found.Some? then ranges
    else ranges + [PushRange(x.range.offset, x.range.size, x.stage)]
  }

  /** The evidently intended loop body: the stage is ORed into the stored
      range itself. */
  function PushMerged(ranges: seq<PushRange>, x: RangeItem): seq<PushRange>
  {
    var i := Functionals.FirstIndex(ranges, SameBlock(x.range.offset, x.range.size));
    if i < |ranges| then ranges[i := ranges[i].(stageFlags := Or(ranges[i].stageFlags, x.stage))]
    else ranges + [PushRange(x.range.offset, x.range.size, x.stage)]
  }

  function PushAllAsWritten(ranges: seq<PushRange>, items: seq<RangeItem>): seq<PushRange>
    decreases |items|
  {
    if items == [] then ranges else PushAllAsWritten(PushAsWritten(ranges, items[0]), items[1..])
  }

  function PushAllMerged(ranges: seq<PushRange>, items: seq<RangeItem>): seq<PushRange>
    decreases |items|
  {
    if items == [] then ranges else PushAllMerged(PushMerged(ranges, items[0]), items[1..])
  }

  predicate IsBlock(x: RangeItem, offset: nat, size: nat)
  {
    x.range.offset == offset && x.range.size == size
  }

  predicate DeclaresBlock(items: seq<RangeItem>, offset: nat, size: nat)
  {
    exists i :: 0 <= i < |items| && IsBlock(items[i], offset, size)
  }

  /** `acc` ORed with the stage of every shader declaring the block. */
  function OrBlockStages(acc: Flags, items: seq<RangeItem>, offset: nat, size: nat): Flags
    decreases |items|
  {
    if items == [] then acc
    else OrBlockStages(if IsBlock(items[0], offset, size) then Or(acc, items[0].stage) else acc, items[1..], offset, size)
  }

  /** The stage of the first shader declaring the block. */
  function FirstStage(items: seq<RangeItem>, offset: nat, size: nat): Flags
    requires DeclaresBlock(items, offset, size)
    decreases |items|
  {
    if IsBlock(items[0], offset, size) then items[0].stage
    else
      assert DeclaresBlock(items[1..], offset, size) by {
        var i :| 0 <= i < |items| && IsBlock(items[i], offset, size);
        assert items[1..][i - 1] == items[i];
      }
      FirstStage(items[1..], offset, size)
  }

  lemma DeclaresSplit(items: seq<RangeItem>, offset: nat, size: nat)
    requires items != []
    ensures DeclaresBlock(items, offset, size) <==> IsBlock(items[0], offset, size) || DeclaresBlock(items[1..], offset, size)
  {
    if DeclaresBlock(items[1..], offset, size) {
      var i :| 0 <= i < |items[1..]| && IsBlock(items[1..][i], offset, size);
      assert items[i + 1] == items[1..][i];
    }
    if DeclaresBlock(items, offset, size) && !IsBlock(items[0], offset, size) {
      var i :| 0 <= i < |items| && IsBlock(items[i], offset, size);
      assert items[1..][i - 1] == items[i];
    }
  }

  /** What one range does to the first stored range for a block, with the
      stage ORed in. */
  lemma PushMergedAt(ranges: seq<PushRange>, x: RangeItem, offset: nat, size: nat)
    ensures HasRange(PushMerged(ranges, x), offset, size) <==> HasRange(ranges, offset, size) || IsBlock(x, offset, size)
    ensures HasRange(ranges, offset, size) ==>
              FlagsOf(PushMerged(ranges, x), offset, size)
              == (if IsBlock(x, offset, size) then Or(FlagsOf(ranges, offset, size), x.stage) else FlagsOf(ranges, offset, size))
    ensures !HasRange(ranges, offset, size) && IsBlock(x, offset, size) ==>
              FlagsOf(PushMerged(ranges, x), offset, size) == x.stage
  {
    var p := SameBlock(offset, size);
    var q := SameBlock(x.range.offset, x.range.size);
    var j := Functionals.FirstIndex(ranges, q);
    if j < |ranges| {
      var u := ranges[j := ranges[j].(stageFlags := Or(ranges[j].stageFlags, x.stage))];
      FirstIndexUpdate(ranges, j, u[j], offset, size);
      assert PushMerged(ranges, x) == u;
      if IsBlock(x, offset, size) {
        assert p == q;
      }
    } else {
      FirstIndexSnoc(ranges, PushRange(x.range.offset, x.range.size, x.stage), p);
      if IsBlock(x, offset, size) {
        assert p == q;
      }
    }
  }

  /** What one range does to the first stored range for a block as
      written: a block already stored keeps its flags. */
  lemma PushAsWrittenAt(ranges: seq<PushRange>, x: RangeItem, offset: nat, size: nat)
    ensures HasRange(PushAsWritten(ranges, x), offset, size) <==> HasRange(ranges, offset, size) || IsBlock(x, offset, size)
    ensures HasRange(ranges, offset, size) ==>
              FlagsOf(PushAsWritten(ranges, x), offset, size) == FlagsOf(ranges, offset, size)
    ensures !HasRange(ranges, offset, size) && IsBlock(x, offset, size) ==>
              FlagsOf(PushAsWritten(ranges, x), offset, size) == x.stage
  {
    var p := SameBlock(offset, size);
    var q := SameBlock(x.range.offset, x.range.size);
    FirstIndexSnoc(ranges, PushRange(x.range.offset, x.range.size, x.stage), p);
    if IsBlock(x, offset, size) {
      assert p == q;
    }
  }

  /** Appending after the first match leaves it first; appending to a
      range without a match makes the new element the first when it
      matches. */
  lemma FirstIndexSnoc(ranges: seq<PushRange>, r: PushRange, p: PushRange -> bool)
    ensures Functionals.FirstIndex(ranges, p) < |ranges| ==>
              Functionals.FirstIndex(ranges + [r], p) == Functionals.FirstIndex(ranges, p)
    ensures Functionals.FirstIndex(ranges, p) == |ranges| ==>
              Functionals.FirstIndex(ranges + [r], p) == (if p(r) then |ranges| else |ranges| + 1)
  {
    var k := Functionals.FirstIndex(ranges, p);
    var k2 := Functionals.FirstIndex(ranges + [r], p);
    var t := ranges + [r];
    if k < |ranges| {
      assert t[k] == ranges[k];
    } else {
      assert t[|ranges|] == r;
    }
  }

  /** Replacing an element by one with the same offset and size keeps
      every block's first match where it was. */
  lemma FirstIndexUpdate(ranges: seq<PushRange>, j: nat, r: PushRange, offset: nat, size: nat)
    requires j < |ranges| && r.offset == ranges[j].offset && r.size == ranges[j].size
    ensures Functionals.FirstIndex(ranges[j := r], SameBlock(offset, size)) == Functionals.FirstIndex(ranges, SameBlock(offset, size))
  {
    var p := SameBlock(offset, size);
    var u := ranges[j := r];
    assert forall i :: 0 <= i < |u| ==> p(u[i]) == p(ranges[i]);
  }

  /** The evidently intended merge, over all ranges: a block is stored
      exactly when it was or some shader declares it, and its flags gain
      the stage of every shader declaring it. */
  lemma {:induction false} PushAllMergedEntry(ranges: seq<PushRange>, items: seq<RangeItem>, offset: nat, size: nat)
    ensures HasRange(PushAllMerged(ranges, items), offset, size) <==> HasRange(ranges, offset, size) || DeclaresBlock(items, offset, size)
    ensures HasRange(ranges, offset, size) ==>
              FlagsOf(PushAllMerged(ranges, items), offset, size) == OrBlockStages(FlagsOf(ranges, offset, size), items, offset, size)
    ensures !HasRange(ranges, offset, size) && DeclaresBlock(items, offset, size) ==>
              FlagsOf(PushAllMerged(ranges, items), offset, size) == OrBlockStages(0, items, offset, size)
    decreases |items|
  {
    if items != [] {
      var x := items[0];
      var next := PushMerged(ranges, x);
      PushMergedAt(ranges, x, offset, size);
      PushAllMergedEntry(next, items[1..], offset, size);
      DeclaresSplit(items, offset, size);
      if !HasRange(ranges, offset, size) && IsBlock(x, offset, size) {
        OrZero(x.stage);
      }
    }
  }

  /** The merge as written, over all ranges: the same blocks are stored,
      but each keeps the stage of the first shader that declared it. */
  lemma {:induction false} PushAllAsWrittenEntry(ranges: seq<PushRange>, items: seq<RangeItem>, offset: nat, size: nat)
    ensures HasRange(PushAllAsWritten(ranges, items), offset, size) <==> HasRange(ranges, offset, size) || DeclaresBlock(items, offset, size)
    ensures HasRange(ranges, offset, size) ==>
              FlagsOf(PushAllAsWritten(ranges, items), offset, size) == FlagsOf(ranges, offset, size)
    ensures !HasRange(ranges, offset, size) && DeclaresBlock(items, offset, size) ==>
              FlagsOf(PushAllAsWritten(ranges, items), offset, size) == FirstStage(items, offset, size)
    decreases |items|
  {
    if items != [] {
      var x := items[0];
      var next := PushAsWritten(ranges, x);
      PushAsWrittenAt(ranges, x, offset, size);
      PushAllAsWrittenEntry(next, items[1..], offset, size);
      DeclaresSplit(items, offset, size);
    }
  }

  /** Every stage declaring a block is ORed into it. */
  lemma {:induction false} OrBlockStagesCovers(acc: Flags, items: seq<RangeItem>, offset: nat, size: nat)
    ensures Covers(OrBlockStages(acc, items, offset, size), acc)
    ensures forall i :: 0 <= i < |items| && IsBlock(items[i], offset, size) ==>
              Covers(OrBlockStages(acc, items, offset, size), items[i].stage)
    decreases |items|
  {
    if items != [] {
      var x := items[0];
      var next := if IsBlock(x, offset, size) then Or(acc, x.stage) else acc;
      OrBlockStagesCovers(next, items[1..], offset, size);
      var r := OrBlockStages(next, items[1..], offset, size);
      assert r == OrBlockStages(acc, items, offset, size);
      if IsBlock(x, offset, size) {
        CoversTrans(r, next, acc);
        CoversTrans(r, next, x.stage);
      }
      forall i | 0 < i < |items| && IsBlock(items[i], offset, size) ensures Covers(r, items[i].stage) {
        assert items[1..][i - 1] == items[i];
      }
    }
  }

  /** With the evidently intended merge, the range for a block is usable
      from every stage that declares it. */
  lemma MergedRangeServesEveryStage(items: seq<RangeItem>, i: nat)
    requires i < |items|
    ensures HasRange(PushAllMerged([], items), items[i].range.offset, items[i].range.size)
    ensures Covers(FlagsOf(PushAllMerged([], items), items[i].range.offset, items[i].range.size), items[i].stage)
  {
    var o, sz := items[i].range.offset, items[i].range.size;
    assert IsBlock(items[i], o, sz);
    PushAllMergedEntry([], items, o, sz);
    OrBlockStagesCovers(0, items, o, sz);
  }

  /** A vertex and a fragment shader sharing a 64-byte block at offset 0:
      as written the pipeline layout gives the block to the vertex stage
      only; the intended merge gives it to both. */
  lemma CopyDropsLaterStages()
    ensures var items := [RangeItem(VERTEX, PushConstantRange(64, 0)), RangeItem(FRAGMENT, PushConstantRange(64, 0))];
            PushAllAsWritten([], items) == [PushRange(0, 64, VERTEX)]
            && PushAllMerged([], items) == [PushRange(0, 64, Or(VERTEX, FRAGMENT))]
            && !Covers(VERTEX, FRAGMENT)
  {
    var items := [RangeItem(VERTEX, PushConstantRange(64, 0)), RangeItem(FRAGMENT, PushConstantRange(64, 0))];
    var one := [PushRange(0, 64, VERTEX)];
    assert Functionals.FirstIndex([], SameBlock(0, 64)) == 0;
    assert PushAsWritten([], items[0]) == one;
    assert PushMerged([], items[0]) == one;
    assert Functionals.FirstIndex(one, SameBlock(0, 64)) == 0;
    assert PushAllAsWritten(one, items[1..]) == PushAllAsWritten(PushAsWritten(one, items[1]), []);
    assert PushAllMerged(one, items[1..]) == PushAllMerged(PushMerged(one, items[1]), []);
  }

  /** The range visits one shader contributes. */
  function ShaderRangeItems(stage: Stage, ranges: seq<PushConstantRange>): (r: seq<RangeItem>)
    ensures |r| == |ranges|
    ensures forall i :: 0 <= i < |r| ==> r[i] == RangeItem(stage, ranges[i])
  {
    if ranges == [] then []
    else [RangeItem(stage, ranges[0])] + ShaderRangeItems(stage, ranges[1..])
  }

  /** Folding over two lists in turn is folding over their concatenation. */
  lemma {:induction false} MergeAllAppend(layouts: seq<SL.Bindings>, a: seq<Item>, b: seq<Item>)
    ensures MergeAll(layouts, a + b) == MergeAll(MergeAll(layouts, a), b)
    decreases |a|
  {
    if a == [] {
      assert a + b == b;
    } else {
      assert (a + b)[0] == a[0] && (a + b)[1..] == a[1..] + b;
      assert MergeAll(layouts, a + b) == MergeAll(MergeOne(layouts, a[0]), a[1..] + b);
      MergeAllAppend(MergeOne(layouts, a[0]), a[1..], b);
    }
  }

  lemma {:induction false} PushAllMergedAppend(ranges: seq<PushRange>, a: seq<RangeItem>, b: seq<RangeItem>)
    ensures PushAllMerged(ranges, a + b) == PushAllMerged(PushAllMerged(ranges, a), b)
    decreases |a|
  {
    if a == [] {
      assert a + b == b;
    } else {
      assert (a + b)[0] == a[0] && (a + b)[1..] == a[1..] + b;
      assert PushAllMerged(ranges, a + b) == PushAllMerged(PushMerged(ranges, a[0]), a[1..] + b);
      PushAllMergedAppend(PushMerged(ranges, a[0]), a[1..], b);
    }
  }
}
