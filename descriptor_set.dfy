/** Descriptor sets (src/memory/descriptor/set.cpp): a builder that records
    one write per bound resource against a layout, and the set that is
    allocated from a pool, patches itself into those writes and is freed
    back to the pool. The device calls that allocate, update and free are
    modelled by the pool's record of live sets. */
module DescriptorSet {
  import opened Wrappers
  import opened Vk
  import SL = SetLayout

  /** The resource a write points at. */
  datatype WriteInfo =
    | BufferInfo(buffer: nat, offset: nat, range: nat)
    | ImageInfo(sampler: nat, view: nat, layout: ImageLayout)

  /** `vk::WriteDescriptorSet`; `dstSet` is `None` for the null handle. */
  datatype Write = Write(dstSet: Option<nat>, dstBinding: nat, arrayElement: nat, kind: nat, count: nat, info: WriteInfo)

  /** The write `WriteBuffer`/`WriteImage` records for `binding`: nothing
      when the layout lacks the binding, otherwise one write of the layout's
      descriptor type, for array element 0 and one descriptor, with no
      destination set yet. */
  function WriteFor(layout: SL.Bindings, binding: nat, info: WriteInfo): (r: seq<Write>)
    ensures binding !in layout ==> r == []
    ensures binding in layout ==> |r| == 1 && r[0].dstSet.None? && r[0].dstBinding == binding
                                  && r[0].arrayElement == 0 && r[0].count == 1
                                  && r[0].kind == layout[binding].kind && r[0].info == info
  {
    if binding !in layout then []
    else [Write(None, binding, 0, layout[binding].kind, 1, info)]
  }

  /** Every write aimed at `set`, and otherwise unchanged. */
  function Patch(writes: seq<Write>, set_: nat): (r: seq<Write>)
    ensures |r| == |writes|
    ensures forall i :: 0 <= i < |r| ==> r[i].dstSet == Some(set_) && r[i].(dstSet := writes[i].dstSet) == writes[i]
  {
    if writes == [] then [] else [writes[0].(dstSet := Some(set_))] + Patch(writes[1..], set_)
  }

  /** `Pool`: which sets are allocated. Handles are the driver's; the model
      numbers them. */
  class Pool {
    var live: set<nat>
    var next: nat

    predicate Valid()
      reads this
    {
      forall h :: h in live ==> h < next
    }

    constructor ()
      ensures live == {} && Valid()
    {
      live, next := {}, 0;
    }

    /** `Allocate`: a set not already live becomes live. */
    method Allocate() returns (handle: nat)
      requires Valid()
      modifies this
      ensures Valid()
      ensures handle !in old(live) && live == old(live) + {handle}
    {
      handle := next;
      live, next := live + {next}, next + 1;
    }

    /** `Free`. */
    method Free(handle: nat)
      modifies this`live
      ensures live == old(live) - {handle}
    {
      live := live - {handle};
    }
  }

  /** `Set::Builder`. */
  class Builder {
    const pool: Pool
    const layout: SL.SetLayout
    var writes: seq<Write>

    constructor (pool: Pool, layout: SL.SetLayout)
      ensures this.pool == pool && this.layout == layout && writes == []
    {
      this.pool, this.layout, writes := pool, layout, [];
    }

    /** `WriteBuffer`: reports (as the source logs) a binding the layout
        lacks; otherwise appends its write. */
    method WriteBuffer(binding: nat, buffer: nat, offset: nat, range: nat) returns (missing: bool)
      modifies this`writes
      ensures missing <==> !layout.HasBinding(binding)
      ensures writes == old(writes) + WriteFor(layout.bindings, binding, BufferInfo(buffer, offset, range))
    {
      missing := !layout.HasBinding(binding);
      if missing {
        return;
      }
      var entry := layout.Binding(binding);
      writes := writes + [Write(None, binding, 0, entry.value.kind, 1, BufferInfo(buffer, offset, range))];
    }

    /** `WriteImage`: as `WriteBuffer`, for an image. */
    method WriteImage(binding: nat, sampler: nat, view: nat, imageLayout: ImageLayout) returns (missing: bool)
      modifies this`writes
      ensures missing <==> !layout.HasBinding(binding)
      ensures writes == old(writes) + WriteFor(layout.bindings, binding, ImageInfo(sampler, view, imageLayout))
    {
      missing := !layout.HasBinding(binding);
      if missing {
        return;
      }
      var entry := layout.Binding(binding);
      writes := writes + [Write(None, binding, 0, entry.value.kind, 1, ImageInfo(sampler, view, imageLayout))];
    }
  }

  /** `Set`: allocated from the builder's pool at construction and freed
      back to it when destroyed. */
  class Set {
    const pool: Pool
    const layout: SL.SetLayout
    const handle: nat

    /** Allocates the set and points every recorded write at it, in place
        in the builder. */
    constructor (builder: Builder)
      requires builder.pool.Valid()
      modifies builder, builder.pool
      ensures pool == builder.pool && layout == builder.layout
      ensures pool.Valid()
      ensures handle !in old(builder.pool.live) && pool.live == old(builder.pool.live) + {handle}
      ensures builder.writes == Patch(old(builder.writes), handle)
    {
      pool, layout := builder.pool, builder.layout;
      var h := builder.pool.Allocate();
      handle := h;
      new;
      ghost var original := builder.writes;
      var i := 0;
      while i < |builder.writes|
        invariant i <= |builder.writes| == |original|
        invariant builder.writes[..i] == Patch(original, h)[..i]
        invariant builder.writes[i..] == original[i..]
        invariant pool.Valid() && pool.live == old(builder.pool.live) + {h}
      {
        builder.writes := builder.writes[i := builder.writes[i].(dstSet := Some(h))];
        i := i + 1;
      }
      assert builder.writes == builder.writes[..i];
    }

    /** `~Set`. */
    method Destroy()
      modifies pool`live
      ensures pool.live == old(pool.live) - {handle}
    {
      pool.Free(handle);
    }
  }
}
