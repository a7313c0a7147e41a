/** `Coral::Memory::Buffer` of src/memory/buffer.cpp: the builder-configured
    buffer that succeeded the template of src/memory/buffer.h. Its flag
    builders collect single flag bits into sets that the constructor ORs
    together; its range checks throw instead of returning an empty optional. */
module Buffer {
  import opened Bits
  import opened Wrappers
  import BufferTemplate

  import opened FlagSets

  class Builder {
    var instanceSize: nat
    var instanceCount: nat
    var usageFlagSet: set<Flags>
    var memoryPropertyFlagSet: set<Flags>
    var deviceAlignment: nat

    constructor ()
      ensures instanceSize == 0 && instanceCount == 0 && deviceAlignment == 0
      ensures usageFlagSet == {} && memoryPropertyFlagSet == {}
    {
      instanceSize, instanceCount, deviceAlignment := 0, 0, 0;
      usageFlagSet, memoryPropertyFlagSet := {}, {};
    }

    method InstanceSize(size: nat) returns (self: Builder)
      modifies this`instanceSize
      ensures self == this && instanceSize == size
    {
      instanceSize := size;
      self := this;
    }

    method InstanceCount(count: nat) returns (self: Builder)
      modifies this`instanceCount
      ensures self == this && instanceCount == count
    {
      instanceCount := count;
      self := this;
    }

    method UsageFlags(flag: Flags) returns (self: Builder)
      modifies this`usageFlagSet
      ensures self == this && usageFlagSet == old(usageFlagSet) + {flag}
    {
      usageFlagSet := usageFlagSet + {flag};
      self := this;
    }

    method MemoryProperty(flag: Flags) returns (self: Builder)
      modifies this`memoryPropertyFlagSet
      ensures self == this && memoryPropertyFlagSet == old(memoryPropertyFlagSet) + {flag}
    {
      memoryPropertyFlagSet := memoryPropertyFlagSet + {flag};
      self := this;
    }

    method DeviceAlignment(alignment: nat) returns (self: Builder)
      modifies this`deviceAlignment
      ensures self == this && deviceAlignment == alignment
    {
      deviceAlignment := alignment;
      self := this;
    }
  }

  class Buffer {
    const instanceCount: nat
    const alignmentSize: U64
    const usageFlags: Flags
    const memoryPropertyFlags: Flags
    var mapped: bool
    var mappedRange: BufferTemplate.MemoryRange
    var flushed: seq<BufferTemplate.MemoryRange>
    var invalidated: seq<BufferTemplate.MemoryRange>

    constructor (builder: Builder)
      requires builder.instanceSize <= U64_MAX && builder.deviceAlignment <= U64_MAX
      ensures instanceCount == builder.instanceCount
      ensures alignmentSize == BufferTemplate.GetAlignment(builder.instanceSize, builder.deviceAlignment)
      ensures CoversAll(usageFlags, builder.usageFlagSet)
      ensures forall m: Flags :: CoversAll(m, builder.usageFlagSet) ==> Covers(m, usageFlags)
      ensures CoversAll(memoryPropertyFlags, builder.memoryPropertyFlagSet)
      ensures forall m: Flags :: CoversAll(m, builder.memoryPropertyFlagSet) ==> Covers(m, memoryPropertyFlags)
      ensures !mapped && flushed == [] && invalidated == []
    {
      var usage := OrAll(builder.usageFlagSet);
      var properties := OrAll(builder.memoryPropertyFlagSet);
      instanceCount := builder.instanceCount;
      usageFlags := usage;
      memoryPropertyFlags := properties;
      alignmentSize := BufferTemplate.GetAlignment(builder.instanceSize, builder.deviceAlignment);
      mapped := false;
      mappedRange := BufferTemplate.MemoryRange(0, 0);
      flushed, invalidated := [], [];
    }

    function Size(): (s: nat)
      reads this
      ensures s <= U64_MAX
      ensures instanceCount * alignmentSize <= U64_MAX ==>
        (instanceCount > 0 ==> s >= alignmentSize) && (alignmentSize > 0 ==> s >= instanceCount)
    {
      if instanceCount * alignmentSize <= U64_MAX then
        BufferTemplate.MulAtLeast(instanceCount, alignmentSize);
        Mul64(instanceCount, alignmentSize)
      else
        Mul64(instanceCount, alignmentSize)
    }

    method Flush(count: nat, offset: nat)
      modifies this`flushed
      ensures !mapped ==> flushed == old(flushed)
      ensures mapped && count == BufferTemplate.WHOLE_SIZE ==> flushed == old(flushed) + [mappedRange]
      ensures mapped && count != BufferTemplate.WHOLE_SIZE ==>
        flushed == old(flushed) + [BufferTemplate.MemoryRange(Mul64(offset, alignmentSize), Mul64(count, alignmentSize))]
    {
      if !mapped {
        return;
      }
      if count == BufferTemplate.WHOLE_SIZE {
        flushed := flushed + [mappedRange];
        return;
      }
      flushed := flushed + [BufferTemplate.MemoryRange(Mul64(offset, alignmentSize), Mul64(count, alignmentSize))];
    }

    method Invalidate(count: nat, offset: nat)
      modifies this`invalidated
      ensures !mapped ==> invalidated == old(invalidated)
      ensures mapped && count == BufferTemplate.WHOLE_SIZE ==> invalidated == old(invalidated) + [mappedRange]
      ensures mapped && count != BufferTemplate.WHOLE_SIZE ==>
        invalidated == old(invalidated) + [BufferTemplate.MemoryRange(Mul64(offset, alignmentSize), Mul64(count, alignmentSize))]
    {
      if !mapped {
        return;
      }
      if count == BufferTemplate.WHOLE_SIZE {
        invalidated := invalidated + [mappedRange];
        return;
      }
      invalidated := invalidated + [BufferTemplate.MemoryRange(Mul64(offset, alignmentSize), Mul64(count, alignmentSize))];
    }

    /** `DescriptorInfo`: throws when the wrapped sum of count and offset
        passes the instance count; `vk::WholeSize` describes the whole buffer
        from offset 0. */
    function DescriptorInfo(count: nat, offset: nat): (r: Result<BufferTemplate.DescriptorBufferInfo>)
      requires count <= U64_MAX && offset <= U64_MAX
      reads this
      ensures count == BufferTemplate.WHOLE_SIZE ==>
        r == Ok(BufferTemplate.DescriptorBufferInfo(0, Size()))
      ensures count != BufferTemplate.WHOLE_SIZE ==>
        (r.Err? <==> Add64(count, offset) > instanceCount)
      ensures count != BufferTemplate.WHOLE_SIZE && r.Ok? ==>
        r.value == BufferTemplate.DescriptorBufferInfo(Mul64(offset, alignmentSize), Mul64(count, alignmentSize))
    {
      var (n, o) := if count == BufferTemplate.WHOLE_SIZE then (instanceCount, 0) else (count, offset);
      if Add64(n, o) > instanceCount then Err("Buffer::DescriptorInfo : Instance count out of bounds")
      else Ok(BufferTemplate.DescriptorBufferInfo(Mul64(o, alignmentSize), Mul64(n, alignmentSize)))
    }

    method FlushAt(index: nat)
      requires index <= U32_MAX
      modifies this`flushed
      ensures !mapped || index >= instanceCount ==> flushed == old(flushed)
      ensures mapped && index < instanceCount ==>
        flushed == old(flushed) + [BufferTemplate.MemoryRange(Mul64(index, alignmentSize), alignmentSize)]
    {
      if !mapped {
        return;
      }
      if index >= instanceCount {
        return;
      }
      Flush(1, index);
    }

    function DescriptorInfoAt(index: nat): (r: Result<BufferTemplate.DescriptorBufferInfo>)
      requires index <= U32_MAX
      reads this
      ensures r.Err? <==> index >= instanceCount
      ensures r.Ok? ==> r.value == BufferTemplate.DescriptorBufferInfo(Mul64(index, alignmentSize), alignmentSize)
    {
      if index >= instanceCount then Err("Buffer::DescriptorInfoAt : Index out of bounds")
      else DescriptorInfo(1, index)
    }

    method InvalidateAt(index: nat)
      requires index <= U32_MAX
      modifies this`invalidated
      ensures index >= instanceCount || !mapped ==> invalidated == old(invalidated)
      ensures index < instanceCount && mapped ==>
        invalidated == old(invalidated) + [BufferTemplate.MemoryRange(Mul64(index, alignmentSize), alignmentSize)]
    {
      if index >= instanceCount {
        return;
      }
      Invalidate(1, index);
    }

    /** The region `CopyBuffer` submits, or none when the two alignment sizes
        differ (the source then only logs and copies nothing). */
    function CopyRegion(src: Buffer, count: nat, srcOffset: nat, dstOffset: nat): (r: Option<BufferTemplate.BufferCopy>)
      reads this, src
      ensures r.None? <==> alignmentSize != src.alignmentSize
      ensures r.Some? && count == BufferTemplate.WHOLE_SIZE ==>
        r.value.srcOffset == 0 && r.value.dstOffset == 0 &&
        (r.value.size == Size() || r.value.size == src.Size())
      ensures (r.Some? && count == BufferTemplate.WHOLE_SIZE &&
               instanceCount * alignmentSize <= U64_MAX && src.instanceCount * alignmentSize <= U64_MAX) ==>
        r.value.size <= Size() && r.value.size <= src.Size()
      ensures r.Some? && count != BufferTemplate.WHOLE_SIZE ==>
        r.value == BufferTemplate.BufferCopy(Mul64(srcOffset, alignmentSize), Mul64(dstOffset, alignmentSize), Mul64(count, alignmentSize))
    {
      if alignmentSize != src.alignmentSize then None
      else if count != BufferTemplate.WHOLE_SIZE then
        Some(BufferTemplate.BufferCopy(Mul64(srcOffset, alignmentSize), Mul64(dstOffset, alignmentSize), Mul64(count, alignmentSize)))
      else
        var n := if instanceCount <= src.instanceCount then instanceCount else src.instanceCount;
        assert n * alignmentSize <= instanceCount * alignmentSize by { BufferTemplate.MulMono(n, instanceCount, alignmentSize); }
        assert n * alignmentSize <= src.instanceCount * alignmentSize by { BufferTemplate.MulMono(n, src.instanceCount, alignmentSize); }
        Some(BufferTemplate.BufferCopy(0, 0, Mul64(n, alignmentSize)))
    }
  }

  /** The bounds test wraps: two instances from offset `2^64 - 2` sum to 0,
      so `DescriptorInfo` describes them instead of throwing. */
  lemma WrappedRangeAccepted(b: Buffer)
    ensures b.DescriptorInfo(2, TWO_64 - 2).Ok?
  {
    assert Add64(2, TWO_64 - 2) == 0;
  }
}
