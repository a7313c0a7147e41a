/** The header-only `Memory::Buffer<T>` of src/memory/buffer.h: a device buffer
    of `instanceCount` instances, each `alignmentSize` bytes wide on the device,
    that can be mapped into host memory, written through the mapping, flushed
    and invalidated. Device memory is a map from byte offset to byte, and a `T`
    is its object representation of `sizeOfT` bytes. The mapping is a `T*`, so
    host-side indexing strides `sizeOfT` bytes while every device range strides
    `alignmentSize`. Sizes and offsets are `vk::DeviceSize` values computed with
    64-bit wrap-around; the Vulkan calls that flush and invalidate are recorded
    as the byte ranges they are given. */
module BufferTemplate {
  import opened Bits
  import opened Wrappers

  /** `vk::WholeSize`. */
  const WHOLE_SIZE: nat := U64_MAX
  /** `VK_MEMORY_PROPERTY_HOST_VISIBLE_BIT`. */
  const HOST_VISIBLE: bv32 := 0x2

  /** Rounds `size` up with the mask trick `(size + alignment - 1) & ~(alignment - 1)`
      on 64-bit unsigned values; an alignment of 0 leaves the size as it is. */
  function GetAlignment(size: nat, alignment: nat): (r: nat)
    requires size <= U64_MAX && alignment <= U64_MAX
    ensures r <= U64_MAX
    ensures alignment == 0 ==> r == size
  {
    if alignment > 0 then And(Add64(size, alignment - 1), Not64(alignment - 1)) else size
  }

  /** For a power-of-two alignment the mask trick yields the least multiple of
      the alignment that is at least `size`. */
  lemma AlignmentRoundsUp(size: nat, k: nat)
    requires k < 64 && size + Pow2(k) - 1 <= U64_MAX
    ensures Pow2(k) <= U64_MAX
    ensures GetAlignment(size, Pow2(k)) % Pow2(k) == 0
    ensures size <= GetAlignment(size, Pow2(k)) < size + Pow2(k)
  {
    var a := Pow2(k);
    var y := size + a - 1;
    MaskedIsFloor(size, k);
    FloorBounds(y, a);
  }

  /** The mask computation equals rounding `size + a - 1` down to a multiple of `a`. */
  lemma MaskedIsFloor(size: nat, k: nat)
    requires k < 64 && size + Pow2(k) - 1 <= U64_MAX
    ensures Pow2(k) <= U64_MAX
    ensures GetAlignment(size, Pow2(k)) == ((size + Pow2(k) - 1) / Pow2(k)) * Pow2(k)
  {
    Pow2Below64(k);
    var y := size + Pow2(k) - 1;
    assert GetAlignment(size, Pow2(k)) == And(y, TWO_64 - Pow2(k));
    AndMask64(y, k);
    ClearLowIsFloor(y, k);
  }

  lemma FloorBounds(y: nat, a: nat)
    requires a > 0
    ensures (y / a) * a <= y < (y / a) * a + a
    ensures ((y / a) * a) % a == 0
  {
    MultipleMod(y / a, a);
  }

  lemma MultipleMod(q: nat, a: nat)
    requires a > 0
    ensures (q * a) % a == 0
  {
    DivUniqueMod(q * a, a, q);
  }

  lemma DivUniqueMod(x: nat, a: nat, q: nat)
    requires a > 0 && x == q * a
    ensures x % a == 0
  {
    DivUnique(x, a, q, 0);
  }

  /** A `vk::MappedMemoryRange`: offset and size in bytes. */
  datatype MemoryRange = MemoryRange(offset: nat, size: nat)

  /** A `vk::DescriptorBufferInfo` without its buffer handle. */
  datatype DescriptorBufferInfo = DescriptorBufferInfo(offset: nat, range: nat)

  /** A `vk::BufferCopy` region, in bytes. */
  datatype BufferCopy = BufferCopy(srcOffset: nat, dstOffset: nat, size: nat)

  /** `memory` after `memcpy(base, data, count)`. */
  function Stored<T>(memory: map<nat, T>, base: nat, data: seq<T>, count: nat): (m: map<nat, T>)
    requires count <= |data|
    ensures forall i :: i in m <==> i in memory || base <= i < base + count
    ensures forall i :: base <= i < base + count ==> m[i] == data[i - base]
    ensures forall i :: i in memory && !(base <= i < base + count) ==> m[i] == memory[i]
  {
    memory + map i: nat | base <= i < base + count :: Shifted(data, base, i)
  }

  function Shifted<T>(data: seq<T>, base: nat, i: nat): T
    requires base <= i < base + |data|
  {
    data[i - base]
  }

  /** Every byte of `[base, base + n)` is present. */
  ghost predicate Present(memory: map<nat, bv8>, base: nat, n: nat)
  {
    forall i :: base <= i < base + n ==> i in memory
  }

  /** The `n` bytes from `base` on, as a `T` read through a pointer sees them. */
  function Load(memory: map<nat, bv8>, base: nat, n: nat): (r: seq<bv8>)
    requires Present(memory, base, n)
    ensures |r| == n && forall k :: 0 <= k < n ==> r[k] == memory[base + k]
  {
    seq(n, k requires 0 <= k < n && base + k in memory => memory[base + k])
  }

  class Buffer {
    const instanceCount: nat
    /** `sizeof(T)`. */
    const sizeOfT: U64
    const alignmentSize: U64
    const memoryProperties: bv32

    /** The device memory, by byte offset. */
    var memory: map<nat, bv8>
    /** `m_mapped != nullptr`. */
    var mapped: bool
    /** `m_mappedRange`; `m_mapped` points at its offset. */
    var mappedRange: MemoryRange
    /** Ranges handed to `flushMappedMemoryRanges` and `invalidateMappedMemoryRanges`. */
    var flushed: seq<MemoryRange>
    var invalidated: seq<MemoryRange>

    ghost predicate Valid()
      reads this
    {
      Present(memory, 0, Size())
    }

    /** The constructor; `initial` stands for the unspecified contents of the
        freshly allocated memory. */
    constructor (instanceCount: nat, sizeOfT: nat, properties: bv32, minOffsetAlignment: nat, initial: seq<bv8>)
      requires instanceCount <= U32_MAX && sizeOfT <= U64_MAX && minOffsetAlignment <= U64_MAX
      requires |initial| == Mul64(instanceCount, GetAlignment(sizeOfT, minOffsetAlignment))
      ensures Valid()
      ensures this.instanceCount == instanceCount && this.sizeOfT == sizeOfT && memoryProperties == properties
      ensures alignmentSize == GetAlignment(sizeOfT, minOffsetAlignment)
      ensures !mapped && flushed == [] && invalidated == []
      ensures forall i :: 0 <= i < |initial| ==> memory[i] == initial[i]
    {
      this.instanceCount := instanceCount;
      this.sizeOfT := sizeOfT;
      this.memoryProperties := properties;
      alignmentSize := GetAlignment(sizeOfT, minOffsetAlignment);
      memory := map i | 0 <= i < |initial| :: initial[i];
      mapped := false;
      mappedRange := MemoryRange(0, 0);
      flushed := [];
      invalidated := [];
    }

    /** `Size()`: the byte size of the whole buffer, a 64-bit product. */
    function Size(): (s: nat)
      reads this
      ensures s <= U64_MAX
      ensures instanceCount * alignmentSize <= U64_MAX ==>
        (instanceCount > 0 ==> s >= alignmentSize) && (alignmentSize > 0 ==> s >= instanceCount)
    {
      if instanceCount * alignmentSize <= U64_MAX then
        MulAtLeast(instanceCount, alignmentSize);
        Mul64(instanceCount, alignmentSize)
      else
        Mul64(instanceCount, alignmentSize)
    }

    predicate HostVisible()
      reads this
    {
      memoryProperties & HOST_VISIBLE != 0
    }

    method Map(count: nat, offset: nat)
      requires Valid()
      modifies this
      ensures Valid() && memory == old(memory)
      ensures flushed == old(flushed) && invalidated == old(invalidated)
      ensures !HostVisible() ==> mapped == old(mapped) && mappedRange == old(mappedRange)
      ensures HostVisible() && count == WHOLE_SIZE ==> mapped && mappedRange == MemoryRange(0, Size())
      ensures HostVisible() && count != WHOLE_SIZE ==>
        mapped && mappedRange == MemoryRange(Mul64(offset, alignmentSize), Mul64(count, alignmentSize))
    {
      if !HostVisible() {
        return;
      }
      var count, offset := count, offset;
      if count == WHOLE_SIZE {
        count, offset := instanceCount, 0;
      }
      mapped := true;
      mappedRange := MemoryRange(Mul64(offset, alignmentSize), Mul64(count, alignmentSize));
    }

    method Unmap()
      modifies this`mapped
      ensures !mapped
    {
      if mapped {
        mapped := false;
      }
    }

    /** The (count, offset) pair after `vk::WholeSize` is resolved. */
    function Resolve(count: nat, offset: nat): (r: (nat, nat))
      reads this
      ensures count == WHOLE_SIZE ==> r == (instanceCount, 0)
      ensures count != WHOLE_SIZE ==> r == (count, offset)
    {
      if count == WHOLE_SIZE then (instanceCount, 0) else (count, offset)
    }

    /** The byte `m_mapped + index` addresses: the mapping is a `T*`, so the
        index strides `sizeof(T)` bytes. */
    function HostByte(index: nat): nat
      reads this
    {
      mappedRange.offset + index * sizeOfT
    }

    /** Whether `Write(data, count, offset)` copies anything: the bounds test
        adds the two 64-bit values with wrap-around. */
    predicate WriteAccepted(count: nat, offset: nat)
      reads this
    {
      mapped && Add64(Resolve(count, offset).0, Resolve(count, offset).1) <= instanceCount
    }

    /** `Write`; `data` is the bytes from the data pointer on, of which `memcpy`
        reads `count * alignmentSize`. */
    method Write(data: seq<bv8>, count: nat, offset: nat)
      requires Valid()
      requires count <= U64_MAX && offset <= U64_MAX
      requires Mul64(Resolve(count, offset).0, alignmentSize) <= |data|
      modifies this`memory
      ensures Valid()
      ensures !WriteAccepted(count, offset) ==> memory == old(memory)
      ensures WriteAccepted(count, offset) ==>
        memory == Stored(old(memory), HostByte(Resolve(count, offset).1), data,
                         Mul64(Resolve(count, offset).0, alignmentSize))
    {
      if !mapped {
        return;
      }
      var (n, o) := Resolve(count, offset);
      if Add64(n, o) > instanceCount {
        return;
      }
      var bytes := Mul64(n, alignmentSize);
      StoredKeepsPresent(memory, HostByte(o), data, bytes, Size());
      memory := Stored(memory, HostByte(o), data, bytes);
    }

    method Flush(count: nat, offset: nat)
      modifies this`flushed
      ensures !mapped ==> flushed == old(flushed)
      ensures mapped && count == WHOLE_SIZE ==> flushed == old(flushed) + [mappedRange]
      ensures mapped && count != WHOLE_SIZE ==>
        flushed == old(flushed) + [MemoryRange(Mul64(offset, alignmentSize), Mul64(count, alignmentSize))]
    {
      if !mapped {
        return;
      }
      if count == WHOLE_SIZE {
        flushed := flushed + [mappedRange];
        return;
      }
      flushed := flushed + [MemoryRange(Mul64(offset, alignmentSize), Mul64(count, alignmentSize))];
    }

    method Invalidate(count: nat, offset: nat)
      modifies this`invalidated
      ensures !mapped ==> invalidated == old(invalidated)
      ensures mapped && count == WHOLE_SIZE ==> invalidated == old(invalidated) + [mappedRange]
      ensures mapped && count != WHOLE_SIZE ==>
        invalidated == old(invalidated) + [MemoryRange(Mul64(offset, alignmentSize), Mul64(count, alignmentSize))]
    {
      if !mapped {
        return;
      }
      if count == WHOLE_SIZE {
        invalidated := invalidated + [mappedRange];
        return;
      }
      invalidated := invalidated + [MemoryRange(Mul64(offset, alignmentSize), Mul64(count, alignmentSize))];
    }

    /** `DescriptorInfo`: none when the wrapped sum of count and offset passes
        the instance count, otherwise the byte offset and range of `count`
        instances from `offset`. */
    function DescriptorInfo(count: nat, offset: nat): (r: Option<DescriptorBufferInfo>)
      requires count <= U64_MAX && offset <= U64_MAX
      reads this
      ensures count == WHOLE_SIZE ==> r == Some(DescriptorBufferInfo(0, Size()))
      ensures count != WHOLE_SIZE ==> (r.None? <==> Add64(count, offset) > instanceCount)
      ensures count != WHOLE_SIZE && r.Some? ==>
        r.value == DescriptorBufferInfo(Mul64(offset, alignmentSize), Mul64(count, alignmentSize))
    {
      var (n, o) := Resolve(count, offset);
      if Add64(n, o) > instanceCount then None
      else Some(DescriptorBufferInfo(Mul64(o, alignmentSize), Mul64(n, alignmentSize)))
    }

    /** `ReadAt`: none for an index past the end, otherwise the `sizeof(T)`
        bytes at `m_mapped[index]` (which the source dereferences
        unconditionally). */
    function ReadAt(index: nat): (r: Option<seq<bv8>>)
      requires index < instanceCount ==> mapped && Present(memory, HostByte(index), sizeOfT)
      reads this
      ensures r.None? <==> index >= instanceCount
      ensures r.Some? ==> r.value == Load(memory, HostByte(index), sizeOfT)
    {
      if index >= instanceCount then None else Some(Load(memory, HostByte(index), sizeOfT))
    }

    /** `WriteAt`: `Write(&data, 1, index)`; `value` is the object and
        `following` the bytes after it, which `memcpy` also reads when
        `alignmentSize` exceeds `sizeof(T)`. */
    method WriteAt(index: nat, value: seq<bv8>, following: seq<bv8>)
      requires Valid()
      requires index <= U32_MAX && |value| == sizeOfT && alignmentSize <= |value| + |following|
      modifies this`memory
      ensures Valid()
      ensures index >= instanceCount || !mapped ==> memory == old(memory)
      ensures index < instanceCount && mapped ==>
        memory == Stored(old(memory), HostByte(index), value + following, alignmentSize)
    {
      if index >= instanceCount {
        return;
      }
      assert Mul64(1, alignmentSize) == alignmentSize;
      Write(value + following, 1, index);
    }

    method FlushAt(index: nat)
      requires index <= U32_MAX
      modifies this`flushed
      ensures index >= instanceCount || !mapped ==> flushed == old(flushed)
      ensures index < instanceCount && mapped ==>
        flushed == old(flushed) + [MemoryRange(Mul64(index, alignmentSize), alignmentSize)]
    {
      if index >= instanceCount {
        return;
      }
      Flush(1, index);
    }

    function DescriptorInfoAt(index: nat): (r: Option<DescriptorBufferInfo>)
      requires index <= U32_MAX
      reads this
      ensures r.None? <==> index >= instanceCount
      ensures r.Some? ==> r.value == DescriptorBufferInfo(Mul64(index, alignmentSize), alignmentSize)
    {
      if index >= instanceCount then None else DescriptorInfo(1, index)
    }

    method InvalidateAt(index: nat)
      requires index <= U32_MAX
      modifies this`invalidated
      ensures index >= instanceCount || !mapped ==> invalidated == old(invalidated)
      ensures index < instanceCount && mapped ==>
        invalidated == old(invalidated) + [MemoryRange(Mul64(index, alignmentSize), alignmentSize)]
    {
      if index >= instanceCount {
        return;
      }
      Invalidate(1, index);
    }

    /** The copy region `CopyBuffer` records: `vk::WholeSize` copies this
        buffer's instance count from offset 0 to offset 0. */
    function CopyRegion(count: nat, srcOffset: nat, dstOffset: nat): (r: BufferCopy)
      reads this
      ensures count == WHOLE_SIZE ==> r == BufferCopy(0, 0, Size())
      ensures count != WHOLE_SIZE ==>
        r == BufferCopy(Mul64(srcOffset, alignmentSize), Mul64(dstOffset, alignmentSize), Mul64(count, alignmentSize))
    {
      var (n, o) := Resolve(count, srcOffset);
      var d := if count == WHOLE_SIZE then 0 else dstOffset;
      BufferCopy(Mul64(o, alignmentSize), Mul64(d, alignmentSize), Mul64(n, alignmentSize))
    }

    /** The byte where instance `index` starts when the host side strides
        `alignmentSize`, as every device range of this class does. */
    function AlignedByte(index: nat): nat
      reads this
    {
      mappedRange.offset + index * alignmentSize
    }

    /** The corrected `WriteAt`: the object's `sizeof(T)` bytes go to the
        start of its aligned slot. */
    method WriteAtAligned(index: nat, value: seq<bv8>)
      requires Valid()
      requires |value| == sizeOfT
      modifies this`memory
      ensures Valid()
      ensures index >= instanceCount || !mapped ==> memory == old(memory)
      ensures index < instanceCount && mapped ==>
        memory == Stored(old(memory), AlignedByte(index), value, sizeOfT)
    {
      if index >= instanceCount || !mapped {
        return;
      }
      StoredKeepsPresent(memory, AlignedByte(index), value, sizeOfT, Size());
      memory := Stored(memory, AlignedByte(index), value, sizeOfT);
    }

    /** The corrected `ReadAt`: the `sizeof(T)` bytes at the start of the
        aligned slot. */
    function ReadAtAligned(index: nat): (r: Option<seq<bv8>>)
      requires index < instanceCount ==> mapped && Present(memory, AlignedByte(index), sizeOfT)
      reads this
      ensures r.None? <==> index >= instanceCount
      ensures r.Some? ==> r.value == Load(memory, AlignedByte(index), sizeOfT)
    {
      if index >= instanceCount then None else Some(Load(memory, AlignedByte(index), sizeOfT))
    }
  }

  lemma StoredKeepsPresent(memory: map<nat, bv8>, base: nat, data: seq<bv8>, count: nat, size: nat)
    requires count <= |data| && Present(memory, 0, size)
    ensures Present(Stored(memory, base, data, count), 0, size)
  {
  }

  lemma MulAtLeast(a: nat, b: nat)
    ensures a > 0 ==> a * b >= b
    ensures b > 0 ==> a * b >= a
  {
    if a > 0 { MulMono(1, a, b); }
    if b > 0 { MulMono(1, b, a); }
  }

  lemma MulMono(a: nat, b: nat, c: nat)
    requires a <= b
    ensures a * c <= b * c
  {
  }

  /** Reading back from where `memcpy` stored gives the first bytes copied. */
  lemma {:induction false} StoredThenLoad(memory: map<nat, bv8>, base: nat, data: seq<bv8>, count: nat, n: nat)
    requires n <= count <= |data|
    ensures Present(Stored(memory, base, data, count), base, n)
    ensures Load(Stored(memory, base, data, count), base, n) == data[..n]
  {
    var m := Stored(memory, base, data, count);
    var r := Load(m, base, n);
    forall k | 0 <= k < n
      ensures r[k] == data[..n][k]
    {
      assert m[base + k] == data[base + k - base];
    }
  }

  /** As written, an object written at an index is read back unchanged at
      that index: both `WriteAt` and `ReadAt` stride `sizeof(T)`. */
  lemma WriteAtThenReadAt(memory: map<nat, bv8>, at: nat, value: seq<bv8>, following: seq<bv8>, alignmentSize: nat)
    requires |value| <= alignmentSize <= |value| + |following|
    ensures Present(Stored(memory, at, value + following, alignmentSize), at, |value|)
    ensures Load(Stored(memory, at, value + following, alignmentSize), at, |value|) == value
  {
    StoredThenLoad(memory, at, value + following, alignmentSize, |value|);
    assert (value + following)[..|value|] == value;
  }

  /** As written, when `sizeof(T) < alignmentSize` a `WriteAt(index)` also
      overwrites the first byte of the object `ReadAt(index + 1)` sees, with
      the byte that follows the written object, and for `index > 0` it writes
      a byte below the range `FlushAt(index)` flushes over a mapping of the
      whole buffer. */
  lemma WriteAtOverrunsNext(memory: map<nat, bv8>, index: nat, sizeOfT: nat, alignmentSize: nat,
                            value: seq<bv8>, following: seq<bv8>)
    requires 0 < sizeOfT < alignmentSize <= |value| + |following| && |value| == sizeOfT
    ensures |following| > 0
    ensures Stored(memory, index * sizeOfT, value + following, alignmentSize)[(index + 1) * sizeOfT] == following[0]
    ensures 0 < index ==> index * sizeOfT < index * alignmentSize
  {
    var p := index * sizeOfT;
    MulSucc(index, sizeOfT);
    StoredAt(memory, p, value + following, alignmentSize, sizeOfT);
    if 0 < index {
      MulStrict(index, sizeOfT, alignmentSize);
    }
  }

  lemma StoredAt(memory: map<nat, bv8>, base: nat, data: seq<bv8>, count: nat, k: nat)
    requires k < count <= |data|
    ensures base + k in Stored(memory, base, data, count)
    ensures Stored(memory, base, data, count)[base + k] == data[k]
  {
  }

  lemma MulSucc(a: nat, b: nat)
    ensures (a + 1) * b == a * b + b
  {
  }

  lemma MulStrict(a: nat, b: nat, c: nat)
    requires 0 < a && b < c
    ensures a * b < a * c
  {
    assert a * (c - b) > 0;
  }

  /** A concrete case: a 4-byte `T` at a 256-byte alignment, mapped from 0.
      `WriteAt(1)` writes bytes 4 to 259, so byte 8, the first byte of the
      object `ReadAt(2)` reads, takes the byte after the data, and byte 4 lies
      outside the range 256 to 511 that `FlushAt(1)` flushes. */
  lemma WriteAtOverrunExample(memory: map<nat, bv8>, value: seq<bv8>, following: seq<bv8>)
    requires |value| == 4 && |following| == 252
    ensures 4 in Stored(memory, 4, value + following, 256)
    ensures Stored(memory, 4, value + following, 256)[8] == following[0]
    ensures !(Mul64(1, 256) <= 4 < Mul64(1, 256) + 256)
  {
    WriteAtOverrunsNext(memory, 1, 4, 256, value, following);
  }

  /** Corrected: an object written at its aligned slot is read back unchanged. */
  lemma AlignedWriteThenRead(memory: map<nat, bv8>, base: nat, index: nat, alignmentSize: nat, value: seq<bv8>)
    ensures Present(Stored(memory, base + index * alignmentSize, value, |value|), base + index * alignmentSize, |value|)
    ensures Load(Stored(memory, base + index * alignmentSize, value, |value|), base + index * alignmentSize, |value|) == value
  {
    StoredThenLoad(memory, base + index * alignmentSize, value, |value|, |value|);
  }

  /** Corrected: with `sizeof(T) <= alignmentSize`, writing one aligned slot
      leaves the object in every other slot as it was. */
  lemma AlignedWriteKeepsOthers(memory: map<nat, bv8>, base: nat, i: nat, j: nat, alignmentSize: nat, value: seq<bv8>)
    requires |value| <= alignmentSize && i != j
    requires Present(memory, base + j * alignmentSize, |value|)
    ensures Present(Stored(memory, base + i * alignmentSize, value, |value|), base + j * alignmentSize, |value|)
    ensures Load(Stored(memory, base + i * alignmentSize, value, |value|), base + j * alignmentSize, |value|)
         == Load(memory, base + j * alignmentSize, |value|)
  {
    var s, a := |value|, alignmentSize;
    if i < j {
      MulMono(i + 1, j, a);
      assert (i + 1) * a == i * a + a;
    } else {
      MulMono(j + 1, i, a);
      assert (j + 1) * a == j * a + a;
    }
    var m := Stored(memory, base + i * a, value, s);
    forall p | base + j * a <= p < base + j * a + s
      ensures p in m && m[p] == memory[p]
    {
    }
  }

  /** Corrected: every byte an aligned write changes lies inside the slot's
      aligned range, the one `FlushAt` and `DescriptorInfoAt` address. */
  lemma AlignedWriteStaysInSlot(memory: map<nat, bv8>, base: nat, index: nat, alignmentSize: nat, value: seq<bv8>)
    requires |value| <= alignmentSize
    ensures forall p :: p in Stored(memory, base + index * alignmentSize, value, |value|) &&
                        (p !in memory || Stored(memory, base + index * alignmentSize, value, |value|)[p] != memory[p])
                        ==> base + index * alignmentSize <= p < base + index * alignmentSize + alignmentSize
  {
  }

  /** Without wrap-around, a described range lies inside the buffer. */
  lemma DescriptorRangeWithin(count: nat, offset: nat, instanceCount: nat, alignmentSize: nat)
    requires count + offset <= instanceCount && instanceCount * alignmentSize <= U64_MAX
    ensures Mul64(offset, alignmentSize) + Mul64(count, alignmentSize) <= Mul64(instanceCount, alignmentSize)
  {
    MulMono(count + offset, instanceCount, alignmentSize);
    MulMono(count, instanceCount, alignmentSize);
    MulMono(offset, instanceCount, alignmentSize);
    assert (count + offset) * alignmentSize == count * alignmentSize + offset * alignmentSize;
  }

  /** The bounds test wraps: two instances from offset `2^64 - 2` sum to 0,
      so `DescriptorInfo` describes them for any buffer. */
  lemma WrappedRangeAccepted(b: Buffer)
    ensures b.DescriptorInfo(2, TWO_64 - 2).Some?
  {
    assert Add64(2, TWO_64 - 2) == 0;
  }
}
