/** `Coral::Memory::Image` and its builder (src/memory/image.h,
    src/memory/image.cpp): a Vulkan image that remembers its current layout,
    records layout-transition barriers, computes mip extents for buffer
    copies, generates its mip chain by successive blits and can be
    recreated at a new extent. Driver calls are outside the model; the
    image handle is represented by a generation counter that every
    recreation advances. */
module Image {
  import opened Wrappers
  import opened Vk
  import opened FlagSets
  import Bits

  /** Access scope and pipeline stage of the work that uses an image in a
      given layout: a barrier leaving the layout waits for this scope and a
      barrier entering it makes memory available to it. */
  datatype Scope = Scope(access: Flags, stage: Flags)

  /** A `vk::ImageMemoryBarrier` over the whole image together with the
      stages handed to `pipelineBarrier`. */
  datatype LayoutBarrier = LayoutBarrier(
    oldLayout: ImageLayout, newLayout: ImageLayout,
    srcAccess: Flags, dstAccess: Flags,
    srcStage: Flags, dstStage: Flags,
    aspect: Flags, levelCount: nat, layerCount: nat)

  /** The `vk::BufferImageCopy` region of `Image::Copy`. */
  datatype BufferImageCopy = BufferImageCopy(
    aspect: Flags, mipLevel: nat, baseLayer: nat, layerCount: nat, extent: Extent3)

  /** One `vk::ImageBlit` of the mip chain: level `dstLevel` is produced
      from `srcLevel`; the extents are those of the blit offsets. */
  datatype MipBlit = MipBlit(
    srcLevel: nat, dstLevel: nat,
    srcWidth: nat, srcHeight: nat, dstWidth: nat, dstHeight: nat)

  /** The scope of each layout the transition table knows about. */
  function LayoutScope(layout: ImageLayout): Option<Scope>
  {
    match layout
    case LayoutUndefined => Some(Scope(ACCESS_NONE, STAGE_TOP_OF_PIPE))
    case ColorAttachmentOptimal =>
      Some(Scope(ACCESS_COLOR_ATTACHMENT_READ | ACCESS_COLOR_ATTACHMENT_WRITE, STAGE_COLOR_ATTACHMENT_OUTPUT))
    case TransferDstOptimal => Some(Scope(ACCESS_TRANSFER_WRITE, STAGE_TRANSFER))
    case DepthStencilAttachmentOptimal =>
      Some(Scope(ACCESS_DEPTH_STENCIL_ATTACHMENT_READ | ACCESS_DEPTH_STENCIL_ATTACHMENT_WRITE, STAGE_EARLY_FRAGMENT_TESTS))
    case ShaderReadOnlyOptimal => Some(Scope(ACCESS_SHADER_READ, STAGE_FRAGMENT_SHADER))
    case General => Some(Scope(ACCESS_MEMORY_READ | ACCESS_MEMORY_WRITE, STAGE_ALL_COMMANDS))
    case DepthReadOnlyOptimal => Some(Scope(ACCESS_DEPTH_STENCIL_ATTACHMENT_READ, STAGE_EARLY_FRAGMENT_TESTS))
    case PresentSrc => Some(Scope(ACCESS_COLOR_ATTACHMENT_READ, STAGE_TOP_OF_PIPE))
    case _ => None
  }

  /** The layout moves `TransitionLayout` supports. */
  predicate SupportedMove(from: ImageLayout, to: ImageLayout)
  {
    || (from == LayoutUndefined && to in {ColorAttachmentOptimal, TransferDstOptimal,
          DepthStencilAttachmentOptimal, ShaderReadOnlyOptimal, General,
          DepthReadOnlyOptimal, PresentSrc})
    || (from == TransferDstOptimal && to == ShaderReadOnlyOptimal)
    || (from == DepthStencilAttachmentOptimal && to == ShaderReadOnlyOptimal)
    || (from == ShaderReadOnlyOptimal && to in {TransferDstOptimal, LayoutUndefined})
  }

  /** Layouts the outer switch of the transition table has a case for. */
  predicate KnownSource(from: ImageLayout)
  {
    from in {LayoutUndefined, TransferDstOptimal, DepthStencilAttachmentOptimal, ShaderReadOnlyOptimal}
  }

  predicate IsDepthFormat(format: Format)
  {
    format == D32SfloatS8Uint || format == D24UnormS8Uint || format == D32Sfloat
  }

  predicate HasStencil(format: Format)
  {
    format == D32SfloatS8Uint || format == D24UnormS8Uint
  }

  /** Aspect of a layout-transition barrier: depth for the three depth
      formats, with stencil added when entering the depth-stencil attachment
      layout; colour otherwise. */
  function TransitionAspect(format: Format, newLayout: ImageLayout): (aspect: Flags)
    ensures Covers(aspect, ASPECT_COLOR) <==> !IsDepthFormat(format)
    ensures Covers(aspect, ASPECT_DEPTH) <==> IsDepthFormat(format)
    ensures Covers(aspect, ASPECT_STENCIL) <==>
      IsDepthFormat(format) && newLayout == DepthStencilAttachmentOptimal
  {
    if IsDepthFormat(format) then
      ASPECT_DEPTH | (if newLayout == DepthStencilAttachmentOptimal then ASPECT_STENCIL else 0)
    else ASPECT_COLOR
  }

  /** Aspect of an image chosen from its usage, shared by `Image::Barrier`
      and the `ImageView` constructor: depth when the image is a
      depth-stencil attachment, plus stencil for the two formats that carry
      one; colour otherwise. */
  function ViewAspect(usage: Flags, format: Format): (aspect: Flags)
    ensures Covers(aspect, ASPECT_COLOR) <==> usage & USAGE_DEPTH_STENCIL_ATTACHMENT == 0
    ensures Covers(aspect, ASPECT_DEPTH) <==> usage & USAGE_DEPTH_STENCIL_ATTACHMENT != 0
    ensures Covers(aspect, ASPECT_STENCIL) <==>
      usage & USAGE_DEPTH_STENCIL_ATTACHMENT != 0 && HasStencil(format)
  {
    if usage & USAGE_DEPTH_STENCIL_ATTACHMENT != 0 then
      ASPECT_DEPTH | (if HasStencil(format) then ASPECT_STENCIL else 0)
    else ASPECT_COLOR
  }

  /** A depth-stencil image with a stencil format gets the same aspect from
      the transition into its attachment layout as from its views; a colour
      image that is no depth attachment gets colour from both. */
  lemma TransitionAspectMatchesView(usage: Flags, format: Format)
    ensures usage & USAGE_DEPTH_STENCIL_ATTACHMENT != 0 && HasStencil(format) ==>
      TransitionAspect(format, DepthStencilAttachmentOptimal) == ViewAspect(usage, format)
    ensures usage & USAGE_DEPTH_STENCIL_ATTACHMENT == 0 && !IsDepthFormat(format) ==>
      forall layout :: TransitionAspect(format, layout) == ViewAspect(usage, format)
  {
  }

  /** The barrier `TransitionLayout` records for a move between two different
      layouts, with the `break` after the colour-attachment case in place;
      an unsupported move is the error the source throws. */
  function TransitionBarrier(from: ImageLayout, to: ImageLayout, format: Format,
                             levels: nat, layers: nat): (r: Result<LayoutBarrier>)
    ensures r.Ok? <==> SupportedMove(from, to)
    ensures r.Err? ==> r.msg == (if KnownSource(from) then "Unsupported new layout transition"
                                 else "Unsupported old layout transition")
    ensures r.Ok? ==>
      && LayoutScope(from).Some? && LayoutScope(to).Some?
      && r.value.oldLayout == from && r.value.newLayout == to
      && r.value.srcAccess == LayoutScope(from).value.access
      && r.value.srcStage == LayoutScope(from).value.stage
      && r.value.dstAccess == LayoutScope(to).value.access
      && r.value.dstStage == LayoutScope(to).value.stage
      && r.value.aspect == TransitionAspect(format, to)
      && r.value.levelCount == levels && r.value.layerCount == layers
  {
    var aspect := TransitionAspect(format, to);
    var unsupported := Err("Unsupported new layout transition");
    match from
    case LayoutUndefined =>
      var src := ACCESS_NONE;
      var srcStage := STAGE_TOP_OF_PIPE;
      (match to
       case ColorAttachmentOptimal =>
         Ok(LayoutBarrier(from, to, src, ACCESS_COLOR_ATTACHMENT_READ | ACCESS_COLOR_ATTACHMENT_WRITE,
                          srcStage, STAGE_COLOR_ATTACHMENT_OUTPUT, aspect, levels, layers))
       case TransferDstOptimal =>
         Ok(LayoutBarrier(from, to, src, ACCESS_TRANSFER_WRITE, srcStage, STAGE_TRANSFER, aspect, levels, layers))
       case DepthStencilAttachmentOptimal =>
         Ok(LayoutBarrier(from, to, src, ACCESS_DEPTH_STENCIL_ATTACHMENT_READ | ACCESS_DEPTH_STENCIL_ATTACHMENT_WRITE,
                          srcStage, STAGE_EARLY_FRAGMENT_TESTS, aspect, levels, layers))
       case ShaderReadOnlyOptimal =>
         Ok(LayoutBarrier(from, to, src, ACCESS_SHADER_READ, srcStage, STAGE_FRAGMENT_SHADER, aspect, levels, layers))
       case General =>
         Ok(LayoutBarrier(from, to, src, ACCESS_MEMORY_READ | ACCESS_MEMORY_WRITE,
                          srcStage, STAGE_ALL_COMMANDS, aspect, levels, layers))
       case DepthReadOnlyOptimal =>
         Ok(LayoutBarrier(from, to, src, ACCESS_DEPTH_STENCIL_ATTACHMENT_READ,
                          srcStage, STAGE_EARLY_FRAGMENT_TESTS, aspect, levels, layers))
       case PresentSrc =>
         Ok(LayoutBarrier(from, to, src, ACCESS_COLOR_ATTACHMENT_READ, srcStage, STAGE_TOP_OF_PIPE, aspect, levels, layers))
       case _ => unsupported)
    case TransferDstOptimal =>
      if to == ShaderReadOnlyOptimal then
        Ok(LayoutBarrier(from, to, ACCESS_TRANSFER_WRITE, ACCESS_SHADER_READ,
                         STAGE_TRANSFER, STAGE_FRAGMENT_SHADER, aspect, levels, layers))
      else unsupported
    case DepthStencilAttachmentOptimal =>
      if to == ShaderReadOnlyOptimal then
        Ok(LayoutBarrier(from, to, ACCESS_DEPTH_STENCIL_ATTACHMENT_READ | ACCESS_DEPTH_STENCIL_ATTACHMENT_WRITE,
                         ACCESS_SHADER_READ, STAGE_EARLY_FRAGMENT_TESTS, STAGE_FRAGMENT_SHADER, aspect, levels, layers))
      else unsupported
    case ShaderReadOnlyOptimal =>
      (match to
       case TransferDstOptimal =>
         Ok(LayoutBarrier(from, to, ACCESS_SHADER_READ, ACCESS_TRANSFER_WRITE,
                          STAGE_FRAGMENT_SHADER, STAGE_TRANSFER, aspect, levels, layers))
       case LayoutUndefined =>
         Ok(LayoutBarrier(from, to, ACCESS_SHADER_READ, ACCESS_NONE,
                          STAGE_FRAGMENT_SHADER, STAGE_TOP_OF_PIPE, aspect, levels, layers))
       case _ => unsupported)
    case _ => Err("Unsupported old layout transition")
  }

  /** The table as written: the case for the colour-attachment layout has no
      `break`, so execution falls into the transfer-destination case, whose
      assignments replace the destination access and stage. */
  function TransitionBarrierAsWritten(from: ImageLayout, to: ImageLayout, format: Format,
                                      levels: nat, layers: nat): (r: Result<LayoutBarrier>)
    ensures r.Ok? <==> SupportedMove(from, to)
    ensures !(from == LayoutUndefined && to == ColorAttachmentOptimal) ==>
      r == TransitionBarrier(from, to, format, levels, layers)
  {
    var r := TransitionBarrier(from, to, format, levels, layers);
    if from == LayoutUndefined && to == ColorAttachmentOptimal then
      Ok(r.value.(dstAccess := ACCESS_TRANSFER_WRITE, dstStage := STAGE_TRANSFER))
    else r
  }

  /** The fall-through leaves a freshly created colour attachment with a
      barrier whose destination scope is the transfer stage, so colour
      attachment reads and writes are not ordered after the transition. */
  lemma FallthroughDropsColorScope(format: Format, levels: nat, layers: nat)
    ensures var r := TransitionBarrierAsWritten(LayoutUndefined, ColorAttachmentOptimal, format, levels, layers);
      && r.Ok?
      && r.value.dstStage == STAGE_TRANSFER
      && r.value.dstAccess != LayoutScope(ColorAttachmentOptimal).value.access
      && !Covers(r.value.dstAccess, ACCESS_COLOR_ATTACHMENT_WRITE)
  {
  }

  /** Two supported moves in a row hand over the same scope: what the first
      barrier makes available is what the second one waits for. */
  lemma ConsecutiveBarriersAgree(a: ImageLayout, b: ImageLayout, c: ImageLayout,
                                 format: Format, levels: nat, layers: nat)
    requires SupportedMove(a, b) && SupportedMove(b, c)
    ensures TransitionBarrier(a, b, format, levels, layers).value.dstAccess ==
            TransitionBarrier(b, c, format, levels, layers).value.srcAccess
    ensures TransitionBarrier(a, b, format, levels, layers).value.dstStage ==
            TransitionBarrier(b, c, format, levels, layers).value.srcStage
  {
  }

  /** Layouts an image can rest in: undefined, or one a fresh image can be
      moved to directly. Every supported move ends in one of them. */
  predicate Resting(layout: ImageLayout)
  {
    layout == LayoutUndefined || SupportedMove(LayoutUndefined, layout)
  }

  lemma SupportedMoveEndsResting(from: ImageLayout, to: ImageLayout)
    requires SupportedMove(from, to)
    ensures Resting(to)
  {
  }

  /** One halving step of `Image::Copy`'s mip extent loop. */
  function Halve(d: nat): (h: nat)
    ensures h >= 1
    ensures d >= 1 ==> h <= d
  {
    if d / 2 >= 1 then d / 2 else 1
  }

  /** Extent of a dimension after `level` halving steps. */
  function MipDim(d: nat, level: nat): nat
  {
    if level == 0 then d else Halve(MipDim(d, level - 1))
  }

  function MipExtent(e: Extent3, level: nat): Extent3
  {
    Extent3(MipDim(e.width, level), MipDim(e.height, level), MipDim(e.depth, level))
  }

  /** The Vulkan rule for the extent of mip level `level`:
      `max(1, floor(d / 2^level))`. */
  function LevelExtent(d: nat, level: nat): nat
  {
    if level == 0 then d else if d / Bits.Pow2(level) >= 1 then d / Bits.Pow2(level) else 1
  }

  /** Halving `level` times gives the Vulkan mip extent. */
  lemma {:induction false} MipDimIsLevelExtent(d: nat, level: nat)
    ensures MipDim(d, level) == LevelExtent(d, level)
  {
    if level > 1 {
      MipDimIsLevelExtent(d, level - 1);
      var p := Bits.Pow2(level - 1);
      Bits.DivideThenHalve(d, p);
      assert Bits.Pow2(level) == 2 * p;
    }
  }

  /** The width stepping of `GenerateMipmaps`: halve while above one. */
  function StepDown(d: nat): nat
  {
    if d > 1 then d / 2 else d
  }

  lemma StepDownIsHalve(d: nat)
    requires d >= 1
    ensures StepDown(d) == Halve(d)
  {
  }

  lemma {:induction false} MipDimPositive(d: nat, level: nat)
    requires d >= 1
    ensures MipDim(d, level) >= 1
  {
    if level > 0 {
      MipDimPositive(d, level - 1);
    }
  }

  /** The blit that produces level `i + 1` of an image whose base level is
      `width` by `height`. */
  function ChainBlit(width: nat, height: nat, i: nat): MipBlit
  {
    MipBlit(i, i + 1, MipDim(width, i), MipDim(height, i),
            Halve(MipDim(width, i)), Halve(MipDim(height, i)))
  }

  class Builder {
    var image: Option<nat>
    var format: Format
    var extent: Extent3
    var usageFlagsSet: set<Flags>
    var sampleCount: nat
    var mipLevels: nat
    var maxMips: nat
    var layersCount: nat
    var layout: ImageLayout

    /** The defaults of the builder's member initialisers. */
    constructor ()
      ensures image == None && format == Undefined && extent == Extent3(1, 1, 1)
      ensures usageFlagsSet == {} && sampleCount == SAMPLES_1
      ensures mipLevels == 1 && maxMips == 1 && layersCount == 1 && layout == LayoutUndefined
    {
      image, format, extent := None, Undefined, Extent3(1, 1, 1);
      usageFlagsSet, sampleCount := {}, SAMPLES_1;
      mipLevels, maxMips, layersCount, layout := 1, 1, 1, LayoutUndefined;
    }

    method Image(handle: nat) returns (self: Builder)
      modifies this`image
      ensures self == this && image == Some(handle)
    {
      image := Some(handle);
      self := this;
    }

    method Format(f: Format) returns (self: Builder)
      modifies this`format
      ensures self == this && format == f
    {
      format := f;
      self := this;
    }

    method Extent(e: Extent3) returns (self: Builder)
      modifies this`extent
      ensures self == this && extent == e
    {
      extent := e;
      self := this;
    }

    method UsageFlags(flag: Flags) returns (self: Builder)
      modifies this`usageFlagsSet
      ensures self == this && usageFlagsSet == old(usageFlagsSet) + {flag}
    {
      usageFlagsSet := usageFlagsSet + {flag};
      self := this;
    }

    method SampleCount(count: nat) returns (self: Builder)
      modifies this`sampleCount
      ensures self == this && sampleCount == count
    {
      sampleCount := count;
      self := this;
    }

    method MipLevels(levels: nat) returns (self: Builder)
      modifies this`mipLevels
      ensures self == this && mipLevels == levels
    {
      mipLevels := levels;
      self := this;
    }

    method LayersCount(count: nat) returns (self: Builder)
      modifies this`layersCount
      ensures self == this && layersCount == count
    {
      layersCount := count;
      self := this;
    }

    method InitialLayout(l: ImageLayout) returns (self: Builder)
      modifies this`layout
      ensures self == this && layout == l
    {
      layout := l;
      self := this;
    }

    predicate ExtentSet()
      reads this
    {
      extent.width != 0 && extent.height != 0 && extent.depth != 0
    }

    /** Rejects an unset extent, creates the image and, for an image the
        builder does not wrap, moves it to the requested initial layout. */
    method Build() returns (r: Result<Image>)
      ensures !ExtentSet() ==> r == Err("Image : Extent must be set")
      ensures r.Ok? <==> ExtentSet() && (image.Some? || Resting(layout))
      ensures r.Err? && ExtentSet() ==> r.msg == "Unsupported new layout transition"
      ensures r.Ok? ==> fresh(r.value) && r.value.Valid()
      ensures r.Ok? ==> r.value.extent == extent && r.value.format == format
      ensures r.Ok? ==> r.value.layout == (if image.None? then layout else LayoutUndefined)
      ensures r.Ok? ==> r.value.mipLevels == mipLevels && r.value.layerCount == layersCount
      ensures r.Ok? ==> r.value.sampleCount == sampleCount
      ensures r.Ok? ==> CoversAll(r.value.usageFlags, usageFlagsSet)
      ensures r.Ok? ==> forall m: Flags :: CoversAll(m, usageFlagsSet) ==> Covers(m, r.value.usageFlags)
    {
      if !ExtentSet() {
        return Err("Image : Extent must be set");
      }
      var img := new Image(this);
      if layout != LayoutUndefined && image.None? {
        var moved := img.TransitionLayout(layout);
        if moved.Err? {
          return Err(moved.msg);
        }
      }
      r := Ok(img);
    }
  }

  class Image {
    const format: Format
    const usageFlags: Flags
    const sampleCount: nat
    const mipLevels: nat
    const layerCount: nat
    /** Cube-compatible exactly when the image has six layers. */
    const createFlags: Flags
    /** Whether the image allocated its own memory (it was not wrapped). */
    const ownsMemory: bool
    var extent: Extent3
    var layout: ImageLayout
    /** Advanced each time the Vulkan image is destroyed and recreated. */
    var generation: nat

    ghost predicate Valid()
      reads this
    {
      && extent.width >= 1 && extent.height >= 1 && extent.depth >= 1
      && Resting(layout)
    }

    /** The constructor before its closing transition: the image starts in
        the undefined layout. */
    constructor (builder: Builder)
      requires builder.ExtentSet()
      ensures Valid() && layout == LayoutUndefined && generation == 0
      ensures format == builder.format && extent == builder.extent
      ensures sampleCount == builder.sampleCount
      ensures mipLevels == builder.mipLevels && layerCount == builder.layersCount
      ensures ownsMemory <==> builder.image.None?
      ensures createFlags == (if builder.layersCount == 6 then CREATE_CUBE_COMPATIBLE else 0)
      ensures CoversAll(usageFlags, builder.usageFlagsSet)
      ensures forall m: Flags :: CoversAll(m, builder.usageFlagsSet) ==> Covers(m, usageFlags)
    {
      var usage := OrAll(builder.usageFlagsSet);
      format, extent, usageFlags := builder.format, builder.extent, usage;
      sampleCount, mipLevels, layerCount := builder.sampleCount, builder.mipLevels, builder.layersCount;
      createFlags := if builder.layersCount == 6 then CREATE_CUBE_COMPATIBLE else 0;
      ownsMemory := builder.image.None?;
      layout, generation := LayoutUndefined, 0;
    }

    /** Moves the image to `newLayout`, returning the barrier recorded, or
        none when it is already there; an unsupported move throws and leaves
        the layout as it was. */
    method TransitionLayout(newLayout: ImageLayout) returns (r: Result<Option<LayoutBarrier>>)
      requires Valid()
      modifies this`layout
      ensures Valid()
      ensures old(layout) == newLayout ==> r == Ok(None) && layout == newLayout
      ensures old(layout) != newLayout ==>
        var b := TransitionBarrier(old(layout), newLayout, format, mipLevels, layerCount);
        && (b.Ok? ==> r == Ok(Some(b.value)) && layout == newLayout)
        && (b.Err? ==> r == Err(b.msg) && layout == old(layout))
    {
      if layout == newLayout {
        return Ok(None);
      }
      var b := TransitionBarrier(layout, newLayout, format, mipLevels, layerCount);
      if b.Err? {
        return Err(b.msg);
      }
      SupportedMoveEndsResting(layout, newLayout);
      layout := newLayout;
      r := Ok(Some(b.value));
    }

    /** The region `Copy` hands to `copyBufferToImage`: the extent of the
        requested mip level of one layer, after the usage and range checks. */
    method Copy(mipLevel: nat, layer: nat) returns (r: Result<BufferImageCopy>)
      ensures usageFlags & USAGE_TRANSFER_DST == 0 ==>
        r == Err("Image : Image must have transfer destination usage flag")
      ensures usageFlags & USAGE_TRANSFER_DST != 0 && mipLevels <= mipLevel ==>
        r == Err("Image : Mip level out of range")
      ensures usageFlags & USAGE_TRANSFER_DST != 0 && mipLevel < mipLevels && layerCount <= layer ==>
        r == Err("Image : Layer out of range")
      ensures r.Ok? <==> usageFlags & USAGE_TRANSFER_DST != 0 && mipLevel < mipLevels && layer < layerCount
      ensures r.Ok? ==> r.value == BufferImageCopy(ASPECT_COLOR, mipLevel, layer, 1, MipExtent(extent, mipLevel))
    {
      if usageFlags & USAGE_TRANSFER_DST == 0 {
        return Err("Image : Image must have transfer destination usage flag");
      }
      if mipLevels <= mipLevel {
        return Err("Image : Mip level out of range");
      }
      if layerCount <= layer {
        return Err("Image : Layer out of range");
      }
      var e := extent;
      var i := 0;
      while i < mipLevel
        invariant i <= mipLevel
        invariant e == MipExtent(extent, i)
      {
        e := Extent3(Halve(e.width), Halve(e.height), Halve(e.depth));
        i := i + 1;
      }
      r := Ok(BufferImageCopy(ASPECT_COLOR, mipLevel, layer, 1, e));
    }

    /** The barrier `Barrier` records: it keeps the current layout and
        covers every level and layer with the aspect the usage implies. */
    function Barrier(srcAccess: Flags, dstAccess: Flags, srcStage: Flags, dstStage: Flags): (b: LayoutBarrier)
      reads this
      ensures b.oldLayout == layout && b.newLayout == layout
      ensures b.aspect == ViewAspect(usageFlags, format)
      ensures b.levelCount == mipLevels && b.layerCount == layerCount
      ensures b.srcAccess == srcAccess && b.dstAccess == dstAccess
      ensures b.srcStage == srcStage && b.dstStage == dstStage
    {
      LayoutBarrier(layout, layout, srcAccess, dstAccess, srcStage, dstStage,
                    ViewAspect(usageFlags, format), mipLevels, layerCount)
    }

    /** Recreates the image at a new, non-zero, different extent and moves
        the new image back to the layout the old one was in. Because the
        image only rests in layouts reachable from the undefined one, that
        move always succeeds. */
    method Resize(newExtent: Extent3) returns (moved: Option<LayoutBarrier>)
      requires Valid()
      modifies this`extent, this`layout, this`generation
      ensures Valid() && layout == old(layout)
      ensures newExtent == old(extent) || newExtent.width == 0 || newExtent.height == 0 || newExtent.depth == 0 ==>
        extent == old(extent) && generation == old(generation) && moved == None
      ensures newExtent != old(extent) && newExtent.width != 0 && newExtent.height != 0 && newExtent.depth != 0 ==>
        && extent == newExtent && generation == old(generation) + 1
        && moved == (if old(layout) == LayoutUndefined then None
                     else Some(TransitionBarrier(LayoutUndefined, old(layout), format, mipLevels, layerCount).value))
    {
      if extent == newExtent || newExtent.width == 0 || newExtent.height == 0 || newExtent.depth == 0 {
        return None;
      }
      extent := newExtent;
      generation := generation + 1;
      moved := None;
      if layout != LayoutUndefined {
        var previous := layout;
        layout := LayoutUndefined;
        var r := TransitionLayout(previous);
        moved := r.value;
      }
    }

    /** Blits every level from the one above it, returns the blits in order
        and leaves the image in the shader-read layout; also returns the
        level of the closing barrier (`mipLevels - 1` in 32-bit arithmetic).
        A single-level image is left untouched. */
    method GenerateMipmaps() returns (blits: seq<MipBlit>, lastLevel: nat)
      requires Valid()
      requires extent.width <= 0x7FFF_FFFF && extent.height <= 0x7FFF_FFFF
      modifies this`layout
      ensures Valid()
      ensures mipLevels == 1 ==> blits == [] && layout == old(layout)
      ensures mipLevels != 1 ==> layout == ShaderReadOnlyOptimal
      ensures mipLevels != 1 ==> lastLevel == (if mipLevels == 0 then Bits.U32_MAX else mipLevels - 1)
      ensures mipLevels != 1 ==> |blits| == (if mipLevels == 0 then 0 else mipLevels - 1)
      ensures forall i :: 0 <= i < |blits| ==> blits[i] == ChainBlit(extent.width, extent.height, i)
      ensures forall i :: 0 <= i < |blits| ==>
        blits[i].dstWidth == MipExtent(extent, i + 1).width &&
        blits[i].dstHeight == MipExtent(extent, i + 1).height
    {
      if mipLevels == 1 {
        return [], 0;
      }
      var mipWidth := extent.width;
      var mipHeight := extent.height;
      blits := [];
      var i := 1;
      while i < mipLevels
        invariant 1 <= i && (mipLevels >= 1 ==> i <= mipLevels) && (mipLevels == 0 ==> i == 1)
        invariant |blits| == i - 1
        invariant mipWidth == MipDim(extent.width, i - 1) && mipHeight == MipDim(extent.height, i - 1)
        invariant forall k :: 0 <= k < |blits| ==> blits[k] == ChainBlit(extent.width, extent.height, k)
      {
        blits := blits + [MipBlit(i - 1, i, mipWidth, mipHeight, Halve(mipWidth), Halve(mipHeight))];
        MipDimPositive(extent.width, i - 1);
        MipDimPositive(extent.height, i - 1);
        StepDownIsHalve(mipWidth);
        StepDownIsHalve(mipHeight);
        mipWidth := StepDown(mipWidth);
        mipHeight := StepDown(mipHeight);
        i := i + 1;
      }
      lastLevel := if mipLevels == 0 then Bits.U32_MAX else mipLevels - 1;
      layout := ShaderReadOnlyOptimal;
    }
  }

  /** Consecutive blits of the mip chain form a chain: each level is read
      with exactly the extent the previous blit wrote. */
  lemma MipChainIsContiguous(width: nat, height: nat, i: nat)
    ensures ChainBlit(width, height, i).dstLevel == ChainBlit(width, height, i + 1).srcLevel
    ensures ChainBlit(width, height, i).dstWidth == ChainBlit(width, height, i + 1).srcWidth
    ensures ChainBlit(width, height, i).dstHeight == ChainBlit(width, height, i + 1).srcHeight
  {
  }
}
