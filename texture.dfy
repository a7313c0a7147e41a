/** Material textures (src/graphics/objects/texture.h): the PBR usage bits,
    the mapping from importer texture types to usages, the texture builder,
    and the texture's cache of image views over mip ranges. */
module Texture {
  import opened Vk
  import opened Wrappers
  import Bits
  import ImageView
  import Shader
  import opened FlagSets

  /** `PBR::Usage`, a 32-bit flag word. */
  type Usage = Flags

  const NONE: Usage := 0
  const ALBEDO: Usage := 0x1
  const NORMAL: Usage := 0x2
  const ROUGHNESS: Usage := 0x4
  const METALIC: Usage := 0x8
  const AMBIENT_OCCLUSION: Usage := 0x10
  const EMISSIVE: Usage := 0x20
  const HEIGHT: Usage := 0x40
  const METALLIC_ROUGHNESS: Usage := 0xC

  /** The seven single usages, in declaration order. */
  function SingleUsages(): seq<Usage>
  {
    [ALBEDO, NORMAL, ROUGHNESS, METALIC, AMBIENT_OCCLUSION, EMISSIVE, HEIGHT]
  }

  predicate PowerOfTwo(u: Usage)
  {
    u != 0 && u & (u - 1) == 0
  }

  /** Each single usage is one bit, no two share it, and the combined
      metal-roughness usage is the OR of its two parts. */
  lemma UsageBits()
    ensures forall i :: 0 <= i < |SingleUsages()| ==> PowerOfTwo(SingleUsages()[i])
    ensures forall i, j :: 0 <= i < j < |SingleUsages()| ==> SingleUsages()[i] & SingleUsages()[j] == 0
    ensures METALLIC_ROUGHNESS == Or(METALIC, ROUGHNESS)
  {
  }

  /** `operator|`, and equally `operator|=`, which takes its left operand by
      value and only returns the union: a word holding both. */
  function Or(lhs: Usage, rhs: Usage): (r: Usage)
    ensures Covers(r, lhs) && Covers(r, rhs)
  {
    Shader.Or(lhs, rhs)
  }

  /** `operator&`, and equally `operator&=`: a word both hold. */
  function And(lhs: Usage, rhs: Usage): (r: Usage)
    ensures Covers(lhs, r) && Covers(rhs, r)
  {
    Shader.And(lhs, rhs)
  }

  /** `aiTextureType`: the types the engine names, and the rest by code. */
  datatype AiTextureType =
    | TexNone | Diffuse | Specular | Ambient | Emissive | Height | Normals | Shininess
    | Opacity | Displacement | Lightmap | Reflection | BaseColor | NormalCamera
    | EmissionColor | Metalness | DiffuseRoughness | AmbientOcclusion | OtherTexture(code: nat)

  /** `FromAiTextureType`: each named type to the usage it feeds. The
      result is never a combined usage: it is `None` or a single bit. */
  function FromAiTextureType(t: AiTextureType): (r: Usage)
    ensures r == NONE || r in SingleUsages()
    ensures r == NONE <==> !(t in {BaseColor, Diffuse, Normals, Metalness, DiffuseRoughness,
                                   AmbientOcclusion, Emissive, Height, Lightmap})
  {
    match t
    case TexNone => NONE
    case BaseColor => ALBEDO
    case Diffuse => ALBEDO
    case Normals => NORMAL
    case Metalness => METALIC
    case DiffuseRoughness => ROUGHNESS
    case AmbientOcclusion => AMBIENT_OCCLUSION
    case Emissive => EMISSIVE
    case Height => HEIGHT
    case Lightmap => AMBIENT_OCCLUSION
    case _ => NONE
  }

  /** Two importer types share a usage exactly when both are colour
      sources or both are occlusion sources. */
  lemma SharedUsages(a: AiTextureType, b: AiTextureType)
    requires a != b && FromAiTextureType(a) != NONE
    ensures FromAiTextureType(a) == FromAiTextureType(b) <==>
              ({a, b} == {BaseColor, Diffuse} || {a, b} == {Lightmap, AmbientOcclusion})
  {
  }

  /** `Texture::Builder`. Image data pointers are not modelled. */
  class Builder {
    const uuid: nat
    var name: string
    var format: Format
    var width: nat
    var height: nat
    var usage: Usage
    var createMipmaps: bool

    /** Defaults: an unnamed 1x1 RGBA8 texture with no usage and no mips. */
    constructor (uuid: nat)
      ensures this.uuid == uuid && name == "" && format == R8G8B8A8Unorm
      ensures width == 1 && height == 1 && usage == NONE && !createMipmaps
    {
      this.uuid := uuid;
      name, format, width, height := "", R8G8B8A8Unorm, 1, 1;
      usage, createMipmaps := NONE, false;
    }

    method Name(n: string) returns (self: Builder)
      modifies this`name
      ensures self == this && name == n
    {
      name := n;
      self := this;
    }

    /** `Size`: a square texture. */
    method Size(size: nat) returns (self: Builder)
      modifies this`width, this`height
      ensures self == this && width == size && height == size
    {
      width, height := size, size;
      self := this;
    }

    method Width(w: nat) returns (self: Builder)
      modifies this`width
      ensures self == this && width == w
    {
      width := w;
      self := this;
    }

    method Height(h: nat) returns (self: Builder)
      modifies this`height
      ensures self == this && height == h
    {
      height := h;
      self := this;
    }

    method Format(f: Format) returns (self: Builder)
      modifies this`format
      ensures self == this && format == f
    {
      format := f;
      self := this;
    }

    /** `Usage` as written: `m_usage |= usage` calls the by-value `|=`,
        whose result is discarded, so the builder's usage does not change. */
    method Usage(u: Usage) returns (self: Builder)
      ensures self == this && usage == old(usage)
    {
      var discarded := Or(usage, u);
      self := this;
    }

    /** `Usage` as evidently intended: the usage gains the given bits and
        keeps the ones it had. */
    method AddUsage(u: Usage) returns (self: Builder)
      modifies this`usage
      ensures self == this && usage == Or(old(usage), u)
    {
      usage := Or(usage, u);
      self := this;
    }

    method CreateMipmaps() returns (self: Builder)
      modifies this`createMipmaps
      ensures self == this && createMipmaps
    {
      createMipmaps := true;
      self := this;
    }
  }

  /** The mip range a view request resolves to: the sentinel count
      (`u32` max) means every level. */
  function RequestedCount(mipLevels: nat, count: nat): nat
  {
    if count == Bits.U32_MAX then mipLevels else count
  }

  /** The range check as written, on 32-bit unsigned arithmetic. */
  predicate RangeFits(mipLevels: nat, base: nat, count: nat)
  {
    (base + count) % (Bits.U32_MAX + 1) <= mipLevels
  }

  /** The view ranges held by a texture; a texture's views are always
      single-layer 2-D views from layer 0. */
  function Range(base: nat, count: nat): ImageView.SubresourceRange
  {
    ImageView.SubresourceRange(0, 1, base, count)
  }

  predicate Distinct<T(==)>(s: seq<T>)
  {
    forall i, j :: 0 <= i < j < |s| ==> s[i] != s[j]
  }

  /** A texture's image-view cache. The image itself is represented by its
      mip-level count. */
  class Texture {
    const mipLevels: nat
    var imageViews: seq<ImageView.SubresourceRange>

    predicate Valid()
      reads this
    {
      Distinct(imageViews)
    }

    /** The constructor caches the 2-D view of every mip level. */
    constructor (mipLevels: nat)
      ensures this.mipLevels == mipLevels && Valid()
      ensures imageViews == [Range(0, mipLevels)]
    {
      this.mipLevels := mipLevels;
      imageViews := [Range(0, mipLevels)];
    }

    /** `ImageView(base, count)`: a range past the last level fails;
        otherwise the cached view of that range is returned, and only a
        range not yet cached appends a new view. */
    method ImageView(base: nat, count: nat) returns (r: Result<ImageView.SubresourceRange>)
      requires Valid()
      modifies this`imageViews
      ensures Valid()
      ensures !RangeFits(mipLevels, base, RequestedCount(mipLevels, count)) ==>
                r.Err? && imageViews == old(imageViews)
      ensures RangeFits(mipLevels, base, RequestedCount(mipLevels, count)) ==>
                && r == Ok(Range(base, RequestedCount(mipLevels, count)))
                && r.value in imageViews
                && (r.value in old(imageViews) ==> imageViews == old(imageViews))
                && (r.value !in old(imageViews) ==> imageViews == old(imageViews) + [r.value])
    {
      var levels := RequestedCount(mipLevels, count);
      if !RangeFits(mipLevels, base, levels) {
        return Err("The requested mipMap interval was not found!");
      }
      var wanted := Range(base, levels);
      var i := 0;
      while i < |imageViews|
        invariant i <= |imageViews|
        invariant wanted !in imageViews[..i]
      {
        if imageViews[i] == wanted {
          return Ok(wanted);
        }
        assert imageViews[..i + 1] == imageViews[..i] + [imageViews[i]];
        i := i + 1;
      }
      assert imageViews[..i] == imageViews;
      imageViews := imageViews + [wanted];
      r := Ok(wanted);
    }
  }

  /** The written range check wraps: a base level at the top of the 32-bit
      range with one level passes it, although no texture with fewer levels
      than that has such a level. */
  lemma WrappedRangeAccepted(mipLevels: nat)
    requires mipLevels <= Bits.U32_MAX
    ensures RangeFits(mipLevels, Bits.U32_MAX, 1)
    ensures Range(Bits.U32_MAX, 1).baseMipLevel >= mipLevels
  {
  }
}
