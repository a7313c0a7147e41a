/** `Coral::Memory::ImageView` (src/memory/imageView.h,
    src/memory/imageView.cpp): a view over a sub-range of an image's mip
    levels and layers, whose aspect follows the image's usage and format. */
module ImageView {
  import opened Vk
  import opened FlagSets
  import Image

  /** `vk::ImageViewType`. */
  datatype ViewType = View1D | View2D | View3D | Cube | View1DArray | View2DArray | CubeArray

  /** The layers and levels a view covers. */
  datatype SubresourceRange = SubresourceRange(
    baseArrayLayer: nat, arrayLayerCount: nat, baseMipLevel: nat, mipLevelCount: nat)

  class Builder {
    const image: Image.Image
    var viewType: ViewType
    var baseMipLevel: nat
    var levelCount: nat
    var baseArrayLayer: nat
    var layerCount: nat

    /** A 2-D view of the first level and layer. */
    constructor (image: Image.Image)
      ensures this.image == image && viewType == View2D
      ensures baseMipLevel == 0 && levelCount == 1 && baseArrayLayer == 0 && layerCount == 1
    {
      this.image := image;
      viewType := View2D;
      baseMipLevel, levelCount, baseArrayLayer, layerCount := 0, 1, 0, 1;
    }

    method ViewType(t: ViewType) returns (self: Builder)
      modifies this`viewType
      ensures self == this && viewType == t
    {
      viewType := t;
      self := this;
    }

    method BaseMipLevel(level: nat) returns (self: Builder)
      modifies this`baseMipLevel
      ensures self == this && baseMipLevel == level
    {
      baseMipLevel := level;
      self := this;
    }

    method LevelCount(count: nat) returns (self: Builder)
      modifies this`levelCount
      ensures self == this && levelCount == count
    {
      levelCount := count;
      self := this;
    }

    method BaseArrayLayer(layer: nat) returns (self: Builder)
      modifies this`baseArrayLayer
      ensures self == this && baseArrayLayer == layer
    {
      baseArrayLayer := layer;
      self := this;
    }

    method LayerCount(count: nat) returns (self: Builder)
      modifies this`layerCount
      ensures self == this && layerCount == count
    {
      layerCount := count;
      self := this;
    }

    method Build() returns (view: ImageView)
      ensures fresh(view)
      ensures view.image == image && view.viewType == viewType && view.format == image.format
      ensures view.Range() == SubresourceRange(baseArrayLayer, layerCount, baseMipLevel, levelCount)
      ensures view.aspect == Image.ViewAspect(image.usageFlags, image.format)
    {
      view := new ImageView(this);
    }
  }

  class ImageView {
    const image: Image.Image
    const viewType: ViewType
    const format: Format
    const aspect: Flags
    const baseMipLevel: nat
    const mipLevelCount: nat
    const baseArrayLayer: nat
    const arrayLayerCount: nat

    /** Copies the builder's range and type, takes the image's format and
        derives the aspect from the image's usage. */
    constructor (builder: Builder)
      ensures image == builder.image && viewType == builder.viewType && format == builder.image.format
      ensures baseMipLevel == builder.baseMipLevel && mipLevelCount == builder.levelCount
      ensures baseArrayLayer == builder.baseArrayLayer && arrayLayerCount == builder.layerCount
      ensures aspect == Image.ViewAspect(builder.image.usageFlags, builder.image.format)
    {
      image, viewType, format := builder.image, builder.viewType, builder.image.format;
      baseMipLevel, mipLevelCount := builder.baseMipLevel, builder.levelCount;
      baseArrayLayer, arrayLayerCount := builder.baseArrayLayer, builder.layerCount;
      aspect := Image.ViewAspect(builder.image.usageFlags, builder.image.format);
    }

    function Range(): SubresourceRange
    {
      SubresourceRange(baseArrayLayer, arrayLayerCount, baseMipLevel, mipLevelCount)
    }

    /** Whether this view covers exactly the given layers and levels: the
        view answers yes to its own range and to no other. */
    function Has(baseArrayLayer: nat, arrayLayerCount: nat, baseMipLevel: nat, mipLevelCount: nat): (r: bool)
      ensures r <==> SubresourceRange(baseArrayLayer, arrayLayerCount, baseMipLevel, mipLevelCount) == Range()
    {
      baseArrayLayer == this.baseArrayLayer && arrayLayerCount == this.arrayLayerCount &&
      baseMipLevel == this.baseMipLevel && mipLevelCount == this.mipLevelCount
    }
  }

  /** Two views that both answer yes to a range cover the same range. */
  lemma HasIsExact(v: ImageView, w: ImageView, q: SubresourceRange)
    requires v.Has(q.baseArrayLayer, q.arrayLayerCount, q.baseMipLevel, q.mipLevelCount)
    requires w.Has(q.baseArrayLayer, q.arrayLayerCount, q.baseMipLevel, q.mipLevelCount)
    ensures v.Range() == w.Range()
  {
  }
}
