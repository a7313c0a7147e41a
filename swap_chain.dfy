/** `Graphics::SwapChain` (src/graphics/swapChain.cpp): picks the surface
    format, present mode and extent from what the surface offers, wraps the
    swap-chain images and builds the render pass that draws into them. The
    surface queries, the swap-chain images' handles and the results of
    acquire and present are inputs. */
module SwapChain {
  import opened Wrappers
  import opened Vk
  import Image
  import Queue
  import RP = RenderPass

  const U32_MAX: nat := 0xFFFF_FFFF

  datatype ColorSpace = SrgbNonlinear | OtherColorSpace(code: nat)

  datatype SurfaceFormat = SurfaceFormat(format: Format, colorSpace: ColorSpace)

  datatype PresentMode = Immediate | Mailbox | Fifo | FifoRelaxed

  datatype SurfaceCapabilities = SurfaceCapabilities(currentExtent: Extent2, minImageExtent: Extent2, maxImageExtent: Extent2)

  /** The format the swap chain asks for. */
  const PREFERRED_FORMAT := SurfaceFormat(A2B10G10R10UnormPack32, SrgbNonlinear)

  /** What a driver call did: returned a result, or threw `OutOfDateKHRError`. */
  datatype Call = Returned(result: VkResult) | ThrewOutOfDate

  /** `ChooseSurfaceFormat`: the preferred format when the surface offers
      it, else the first one offered. */
  method ChooseSurfaceFormat(available: seq<SurfaceFormat>) returns (r: SurfaceFormat)
    requires |available| > 0
    ensures r in available
    ensures PREFERRED_FORMAT in available ==> r == PREFERRED_FORMAT
    ensures PREFERRED_FORMAT !in available ==> r == available[0]
  {
    var i := 0;
    while i < |available|
      invariant i <= |available|
      invariant PREFERRED_FORMAT !in available[..i]
    {
      if available[i].format == A2B10G10R10UnormPack32 && available[i].colorSpace == SrgbNonlinear {
        return available[i];
      }
      i := i + 1;
    }
    assert available[..i] == available;
    r := available[0];
  }

  /** `ChoosePresentMode`: mailbox when offered, else FIFO, which every
      surface supports. */
  method ChoosePresentMode(available: seq<PresentMode>) returns (r: PresentMode)
    ensures r == Mailbox <==> Mailbox in available
    ensures r != Mailbox ==> r == Fifo
  {
    var i := 0;
    while i < |available|
      invariant i <= |available|
      invariant Mailbox !in available[..i]
    {
      if available[i] == Mailbox {
        return available[i];
      }
      i := i + 1;
    }
    assert available[..i] == available;
    r := Fifo;
  }

  /** `std::max(lo, std::min(hi, x))`. */
  function Clamp(lo: nat, hi: nat, x: nat): (r: nat)
    ensures lo <= r
    ensures lo <= hi ==> r <= hi
    ensures lo <= x <= hi ==> r == x
    ensures x < lo ==> r == lo
    ensures lo <= hi < x ==> r == hi
  {
    var m := if hi < x then hi else x;
    if lo < m then m else lo
  }

  /** `ChooseExtent`: the surface's current extent when it has one (its
      width is not the `UINT32_MAX` marker); otherwise the requested extent
      brought within the surface's bounds. */
  function ChooseExtent(caps: SurfaceCapabilities, extent: Extent2): (r: Extent2)
    ensures caps.currentExtent.width != U32_MAX ==> r == caps.currentExtent
    ensures caps.currentExtent.width == U32_MAX ==>
      && r.width == Clamp(caps.minImageExtent.width, caps.maxImageExtent.width, extent.width)
      && r.height == Clamp(caps.minImageExtent.height, caps.maxImageExtent.height, extent.height)
  {
    if caps.currentExtent.width != U32_MAX then caps.currentExtent
    else Extent2(Clamp(caps.minImageExtent.width, caps.maxImageExtent.width, extent.width),
                 Clamp(caps.minImageExtent.height, caps.maxImageExtent.height, extent.height))
  }

  /** Without a current extent, a request inside the surface's bounds is
      kept, and any request ends inside bounds that are well ordered. */
  lemma ChosenExtentInBounds(caps: SurfaceCapabilities, extent: Extent2)
    requires caps.currentExtent.width == U32_MAX
    requires caps.minImageExtent.width <= caps.maxImageExtent.width
    requires caps.minImageExtent.height <= caps.maxImageExtent.height
    ensures var r := ChooseExtent(caps, extent);
      && caps.minImageExtent.width <= r.width <= caps.maxImageExtent.width
      && caps.minImageExtent.height <= r.height <= caps.maxImageExtent.height
      && ((caps.minImageExtent.width <= extent.width <= caps.maxImageExtent.width &&
           caps.minImageExtent.height <= extent.height <= caps.maxImageExtent.height) ==> r == extent)
      && ChooseExtent(caps, r) == r
  {
  }

  /** A swap-chain image: the driver's image wrapped with the surface format,
      the extent, colour-attachment usage, one level and one layer. */
  method WrapSwapChainImage(handle: nat, format: Format, extent: Extent2) returns (r: Result<Image.Image>)
    ensures r.Ok? <==> extent.width > 0 && extent.height > 0
    ensures r.Ok? ==> fresh(r.value) && r.value.Valid()
    ensures r.Ok? ==> r.value.extent == Extent3(extent.width, extent.height, 1) && r.value.format == format
    ensures r.Ok? ==> r.value.mipLevels == 1 && r.value.layerCount == 1
  {
    var b := new Image.Builder();
    var self := b.Image(handle);
    self := b.Format(format);
    self := b.Extent(Extent3(extent.width, extent.height, 1));
    self := b.UsageFlags(USAGE_COLOR_ATTACHMENT);
    self := b.MipLevels(1);
    self := b.LayersCount(1);
    self := b.InitialLayout(PresentSrc);
    r := b.Build();
  }

  /** A multisampled colour image the swap chain owns, left in the
      colour-attachment layout. */
  method MakeMultisampledImage(format: Format, extent: Extent2, sampleCount: nat) returns (r: Result<Image.Image>)
    ensures r.Ok? <==> extent.width > 0 && extent.height > 0
    ensures r.Ok? ==> fresh(r.value) && r.value.Valid()
    ensures r.Ok? ==> r.value.extent == Extent3(extent.width, extent.height, 1) && r.value.format == format
    ensures r.Ok? ==> r.value.layout == ColorAttachmentOptimal && r.value.sampleCount == sampleCount
  {
    var b := new Image.Builder();
    var self := b.Format(format);
    self := b.Extent(Extent3(extent.width, extent.height, 1));
    self := b.UsageFlags(USAGE_COLOR_ATTACHMENT);
    self := b.MipLevels(1);
    self := b.LayersCount(1);
    self := b.SampleCount(sampleCount);
    self := b.InitialLayout(ColorAttachmentOptimal);
    assert Image.Resting(ColorAttachmentOptimal);
    r := b.Build();
  }

  /** The clear colour, kept opaque. */
  const CLEAR_BLACK: nat := 0

  /** The images of the attachments of a freshly built swap-chain render
      pass are all valid. */
  lemma ImagesOfValid(attachments: seq<RP.Attachment>)
    requires forall k, j :: 0 <= k < |attachments| && 0 <= j < |attachments[k].images| ==>
      attachments[k].images[j].Valid()
    ensures RP.ImagesValid(RP.Images(attachments))
  {
    forall img | img in RP.Images(attachments)
      ensures img.Valid()
    {
      var a, j :| a in attachments && 0 <= j < |a.images| && a.images[j] == img;
    }
  }

  /** The swap-chain images, wrapped in order; the first failure ends the
      loop. */
  method WrapAll(handles: seq<nat>, format: Format, extent: Extent2) returns (r: Result<seq<Image.Image>>)
    requires |handles| > 0
    ensures r.Ok? <==> extent.width > 0 && extent.height > 0
    ensures r.Ok? ==> |r.value| == |handles|
    ensures r.Ok? ==> forall j :: 0 <= j < |r.value| ==> fresh(r.value[j]) && r.value[j].Valid()
    ensures r.Ok? ==> forall j :: 0 <= j < |r.value| ==> r.value[j].extent == Extent3(extent.width, extent.height, 1)
  {
    var images: seq<Image.Image> := [];
    var i := 0;
    while i < |handles|
      invariant i <= |handles| && |images| == i
      invariant i > 0 ==> extent.width > 0 && extent.height > 0
      invariant forall j :: 0 <= j < i ==> fresh(images[j]) && images[j].Valid()
      invariant forall j :: 0 <= j < i ==> images[j].extent == Extent3(extent.width, extent.height, 1)
    {
      var img := WrapSwapChainImage(handles[i], format, extent);
      if img.Err? {
        return Err(img.msg);
      }
      images := images + [img.value];
      i := i + 1;
    }
    r := Ok(images);
  }

  /** The `imageCount` multisampled images of the colour attachment. */
  method MakeMultisampledImages(count: nat, format: Format, extent: Extent2, sampleCount: nat)
    returns (images: seq<Image.Image>)
    requires extent.width > 0 && extent.height > 0
    ensures |images| == count
    ensures forall j :: 0 <= j < count ==> fresh(images[j]) && images[j].Valid()
    ensures forall j :: 0 <= j < count ==> images[j].sampleCount == sampleCount
  {
    images := [];
    var k := 0;
    while k < count
      invariant k <= count && |images| == k
      invariant forall j :: 0 <= j < k ==> fresh(images[j]) && images[j].Valid()
      invariant forall j :: 0 <= j < k ==> images[j].sampleCount == sampleCount
    {
      var img := MakeMultisampledImage(format, extent, sampleCount);
      images := images + [img.value];
      k := k + 1;
    }
  }

  /** The builder chain of `CreateRenderPass`: image count, output index,
      extent, the attachments with their own indices, one subpass and the two
      dependencies. */
  method BuildRenderPass(imageCount: nat, extent: Extent2, output: nat, attachments: seq<RP.Attachment>)
    returns (rp: RP.RenderPass)
    requires |attachments| > 0 && RP.HasImages(attachments, imageCount)
    requires forall k, j :: 0 <= k < |attachments| && 0 <= j < |attachments[k].images| ==>
      attachments[k].images[j].Valid()
    ensures fresh(rp) && rp.Valid()
    ensures rp.attachments == attachments && rp.imageCount == imageCount && rp.extent == extent
    ensures rp.outputAttachmentIndex == output
  {
    var b := new RP.Builder();
    var self := b.ImageCount(imageCount);
    self := b.OutputImageIndex(output);
    self := b.Extent(extent);
    var k := 0;
    while k < |attachments|
      invariant k <= |attachments| && b.attachments == attachments[..k]
      invariant b.imageCount == imageCount && b.outputImageIndex == output && b.extent == extent
    {
      self := b.Attachment(k, attachments[k]);
      k := k + 1;
    }
    self := b.Subpass(RP.SubpassDescription([0]));
    self := b.Dependency(0);
    self := b.Dependency(1);
    assert b.attachments == attachments;
    ImagesOfValid(b.attachments);
    rp := b.Build();
  }

  class SwapChain {
    const sampleCount: nat
    const minImageCount: nat
    const imageCount: nat
    const presentQueue: Queue.QueueRef
    var extent: Extent2
    var imageIndex: nat
    var surfaceFormat: SurfaceFormat
    var presentMode: PresentMode
    var queueFamilyIndices: seq<nat>
    var swapChainImages: seq<Image.Image>
    /** Every multisampled image made so far; the vector is never cleared. */
    var multiSampledImages: seq<Image.Image>
    var renderPass: Option<RP.RenderPass>

    /** The constructor up to `CreateSwapChain`: the present queue's family
        joins the queue families the images are shared with. */
    constructor (queueFamilyIndices: seq<nat>, extent: Extent2, sampleCount: nat, minImageCount: nat,
                 imageCount: nat, presentQueue: Queue.QueueRef)
      ensures this.queueFamilyIndices == queueFamilyIndices + [presentQueue.family]
      ensures this.extent == extent && this.sampleCount == sampleCount
      ensures this.minImageCount == minImageCount && this.imageCount == imageCount
      ensures this.presentQueue == presentQueue && imageIndex == 0
      ensures swapChainImages == [] && multiSampledImages == [] && renderPass == None
    {
      this.extent, this.sampleCount := extent, sampleCount;
      this.minImageCount, this.imageCount := minImageCount, imageCount;
      this.presentQueue := presentQueue;
      this.queueFamilyIndices := queueFamilyIndices + [presentQueue.family];
      imageIndex := 0;
      surfaceFormat, presentMode := PREFERRED_FORMAT, Fifo;
      swapChainImages, multiSampledImages, renderPass := [], [], None;
    }

    /** `CreateSwapChain`: the three choices, from the surface's answers. */
    method CreateSwapChain(formats: seq<SurfaceFormat>, presentModes: seq<PresentMode>, caps: SurfaceCapabilities)
      requires |formats| > 0
      modifies this`surfaceFormat, this`presentMode, this`extent
      ensures surfaceFormat in formats
      ensures PREFERRED_FORMAT in formats ==> surfaceFormat == PREFERRED_FORMAT
      ensures presentMode == (if Mailbox in presentModes then Mailbox else Fifo)
      ensures extent == ChooseExtent(caps, old(extent))
    {
      surfaceFormat := ChooseSurfaceFormat(formats);
      presentMode := ChoosePresentMode(presentModes);
      extent := ChooseExtent(caps, extent);
    }

    /** `CreateRenderPass`: wraps the driver's images and builds the render
        pass. A single-sampled chain has one attachment holding the
        swap-chain images; a multisampled one has a colour attachment of
        `imageCount` new multisampled images and a resolve attachment
        holding the swap-chain images, which is the output. Either way the
        output images are the swap-chain images. An empty extent makes the
        image builder throw on the first image. */
    method CreateRenderPass(handles: seq<nat>) returns (r: Result<RP.RenderPass>)
      requires 0 < |handles| && imageCount <= |handles|
      modifies this`swapChainImages, this`multiSampledImages, this`renderPass
      ensures r.Ok? <==> extent.width > 0 && extent.height > 0
      ensures r.Ok? ==> renderPass == Some(r.value) && r.value.Valid()
      ensures r.Ok? ==> |swapChainImages| == |handles|
      ensures r.Ok? && sampleCount == SAMPLES_1 ==>
        && r.value.attachments == [RP.Attachment(sampleCount, swapChainImages, CLEAR_BLACK)]
        && r.value.outputAttachmentIndex == 0
        && multiSampledImages == old(multiSampledImages)
      ensures r.Ok? && sampleCount != SAMPLES_1 ==>
        && |r.value.attachments| == 2 && r.value.outputAttachmentIndex == 1
        && r.value.attachments[0].samples == sampleCount && |r.value.attachments[0].images| == imageCount
        && r.value.attachments[1] == RP.Attachment(SAMPLES_1, swapChainImages, CLEAR_BLACK)
        && multiSampledImages == old(multiSampledImages) + r.value.attachments[0].images
      ensures r.Ok? ==> r.value.imageCount == imageCount && r.value.extent == extent
      ensures r.Ok? ==> (r.value.outputAttachmentIndex < |r.value.attachments|
        && r.value.attachments[r.value.outputAttachmentIndex].images == swapChainImages)
      ensures r.Err? ==> renderPass == old(renderPass)
    {
      var wrapped := WrapAll(handles, surfaceFormat.format, extent);
      if wrapped.Err? {
        return Err(wrapped.msg);
      }
      swapChainImages := wrapped.value;
      var attachments: seq<RP.Attachment>;
      var output: nat;
      if sampleCount == SAMPLES_1 {
        attachments, output := [RP.Attachment(sampleCount, swapChainImages, CLEAR_BLACK)], 0;
      } else {
        var msaa := MakeMultisampledImages(imageCount, surfaceFormat.format, extent, sampleCount);
        multiSampledImages := multiSampledImages + msaa;
        attachments := [RP.Attachment(sampleCount, msaa, CLEAR_BLACK),
                        RP.Attachment(SAMPLES_1, swapChainImages, CLEAR_BLACK)];
        output := 1;
      }
      var rp := BuildRenderPass(imageCount, extent, output, attachments);
      renderPass := Some(rp);
      r := Ok(rp);
    }

    /** `Resize`: the new size is the requested extent of a fresh
        `CreateSwapChain` and `CreateRenderPass`. The multisampled images of
        the previous pass stay in the list. */
    method Resize(newSize: Extent2, formats: seq<SurfaceFormat>, presentModes: seq<PresentMode>,
                  caps: SurfaceCapabilities, handles: seq<nat>) returns (r: Result<RP.RenderPass>)
      requires |formats| > 0 && 0 < |handles| && imageCount <= |handles|
      modifies this`extent, this`surfaceFormat, this`presentMode
      modifies this`swapChainImages, this`multiSampledImages, this`renderPass
      ensures extent == ChooseExtent(caps, newSize)
      ensures r.Ok? <==> extent.width > 0 && extent.height > 0
      ensures r.Ok? ==> renderPass == Some(r.value) && r.value.Valid() && r.value.extent == extent
      ensures r.Ok? && sampleCount != SAMPLES_1 ==>
        |multiSampledImages| == |old(multiSampledImages)| + imageCount
    {
      extent := newSize;
      CreateSwapChain(formats, presentModes, caps);
      r := CreateRenderPass(handles);
    }

    /** `Acquire`: the driver's result, with the new image index on return;
        an out-of-date exception becomes `ErrorOutOfDateKHR` and keeps the
        index. */
    method Acquire(call: Call, acquiredIndex: nat) returns (r: VkResult)
      modifies this`imageIndex
      ensures call.Returned? ==> r == call.result && imageIndex == acquiredIndex
      ensures call.ThrewOutOfDate? ==> r == ErrorOutOfDateKHR && imageIndex == old(imageIndex)
    {
      if call.ThrewOutOfDate? {
        return ErrorOutOfDateKHR;
      }
      imageIndex := acquiredIndex;
      r := call.result;
    }
  }

  /** `Present`: the driver's result, or `ErrorOutOfDateKHR` when it threw. */
  function Present(call: Call): (r: VkResult)
    ensures call.ThrewOutOfDate? ==> r == ErrorOutOfDateKHR
    ensures call.Returned? ==> r == call.result
  {
    match call
    case Returned(result) => result
    case ThrewOutOfDate => ErrorOutOfDateKHR
  }

  /** The constructor: the present queue joins the sharing families, then
      the swap chain and its render pass are made. */
  method NewSwapChain(queueFamilyIndices: seq<nat>, extent: Extent2, sampleCount: nat, minImageCount: nat,
                      imageCount: nat, presentQueue: Queue.QueueRef,
                      formats: seq<SurfaceFormat>, presentModes: seq<PresentMode>,
                      caps: SurfaceCapabilities, handles: seq<nat>) returns (r: Result<SwapChain>)
    requires |formats| > 0 && 0 < |handles| && imageCount <= |handles|
    ensures r.Ok? <==> ChooseExtent(caps, extent).width > 0 && ChooseExtent(caps, extent).height > 0
    ensures r.Ok? ==> fresh(r.value) && r.value.renderPass.Some?
    ensures r.Ok? ==> r.value.queueFamilyIndices == queueFamilyIndices + [presentQueue.family]
    ensures r.Ok? ==> r.value.extent == ChooseExtent(caps, extent)
  {
    var sc := new SwapChain(queueFamilyIndices, extent, sampleCount, minImageCount, imageCount, presentQueue);
    sc.CreateSwapChain(formats, presentModes, caps);
    var rp := sc.CreateRenderPass(handles);
    if rp.Err? {
      return Err(rp.msg);
    }
    r := Ok(sc);
  }
}
