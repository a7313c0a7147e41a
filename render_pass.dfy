/** `Graphics::RenderPass` and its builder (src/graphics/renderPass.h and
    src/graphics/renderPass.cpp): a render pass owns its attachments (each
    holding one image per swap-chain image), one framebuffer per image and
    the image views those framebuffers bind. The Vulkan render pass,
    framebuffer and view handles are not modelled; a framebuffer is the list
    of images it binds, and a view is the image it was made for. */
module RenderPass {
  import opened Wrappers
  import opened Vk
  import Image

  /** `(u32)-1`, what `InFlightImageIndex` answers outside `Begin`/`End`. */
  const U32_MAX: nat := 0xFFFF_FFFF

  /** An attachment: the sample count of its description, its images in
      swap-chain order and the value it is cleared to. */
  datatype Attachment = Attachment(samples: nat, images: seq<Image.Image>, clearValue: nat)

  /** A subpass: the attachment numbers of its colour references. */
  datatype SubpassDescription = SubpassDescription(colorRefs: seq<nat>)

  /** A framebuffer: the images it binds, one per attachment, and its size. */
  datatype Framebuffer = Framebuffer(views: seq<Image.Image>, width: nat, height: nat)

  /** Every attachment holds an image for the swap-chain index `i`. */
  predicate HasImage(attachments: seq<Attachment>, i: nat)
  {
    forall k :: 0 <= k < |attachments| ==> i < |attachments[k].images|
  }

  predicate HasImages(attachments: seq<Attachment>, imageCount: nat)
  {
    forall k :: 0 <= k < |attachments| ==> imageCount <= |attachments[k].images|
  }

  /** The images framebuffer `i` binds: image `i` of every attachment, in
      attachment order. */
  function FrameViews(attachments: seq<Attachment>, i: nat): (r: seq<Image.Image>)
    requires HasImage(attachments, i)
    ensures |r| == |attachments|
    ensures forall k :: 0 <= k < |r| ==> r[k] == attachments[k].images[i]
  {
    if attachments == [] then []
    else [attachments[0].images[i]] + FrameViews(attachments[1..], i)
  }

  /** The framebuffers `CreateFrameBuffers` makes: one per image. */
  function FrameBuffersFor(attachments: seq<Attachment>, imageCount: nat, extent: Extent2): (r: seq<Framebuffer>)
    requires HasImages(attachments, imageCount)
    ensures |r| == imageCount
  {
    if imageCount == 0 then []
    else FrameBuffersFor(attachments, imageCount - 1, extent)
         + [Framebuffer(FrameViews(attachments, imageCount - 1), extent.width, extent.height)]
  }

  function Live(images: seq<Image.Image>): (r: seq<Option<Image.Image>>)
    ensures |r| == |images|
  {
    if images == [] then [] else [Some(images[0])] + Live(images[1..])
  }

  /** Framebuffer `i` binds image `i` of every attachment. */
  lemma {:induction false} FrameBufferAt(attachments: seq<Attachment>, imageCount: nat, extent: Extent2, i: nat)
    requires HasImages(attachments, imageCount) && i < imageCount
    ensures FrameBuffersFor(attachments, imageCount, extent)[i]
         == Framebuffer(FrameViews(attachments, i), extent.width, extent.height)
  {
    if i < imageCount - 1 {
      FrameBufferAt(attachments, imageCount - 1, extent, i);
    }
  }

  lemma ViewsStep(prefix: seq<Option<Image.Image>>, attachments: seq<Attachment>, i: nat)
    requires HasImages(attachments, i + 1)
    ensures prefix + ViewsFor(attachments, i) + Live(FrameViews(attachments, i))
         == prefix + ViewsFor(attachments, i + 1)
  {
    var step := Live(FrameViews(attachments, i));
    assert ViewsFor(attachments, i + 1) == ViewsFor(attachments, i) + step;
    assert prefix + ViewsFor(attachments, i) + step == prefix + (ViewsFor(attachments, i) + step);
  }

  lemma {:induction false} LiveSnoc(images: seq<Image.Image>, img: Image.Image)
    ensures Live(images + [img]) == Live(images) + [Some(img)]
  {
    if images != [] {
      assert (images + [img])[1..] == images[1..] + [img];
      LiveSnoc(images[1..], img);
    }
  }

  /** The views `CreateFrameBuffers` appends: for each image in turn, one per
      attachment. */
  function ViewsFor(attachments: seq<Attachment>, imageCount: nat): (r: seq<Option<Image.Image>>)
    requires HasImages(attachments, imageCount)
  {
    if imageCount == 0 then []
    else ViewsFor(attachments, imageCount - 1) + Live(FrameViews(attachments, imageCount - 1))
  }

  /** Each `CreateFrameBuffers` adds `imageCount` views per attachment. */
  lemma {:induction false} ViewsCount(attachments: seq<Attachment>, imageCount: nat)
    requires HasImages(attachments, imageCount)
    ensures |ViewsFor(attachments, imageCount)| == imageCount * |attachments|
  {
    if imageCount > 0 {
      ViewsCount(attachments, imageCount - 1);
      var k := |attachments|;
      assert |Live(FrameViews(attachments, imageCount - 1))| == k;
      assert (imageCount - 1) * k + k == imageCount * k by {
        MulSucc(imageCount - 1, k);
      }
    }
  }

  lemma MulSucc(n: nat, k: nat)
    ensures n * k + k == (n + 1) * k
  {
  }

  /** Every view reset, the vector kept. */
  function AllReset(views: seq<Option<Image.Image>>): (r: seq<Option<Image.Image>>)
    ensures |r| == |views| && forall k :: 0 <= k < |r| ==> r[k] == None
  {
    seq(|views|, _ => None)
  }

  /** The images of every attachment. */
  function Images(attachments: seq<Attachment>): set<Image.Image>
  {
    set a, img | a in attachments && img in a.images :: img
  }

  ghost predicate ImagesValid(images: set<Image.Image>)
    reads images
  {
    forall img :: img in images ==> img.Valid()
  }

  /** `Attachment::Resize`: every image of the attachment is recreated at
      `(width, height, 1)`, keeping its layout. */
  method ResizeAttachment(a: Attachment, extent: Extent2)
    requires extent.width > 0 && extent.height > 0
    requires ImagesValid(set img | img in a.images)
    modifies set img | img in a.images
    ensures ImagesValid(set img | img in a.images)
    ensures forall img :: img in a.images ==>
      img.extent == Extent3(extent.width, extent.height, 1) && img.layout == old(img.layout)
  {
    var target := Extent3(extent.width, extent.height, 1);
    var k := 0;
    while k < |a.images|
      invariant k <= |a.images|
      invariant ImagesValid(set img | img in a.images)
      invariant forall img :: img in a.images ==> img.layout == old(img.layout)
      invariant forall j :: 0 <= j < k ==> a.images[j].extent == target
    {
      var moved := a.images[k].Resize(target);
      k := k + 1;
    }
  }

  class Builder {
    var imageCount: nat
    var outputImageIndex: nat
    var extent: Extent2
    var attachments: seq<Attachment>
    var subpasses: seq<SubpassDescription>
    /** Subpass dependencies, kept opaque. */
    var dependencies: seq<nat>

    /** Two images, output index 0, a zero extent and nothing added. */
    constructor ()
      ensures imageCount == 2 && outputImageIndex == 0 && extent == Extent2(0, 0)
      ensures attachments == [] && subpasses == [] && dependencies == []
    {
      imageCount, outputImageIndex, extent := 2, 0, Extent2(0, 0);
      attachments, subpasses, dependencies := [], [], [];
    }

    method ImageCount(count: nat) returns (self: Builder)
      modifies this`imageCount
      ensures self == this && imageCount == count
    {
      imageCount := count;
      self := this;
    }

    method OutputImageIndex(index: nat) returns (self: Builder)
      modifies this`outputImageIndex
      ensures self == this && outputImageIndex == index
    {
      outputImageIndex := index;
      self := this;
    }

    method Extent(e: Extent2) returns (self: Builder)
      modifies this`extent
      ensures self == this && extent == e
    {
      extent := e;
      self := this;
    }

    /** Attachments must come in order: an index past the end is refused;
        any other index appends, wherever it points. */
    method Attachment(index: nat, a: Attachment) returns (self: Builder)
      modifies this`attachments
      ensures self == this
      ensures index > |old(attachments)| ==> attachments == old(attachments)
      ensures index <= |old(attachments)| ==> attachments == old(attachments) + [a]
    {
      if index > |attachments| {
        return this;
      }
      attachments := attachments + [a];
      self := this;
    }

    method Subpass(s: SubpassDescription) returns (self: Builder)
      modifies this`subpasses
      ensures self == this && subpasses == old(subpasses) + [s]
    {
      subpasses := subpasses + [s];
      self := this;
    }

    method Dependency(d: nat) returns (self: Builder)
      modifies this`dependencies
      ensures self == this && dependencies == old(dependencies) + [d]
    {
      dependencies := dependencies + [d];
      self := this;
    }

    /** `Build`: the render pass, which takes its attachments from here. */
    method Build() returns (rp: RenderPass)
      requires |attachments| > 0 && HasImages(attachments, imageCount)
      requires ImagesValid(Images(attachments))
      ensures fresh(rp) && rp.Valid()
      ensures rp.attachments == attachments && rp.subpasses == subpasses
      ensures rp.imageCount == imageCount && rp.extent == extent
      ensures rp.outputAttachmentIndex == outputImageIndex && rp.outputImageIndex == 0
    {
      rp := new RenderPass(this);
    }
  }

  /** Attachments given with the indices 0, 1, 2, ... land at those indices. */
  method AttachInOrder(b: Builder, a0: Attachment, a1: Attachment)
    modifies b
    ensures b.attachments == old(b.attachments) + [a0, a1]
  {
    var self := b.Attachment(|b.attachments|, a0);
    self := b.Attachment(|b.attachments|, a1);
  }

  class RenderPass {
    /** Taken from the builder's output image index. */
    const outputAttachmentIndex: nat
    /** Never assigned after construction. */
    const outputImageIndex: nat
    const attachments: seq<Attachment>
    const subpasses: seq<SubpassDescription>
    const dependencies: seq<nat>
    const sampleCount: nat
    var imageCount: nat
    var extent: Extent2
    var inFlightImageIndex: Option<nat>
    var frameBuffers: seq<Framebuffer>
    /** Every view ever made; a reset view is `None`. */
    var imageViews: seq<Option<Image.Image>>

    /** There is an attachment, each holds an image for every index and
        every image is valid. */
    ghost predicate Valid()
      reads this, Images(attachments)
    {
      |attachments| > 0 && HasImages(attachments, imageCount) && ImagesValid(Images(attachments))
    }

    /** The constructor: the sample count comes from the first attachment and
        the framebuffers are made at once. */
    constructor (builder: Builder)
      requires |builder.attachments| > 0 && HasImages(builder.attachments, builder.imageCount)
      requires ImagesValid(Images(builder.attachments))
      ensures Valid()
      ensures outputAttachmentIndex == builder.outputImageIndex && outputImageIndex == 0
      ensures imageCount == builder.imageCount && extent == builder.extent
      ensures attachments == builder.attachments && subpasses == builder.subpasses
      ensures dependencies == builder.dependencies
      ensures sampleCount == builder.attachments[0].samples
      ensures inFlightImageIndex == None
      ensures frameBuffers == FrameBuffersFor(attachments, imageCount, extent)
      ensures imageViews == ViewsFor(attachments, imageCount)
    {
      outputAttachmentIndex, outputImageIndex := builder.outputImageIndex, 0;
      imageCount, extent := builder.imageCount, builder.extent;
      attachments, subpasses, dependencies := builder.attachments, builder.subpasses, builder.dependencies;
      sampleCount := builder.attachments[0].samples;
      inFlightImageIndex, frameBuffers, imageViews := None, [], [];
      new;
      CreateFrameBuffers();
    }

    /** `CreateFrameBuffers`: for each image, a view of that image in every
        attachment, appended to the views, and a framebuffer binding them. */
    method CreateFrameBuffers()
      requires HasImages(attachments, imageCount)
      modifies this`frameBuffers, this`imageViews
      ensures frameBuffers == FrameBuffersFor(attachments, imageCount, extent)
      ensures imageViews == old(imageViews) + ViewsFor(attachments, imageCount)
    {
      var made: seq<Framebuffer> := [];
      var i := 0;
      while i < imageCount
        invariant i <= imageCount
        invariant made == FrameBuffersFor(attachments, i, extent)
        invariant imageViews == old(imageViews) + ViewsFor(attachments, i)
      {
        ghost var before := imageViews;
        var fb := MakeFramebuffer(i);
        ViewsStep(old(imageViews), attachments, i);
        made := made + [fb];
        i := i + 1;
      }
      frameBuffers := made;
    }

    /** One round of `CreateFrameBuffers`: a view of image `i` of each
        attachment, and the framebuffer binding them. */
    method MakeFramebuffer(i: nat) returns (fb: Framebuffer)
      requires HasImage(attachments, i)
      modifies this`imageViews
      ensures fb == Framebuffer(FrameViews(attachments, i), extent.width, extent.height)
      ensures imageViews == old(imageViews) + Live(FrameViews(attachments, i))
    {
      var bound: seq<Image.Image> := [];
      var k := 0;
      while k < |attachments|
        invariant k <= |attachments|
        invariant bound == FrameViews(attachments, i)[..k]
        invariant imageViews == old(imageViews) + Live(bound)
      {
        LiveSnoc(bound, attachments[k].images[i]);
        bound := bound + [attachments[k].images[i]];
        imageViews := imageViews + [Some(attachments[k].images[i])];
        k := k + 1;
      }
      assert bound == FrameViews(attachments, i);
      fb := Framebuffer(bound, extent.width, extent.height);
    }

    /** `DestroyFrameBuffers`: the framebuffers go, the views are reset in
        place. */
    method DestroyFrameBuffers()
      modifies this`frameBuffers, this`imageViews
      ensures frameBuffers == []
      ensures imageViews == AllReset(old(imageViews))
    {
      frameBuffers := [];
      var k := 0;
      while k < |imageViews|
        invariant k <= |imageViews| == |old(imageViews)| && frameBuffers == []
        invariant forall j :: 0 <= j < k ==> imageViews[j] == None
      {
        imageViews := imageViews[k := None];
        k := k + 1;
      }
    }

    /** `Begin`: records the in-flight image and gives the clear values of
        the attachments in order. */
    method Begin(imageIndex: nat) returns (clearValues: seq<nat>)
      requires imageIndex < |frameBuffers|
      modifies this`inFlightImageIndex
      ensures inFlightImageIndex == Some(imageIndex) && InFlightImageIndex() == imageIndex
      ensures |clearValues| == |attachments|
      ensures forall k :: 0 <= k < |attachments| ==> clearValues[k] == attachments[k].clearValue
    {
      inFlightImageIndex := Some(imageIndex);
      clearValues := [];
      var k := 0;
      while k < |attachments|
        invariant k <= |attachments| && |clearValues| == k
        invariant forall j :: 0 <= j < k ==> clearValues[j] == attachments[j].clearValue
      {
        clearValues := clearValues + [attachments[k].clearValue];
        k := k + 1;
      }
    }

    /** `End`: no image is in flight any more. */
    method End()
      modifies this`inFlightImageIndex
      ensures inFlightImageIndex == None && InFlightImageIndex() == U32_MAX
    {
      inFlightImageIndex := None;
    }

    /** `InFlightImageIndex`: the recorded index, or `(u32)-1` outside a
        `Begin`/`End` pair. */
    function InFlightImageIndex(): (r: nat)
      reads this
      ensures inFlightImageIndex.None? ==> r == U32_MAX
      ensures inFlightImageIndex.Some? ==> r == inFlightImageIndex.value
    {
      if inFlightImageIndex.None? then U32_MAX else inFlightImageIndex.value
    }

    /** `Subpass(index)`: the attachments the subpass's colour references
        name, in order, or none for an index past the subpasses. */
    method Subpass(index: nat) returns (r: seq<Attachment>)
      requires index < |subpasses| ==>
        forall k :: 0 <= k < |subpasses[index].colorRefs| ==> subpasses[index].colorRefs[k] < |attachments|
      ensures index >= |subpasses| ==> r == []
      ensures index < |subpasses| ==> |r| == |subpasses[index].colorRefs|
      ensures index < |subpasses| ==>
        forall k :: 0 <= k < |r| ==> r[k] == attachments[subpasses[index].colorRefs[k]]
    {
      if index >= |subpasses| {
        return [];
      }
      var refs := subpasses[index].colorRefs;
      r := [];
      var i := 0;
      while i < |refs|
        invariant i <= |refs| && |r| == i
        invariant forall k :: 0 <= k < i ==> r[k] == attachments[refs[k]]
      {
        r := r + [attachments[refs[i]]];
        i := i + 1;
      }
    }

    /** `OutputImage(index)`: image `index` of the output attachment. */
    function OutputImage(index: nat): (img: Image.Image)
      requires outputAttachmentIndex < |attachments| && index < |attachments[outputAttachmentIndex].images|
      ensures img in Images(attachments)
    {
      var a := attachments[outputAttachmentIndex];
      assert a in attachments && a.images[index] in a.images;
      a.images[index]
    }

    /** `CurrentOutputImage`: since the output image index stays 0, always
        the first image of the output attachment. */
    function CurrentOutputImage(): (img: Image.Image)
      requires outputAttachmentIndex < |attachments| && outputImageIndex < |attachments[outputAttachmentIndex].images|
      ensures img == attachments[outputAttachmentIndex].images[outputImageIndex]
    {
      OutputImage(outputImageIndex)
    }

    /** The output image of index `i` is what framebuffer `i` binds at the
        output attachment's position. */
    lemma OutputIsBound(i: nat)
      requires HasImages(attachments, imageCount)
      requires frameBuffers == FrameBuffersFor(attachments, imageCount, extent)
      requires outputAttachmentIndex < |attachments| && i < imageCount
      ensures frameBuffers[i].views == FrameViews(attachments, i)
           && frameBuffers[i].views[outputAttachmentIndex] == OutputImage(i)
    {
      FrameBufferAt(attachments, imageCount, extent, i);
    }

    /** `Resize`: refuses a zero width or height and a call that changes
        neither count nor extent; otherwise rebuilds the framebuffers at the
        new count and extent after recreating every attachment image at
        `(width, height, 1)`. Old views stay in the vector, reset. */
    method Resize(newCount: nat, newExtent: Extent2) returns (r: bool)
      requires Valid() && HasImages(attachments, newCount)
      modifies this`imageCount, this`extent, this`frameBuffers, this`imageViews, Images(attachments)
      ensures Valid()
      ensures r <==> !((old(imageCount) == newCount && old(extent) == newExtent) ||
                       newExtent.width == 0 || newExtent.height == 0)
      ensures !r ==> unchanged(this) && unchanged(Images(attachments))
      ensures r ==> imageCount == newCount && extent == newExtent
      ensures r ==> frameBuffers == FrameBuffersFor(attachments, newCount, newExtent)
      ensures r ==> imageViews == AllReset(old(imageViews)) + ViewsFor(attachments, newCount)
      ensures r ==> |imageViews| == |old(imageViews)| + newCount * |attachments|
      ensures r ==> forall img :: img in Images(attachments) ==>
        img.extent == Extent3(newExtent.width, newExtent.height, 1) && img.layout == old(img.layout)
    {
      if (imageCount == newCount && extent == newExtent) || newExtent.width == 0 || newExtent.height == 0 {
        return false;
      }
      DestroyFrameBuffers();
      imageCount, extent := newCount, newExtent;
      var target := Extent3(newExtent.width, newExtent.height, 1);
      var j := 0;
      while j < |attachments|
        invariant j <= |attachments|
        invariant imageCount == newCount && extent == newExtent
        invariant frameBuffers == [] && imageViews == AllReset(old(imageViews))
        invariant ImagesValid(Images(attachments))
        invariant forall img :: img in Images(attachments) ==> img.layout == old(img.layout)
        invariant forall i, img :: 0 <= i < j && img in attachments[i].images ==> img.extent == target
      {
        ResizeAttachment(attachments[j], newExtent);
        j := j + 1;
      }
      CreateFrameBuffers();
      ViewsCount(attachments, newCount);
      r := true;
    }
  }
}
