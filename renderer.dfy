/** The engine's frame loop (src/renderer.cpp): a ring of per-image frame
    records, the started flag that brackets a frame, and the resize flag the
    UI viewport raises. Acquire and present results, the window's paused
    state and the viewport's available size are inputs; fences, semaphores,
    command recording and queue submission are not modelled. A swap chain
    replaced after an out-of-date or suboptimal result is counted. */
module Renderer {
  import opened Vk

  /** One in-flight frame; only its image index matters to the ring. */
  datatype Frame = Frame(imageIndex: nat)

  /** `m_swapChainSettings.imageCount`, fixed by the constructor. */
  const IMAGE_COUNT: nat := 2

  /** The acquire or present results that make the renderer build a new
      swap chain. */
  predicate Replaces(result: VkResult)
  {
    result == ErrorOutOfDateKHR || result == SuboptimalKHR
  }

  /** The frame that follows `current` in a ring of `count`. */
  function NextFrame(current: nat, count: nat): (r: nat)
    requires count > 0
    ensures r < count
    ensures current + 1 < count ==> r == current + 1
    ensures current + 1 == count ==> r == 0
  {
    (current + 1) % count
  }

  /** `k` successful frames in a row, starting from `current`. */
  function AdvanceBy(current: nat, count: nat, k: nat): nat
    requires count > 0
  {
    if k == 0 then current else NextFrame(AdvanceBy(current, count, k - 1), count)
  }

  /** Before the ring wraps, `k` frames move it `k` places. */
  lemma {:induction false} AdvanceWithin(current: nat, count: nat, k: nat)
    requires current + k < count
    ensures AdvanceBy(current, count, k) == current + k
  {
    if k > 0 {
      AdvanceWithin(current, count, k - 1);
    }
  }

  /** `a` frames and then `b` more are `a + b` frames. */
  lemma {:induction false} AdvanceCompose(current: nat, count: nat, a: nat, b: nat)
    requires count > 0
    ensures AdvanceBy(AdvanceBy(current, count, a), count, b) == AdvanceBy(current, count, a + b)
  {
    if b > 0 {
      AdvanceCompose(current, count, a, b - 1);
    }
  }

  /** After one frame per image the ring is back where it started. */
  lemma FullCycle(current: nat, count: nat)
    requires current < count
    ensures AdvanceBy(current, count, count) == current
  {
    var rest := count - current - 1;
    AdvanceWithin(current, count, rest);
    assert AdvanceBy(current, count, rest + 1) == 0;
    AdvanceWithin(0, count, current);
    AdvanceCompose(current, count, rest + 1, current);
  }

  class Renderer {
    const imageCount: nat
    var frames: seq<Frame>
    var frameStarted: bool
    var currentFrame: nat
    var resized: bool
    var extent: Extent2
    /** How many swap chains have been created, the first included. */
    var swapChains: nat
    /** The extents the three render passes were last resized to. */
    var depthExtent: Extent2
    var reflectionExtent: Extent2
    var graphicsExtent: Extent2

    /** The ring: one frame per image, each knowing its own index, and the
        current frame inside it. */
    predicate Valid()
      reads this
    {
      && imageCount > 0 && |frames| == imageCount && currentFrame < imageCount
      && (forall i :: 0 <= i < |frames| ==> frames[i].imageIndex == i)
    }

    /** The constructor: two images, the frames created, one swap chain,
        no frame started. */
    constructor ()
      ensures Valid() && imageCount == IMAGE_COUNT
      ensures !frameStarted && currentFrame == 0 && !resized && swapChains == 1
    {
      imageCount := IMAGE_COUNT;
      var made := CreateFrames(IMAGE_COUNT);
      frames := made;
      frameStarted, currentFrame, resized := false, 0, false;
      extent := Extent2(0, 0);
      swapChains := 1;
      depthExtent, reflectionExtent, graphicsExtent := Extent2(0, 0), Extent2(0, 0), Extent2(0, 0);
    }

    /** `BeginFrame`: refused while a frame is started or the window is
        paused; a stale swap chain is replaced and the frame does not
        start; otherwise it starts. The result says whether it started. */
    method BeginFrame(paused: bool, acquire: VkResult) returns (r: bool)
      requires Valid()
      modifies this`frameStarted, this`swapChains
      ensures Valid()
      ensures old(frameStarted) || paused ==> !r && frameStarted == old(frameStarted) && swapChains == old(swapChains)
      ensures !old(frameStarted) && !paused ==>
                r == !Replaces(acquire) && frameStarted == r
                && swapChains == old(swapChains) + (if Replaces(acquire) then 1 else 0)
    {
      if frameStarted {
        return false;
      }
      if paused {
        return false;
      }
      if Replaces(acquire) {
        swapChains := swapChains + 1;
        frameStarted := false;
      } else {
        frameStarted := true;
      }
      r := frameStarted;
    }

    /** `EndFrame`: refused when no frame is started or the window is
        paused; a stale swap chain after present is replaced and the ring
        stays; otherwise the frame ends and the ring advances. */
    method EndFrame(paused: bool, present: VkResult) returns (r: bool)
      requires Valid()
      modifies this`frameStarted, this`swapChains, this`currentFrame
      ensures Valid()
      ensures !old(frameStarted) || paused ==>
                !r && frameStarted == old(frameStarted) && swapChains == old(swapChains)
                && currentFrame == old(currentFrame)
      ensures old(frameStarted) && !paused && Replaces(present) ==>
                !r && !frameStarted && swapChains == old(swapChains) + 1 && currentFrame == old(currentFrame)
      ensures old(frameStarted) && !paused && !Replaces(present) ==>
                r && !frameStarted && swapChains == old(swapChains)
                && currentFrame == NextFrame(old(currentFrame), imageCount)
    {
      if !frameStarted {
        return false;
      }
      if paused {
        return false;
      }
      if Replaces(present) {
        swapChains := swapChains + 1;
        frameStarted := false;
        return false;
      }
      frameStarted := false;
      currentFrame := (currentFrame + 1) % imageCount;
      r := true;
    }

    /** `DrawUI`: a viewport of a new size raises the resize flag and is
        remembered. */
    method DrawUI(available: Extent2)
      requires Valid()
      modifies this`resized, this`extent
      ensures extent == available
      ensures resized == (old(resized) || available != old(extent))
    {
      var imageIndex := frames[currentFrame].imageIndex;
      if available != extent {
        resized := true;
        extent := available;
      }
    }

    /** `UpdateUI`: after a resize the depth and graphics passes are asked
        for the viewport's extent and the reflection pass for half of it;
        each pass goes through `RenderPass::Resize`, which keeps its extent
        when the one asked for has a zero side. The flag is then cleared.
        Without a resize nothing changes. */
    method UpdateUI()
      modifies this`resized, this`depthExtent, this`reflectionExtent, this`graphicsExtent
      ensures !resized
      ensures old(resized) ==>
                depthExtent == PassResized(old(depthExtent), extent)
                && graphicsExtent == PassResized(old(graphicsExtent), extent)
                && reflectionExtent == PassResized(old(reflectionExtent), Extent2(extent.width / 2, extent.height / 2))
      ensures !old(resized) ==>
                depthExtent == old(depthExtent) && graphicsExtent == old(graphicsExtent)
                && reflectionExtent == old(reflectionExtent)
    {
      if resized {
        depthExtent := PassResized(depthExtent, extent);
        reflectionExtent := PassResized(reflectionExtent, Extent2(extent.width / 2, extent.height / 2));
        graphicsExtent := PassResized(graphicsExtent, extent);
        resized := false;
      }
    }
  }

  /** The extent a render pass has after `Resize` is asked for `requested`:
      a request with a zero side is refused and the pass keeps `current`. */
  function PassResized(current: Extent2, requested: Extent2): (r: Extent2)
    ensures requested.width > 0 && requested.height > 0 ==> r == requested
    ensures requested.width == 0 || requested.height == 0 ==> r == current
  {
    if requested.width == 0 || requested.height == 0 then current else requested
  }

  /** A viewport one pixel wide resizes the depth and graphics passes but
      leaves the reflection pass, asked for width 0, at its old extent; an
      empty viewport leaves all three passes alone. */
  lemma NarrowViewportKeepsReflection(current: Extent2, depth: Extent2, height: nat)
    requires height > 0
    ensures PassResized(depth, Extent2(1, height)) == Extent2(1, height)
    ensures PassResized(current, Extent2(1 / 2, height / 2)) == current
    ensures PassResized(current, Extent2(0, height)) == current
  {
  }

  /** `CreateFrames`: one frame per image, frame `i` for image `i`. */
  method CreateFrames(count: nat) returns (frames: seq<Frame>)
    ensures |frames| == count
    ensures forall i :: 0 <= i < count ==> frames[i].imageIndex == i
  {
    frames := [];
    var i := 0;
    while i < count
      invariant i <= count && |frames| == i
      invariant forall j :: 0 <= j < i ==> frames[j].imageIndex == j
    {
      frames := frames + [Frame(i)];
      i := i + 1;
    }
  }
}

/** The older renderer (src/graphics/renderer.cpp): one started flag, a
    warning instead of a refusal when the frame bracket is misused, and the
    swap chain replaced on a stale acquire or present. */
module GraphicsRenderer {
  import opened Vk
  import R = Renderer

  class Renderer {
    var frameStarted: bool
    var swapChains: nat
    /** How many frames were handed to the swap chain for submission. */
    var submissions: nat

    constructor ()
      ensures !frameStarted && swapChains == 1 && submissions == 0
    {
      frameStarted, swapChains, submissions := false, 1, 0;
    }

    /** `BeginFrame`: proceeds even when a frame is started; refused when
        paused; a stale swap chain is replaced and the frame does not
        start; otherwise it starts. */
    method BeginFrame(paused: bool, acquire: VkResult) returns (r: bool)
      modifies this`frameStarted, this`swapChains
      ensures paused ==> !r && frameStarted == old(frameStarted) && swapChains == old(swapChains)
      ensures !paused ==>
                r == !R.Replaces(acquire) && frameStarted == r
                && swapChains == old(swapChains) + (if R.Replaces(acquire) then 1 else 0)
    {
      if paused {
        return false;
      }
      if R.Replaces(acquire) {
        swapChains := swapChains + 1;
        frameStarted := false;
      } else {
        frameStarted := true;
      }
      r := frameStarted;
    }

    /** `EndFrame`: proceeds even when no frame is started; refused when
        paused; otherwise the frame is submitted and ended before present,
        and a stale present replaces the swap chain and reports failure. */
    method EndFrame(paused: bool, present: VkResult) returns (r: bool)
      modifies this`frameStarted, this`swapChains, this`submissions
      ensures paused ==>
                !r && frameStarted == old(frameStarted) && swapChains == old(swapChains)
                && submissions == old(submissions)
      ensures !paused ==>
                r == !R.Replaces(present) && !frameStarted && submissions == old(submissions) + 1
                && swapChains == old(swapChains) + (if R.Replaces(present) then 1 else 0)
    {
      if paused {
        return false;
      }
      submissions := submissions + 1;
      frameStarted := false;
      if R.Replaces(present) {
        swapChains := swapChains + 1;
        return false;
      }
      r := true;
    }
  }
}
