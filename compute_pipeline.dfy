/** The compute pipeline builder (src/compute/pipeline.cpp): set layouts
    accepted strictly in set order, a compute shader, an optional base
    pipeline, and the single compute stage the pipeline is built with.
    Handles are opaque numbers; the device calls are not modelled. */
module ComputePipeline {
  import opened Wrappers
  import opened Shader
  import CoreShader

  /** `uint32_t` wraps at 2^32. */
  const U32_LIMIT: nat := 0x1_0000_0000

  /** A shader module loaded from `path`, compiled for `stage`. */
  datatype ShaderModule = ShaderModule(path: string, stage: Stage)

  /** `vk::PipelineShaderStageCreateInfo`. */
  datatype StageInfo = StageInfo(stage: Stage, module_: ShaderModule, entryPoint: string)

  /** `DescriptorSetLayout(setNumber, layout)` on the layouts so far: only
      the next set number in line is accepted. */
  function Offer(current: seq<nat>, setNumber: nat, layout: nat): (r: seq<nat>)
    ensures setNumber == |current| ==> r == current + [layout]
    ensures setNumber != |current| ==> r == current
  {
    if setNumber == |current| then current + [layout] else current
  }

  /** `DescriptorSetLayouts(startingSet, layouts)`: each layout is offered
      with the next number of a `uint32_t` counter. */
  function OfferAll(current: seq<nat>, startingSet: nat, layouts: seq<nat>): seq<nat>
    decreases |layouts|
  {
    if layouts == [] then current
    else OfferAll(Offer(current, startingSet, layouts[0]), (startingSet + 1) % U32_LIMIT, layouts[1..])
  }

  /** Without wrap-around, the layouts accepted are exactly the tail of
      `layouts` from the one numbered `|current|` on: all of them when
      `startingSet` is the current count, a suffix when it is below, and
      none when it is above or too far below. */
  lemma {:induction false} OfferAllInOrder(current: seq<nat>, startingSet: nat, layouts: seq<nat>)
    requires startingSet + |layouts| <= U32_LIMIT
    ensures startingSet <= |current| <= startingSet + |layouts| ==>
              OfferAll(current, startingSet, layouts) == current + layouts[|current| - startingSet..]
    ensures !(startingSet <= |current| <= startingSet + |layouts|) ==>
              OfferAll(current, startingSet, layouts) == current
    decreases |layouts|
  {
    if layouts != [] {
      var next := Offer(current, startingSet, layouts[0]);
      if startingSet + 1 == U32_LIMIT {
        assert layouts[1..] == [];
        assert OfferAll(current, startingSet, layouts) == next;
      } else {
        assert (startingSet + 1) % U32_LIMIT == startingSet + 1;
        OfferAllInOrder(next, startingSet + 1, layouts[1..]);
        if startingSet == |current| {
          assert layouts == [layouts[0]] + layouts[1..];
        } else if startingSet < |current| <= startingSet + |layouts| {
          assert layouts[1..][|current| - startingSet - 1..] == layouts[|current| - startingSet..];
        }
      }
    }
  }

  /** With the counter at its top, the next number offered is 0: a second
      layout can be accepted as set 0 after the first was refused. */
  lemma OfferAllWraps()
    ensures OfferAll([], U32_LIMIT - 1, [7, 8]) == [8]
  {
    assert OfferAll([8], 1, []) == [8];
  }

  /** `Compute::Pipeline::Builder`. */
  class Builder {
    var shader: Option<ShaderModule>
    var basePipeline: nat
    var basePipelineIndex: int
    var descriptorSetLayouts: seq<nat>

    constructor ()
      ensures shader.None? && basePipeline == 0 && basePipelineIndex == 0 && descriptorSetLayouts == []
    {
      shader, basePipeline, basePipelineIndex, descriptorSetLayouts := None, 0, 0, [];
    }

    /** `Shader(path)`: the module is created for the compute stage, but
        `Core::Shader` replaces that stage with the one its extension
        names, and throws for an extension it does not know. */
    method Shader(path: string) returns (r: Result<Stage>)
      modifies this`shader
      ensures r == CoreShader.ResolveStage(path)
      ensures r.Ok? ==> shader == Some(ShaderModule(path, r.value))
      ensures r.Err? ==> shader == old(shader)
    {
      r := CoreShader.ResolveStage(path);
      if r.Ok? {
        shader := Some(ShaderModule(path, r.value));
      }
    }

    /** `BasePipeline`: both the handle and the index are kept. */
    method BasePipeline(handle: nat, index: int)
      modifies this`basePipeline, this`basePipelineIndex
      ensures basePipeline == handle && basePipelineIndex == index
    {
      basePipeline, basePipelineIndex := handle, index;
    }

    /** `DescriptorSetLayout`: reports (as the source logs) a set number
        that is not the next one, and then changes nothing. */
    method DescriptorSetLayout(setNumber: nat, layout: nat) returns (refused: bool)
      modifies this`descriptorSetLayouts
      ensures refused <==> setNumber != |old(descriptorSetLayouts)|
      ensures descriptorSetLayouts == Offer(old(descriptorSetLayouts), setNumber, layout)
    {
      refused := setNumber != |descriptorSetLayouts|;
      if !refused {
        descriptorSetLayouts := descriptorSetLayouts + [layout];
      }
    }

    /** `DescriptorSetLayouts`: the loop over `layouts` with `startingSet++`. */
    method DescriptorSetLayouts(startingSet: nat, layouts: seq<nat>)
      requires startingSet < U32_LIMIT
      modifies this`descriptorSetLayouts
      ensures descriptorSetLayouts == OfferAll(old(descriptorSetLayouts), startingSet, layouts)
    {
      var setNumber: nat := startingSet;
      var i := 0;
      while i < |layouts|
        invariant i <= |layouts|
        invariant OfferAll(descriptorSetLayouts, setNumber, layouts[i..])
               == OfferAll(old(descriptorSetLayouts), startingSet, layouts)
      {
        assert layouts[i..][1..] == layouts[i + 1..];
        var _ := DescriptorSetLayout(setNumber, layouts[i]);
        setNumber := (setNumber + 1) % U32_LIMIT;
        i := i + 1;
      }
    }

    /** `Build`: one compute stage running the shader's `main`. The stage
        info always says compute, whatever stage the module was compiled
        for. */
    method Build() returns (p: Pipeline)
      requires shader.Some?
      ensures fresh(p)
      ensures p.stage == StageInfo(COMPUTE, shader.value, "main")
      ensures p.setLayouts == descriptorSetLayouts
      ensures p.basePipeline == basePipeline && p.basePipelineIndex == basePipelineIndex
    {
      p := new Pipeline(StageInfo(COMPUTE, shader.value, "main"), descriptorSetLayouts, basePipeline, basePipelineIndex);
    }
  }

  /** `Compute::Pipeline`, as created from its builder. */
  class Pipeline {
    const stage: StageInfo
    const setLayouts: seq<nat>
    const basePipeline: nat
    const basePipelineIndex: int

    constructor (stage: StageInfo, setLayouts: seq<nat>, basePipeline: nat, basePipelineIndex: int)
      ensures this.stage == stage && this.setLayouts == setLayouts
      ensures this.basePipeline == basePipeline && this.basePipelineIndex == basePipelineIndex
    {
      this.stage, this.setLayouts := stage, setLayouts;
      this.basePipeline, this.basePipelineIndex := basePipeline, basePipelineIndex;
    }
  }
}
