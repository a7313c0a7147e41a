/** The graphics pipeline builder (src/graphics/pipeline.cpp): fixed-function
    state with its defaults and setters, the shaders keyed by stage, and
    `Build`, which merges the shaders' descriptors and push-constant ranges
    into the pipeline layout and emits one stage per shader. Create-info
    structures the builder only passes along are opaque numbers; the device
    calls are not modelled. */
module GraphicsPipeline {
  import opened Shader
  import SL = SetLayout
  import LM = LayoutMerge
  import Functionals

  datatype Topology = TriangleList | OtherTopology(code: nat)
  datatype PolygonMode = Fill | OtherPolygonMode(code: nat)
  datatype CullMode = CullNone | OtherCullMode(code: nat)
  datatype FrontFace = CounterClockwise | Clockwise
  datatype CompareOp = Less | OtherCompareOp(code: nat)
  datatype LogicOp = Clear | Copy | OtherLogicOp(code: nat)
  datatype DynamicState = DynamicViewport | DynamicScissor | OtherDynamicState(code: nat)

  datatype InputAssembly = InputAssembly(topology: Topology, primitiveRestart: bool)
  datatype Rasterizer = Rasterizer(depthClamp: bool, rasterizerDiscard: bool, polygonMode: PolygonMode,
                                   cullMode: CullMode, frontFace: FrontFace, depthBias: bool, lineWidth: real)
  datatype DepthStencil = DepthStencil(depthTest: bool, depthWrite: bool, compareOp: CompareOp,
                                       depthBoundsTest: bool, stencilTest: bool)
  datatype Viewport = Viewport(x: int, y: int, width: nat, height: nat)
  datatype Rect2D = Rect2D(x: int, y: int, width: nat, height: nat)
  /** `vk::PipelineColorBlendStateCreateInfo`: the logic op, the attachments
      and the blend constants (four floats, zero by default). */
  datatype ColorBlend = ColorBlend(logicOpEnable: bool, logicOp: LogicOp, attachments: seq<nat>, blendConstants: seq<real>)

  /** `vk::PipelineViewportStateCreateInfo`: either the lists themselves or
      only the counts, the viewports and scissors then being dynamic. */
  datatype ViewportState = ViewportState(viewports: seq<Viewport>, scissors: seq<Rect2D>, viewportCount: nat, scissorCount: nat)

  /** A shader as the pipeline sees it: its stage, its module and what
      reflection found in it. */
  datatype ShaderInfo = ShaderInfo(stage: Stage, module_: nat, descriptors: seq<Descriptor>,
                                   pushConstantRanges: seq<PushConstantRange>)

  /** `vk::PipelineShaderStageCreateInfo`. */
  datatype StageInfo = StageInfo(stage: Stage, module_: nat, entryPoint: string)

  /** `vk::PipelineLayoutCreateInfo`: the set layouts and push-constant
      ranges. */
  datatype LayoutInfo = LayoutInfo(setLayouts: seq<SL.Bindings>, pushConstantRanges: seq<LM.PushRange>)

  /** The defaults the builder's constructor sets. */
  const DEFAULT_INPUT_ASSEMBLY := InputAssembly(TriangleList, false)
  const DEFAULT_RASTERIZER := Rasterizer(false, false, Fill, CullNone, CounterClockwise, false, 1.0)
  const DEFAULT_DEPTH_STENCIL := DepthStencil(true, true, Less, false, false)
  const DEFAULT_DYNAMIC_STATES := [DynamicViewport, DynamicScissor]

  /** The viewport rule of `Build`: the lists are used only when both are
      non-empty; otherwise one viewport and one scissor are declared. */
  function ViewportStateFor(viewports: seq<Viewport>, scissors: seq<Rect2D>): (r: ViewportState)
    ensures r.viewportCount >= 1 && r.scissorCount >= 1
    ensures |viewports| > 0 && |scissors| > 0 ==> r.viewportCount == |viewports| && r.scissorCount == |scissors|
    ensures !(|viewports| > 0 && |scissors| > 0) ==> r.viewports == [] && r.scissors == [] && r.viewportCount == r.scissorCount == 1
  {
    if |viewports| > 0 && |scissors| > 0 then ViewportState(viewports, scissors, |viewports|, |scissors|)
    else ViewportState([], [], 1, 1)
  }

  /** Every stage in `order` has a shader. */
  predicate Listed(shaders: map<Stage, ShaderInfo>, order: seq<Stage>)
  {
    forall i :: 0 <= i < |order| ==> order[i] in shaders
  }

  /** `order` lists the shader map's keys, each once: the unspecified order
      in which an `unordered_map` is iterated. */
  ghost predicate Enumerates(shaders: map<Stage, ShaderInfo>, order: seq<Stage>)
  {
    (forall i, j :: 0 <= i < j < |order| ==> order[i] != order[j])
    && Listed(shaders, order)
    && (forall st :: st in shaders ==> st in order)
  }

  /** The descriptor visits of the shaders listed in `order`. */
  function Items(shaders: map<Stage, ShaderInfo>, order: seq<Stage>): seq<LM.Item>
    requires Listed(shaders, order)
  {
    if order == [] then []
    else
      var last := shaders[order[|order| - 1]];
      Items(shaders, order[..|order| - 1]) + LM.ShaderItems(last.stage, last.descriptors)
  }

  /** The push-constant visits of the shaders listed in `order`. */
  function RangeItems(shaders: map<Stage, ShaderInfo>, order: seq<Stage>): seq<LM.RangeItem>
    requires Listed(shaders, order)
  {
    if order == [] then []
    else
      var last := shaders[order[|order| - 1]];
      RangeItems(shaders, order[..|order| - 1]) + LM.ShaderRangeItems(last.stage, last.pushConstantRanges)
  }

  /** The stages `Build` emits, in map order. */
  function StagesFor(shaders: map<Stage, ShaderInfo>, order: seq<Stage>): (r: seq<StageInfo>)
    requires Listed(shaders, order)
    ensures |r| == |order|
  {
    if order == [] then []
    else StagesFor(shaders, order[..|order| - 1]) + [StageInfo(order[|order| - 1], shaders[order[|order| - 1]].module_, "main")]
  }

  /** One stage per shader, each the shader's stage with entry point
      `main`, and no stage twice. */
  lemma {:induction false} OneStagePerShader(shaders: map<Stage, ShaderInfo>, order: seq<Stage>)
    requires Enumerates(shaders, order)
    ensures forall i :: 0 <= i < |order| ==>
              StagesFor(shaders, order)[i] == StageInfo(order[i], shaders[order[i]].module_, "main")
    ensures forall st :: (exists i :: 0 <= i < |order| && StagesFor(shaders, order)[i].stage == st) <==> st in shaders
    ensures forall i, j :: 0 <= i < j < |order| ==> StagesFor(shaders, order)[i].stage != StagesFor(shaders, order)[j].stage
  {
    StagesAt(shaders, order);
    var r := StagesFor(shaders, order);
    forall st | st in shaders ensures exists i :: 0 <= i < |order| && r[i].stage == st {
      var i :| 0 <= i < |order| && order[i] == st;
      assert r[i].stage == st;
    }
  }

  lemma {:induction false} StagesAt(shaders: map<Stage, ShaderInfo>, order: seq<Stage>)
    requires Listed(shaders, order)
    ensures forall i :: 0 <= i < |order| ==>
              StagesFor(shaders, order)[i] == StageInfo(order[i], shaders[order[i]].module_, "main")
    decreases |order|
  {
    if order != [] {
      var init := order[..|order| - 1];
      StagesAt(shaders, init);
      forall i | 0 <= i < |init| ensures order[i] == init[i] {
      }
    }
  }

  /** `Graphics::Pipeline::Builder`. */
  class Builder {
    var shaders: map<Stage, ShaderInfo>
    var vertexInput: nat
    var inputAssembly: InputAssembly
    var viewports: seq<Viewport>
    var scissors: seq<Rect2D>
    var rasterizer: Rasterizer
    var multisampling: nat
    var depthStencil: DepthStencil
    var colorBlendAttachments: seq<nat>
    var colorBlending: ColorBlend
    var dynamicStates: seq<DynamicState>
    var tessellation: nat
    var renderPass: nat
    var subpass: nat
    var setLayouts: seq<SL.Bindings>

    /** The constructor's defaults: triangle lists without primitive
        restart; filled, unculled, counter-clockwise polygons without depth
        clamp, discard or bias and lines one wide; depth test and write on
        with `Less` and no bounds or stencil test. */
    constructor ()
      ensures shaders == map[] && viewports == [] && scissors == [] && colorBlendAttachments == []
      ensures inputAssembly == DEFAULT_INPUT_ASSEMBLY
      ensures rasterizer == DEFAULT_RASTERIZER
      ensures depthStencil == DEFAULT_DEPTH_STENCIL
      ensures dynamicStates == DEFAULT_DYNAMIC_STATES
      ensures subpass == 0 && setLayouts == []
    {
      shaders, vertexInput, inputAssembly := map[], 0, DEFAULT_INPUT_ASSEMBLY;
      viewports, scissors := [], [];
      rasterizer, multisampling, depthStencil := DEFAULT_RASTERIZER, 0, DEFAULT_DEPTH_STENCIL;
      colorBlendAttachments, colorBlending := [], ColorBlend(false, Clear, [], [0.0, 0.0, 0.0, 0.0]);
      dynamicStates, tessellation, renderPass, subpass := DEFAULT_DYNAMIC_STATES, 0, 0, 0;
      setLayouts := [];
    }

    /** `AddShader`: keyed by the shader's stage, so a later shader of the
        same stage replaces the earlier one. */
    method AddShader(shader: ShaderInfo)
      modifies this`shaders
      ensures shaders == old(shaders)[shader.stage := shader]
    {
      shaders := shaders[shader.stage := shader];
    }

    method VertexInputState(info: nat)
      modifies this`vertexInput
      ensures vertexInput == info
    {
      vertexInput := info;
    }

    method InputAssemblyState(info: InputAssembly)
      modifies this`inputAssembly
      ensures inputAssembly == info
    {
      inputAssembly := info;
    }

    /** `Viewport`, `Scissor`, `ColorBlendAttachment` and `DynamicState`
        append in call order. */
    method AddViewport(viewport: Viewport)
      modifies this`viewports
      ensures viewports == old(viewports) + [viewport]
    {
      viewports := viewports + [viewport];
    }

    method AddScissor(scissor: Rect2D)
      modifies this`scissors
      ensures scissors == old(scissors) + [scissor]
    {
      scissors := scissors + [scissor];
    }

    method SetRasterizer(info: Rasterizer)
      modifies this`rasterizer
      ensures rasterizer == info
    {
      rasterizer := info;
    }

    method Multisampling(info: nat)
      modifies this`multisampling
      ensures multisampling == info
    {
      multisampling := info;
    }

    method SetDepthStencil(info: DepthStencil)
      modifies this`depthStencil
      ensures depthStencil == info
    {
      depthStencil := info;
    }

    method ColorBlendAttachment(attachment: nat)
      modifies this`colorBlendAttachments
      ensures colorBlendAttachments == old(colorBlendAttachments) + [attachment]
    {
      colorBlendAttachments := colorBlendAttachments + [attachment];
    }

    method SetColorBlend(info: ColorBlend)
      modifies this`colorBlending
      ensures colorBlending == info
    {
      colorBlending := info;
    }

    method AddDynamicState(state: DynamicState)
      modifies this`dynamicStates
      ensures dynamicStates == old(dynamicStates) + [state]
    {
      dynamicStates := dynamicStates + [state];
    }

    method Tessellation(info: nat)
      modifies this`tessellation
      ensures tessellation == info
    {
      tessellation := info;
    }

    method RenderPass(handle: nat)
      modifies this`renderPass
      ensures renderPass == handle
    {
      renderPass := handle;
    }

    method Subpass(index: nat)
      modifies this`subpass
      ensures subpass == index
    {
      subpass := index;
    }

    /** `Build`, visiting the shaders in `order`, the map's iteration order
        (`Enumerates(shaders, order)`, which `OneStagePerShader` uses; the
        proof here needs only that every stage listed has a shader). The
        set layouts merged from the shaders follow those the builder already
        held and the pipeline layout takes all of them, together with the
        merged push-constant ranges; there is one stage per shader; the
        viewport rule applies; the builder's blend state loses its logic op
        and takes the attachments added, keeping its constants. The
        pipeline takes the set layouts over, leaving the builder's list
        empty. */
    method Build(order: seq<Stage>) returns (p: Pipeline)
      requires Listed(shaders, order)
      modifies this`setLayouts, this`colorBlending
      ensures colorBlending == old(colorBlending).(logicOpEnable := false, logicOp := Copy, attachments := colorBlendAttachments)
      ensures setLayouts == []
      ensures fresh(p) && p.Settings(this)
      ensures p.setLayouts == old(setLayouts) + LM.MergeAll([], Items(shaders, order))
      ensures p.layout == LayoutInfo(p.setLayouts, LM.PushAllMerged([], RangeItems(shaders, order)))
      ensures p.stages == StagesFor(shaders, order)
      ensures p.viewportState == ViewportStateFor(viewports, scissors)
    {
      var all, layout, stages := Assemble(shaders, order, setLayouts);
      colorBlending := colorBlending.(logicOpEnable := false, logicOp := Copy, attachments := colorBlendAttachments);
      p := new Pipeline(this, all, layout, stages, ViewportStateFor(viewports, scissors));
      setLayouts := [];
    }
  }

  /** The shader loops of `Build`: the set layouts merged from the shaders
      in `order` follow `earlier`, the pipeline layout takes all of them and
      the merged push-constant ranges, and there is one stage per shader. */
  method Assemble(shaders: map<Stage, ShaderInfo>, order: seq<Stage>, earlier: seq<SL.Bindings>)
    returns (setLayouts: seq<SL.Bindings>, layout: LayoutInfo, stages: seq<StageInfo>)
    requires Listed(shaders, order)
    ensures setLayouts == earlier + LM.MergeAll([], Items(shaders, order))
    ensures layout == LayoutInfo(setLayouts, LM.PushAllMerged([], RangeItems(shaders, order)))
    ensures stages == StagesFor(shaders, order)
  {
    var layouts, ranges := MergeShaders(shaders, order);
    setLayouts := earlier + layouts;
    layout := LayoutInfo(setLayouts, ranges);
    stages := EmitStages(shaders, order);
  }

  /** The outer loop of `Build` over the shaders, in map order. */
  method MergeShaders(shaders: map<Stage, ShaderInfo>, order: seq<Stage>)
    returns (layouts: seq<SL.Bindings>, ranges: seq<LM.PushRange>)
    requires Listed(shaders, order)
    ensures layouts == LM.MergeAll([], Items(shaders, order))
    ensures ranges == LM.PushAllMerged([], RangeItems(shaders, order))
  {
    layouts, ranges := [], [];
    var i := 0;
    while i < |order|
      invariant i <= |order|
      invariant layouts == LM.MergeAll([], Items(shaders, order[..i]))
      invariant ranges == LM.PushAllMerged([], RangeItems(shaders, order[..i]))
    {
      var shader := shaders[order[i]];
      assert order[..i + 1][..i] == order[..i];
      LM.MergeAllAppend([], Items(shaders, order[..i]), LM.ShaderItems(shader.stage, shader.descriptors));
      LM.PushAllMergedAppend([], RangeItems(shaders, order[..i]), LM.ShaderRangeItems(shader.stage, shader.pushConstantRanges));
      layouts := MergeShader(layouts, shader.stage, shader.descriptors);
      ranges := PushShader(ranges, shader.stage, shader.pushConstantRanges);
      i := i + 1;
    }
    assert order[..i] == order;
  }

  /** The stage loop of `Build`. */
  method EmitStages(shaders: map<Stage, ShaderInfo>, order: seq<Stage>) returns (stages: seq<StageInfo>)
    requires Listed(shaders, order)
    ensures stages == StagesFor(shaders, order)
  {
    stages := [];
    var j := 0;
    while j < |order|
      invariant j <= |order|
      invariant stages == StagesFor(shaders, order[..j])
    {
      assert order[..j + 1][..j] == order[..j];
      stages := stages + [StageInfo(order[j], shaders[order[j]].module_, "main")];
      j := j + 1;
    }
    assert order[..j] == order;
  }

  /** The descriptor loop for one shader. */
  method MergeShader(layouts: seq<SL.Bindings>, stage: Stage, descriptors: seq<Descriptor>)
    returns (r: seq<SL.Bindings>)
    ensures r == LM.MergeAll(layouts, LM.ShaderItems(stage, descriptors))
  {
    r := layouts;
    var i := 0;
    while i < |descriptors|
      invariant i <= |descriptors|
      invariant LM.MergeAll(r, LM.ShaderItems(stage, descriptors[i..])) == LM.MergeAll(layouts, LM.ShaderItems(stage, descriptors))
    {
      assert descriptors[i..][1..] == descriptors[i + 1..];
      r := MergeDescriptor(r, stage, descriptors[i]);
      i := i + 1;
    }
  }

  /** One descriptor of the loop: the set's builder is grown to hold it,
      then the binding's stages gain this shader's, or the binding is
      added. */
  method MergeDescriptor(layouts: seq<SL.Bindings>, stage: Stage, d: Descriptor) returns (r: seq<SL.Bindings>)
    ensures r == LM.MergeOne(layouts, LM.Item(stage, d))
  {
    r := layouts;
    if d.setIndex >= |r| {
      r := LM.Grow(r, d.setIndex + 1);
    }
    var current := r[d.setIndex];
    if d.binding in current {
      current := current[d.binding := current[d.binding].(stageFlags := Or(current[d.binding].stageFlags, stage))];
    } else {
      current := SL.Emplace(current, SL.LayoutBinding(d.binding, d.kind, d.count, stage));
    }
    r := r[d.setIndex := current];
  }

  /** The push-constant loop for one shader, with the stage ORed into the
      stored range. */
  method PushShader(ranges: seq<LM.PushRange>, stage: Stage, blocks: seq<PushConstantRange>)
    returns (r: seq<LM.PushRange>)
    ensures r == LM.PushAllMerged(ranges, LM.ShaderRangeItems(stage, blocks))
  {
    r := ranges;
    var i := 0;
    while i < |blocks|
      invariant i <= |blocks|
      invariant LM.PushAllMerged(r, LM.ShaderRangeItems(stage, blocks[i..])) == LM.PushAllMerged(ranges, LM.ShaderRangeItems(stage, blocks))
    {
      var b := blocks[i];
      assert blocks[i..][1..] == blocks[i + 1..];
      ghost var before := r;
      var k := Functionals.FirstIndex(r, LM.SameBlock(b.offset, b.size));
      if k < |r| {
        r := r[k := r[k].(stageFlags := Or(r[k].stageFlags, stage))];
      } else {
        r := r + [LM.PushRange(b.offset, b.size, stage)];
      }
      assert r == LM.PushMerged(before, LM.RangeItem(stage, b));
      i := i + 1;
    }
  }

  /** `Graphics::Pipeline`, as created from its builder. */
  class Pipeline {
    const setLayouts: seq<SL.Bindings>
    const layout: LayoutInfo
    const stages: seq<StageInfo>
    const viewportState: ViewportState
    const vertexInput: nat
    const inputAssembly: InputAssembly
    const rasterizer: Rasterizer
    const depthStencil: DepthStencil
    const colorBlending: ColorBlend
    const multisampling: nat
    const tessellation: nat
    const dynamicStates: seq<DynamicState>
    const renderPass: nat
    const subpass: nat
    const shaders: map<Stage, ShaderInfo>

    /** Every create-info field the builder holds is the builder's. */
    predicate Settings(builder: Builder)
      reads builder
    {
      && vertexInput == builder.vertexInput && inputAssembly == builder.inputAssembly
      && rasterizer == builder.rasterizer && depthStencil == builder.depthStencil
      && colorBlending == builder.colorBlending
      && multisampling == builder.multisampling && tessellation == builder.tessellation
      && dynamicStates == builder.dynamicStates && renderPass == builder.renderPass
      && subpass == builder.subpass && shaders == builder.shaders
    }

    /** The pipeline's constructor: the set layouts are moved in, the rest
        is read from the builder and the create infos `Build` assembled. */
    constructor (builder: Builder, setLayouts: seq<SL.Bindings>, layout: LayoutInfo, stages: seq<StageInfo>,
                 viewportState: ViewportState)
      ensures Settings(builder)
      ensures this.setLayouts == setLayouts && this.layout == layout
      ensures this.stages == stages && this.viewportState == viewportState
    {
      this.setLayouts, this.layout, this.stages, this.viewportState := setLayouts, layout, stages, viewportState;
      vertexInput, inputAssembly := builder.vertexInput, builder.inputAssembly;
      rasterizer, depthStencil := builder.rasterizer, builder.depthStencil;
      colorBlending := builder.colorBlending;
      multisampling, tessellation := builder.multisampling, builder.tessellation;
      dynamicStates, renderPass := builder.dynamicStates, builder.renderPass;
      subpass, shaders := builder.subpass, builder.shaders;
    }
  }
}
