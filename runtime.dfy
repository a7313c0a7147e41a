/** `Core::Runtime` (src/re_core/runtime.cpp and src/core/runtime.cpp): the
    Vulkan instance's extension list, the choice of physical device among
    the driver's candidates, the debug callback's verdict and the global
    pointer or singleton through which the rest of the engine reaches the
    runtime. Instance creation, the debug messenger and the surface are
    driver calls and stay outside; the candidates' reports are inputs. */
module Runtime {
  import opened Wrappers
  import opened Vk
  import PD = PhysicalDevice

  const NOT_INITIALIZED := "Runtime not initialized"
  const NO_SUITABLE_DEVICE := "Failed to find a suitable physical device!"

  /** What the driver reports about one candidate GPU. */
  datatype DeviceReport = DeviceReport(
    deviceType: PD.DeviceType,
    families: seq<PD.FamilyInfo>,
    extensions: seq<string>,
    features: PD.Features,
    formatCount: nat,
    presentModeCount: nat)

  /** The device requirements a runtime is configured with. */
  datatype Requirements = Requirements(
    queueFamilies: set<Flags>,
    deviceExtensions: seq<string>,
    features: PD.Features)

  /** A candidate the selection accepts: suitable, and a discrete GPU when
      the selection insists on one. */
  predicate Qualifies(c: DeviceReport, req: Requirements, discreteOnly: bool)
  {
    PD.Suitable(c.families, c.extensions, c.features,
                req.queueFamilies, PD.ExtensionNames(req.deviceExtensions), req.features) &&
    (discreteOnly ==> c.deviceType == PD.DiscreteGpu)
  }

  /** The selection loop shared by both runtimes: wraps each candidate in a
      `PhysicalDevice` carrying the requirements, and keeps the first that
      qualifies. The newer runtime skips suitable devices that are not
      discrete GPUs; the older one takes the first suitable device. */
  method FirstQualifying(candidates: seq<DeviceReport>, req: Requirements, discreteOnly: bool)
    returns (r: Result<PD.PhysicalDevice>, index: nat)
    ensures r.Ok? ==> index < |candidates| && Qualifies(candidates[index], req, discreteOnly)
    ensures r.Ok? ==> forall j :: 0 <= j < index ==> !Qualifies(candidates[j], req, discreteOnly)
    ensures r.Ok? ==> r.value.families == candidates[index].families &&
                      r.value.deviceType == candidates[index].deviceType &&
                      r.value.extensions == candidates[index].extensions &&
                      r.value.features == candidates[index].features
    ensures r.Err? <==> forall j :: 0 <= j < |candidates| ==> !Qualifies(candidates[j], req, discreteOnly)
    ensures r.Err? ==> r.msg == NO_SUITABLE_DEVICE
  {
    var requiredExtensions := PD.ExtensionNames(req.deviceExtensions);
    index := 0;
    while index < |candidates|
      invariant index <= |candidates|
      invariant forall j :: 0 <= j < index ==> !Qualifies(candidates[j], req, discreteOnly)
    {
      var c := candidates[index];
      var pd := new PD.PhysicalDevice(c.deviceType, c.families, c.extensions, c.features,
                                      req.queueFamilies, requiredExtensions, req.features,
                                      c.formatCount, c.presentModeCount);
      var suitable := pd.IsSuitable();
      if suitable && (discreteOnly ==> pd.deviceType == PD.DiscreteGpu) {
        return Ok(pd), index;
      }
      index := index + 1;
    }
    return Err(NO_SUITABLE_DEVICE), index;
  }

  /** `g_runtime` and `GlobalRuntime` (src/re_core/runtime.cpp:18-24). */
  class Registry {
    var runtime: Option<Runtime>

    constructor ()
      ensures runtime == None
    {
      runtime := None;
    }

    function GlobalRuntime(): (r: Result<Runtime>)
      reads this
      ensures r.Ok? <==> runtime.Some?
      ensures r.Err? ==> r.msg == NOT_INITIALIZED
      ensures r.Ok? ==> r.value == runtime.value
    {
      if runtime.None? then Err(NOT_INITIALIZED) else Ok(runtime.value)
    }
  }

  /** The newer runtime: requirements come from its create info. */
  class Runtime {
    const requirements: Requirements
    var instanceExtensions: seq<string>
    var physicalDevice: Option<PD.PhysicalDevice>

    constructor (requirements: Requirements, instanceExtensions: seq<string>)
      ensures this.requirements == requirements && this.instanceExtensions == instanceExtensions
      ensures physicalDevice == None
    {
      this.requirements := requirements;
      this.instanceExtensions := instanceExtensions;
      physicalDevice := None;
    }

    /** `CreateInstance`'s bookkeeping: the window's extensions are appended
        to the instance extensions. */
    method CreateInstance(windowExtensions: seq<string>)
      modifies this`instanceExtensions
      ensures instanceExtensions == old(instanceExtensions) + windowExtensions
    {
      instanceExtensions := instanceExtensions + windowExtensions;
    }

    /** `SelectPhysicalDevice`: the first suitable discrete GPU, or failure. */
    method SelectPhysicalDevice(candidates: seq<DeviceReport>) returns (r: Result<nat>)
      modifies this`physicalDevice
      ensures r.Ok? ==> r.value < |candidates| && Qualifies(candidates[r.value], requirements, true)
      ensures r.Ok? ==> forall j :: 0 <= j < r.value ==> !Qualifies(candidates[j], requirements, true)
      ensures r.Ok? ==> physicalDevice.Some? && physicalDevice.value.families == candidates[r.value].families
      ensures r.Err? <==> forall j :: 0 <= j < |candidates| ==> !Qualifies(candidates[j], requirements, true)
      ensures r.Err? ==> r.msg == NO_SUITABLE_DEVICE && physicalDevice == old(physicalDevice)
    {
      var pd, index := FirstQualifying(candidates, requirements, true);
      if pd.Err? {
        return Err(pd.msg);
      }
      physicalDevice := Some(pd.value);
      r := Ok(index);
    }

    /** The destructor: the global pointer is cleared first. */
    method Destroy(registry: Registry)
      modifies registry
      ensures registry.GlobalRuntime() == Err(NOT_INITIALIZED)
    {
      registry.runtime := None;
    }
  }

  /** The newer runtime's constructor: it appends the window's extensions,
      selects a device and, only when that succeeded, publishes itself as
      the global runtime. */
  method NewRuntime(requirements: Requirements, instanceExtensions: seq<string>, windowExtensions: seq<string>,
                    candidates: seq<DeviceReport>, registry: Registry)
    returns (r: Result<Runtime>)
    modifies registry
    ensures r.Ok? ==> fresh(r.value) && registry.GlobalRuntime() == Ok(r.value)
    ensures r.Ok? ==> r.value.instanceExtensions == instanceExtensions + windowExtensions
    ensures r.Ok? ==> r.value.physicalDevice.Some?
    ensures r.Err? <==> forall j :: 0 <= j < |candidates| ==> !Qualifies(candidates[j], requirements, true)
    ensures r.Err? ==> r.msg == NO_SUITABLE_DEVICE && registry.runtime == old(registry.runtime)
  {
    var rt := new Runtime(requirements, instanceExtensions);
    rt.CreateInstance(windowExtensions);
    var selected := rt.SelectPhysicalDevice(candidates);
    if selected.Err? {
      return Err(selected.msg);
    }
    registry.runtime := Some(rt);
    r := Ok(rt);
  }

  // vk::DebugUtilsMessageSeverityFlagBitsEXT
  const SEVERITY_VERBOSE: Flags := 0x1
  const SEVERITY_INFO: Flags := 0x10
  const SEVERITY_WARNING: Flags := 0x100
  const SEVERITY_ERROR: Flags := 0x1000

  /** The older `debugCallback`'s return value: abort the call (`VK_TRUE`)
      for errors only. */
  function DebugCallback(severity: Flags): (abort: bool)
    ensures abort <==> severity == SEVERITY_ERROR
    ensures severity == SEVERITY_WARNING ==> !abort
  {
    match severity
    case SEVERITY_WARNING => false
    case SEVERITY_ERROR => true
    case _ => false
  }

  /** The older runtime's static `settings`: the extension lists and the
      device requirements, shared by every runtime instance. */
  class Settings {
    var instanceExtensions: seq<string>
    const instanceLayers: seq<string>
    const deviceLayers: seq<string>
    const requirements: Requirements

    /** The static initialiser: validation layers, the debug-utils instance
        extension, the swap-chain, mesh-shader and atomic-float device
        extensions, graphics, compute and transfer queues, and four
        features. */
    constructor ()
      ensures instanceExtensions == ["VK_EXT_debug_utils"]
      ensures instanceLayers == ["VK_LAYER_KHRONOS_validation"] && deviceLayers == ["VK_LAYER_KHRONOS_validation"]
      ensures requirements == Requirements({QUEUE_GRAPHICS, QUEUE_COMPUTE, QUEUE_TRANSFER},
                                           ["VK_KHR_swapchain", "VK_EXT_mesh_shader", "VK_EXT_shader_atomic_float"],
                                           RequiredFeatures())
    {
      instanceExtensions := ["VK_EXT_debug_utils"];
      instanceLayers := ["VK_LAYER_KHRONOS_validation"];
      deviceLayers := ["VK_LAYER_KHRONOS_validation"];
      requirements := Requirements({QUEUE_GRAPHICS, QUEUE_COMPUTE, QUEUE_TRANSFER},
                                   ["VK_KHR_swapchain", "VK_EXT_mesh_shader", "VK_EXT_shader_atomic_float"],
                                   RequiredFeatures());
    }

    /** `createInstance`'s bookkeeping: the window's extensions are appended
        to the static list itself, so every call adds them again. */
    method CreateInstance(windowExtensions: seq<string>)
      modifies this`instanceExtensions
      ensures instanceExtensions == old(instanceExtensions) + windowExtensions
    {
      instanceExtensions := instanceExtensions + windowExtensions;
    }
  }

  // Positions in vk::PhysicalDeviceFeatures
  const FILL_MODE_NON_SOLID: nat := 13
  const SAMPLER_ANISOTROPY: nat := 19
  const VERTEX_PIPELINE_STORES_AND_ATOMICS: nat := 25
  const FRAGMENT_STORES_AND_ATOMICS: nat := 26

  /** The static settings' features: sampler anisotropy, fragment stores
      and atomics, non-solid fill and vertex-pipeline stores and atomics. */
  function RequiredFeatures(): (f: PD.Features)
    ensures forall i :: 0 <= i < PD.FEATURE_COUNT ==>
      (f[i] <==> i in {FILL_MODE_NON_SOLID, SAMPLER_ANISOTROPY, VERTEX_PIPELINE_STORES_AND_ATOMICS, FRAGMENT_STORES_AND_ATOMICS})
  {
    seq(PD.FEATURE_COUNT, i =>
      i == FILL_MODE_NON_SOLID || i == SAMPLER_ANISOTROPY ||
      i == VERTEX_PIPELINE_STORES_AND_ATOMICS || i == FRAGMENT_STORES_AND_ATOMICS)
  }

  /** Calling `createInstance` twice appends the window's extensions twice. */
  method CreateInstanceTwice(settings: Settings, windowExtensions: seq<string>)
    modifies settings
    ensures settings.instanceExtensions == old(settings.instanceExtensions) + windowExtensions + windowExtensions
  {
    settings.CreateInstance(windowExtensions);
    settings.CreateInstance(windowExtensions);
  }

  /** The older runtime: its requirements are those of the static settings
      at the time it selects a device. */
  class CoreRuntime {
    var physicalDevice: Option<PD.PhysicalDevice>

    constructor ()
      ensures physicalDevice == None
    {
      physicalDevice := None;
    }

    /** `selectPhysicalDevice`: the first suitable device of any type. */
    method SelectPhysicalDevice(settings: Settings, candidates: seq<DeviceReport>) returns (r: Result<nat>)
      modifies this`physicalDevice
      ensures r.Ok? ==> r.value < |candidates| && Qualifies(candidates[r.value], settings.requirements, false)
      ensures r.Ok? ==> forall j :: 0 <= j < r.value ==> !Qualifies(candidates[j], settings.requirements, false)
      ensures r.Ok? ==> physicalDevice.Some? && physicalDevice.value.families == candidates[r.value].families
      ensures r.Err? <==> forall j :: 0 <= j < |candidates| ==> !Qualifies(candidates[j], settings.requirements, false)
      ensures r.Err? ==> r.msg == NO_SUITABLE_DEVICE && physicalDevice == old(physicalDevice)
    {
      var pd, index := FirstQualifying(candidates, settings.requirements, false);
      if pd.Err? {
        return Err(pd.msg);
      }
      physicalDevice := Some(pd.value);
      r := Ok(index);
    }
  }

  /** The older runtime's `m_instance` singleton with `Init` and `Destroy`. */
  class Singleton {
    var instance: Option<CoreRuntime>

    constructor ()
      ensures instance == None
    {
      instance := None;
    }

    /** `Init`: constructs a runtime, which appends the window's extensions
        to the settings and selects a device; the singleton is installed
        only when construction succeeded. */
    method Init(settings: Settings, windowExtensions: seq<string>, candidates: seq<DeviceReport>)
      returns (r: Result<CoreRuntime>)
      modifies this, settings
      ensures settings.instanceExtensions == old(settings.instanceExtensions) + windowExtensions
      ensures r.Ok? ==> fresh(r.value) && instance == Some(r.value) && r.value.physicalDevice.Some?
      ensures r.Err? <==> forall j :: 0 <= j < |candidates| ==> !Qualifies(candidates[j], settings.requirements, false)
      ensures r.Err? ==> r.msg == NO_SUITABLE_DEVICE && instance == old(instance)
    {
      var rt := new CoreRuntime();
      settings.CreateInstance(windowExtensions);
      var selected := rt.SelectPhysicalDevice(settings, candidates);
      if selected.Err? {
        return Err(selected.msg);
      }
      instance := Some(rt);
      r := Ok(rt);
    }

    /** `Destroy`: resets the singleton. */
    method Destroy()
      modifies this
      ensures instance == None
    {
      instance := None;
    }
  }
}
