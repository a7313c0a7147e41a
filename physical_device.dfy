/** `PhysicalDevice` (src/re_core/physicalDevice.cpp and
    src/core/physicalDevice.cpp): what one GPU reports about itself, and the
    suitability test the runtime applies to it. Every query of the driver
    (properties, features, extensions, queue families, surface support and
    surface formats) is an input captured at construction. */
module PhysicalDevice {
  import opened Vk

  /** `sizeof(vk::PhysicalDeviceFeatures) / sizeof(vk::Bool32)`: the feature
      structure is 55 booleans, compared index by index. */
  const FEATURE_COUNT: nat := 55

  type Features = s: seq<bool> | |s| == FEATURE_COUNT witness seq(55, i => false)

  datatype DeviceType = Other | IntegratedGpu | DiscreteGpu | VirtualGpu | Cpu

  /** One queue family: its flags and whether it can present to the surface. */
  datatype FamilyInfo = FamilyInfo(queueFlags: Flags, presents: bool)

  /** The family's flags share a bit with the required kind. */
  predicate Serves(f: FamilyInfo, required: Flags)
  {
    f.queueFlags & required != 0
  }

  /** Some family supports the required queue kind. */
  predicate Meets(families: seq<FamilyInfo>, required: Flags)
  {
    exists i :: 0 <= i < |families| && Serves(families[i], required)
  }

  predicate AnyPresents(families: seq<FamilyInfo>)
  {
    exists i :: 0 <= i < |families| && families[i].presents
  }

  /** The required kinds some family supports: the set the source builds. */
  function Supported(required: set<Flags>, families: seq<FamilyInfo>): set<Flags>
  {
    set q | q in required && Meets(families, q)
  }

  function ExtensionNames(available: seq<string>): set<string>
  {
    set e | e in available
  }

  /** Every required feature is supported. */
  predicate FeaturesImplied(required: Features, supported: Features)
  {
    forall i :: 0 <= i < FEATURE_COUNT ==> required[i] ==> supported[i]
  }

  /** The suitability rule stated on sets: every required queue kind is
      served by some family, some family presents, every required extension
      is available and every required feature is supported. */
  predicate Suitable(families: seq<FamilyInfo>, extensions: seq<string>, features: Features,
                     requiredQueueFamilies: set<Flags>, requiredExtensions: set<string>, requiredFeatures: Features)
  {
    (forall q :: q in requiredQueueFamilies ==> Meets(families, q)) && AnyPresents(families) &&
    requiredExtensions <= ExtensionNames(extensions) &&
    FeaturesImplied(requiredFeatures, features)
  }

  lemma SupportedSnoc(required: set<Flags>, families: seq<FamilyInfo>, f: FamilyInfo)
    ensures Supported(required, families + [f])
         == Supported(required, families) + set q | q in required && Serves(f, q)
  {
    var fs := families + [f];
    forall q | q in required
      ensures Meets(fs, q) <==> Meets(families, q) || Serves(f, q)
    {
      MeetsSnoc(families, f, q);
    }
  }

  lemma MeetsSnoc(families: seq<FamilyInfo>, f: FamilyInfo, q: Flags)
    ensures Meets(families + [f], q) <==> Meets(families, q) || Serves(f, q)
  {
    var fs := families + [f];
    if Meets(families, q) {
      var i :| 0 <= i < |families| && Serves(families[i], q);
      assert fs[i] == families[i];
    }
    if Serves(f, q) {
      assert fs[|families|] == f;
    }
    if Meets(fs, q) {
      var i :| 0 <= i < |fs| && Serves(fs[i], q);
      if i < |families| {
        assert families[i] == fs[i];
      }
    }
  }

  lemma AnyPresentsSnoc(families: seq<FamilyInfo>, f: FamilyInfo)
    ensures AnyPresents(families + [f]) <==> AnyPresents(families) || f.presents
  {
    var fs := families + [f];
    if AnyPresents(families) {
      var i :| 0 <= i < |families| && families[i].presents;
      assert fs[i] == families[i];
    }
    if f.presents {
      assert fs[|families|] == f;
    }
    if AnyPresents(fs) {
      var i :| 0 <= i < |fs| && fs[i].presents;
      if i < |families| {
        assert families[i] == fs[i];
      }
    }
  }

  /** `HasRequiredQueueFamilies` (the same in both files): collects the
      required kinds each family supports and ORs the families' surface
      support; succeeds when every kind was collected and some family
      presents. */
  method HasRequiredQueueFamilies(families: seq<FamilyInfo>, required: set<Flags>) returns (r: bool)
    ensures r <==> (forall q :: q in required ==> Meets(families, q)) && AnyPresents(families)
  {
    var presentSupported := false;
    var supported: set<Flags> := {};
    var i := 0;
    while i < |families|
      invariant i <= |families|
      invariant supported == Supported(required, families[..i])
      invariant presentSupported <==> AnyPresents(families[..i])
    {
      var rest := required;
      while rest != {}
        invariant rest <= required
        invariant supported == Supported(required, families[..i])
                             + set q | q in required - rest && Serves(families[i], q)
        decreases rest
      {
        var q :| q in rest;
        if Serves(families[i], q) {
          supported := supported + {q};
        }
        rest := rest - {q};
      }
      assert families[..i + 1] == families[..i] + [families[i]];
      SupportedSnoc(required, families[..i], families[i]);
      AnyPresentsSnoc(families[..i], families[i]);
      presentSupported := presentSupported || families[i].presents;
      i := i + 1;
    }
    assert families[..i] == families;
    r := supported == required && presentSupported;
    if supported == required {
      forall q | q in required
        ensures Meets(families, q)
      {
        assert q in Supported(required, families);
      }
    }
  }

  /** The erase loop of `hasRequiredExtensions`: every available name is
      removed from the required set, leaving the missing ones. The newer
      version runs it on a copy, the older one on the caller's set. */
  method EraseAvailable(required: set<string>, available: seq<string>) returns (missing: set<string>)
    ensures missing == required - ExtensionNames(available)
    ensures missing <= required
  {
    missing := required;
    var i := 0;
    while i < |available|
      invariant i <= |available|
      invariant missing == required - ExtensionNames(available[..i])
    {
      assert ExtensionNames(available[..i + 1]) == ExtensionNames(available[..i]) + {available[i]} by {
        assert available[..i + 1] == available[..i] + [available[i]];
      }
      missing := missing - {available[i]};
      i := i + 1;
    }
    assert available[..i] == available;
  }

  /** `HasRequiredExtensions`: no required extension is missing. */
  method HasRequiredExtensions(required: set<string>, available: seq<string>) returns (r: bool)
    ensures r <==> required <= ExtensionNames(available)
  {
    var missing := EraseAvailable(required, available);
    NothingMissing(required, available, missing);
    r := missing == {};
  }

  lemma NothingMissing(required: set<string>, available: seq<string>, missing: set<string>)
    requires missing == required - ExtensionNames(available)
    ensures missing == {} <==> required <= ExtensionNames(available)
  {
    if missing != {} {
      var e :| e in missing;
    } else {
      forall e | e in required
        ensures e in ExtensionNames(available)
      {
        assert e !in missing;
      }
    }
  }

  /** `HasRequiredFeatures`: fails at the first feature that is required
      but not supported. */
  method HasRequiredFeatures(required: Features, supported: Features) returns (r: bool)
    ensures r <==> FeaturesImplied(required, supported)
  {
    var i := 0;
    while i < FEATURE_COUNT
      invariant i <= FEATURE_COUNT
      invariant forall j :: 0 <= j < i ==> required[j] ==> supported[j]
    {
      if required[i] && !supported[i] {
        return false;
      }
      i := i + 1;
    }
    return true;
  }

  /** `IsSwapChainSupported`. */
  function IsSwapChainSupported(formatCount: nat, presentModeCount: nat): (r: bool)
    ensures r <==> formatCount > 0 && presentModeCount > 0
  {
    formatCount != 0 && presentModeCount != 0
  }

  /** The newer `PhysicalDevice`: the driver's answers and the requirements
      handed over in its create info. Only the surface queries change after
      construction. */
  class PhysicalDevice {
    const deviceType: DeviceType
    const families: seq<FamilyInfo>
    const extensions: seq<string>
    const features: Features
    const requiredQueueFamilies: set<Flags>
    const requiredExtensions: set<string>
    const requiredFeatures: Features
    var formatCount: nat
    var presentModeCount: nat

    constructor (deviceType: DeviceType, families: seq<FamilyInfo>, extensions: seq<string>, features: Features,
                 requiredQueueFamilies: set<Flags>, requiredExtensions: set<string>, requiredFeatures: Features,
                 formatCount: nat, presentModeCount: nat)
      ensures this.deviceType == deviceType && this.families == families
      ensures this.extensions == extensions && this.features == features
      ensures this.requiredQueueFamilies == requiredQueueFamilies
      ensures this.requiredExtensions == requiredExtensions && this.requiredFeatures == requiredFeatures
      ensures this.formatCount == formatCount && this.presentModeCount == presentModeCount
    {
      this.deviceType, this.families, this.extensions, this.features := deviceType, families, extensions, features;
      this.requiredQueueFamilies, this.requiredExtensions := requiredQueueFamilies, requiredExtensions;
      this.requiredFeatures := requiredFeatures;
      this.formatCount, this.presentModeCount := formatCount, presentModeCount;
    }

    /** `QuerySurfaceCapabilities`: the surface's current formats and
        present modes replace the stored ones. */
    method QuerySurfaceCapabilities(formatCount: nat, presentModeCount: nat)
      modifies this`formatCount, this`presentModeCount
      ensures this.formatCount == formatCount && this.presentModeCount == presentModeCount
    {
      this.formatCount, this.presentModeCount := formatCount, presentModeCount;
    }

    /** `IsSuitable`: all three checks against the stored requirements. */
    method IsSuitable() returns (r: bool)
      ensures r <==> Suitable(families, extensions, features, requiredQueueFamilies, requiredExtensions, requiredFeatures)
    {
      var queues := HasRequiredQueueFamilies(families, requiredQueueFamilies);
      var exts := HasRequiredExtensions(requiredExtensions, extensions);
      var feats := HasRequiredFeatures(requiredFeatures, features);
      r := queues && exts && feats;
    }

    /** The older `isSuitable`, which takes its requirements from the
        runtime's static settings and hands the extension check a fresh
        copy of the required names. */
    method IsSuitableWith(settingsQueueFamilies: set<Flags>, settingsExtensions: seq<string>, settingsFeatures: Features)
      returns (r: bool)
      ensures r <==> Suitable(families, extensions, features,
                              settingsQueueFamilies, ExtensionNames(settingsExtensions), settingsFeatures)
    {
      var queues := HasRequiredQueueFamilies(families, settingsQueueFamilies);
      if !queues {
        return false;
      }
      var missing := EraseAvailable(ExtensionNames(settingsExtensions), extensions);
      NothingMissing(ExtensionNames(settingsExtensions), extensions, missing);
      if missing != {} {
        return false;
      }
      r := HasRequiredFeatures(settingsFeatures, features);
    }
  }
}
