/** The `engine::Engine` class (Engine/Engine/Engine.cpp, Engine.h): queue-family
    discovery with a presentation surface, the device-extension check, device
    suitability, the distinct queue families of `createLogicalDevice`, and the
    `_physicalDevice` field set by `selectPhysicalDevice`.

    What the driver reports is input data: a queue family is its graphics bit
    and whether `vkGetPhysicalDeviceSurfaceSupportKHR` says it can present to
    the engine's surface; a device's extensions are a list of names. */
module Engine {
  import opened Common
  import opened DeviceSelection
  import opened InstanceSetup
  import opened QueueSetup

  // ---------------------------------------------------------------------------
  // Queue families
  // ---------------------------------------------------------------------------

  datatype QueueFamily = QueueFamily(graphics: bool, present: bool)

  /** The two operation categories the engine needs a queue family for. */
  datatype Capability = Graphics | Present

  predicate Supports(f: QueueFamily, c: Capability) {
    match c
    case Graphics => f.graphics
    case Present => f.present
  }

  /** `QueueFamilyIndicies`: two optional family indices. */
  datatype QueueFamilyIndices = QueueFamilyIndices(graphicsFamily: Option<nat>, presentFamily: Option<nat>) {
    /** `isComplete`: both indices hold a value. */
    predicate IsComplete() {
      graphicsFamily.Some? && presentFamily.Some?
    }
  }

  /** A default-constructed `QueueFamilyIndicies`. */
  const NoQueueFamilies: QueueFamilyIndices := QueueFamilyIndices(None, None)

  /** The greatest index below `n` whose family supports `c`, if there is one. */
  function LastWith(fs: seq<QueueFamily>, n: nat, c: Capability): (r: Option<nat>)
    requires n <= |fs|
    ensures r.None? <==> forall j :: 0 <= j < n ==> !Supports(fs[j], c)
    ensures r.Some? ==> r.value < n && Supports(fs[r.value], c)
    ensures r.Some? ==> forall j :: r.value < j < n ==> !Supports(fs[j], c)
  {
    if n == 0 then None
    else if Supports(fs[n - 1], c) then Some(n - 1)
    else LastWith(fs, n - 1, c)
  }

  /** Among the first `n` families there is a graphics one and a presenting one. */
  predicate CompleteWithin(fs: seq<QueueFamily>, n: nat)
    requires n <= |fs|
  {
    LastWith(fs, n, Graphics).Some? && LastWith(fs, n, Present).Some?
  }

  /** The scan continued from position `n`, no earlier prefix being complete:
      the first complete prefix from `n` on, or the whole list. */
  function ScanLengthFrom(fs: seq<QueueFamily>, n: nat): (r: nat)
    requires n <= |fs|
    requires forall m :: 0 <= m < n ==> !CompleteWithin(fs, m)
    ensures n <= r <= |fs|
    ensures r == |fs| || CompleteWithin(fs, r)
    ensures forall m :: 0 <= m < r ==> !CompleteWithin(fs, m)
    decreases |fs| - n
  {
    if n == |fs| || CompleteWithin(fs, n) then n else ScanLengthFrom(fs, n + 1)
  }

  /** How many families the discovery loop examines: it stops right after the
      first family at which both categories have been seen, or at the end. */
  function ScanLength(fs: seq<QueueFamily>): (r: nat)
    ensures r <= |fs|
    ensures r == |fs| || CompleteWithin(fs, r)
    ensures forall m :: 0 <= m < r ==> !CompleteWithin(fs, m)
  {
    ScanLengthFrom(fs, 0)
  }

  /** The stopping point is the least one: any `n` with the same three properties is it. */
  lemma ScanLengthIs(fs: seq<QueueFamily>, n: nat)
    requires n <= |fs|
    requires n == |fs| || CompleteWithin(fs, n)
    requires forall m :: 0 <= m < n ==> !CompleteWithin(fs, m)
    ensures ScanLength(fs) == n
  {
    var r := ScanLength(fs);
    assert r == |fs| || CompleteWithin(fs, r);
  }

  /** What `findQueueFamilyIndices` returns: each index is the last family with
      that capability among the families the loop examined. */
  function DiscoveredIndices(fs: seq<QueueFamily>): (ix: QueueFamilyIndices)
    ensures ix.graphicsFamily == LastWith(fs, ScanLength(fs), Graphics)
    ensures ix.presentFamily == LastWith(fs, ScanLength(fs), Present)
  {
    var n := ScanLength(fs);
    QueueFamilyIndices(LastWith(fs, n, Graphics), LastWith(fs, n, Present))
  }

  /** Discovery completes exactly when the device has some graphics family and
      some presenting family, wherever they are. */
  lemma DiscoveredCompleteIff(fs: seq<QueueFamily>)
    ensures DiscoveredIndices(fs).IsComplete() <==>
      (exists j :: 0 <= j < |fs| && fs[j].graphics) && (exists j :: 0 <= j < |fs| && fs[j].present)
  {
    if (exists j :: 0 <= j < |fs| && fs[j].graphics) && (exists j :: 0 <= j < |fs| && fs[j].present) {
      var g :| 0 <= g < |fs| && fs[g].graphics;
      var p :| 0 <= p < |fs| && fs[p].present;
      assert Supports(fs[g], Graphics) && Supports(fs[p], Present);
      assert CompleteWithin(fs, |fs|);
    }
    if DiscoveredIndices(fs).IsComplete() {
      var n := ScanLength(fs);
      var g, p := LastWith(fs, n, Graphics).value, LastWith(fs, n, Present).value;
      assert fs[g].graphics && fs[p].present;
    }
  }

  /** Each discovered index is a family with that capability, the greatest one
      among the families examined. */
  lemma DiscoveredIndicesAreLast(fs: seq<QueueFamily>)
    ensures var ix, n := DiscoveredIndices(fs), ScanLength(fs);
      && (ix.graphicsFamily.Some? ==>
            && ix.graphicsFamily.value < n && fs[ix.graphicsFamily.value].graphics
            && forall j :: ix.graphicsFamily.value < j < n ==> !fs[j].graphics)
      && (ix.presentFamily.Some? ==>
            && ix.presentFamily.value < n && fs[ix.presentFamily.value].present
            && forall j :: ix.presentFamily.value < j < n ==> !fs[j].present)
  {
    var n := ScanLength(fs);
    var g, p := LastWith(fs, n, Graphics), LastWith(fs, n, Present);
    assert forall j :: 0 <= j < n ==> (Supports(fs[j], Graphics) <==> fs[j].graphics);
    assert forall j :: 0 <= j < n ==> (Supports(fs[j], Present) <==> fs[j].present);
  }

  /** The lowest graphics family is not always the one reported: with two
      graphics-only families ahead of a present-only one, the second is. */
  lemma LaterGraphicsFamilyOverwrites()
    ensures DiscoveredIndices([QueueFamily(true, false), QueueFamily(true, false), QueueFamily(false, true)])
         == QueueFamilyIndices(Some(1), Some(2))
  {
    var fs := [QueueFamily(true, false), QueueFamily(true, false), QueueFamily(false, true)];
    assert !CompleteWithin(fs, 2);
    ScanLengthIs(fs, 3);
  }

  /** Present-only, graphics-only, graphics-and-present: the scan stops at the
      second family with graphics 1 and present 0. */
  lemma PresentBeforeGraphics()
    ensures DiscoveredIndices([QueueFamily(false, true), QueueFamily(true, false), QueueFamily(true, true)])
         == QueueFamilyIndices(Some(1), Some(0))
  {
    var fs := [QueueFamily(false, true), QueueFamily(true, false), QueueFamily(true, true)];
    assert !CompleteWithin(fs, 1);
    assert CompleteWithin(fs, 2);
    ScanLengthIs(fs, 2);
  }

  /** `findQueueFamilyIndices`: walk the families in order, overwrite the
      graphics index at every graphics family and the present index at every
      presenting family, and stop once both are set. */
  method FindQueueFamilyIndices(families: seq<QueueFamily>) returns (indices: QueueFamilyIndices)
    ensures indices == DiscoveredIndices(families)
  {
    indices := NoQueueFamilies;
    var i := 0;
    while i < |families|
      invariant 0 <= i <= |families|
      invariant indices == QueueFamilyIndices(LastWith(families, i, Graphics), LastWith(families, i, Present))
      invariant forall m :: 0 <= m <= i ==> !CompleteWithin(families, m)
    {
      if families[i].graphics {
        indices := indices.(graphicsFamily := Some(i));
      }
      if families[i].present {
        indices := indices.(presentFamily := Some(i));
      }
      if indices.IsComplete() {
        ScanLengthIs(families, i + 1);
        break;
      }
      i := i + 1;
    }
    if i == |families| {
      ScanLengthIs(families, i);
    }
  }

  // ---------------------------------------------------------------------------
  // Device extensions and suitability
  // ---------------------------------------------------------------------------

  /** `VK_KHR_SWAPCHAIN_EXTENSION_NAME`. */
  const SwapchainExtensionName: string := "VK_KHR_swapchain"

  /** `_deviceExtensions`: the device extensions the engine requires. */
  const DeviceExtensions: seq<string> := [SwapchainExtensionName]

  /** `checkDeviceExtensionSupport`: start from the set of required names,
      erase every available name, and succeed if nothing is left. */
  method CheckDeviceExtensionSupport(availableExtensions: seq<string>) returns (supported: bool)
    ensures supported <==> forall e :: e in DeviceExtensions ==> e in availableExtensions
    ensures supported <==> SwapchainExtensionName in availableExtensions
  {
    var requiredExtensions := set e | e in DeviceExtensions;
    for i := 0 to |availableExtensions|
      invariant forall e :: e in requiredExtensions <==> e in DeviceExtensions && e !in availableExtensions[..i]
    {
      assert availableExtensions[..i + 1] == availableExtensions[..i] + [availableExtensions[i]];
      requiredExtensions := requiredExtensions - {availableExtensions[i]};
    }
    assert availableExtensions[..|availableExtensions|] == availableExtensions;
    supported := requiredExtensions == {};
    if !supported {
      var e :| e in requiredExtensions;
    }
  }

  /** `isDeviceSuitable`: the device's queue families are complete and it
      offers every required extension. Nothing in this snapshot calls it. */
  method IsDeviceSuitable(families: seq<QueueFamily>, availableExtensions: seq<string>) returns (suitable: bool)
    ensures suitable <==> DiscoveredIndices(families).IsComplete() && SwapchainExtensionName in availableExtensions
    ensures suitable <==>
      && (exists j :: 0 <= j < |families| && families[j].graphics)
      && (exists j :: 0 <= j < |families| && families[j].present)
      && SwapchainExtensionName in availableExtensions
  {
    var indices := FindQueueFamilyIndices(families);
    DiscoveredCompleteIff(families);
    var extensionSupported := CheckDeviceExtensionSupport(availableExtensions);
    suitable := indices.IsComplete() && extensionSupported;
  }

  // ---------------------------------------------------------------------------
  // createLogicalDevice: one queue per distinct family
  // ---------------------------------------------------------------------------

  /** The iteration order of `std::set<uint32_t>{graphics, present}`: ascending, without duplicates. */
  function UniqueQueueFamilies(graphics: nat, present: nat): (families: seq<nat>)
    ensures forall i, j :: 0 <= i < j < |families| ==> families[i] < families[j]
    ensures forall f :: f in families <==> f == graphics || f == present
    ensures |families| == if graphics == present then 1 else 2
  {
    if graphics == present then [graphics]
    else if graphics < present then [graphics, present]
    else [present, graphics]
  }

  /** The queue-create-info list of `createLogicalDevice`: one info with one
      queue per distinct family index, in ascending order. */
  method BuildQueueCreateInfos(indices: QueueFamilyIndices) returns (r: Result<seq<QueueCreateInfo>, DeviceError>)
    ensures !indices.IsComplete() <==> r == Err(BadOptionalAccess)
    ensures r.Ok? <==> indices.IsComplete()
    ensures r.Ok? ==>
      var families := UniqueQueueFamilies(indices.graphicsFamily.value, indices.presentFamily.value);
      && |r.value| == |families|
      && forall k :: 0 <= k < |families| ==> r.value[k] == QueueCreateInfo(families[k], 1)
  {
    if !indices.IsComplete() {
      return Err(BadOptionalAccess);
    }
    var uniqueQueueFamilies := UniqueQueueFamilies(indices.graphicsFamily.value, indices.presentFamily.value);
    var queueCreateInfos: seq<QueueCreateInfo> := [];
    for k := 0 to |uniqueQueueFamilies|
      invariant |queueCreateInfos| == k
      invariant forall j :: 0 <= j < k ==> queueCreateInfos[j] == QueueCreateInfo(uniqueQueueFamilies[j], 1)
    {
      queueCreateInfos := queueCreateInfos + [QueueCreateInfo(uniqueQueueFamilies[k], 1)];
    }
    return Ok(queueCreateInfos);
  }

  /** `createLogicalDevice`: discover the selected device's queue families,
      build one queue-create-info per distinct family, and fail if
      `vkCreateDevice` does not succeed (`driverAccepts`). */
  method CreateLogicalDevice(families: seq<QueueFamily>, driverAccepts: bool)
    returns (r: Result<seq<QueueCreateInfo>, DeviceError>)
    ensures r == Err(BadOptionalAccess) <==> !DiscoveredIndices(families).IsComplete()
    ensures DiscoveredIndices(families).IsComplete() && !driverAccepts ==> r == Err(LogicalDeviceCreationFailed)
    ensures r.Ok? <==> DiscoveredIndices(families).IsComplete() && driverAccepts
    ensures r.Ok? ==>
      var ix := DiscoveredIndices(families);
      var unique := UniqueQueueFamilies(ix.graphicsFamily.value, ix.presentFamily.value);
      && |r.value| == |unique|
      && forall k :: 0 <= k < |unique| ==> r.value[k] == QueueCreateInfo(unique[k], 1)
    ensures r.Ok? ==>
      var ix := DiscoveredIndices(families);
      [r.value[0].queueFamilyIndex] == RequestedQueueFamiliesAsWritten(ix.graphicsFamily.value, ix.presentFamily.value)
  {
    var indices := FindQueueFamilyIndices(families);
    var queueCreateInfos := BuildQueueCreateInfos(indices);
    if queueCreateInfos.Err? {
      return Err(queueCreateInfos.error);
    }
    if !driverAccepts {
      return Err(LogicalDeviceCreationFailed);
    }
    return queueCreateInfos;
  }

  /** The families whose queues `vkCreateDevice` is asked for, as written:
      `queueCreateInfoCount` is the constant 1, so only the first info is read. */
  function RequestedQueueFamiliesAsWritten(graphics: nat, present: nat): (families: seq<nat>)
    ensures families == [if graphics <= present then graphics else present]
  {
    UniqueQueueFamilies(graphics, present)[..1]
  }

  /** With distinct graphics and present families the device is created with
      a queue from only one of them (graphics 1, present 0: only family 0),
      although `vkGetDeviceQueue` then asks for a graphics-family queue. */
  lemma AsWrittenOmitsAFamily(graphics: nat, present: nat)
    requires graphics != present
    ensures !(graphics in RequestedQueueFamiliesAsWritten(graphics, present)
              && present in RequestedQueueFamiliesAsWritten(graphics, present))
    ensures graphics > present ==> graphics !in RequestedQueueFamiliesAsWritten(graphics, present)
  {
  }

  /** The families requested when `queueCreateInfoCount` is the number of infos built. */
  function RequestedQueueFamilies(graphics: nat, present: nat): (families: seq<nat>)
    ensures graphics in families && present in families
    ensures forall f :: f in families ==> f == graphics || f == present
    ensures forall i, j :: 0 <= i < j < |families| ==> families[i] != families[j]
  {
    UniqueQueueFamilies(graphics, present)
  }

  // ---------------------------------------------------------------------------
  // createInstance and the debug callback
  // ---------------------------------------------------------------------------

  /** `createInstance` sets `pNext` to the address of `debugCallback` when
      validation is enabled, and to null otherwise. */
  function InstanceNextAsWritten(enableValidationLayers: bool): (next: NextInChain)
    ensures enableValidationLayers ==> next == DebugCallbackAddress
    ensures !enableValidationLayers ==> next == NoNext
  {
    if enableValidationLayers then DebugCallbackAddress else NoNext
  }

  /** With validation enabled, the chained structure is not a debug-messenger
      create-info, unlike the one the Initializer chains. */
  lemma AsWrittenChainsCallbackAddress(extensions: seq<string>)
    ensures InstanceNextAsWritten(true) != MakeInstanceCreateInfo(true, extensions).next
    ensures MakeInstanceCreateInfo(true, extensions).next == DebugMessengerCreateInfo
  {
  }

  /** `debugCallback`: the message is only logged; the Vulkan call that
      triggered it is never aborted (`VK_FALSE`). */
  function DebugCallback(message: string): (abortCall: bool)
    ensures !abortCall
  {
    false
  }

  // ---------------------------------------------------------------------------
  // The Engine object
  // ---------------------------------------------------------------------------

  class Engine {
    /** `_physicalDevice`: `None` is `VK_NULL_HANDLE`. */
    var physicalDevice: Option<nat>

    constructor ()
      ensures physicalDevice == None
    {
      physicalDevice := None;
    }

    /** `selectPhysicalDevice`: fail when no device is enumerated; otherwise
        store the pick, and fail if it is the null handle. */
    method SelectPhysicalDevice(devices: seq<DeviceProperties>) returns (outcome: Outcome<SelectError>)
      modifies this
      ensures |devices| == 0 ==> outcome == Fail(NoVulkanDevice) && physicalDevice == old(physicalDevice)
      ensures |devices| > 0 ==> physicalDevice == SelectedDevice(devices)
      ensures |devices| > 0 ==> outcome == if physicalDevice.Some? then Pass else Fail(NoSuitableDevice)
    {
      if |devices| == 0 {
        return Fail(NoVulkanDevice);
      }
      physicalDevice := PickSuitablePhysicalDevice(devices);
      if physicalDevice.None? {
        return Fail(NoSuitableDevice);
      }
      return Pass;
    }
  }
}
