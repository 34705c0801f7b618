/** The namespace-level Vulkan bootstrap `engine::vulkan`
    (Engine/Initializer/Initializer.cpp): graphics-only queue-family
    discovery, device suitability, the layer and debug-messenger logic of
    `createInstance`, and the namespace globals set by `selectPhysicalDevice`.

    This snapshot has no surface: the queue-family record holds a graphics
    index only, and is complete once that index is set. */
module Initializer {
  import opened Common
  import opened DeviceSelection
  import opened InstanceSetup
  import opened QueueSetup

  /** What the loop reads of a `VkQueueFamilyProperties`: its graphics bit. */
  datatype QueueFamilyProperties = QueueFamilyProperties(graphics: bool)

  /** `QueueFamilyIndicies` of this snapshot. */
  datatype QueueFamilyIndices = QueueFamilyIndices(graphicsFamily: Option<nat>) {
    predicate IsComplete() {
      graphicsFamily.Some?
    }
  }

  /** `findQueueFamilyIndices`: record a graphics family, stopping as soon as
      the record is complete, that is at the first graphics family. */
  method FindQueueFamilyIndices(families: seq<QueueFamilyProperties>) returns (indices: QueueFamilyIndices)
    ensures indices.graphicsFamily.Some? ==>
      && indices.graphicsFamily.value < |families|
      && families[indices.graphicsFamily.value].graphics
      && forall j :: 0 <= j < indices.graphicsFamily.value ==> !families[j].graphics
    ensures indices.graphicsFamily.None? <==> forall j :: 0 <= j < |families| ==> !families[j].graphics
  {
    indices := QueueFamilyIndices(None);
    var i := 0;
    while i < |families|
      invariant 0 <= i <= |families|
      invariant indices.graphicsFamily == None
      invariant forall j :: 0 <= j < i ==> !families[j].graphics
    {
      if families[i].graphics {
        indices := indices.(graphicsFamily := Some(i));
      }
      if indices.IsComplete() {
        break;
      }
      i := i + 1;
    }
  }

  /** `isDeviceSuitable`: exactly whether discovery completes, that is whether
      the device has a graphics family. Nothing in this snapshot calls it. */
  method IsDeviceSuitable(families: seq<QueueFamilyProperties>) returns (suitable: bool)
    ensures suitable <==> exists j :: 0 <= j < |families| && families[j].graphics
  {
    var indices := FindQueueFamilyIndices(families);
    suitable := indices.IsComplete();
  }

  /** `createLogicalDevice`: find the queue families of the selected device
      and request one queue of its graphics family, which `value()` refuses
      when there is none; then fail if `vkCreateDevice` does not succeed
      (`driverAccepts`). */
  method CreateLogicalDevice(families: seq<QueueFamilyProperties>, driverAccepts: bool)
    returns (r: Result<QueueCreateInfo, DeviceError>)
    ensures (forall j :: 0 <= j < |families| ==> !families[j].graphics) ==> r == Err(BadOptionalAccess)
    ensures (exists j :: 0 <= j < |families| && families[j].graphics) && !driverAccepts
      ==> r == Err(LogicalDeviceCreationFailed)
    ensures r.Ok? <==> (exists j :: 0 <= j < |families| && families[j].graphics) && driverAccepts
    ensures r.Ok? ==>
      && r.value.queueCount == 1
      && r.value.queueFamilyIndex < |families|
      && families[r.value.queueFamilyIndex].graphics
      && forall j :: 0 <= j < r.value.queueFamilyIndex ==> !families[j].graphics
  {
    var indices := FindQueueFamilyIndices(families);
    if indices.graphicsFamily.None? {
      return Err(BadOptionalAccess);
    }
    var queueCreateInfo := QueueCreateInfo(indices.graphicsFamily.value, 1);
    if !driverAccepts {
      return Err(LogicalDeviceCreationFailed);
    }
    return Ok(queueCreateInfo);
  }

  /** Validation is off, or every requested layer is available. */
  predicate LayersSatisfied(enableValidationLayers: bool, availableLayers: seq<string>) {
    !enableValidationLayers || forall l :: l in ValidationLayerNames ==> l in availableLayers
  }

  /** `createInstance` up to the driver call: refuse when validation is
      requested but a layer is missing, gather the required extensions, and
      fill the create-info. `driverAccepts` is the outcome of `vkCreateInstance`. */
  method CreateInstance(enableValidationLayers: bool, availableLayers: seq<string>,
                        sdlExtensions: Option<seq<string>>, driverAccepts: bool)
    returns (r: Result<InstanceCreateInfo, SetupError>)
    ensures enableValidationLayers && (exists l :: l in ValidationLayerNames && l !in availableLayers)
      ==> r == Err(LayersUnavailable)
    ensures r.Ok? ==> sdlExtensions.Some? && driverAccepts
    ensures r.Ok? ==> r.value.next == (if enableValidationLayers then DebugMessengerCreateInfo else NoNext)
    ensures r.Ok? ==> r.value.enabledLayerNames == (if enableValidationLayers then ValidationLayerNames else [])
    ensures r.Ok? ==>
      r.value.enabledExtensionNames == sdlExtensions.value + (if enableValidationLayers then [DebugUtilsExtensionName] else [])
    ensures LayersSatisfied(enableValidationLayers, availableLayers) ==>
      (r.Ok? <==> sdlExtensions.Some? && driverAccepts)
    ensures LayersSatisfied(enableValidationLayers, availableLayers) && sdlExtensions.None? ==>
      r == Err(SdlExtensionQueryFailed)
    ensures LayersSatisfied(enableValidationLayers, availableLayers) && sdlExtensions.Some? && !driverAccepts ==>
      r == Err(InstanceCreationFailed)
  {
    if enableValidationLayers {
      var supported := CheckValidationLayerSupport(availableLayers);
      if !supported {
        return Err(LayersUnavailable);
      }
    }
    var extensions := GetRequiredExtensions(enableValidationLayers, sdlExtensions);
    if extensions.Err? {
      return Err(extensions.error);
    }
    var createInfo := MakeInstanceCreateInfo(enableValidationLayers, extensions.value);
    if !driverAccepts {
      return Err(InstanceCreationFailed);
    }
    return Ok(createInfo);
  }

  /** The namespace-scope globals of `engine::vulkan` that the modelled code assigns. */
  class VulkanGlobals {
    /** `physicalDevice`: `None` is `VK_NULL_HANDLE`. */
    var physicalDevice: Option<nat>

    constructor ()
      ensures physicalDevice == None
    {
      physicalDevice := None;
    }

    /** `selectPhysicalDevice`: fail when no device is enumerated; otherwise
        store the pick, and fail if it is the null handle. */
    method SelectPhysicalDevice(devices: seq<DeviceProperties>) returns (outcome: Outcome<SelectError>)
      modifies this
      ensures |devices| == 0 ==> outcome == Fail(NoVulkanDevice) && physicalDevice == old(physicalDevice)
      ensures |devices| > 0 ==> physicalDevice == SelectedDevice(devices)
      ensures |devices| > 0 ==> outcome == if physicalDevice.Some? then Pass else Fail(NoSuitableDevice)
    {
      if |devices| == 0 {
        return Fail(NoVulkanDevice);
      }
      physicalDevice := PickSuitablePhysicalDevice(devices);
      if physicalDevice.None? {
        return Fail(NoSuitableDevice);
      }
      return Pass;
    }
  }
}
