/** Instance-level setup. The requested validation layers,
    `checkValidationLayerSupport` and `getRequiredExtensions` are the same in
    the Engine class and the namespace-level Initializer. The layer and
    debug-messenger fields of `VkInstanceCreateInfo` are those the Initializer
    fills; the Engine class chains a different `pNext` (see
    `Engine.InstanceNextAsWritten`). The build-time switch
    `enableValidationLayers` is a parameter; SDL's answer to
    `SDL_Vulkan_GetInstanceExtensions` is input data. */
module InstanceSetup {
  import opened Common

  /** The requested validation layers (`_validationLayers` / `validationLayers`). */
  const ValidationLayerNames: seq<string> := ["VK_LAYER_KHRONOS_validation"]

  /** `VK_EXT_DEBUG_UTILS_EXTENSION_NAME`. */
  const DebugUtilsExtensionName: string := "VK_EXT_debug_utils"

  /** Why instance creation fails. */
  datatype SetupError =
    | LayersUnavailable        // "validation layers requested, but not available"
    | SdlExtensionQueryFailed  // "failed to get SDL required extensions"
    | InstanceCreationFailed   // "Failed to create Vulkan instance"

  /** `checkValidationLayerSupport`: for each requested layer, scan the
      available layers by name; give up at the first layer not found. */
  method CheckValidationLayerSupport(availableLayers: seq<string>) returns (supported: bool)
    ensures supported <==> forall l :: l in ValidationLayerNames ==> l in availableLayers
  {
    var i := 0;
    while i < |ValidationLayerNames|
      invariant 0 <= i <= |ValidationLayerNames|
      invariant forall k :: 0 <= k < i ==> ValidationLayerNames[k] in availableLayers
    {
      var layerName := ValidationLayerNames[i];
      var layerFound := false;
      var j := 0;
      while j < |availableLayers|
        invariant 0 <= j <= |availableLayers|
        invariant layerFound ==> layerName in availableLayers
        invariant !layerFound ==> layerName !in availableLayers[..j]
      {
        if layerName == availableLayers[j] {
          layerFound := true;
          break;
        }
        j := j + 1;
      }
      if !layerFound {
        assert availableLayers[..j] == availableLayers;
        return false;
      }
      i := i + 1;
    }
    return true;
  }

  /** `getRequiredExtensions`: the instance extensions SDL asks for, in SDL's
      order, followed by the debug-utils extension when validation is enabled.
      `sdlExtensions` is `None` when SDL reports failure. */
  method GetRequiredExtensions(enableValidationLayers: bool, sdlExtensions: Option<seq<string>>)
    returns (r: Result<seq<string>, SetupError>)
    ensures sdlExtensions.None? ==> r == Err(SdlExtensionQueryFailed)
    ensures sdlExtensions.Some? ==> r.Ok?
    ensures r.Ok? ==> |r.value| == |sdlExtensions.value| + (if enableValidationLayers then 1 else 0)
    ensures r.Ok? ==> r.value[..|sdlExtensions.value|] == sdlExtensions.value
    ensures r.Ok? && enableValidationLayers ==> r.value[|r.value| - 1] == DebugUtilsExtensionName
    ensures r.Ok? ==> r.value == sdlExtensions.value + (if enableValidationLayers then [DebugUtilsExtensionName] else [])
  {
    if sdlExtensions.None? {
      return Err(SdlExtensionQueryFailed);
    }
    var extensions := sdlExtensions.value;
    if enableValidationLayers {
      extensions := extensions + [DebugUtilsExtensionName];
    }
    return Ok(extensions);
  }

  /** What `VkInstanceCreateInfo.pNext` points to. */
  datatype NextInChain =
    | NoNext                    // nullptr
    | DebugMessengerCreateInfo  // a populated VkDebugUtilsMessengerCreateInfoEXT
    | DebugCallbackAddress      // the address of the debug callback function itself

  /** The fields of `VkInstanceCreateInfo` that depend on the inputs. */
  datatype InstanceCreateInfo = InstanceCreateInfo(
    next: NextInChain,
    enabledLayerNames: seq<string>,
    enabledExtensionNames: seq<string>)

  /** The create-info as the Initializer builds it: the debug-messenger info is
      chained and the validation layers enabled exactly when validation is on. */
  function MakeInstanceCreateInfo(enableValidationLayers: bool, extensions: seq<string>): (info: InstanceCreateInfo)
    ensures info.next == DebugMessengerCreateInfo <==> enableValidationLayers
    ensures info.next == NoNext <==> !enableValidationLayers
    ensures |info.enabledLayerNames| == if enableValidationLayers then |ValidationLayerNames| else 0
    ensures enableValidationLayers ==> info.enabledLayerNames == ValidationLayerNames
    ensures info.enabledExtensionNames == extensions
  {
    InstanceCreateInfo(
      if enableValidationLayers then DebugMessengerCreateInfo else NoNext,
      if enableValidationLayers then ValidationLayerNames else [],
      extensions)
  }
}
