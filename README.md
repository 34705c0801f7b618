# Engine bootstrap: GPU selection, capability checks, window and singleton

This project models the parts of the Engine's Vulkan/SDL bootstrap that make
decisions, and proves properties of that model in Dafny:

- how a physical device (GPU) is scored and chosen;
- how queue families are discovered;
- how device extensions and validation layers are checked;
- how the queue requests and instance create-info are built;
- the resizable `Window` record;
- the arrow-key event loop of `main`;
- the lazy `Singleton<T>` slot.

The code exists in three snapshots, and each gets its own module:

- the `engine::Engine` class, with a presentation surface (module `Engine`);
- the namespace-level `engine::vulkan` functions, graphics only (module `Initializer`);
- the earliest header-only version, with an inline scoring loop (module `InitializerInline`).

Some pieces are identical in the Engine class and the namespace functions, so each is modelled once and shared:

- the score and the multimap-based pick (module `DeviceSelection`);
- the validation-layer check and `getRequiredExtensions` (module `InstanceSetup`).

The instance create-info is not shared, because its `pNext` differs:

- the namespace functions chain the populated debug-messenger create-info (`InstanceSetup.MakeInstanceCreateInfo`, Engine/Initializer/Initializer.cpp:91-99);
- the Engine class chains the address of `debugCallback` (`Engine.InstanceNextAsWritten`, Engine/Engine/Engine.cpp:79-90; see "## Findings").

Everything a driver or SDL would report is input data:

- a device is its discrete flag, 2D image limit and geometry-shader flag;
- a queue family is its graphics bit and whether it can present to the surface;
- the extensions and layers are lists of names;
- polled events are a list of rounds;
- outcomes such as "SDL created the window" are booleans.

Other conventions:

- A device handle is the device's position in the enumeration, and `VK_NULL_HANDLE` is `None`.
- A thrown exception is an `Err`/`Fail` value naming the message.
- `std::multimap<int, VkPhysicalDevice>` is an ordered sequence of (score, device) entries:
  - `insert` places a new entry after all entries with an equal or smaller key;
  - `rbegin` is the last entry.
- The score adds an `int` and a `uint32_t`, which happens in unsigned 32-bit arithmetic, and stores the sum back into an `int`; this is modelled modulo 2^32.

In these places the code behaves differently from what one might assume, and the model follows the code:

- **Queue discovery does not pick the lowest index.** `findQueueFamilyIndices` overwrites each index at every matching family until both are set. A graphics index can therefore be replaced by a later graphics family before a presenting family appears (`Engine.LaterGraphicsFamilyOverwrites`).
- **Ties go to the device enumerated last**, because of the multimap's order (`DeviceSelection.TieGoesToLastEnumerated`).
- **Selection never calls `isDeviceSuitable`.** Selection and suitability are separate operations here.
- **`Engine::isDeviceSuitable` checks only queue families and the swapchain extension.** It does not query swapchain formats or present modes: `querySwapChainSupport` is declared only.
- **The validation-layer flag is a parameter.** The declarations set it to `false` when `NDEBUG` is *not* defined and to `true` otherwise (Engine/Engine/Engine.h:87-91, Engine/Initializer/Initializer.cpp:53-57). Validation is therefore on only in release builds.

## Model

| member | source | states |
|---|---|---|
| DeviceSelection.AsInt32 | Engine/Engine/Engine.cpp:366-367 | the result of storing an unsigned 32-bit sum into an `int` is a signed 32-bit value equal to the sum, or to the sum minus 2^32 |
| DeviceSelection.Score | Engine/Engine/Engine.cpp:357-373 | a score always fits in a signed 32-bit `int` and is exactly 0 for a device without geometry shaders; the same function is `calculatePhysicalDeviceScore` at Engine/Initializer/Initializer.cpp:351-367 |
| DeviceSelection.ScoreFormula | Engine/Engine/Engine.cpp:366-368 | when the sum fits in an `int`, the score is 1000 for a discrete GPU plus the maximum 2D image dimension, or 0 without geometry shaders |
| DeviceSelection.ScoreWraps | Engine/Engine/Engine.cpp:366-367 | a geometry-capable device whose 1000-plus-limit sum reaches 2^31 stores the sum minus 2^32, which is negative exactly when the unsigned sum itself stayed below 2^32 |
| DeviceSelection.UpperBound | Engine/Engine/Engine.cpp:341 | the insertion point of a key: every earlier entry's key is at most the key, and the entry there (if any) has a larger key |
| DeviceSelection.Insert | Engine/Engine/Engine.cpp:341 | `multimap::insert` adds exactly the one entry: one longer, same multiset of entries plus the new one |
| DeviceSelection.OrderedConcat | Engine/Engine/Engine.cpp:337 | two ordered runs of entries whose keys do not interleave form an ordered run |
| DeviceSelection.InsertOrdered | Engine/Engine/Engine.cpp:341 | insertion keeps the multimap in key order |
| DeviceSelection.InsertAtEnd | Engine/Engine/Engine.cpp:341 | an entry with a key at least every key present is appended, so it becomes `rbegin` |
| DeviceSelection.UpperBoundOfMaximum | Engine/Engine/Engine.cpp:341 | a key at least every key present is inserted at the end |
| DeviceSelection.InsertKeepsLast | Engine/Engine/Engine.cpp:341 | an entry with a key below the current maximum leaves `rbegin` unchanged |
| DeviceSelection.BestUpTo | Engine/Engine/Engine.cpp:339-342 | after inserting the first n devices the multimap's top device has a score no other device exceeds, and every later device scores strictly less (the last best one) |
| DeviceSelection.LastBestUnique | Engine/Engine/Engine.cpp:337-347 | there is only one last best device, so the pick is determined |
| DeviceSelection.SelectedDevice | Engine/Engine/Engine.cpp:344-351 | the pick is the last best device with a positive score and geometry shaders, and the null handle exactly when every score is at most 0 |
| DeviceSelection.SelectedDeviceCharacterised | Engine/Engine/Engine.cpp:337-351 | device k is picked if and only if it has the maximum score, no later device ties with it, and its score is positive |
| DeviceSelection.SelectedIffPositive | Engine/Engine/Engine.cpp:344-351 | a device is picked if and only if some device scores above zero |
| DeviceSelection.NoGeometryShadersNoDevice | Engine/Engine/Engine.cpp:368 | when no device supports geometry shaders the pick is the null handle |
| DeviceSelection.IntegratedCanOutscoreDiscrete | Engine/Engine/Engine.cpp:366-367 | when both GPUs support geometry shaders and the integrated image limit is below 2^31 (so its score does not wrap), an integrated GPU whose limit exceeds a discrete GPU's by more than 1000 is picked over it, in either enumeration order |
| DeviceSelection.TieGoesToLastEnumerated | Engine/Engine/Engine.cpp:337-347 | of any two devices with the same positive score, possibly different devices, the second enumerated is picked, in either order |
| DeviceSelection.ThreeDeviceScenario | Engine/Engine/Engine.cpp:337-351 | integrated 4096 (score 4096) beats discrete 2048 (3048) and discrete 8192 without geometry shaders (0) |
| DeviceSelection.Entries | Engine/Engine/Engine.cpp:339-342 | the entries inserted for the first n devices: entry j is device j under its own score |
| DeviceSelection.InsertStep | Engine/Engine/Engine.cpp:339-342 | inserting the next device keeps the multimap ordered, its entries exactly those of the devices inserted so far (as a multiset), and its last entry the current last best device |
| DeviceSelection.PickSuitablePhysicalDevice | Engine/Engine/Engine.cpp:335-352 | the loop that fills the multimap, then reads its top, returns exactly the pick specified by `SelectedDevice`; also Engine/Initializer/Initializer.cpp:329-346 |
| InstanceSetup.CheckValidationLayerSupport | Engine/Engine/Engine.cpp:223-250 | true if and only if every requested validation layer is among the available layers; the same loop is at Engine/Initializer/Initializer.cpp:217-244 |
| InstanceSetup.GetRequiredExtensions | Engine/Initializer/Initializer.cpp:299-324 | an error if SDL cannot list its extensions; otherwise SDL's list in order, followed by the debug-utils name exactly when validation is enabled |
| InstanceSetup.MakeInstanceCreateInfo | Engine/Initializer/Initializer.cpp:94-102 | a debug-messenger create-info is chained and the validation layers are enabled exactly when validation is on; the extensions are passed unchanged |
| Engine.QueueFamilyIndices.IsComplete | Engine/Engine/Engine.h:24-27 | defined as both the graphics and the present index holding a value |
| Engine.LastWith | Engine/Engine/Engine.cpp:420-441 | the greatest family index below n with a capability: none exactly when no such family exists, otherwise one with the capability and none after it |
| Engine.ScanLengthFrom | Engine/Engine/Engine.cpp:420-441 | continuing the scan from a position before which no prefix was complete stops at the first complete prefix at or after it, or at the end of the list |
| Engine.ScanLength | Engine/Engine/Engine.cpp:436-438 | the loop examines families up to the first point where both a graphics and a presenting family have been seen, or all of them |
| Engine.ScanLengthIs | Engine/Engine/Engine.cpp:436-438 | that stopping point is unique: the least prefix that is complete, or the whole list |
| Engine.DiscoveredIndices | Engine/Engine/Engine.cpp:411-444 | each discovered index is the last family with that capability among those the loop examined |
| Engine.DiscoveredCompleteIff | Engine/Engine/Engine.h:24-27 | the discovered indices are complete (both set) if and only if the device has some graphics family and some presenting family |
| Engine.DiscoveredIndicesAreLast | Engine/Engine/Engine.cpp:420-441 | each set index names a family with that capability, and no later examined family has it; if the scan never completes, this holds over all families |
| Engine.LaterGraphicsFamilyOverwrites | Engine/Engine/Engine.cpp:423-426 | for families [graphics, graphics, present] the graphics index is 1, not 0 |
| Engine.PresentBeforeGraphics | Engine/Engine/Engine.cpp:428-438 | for families [present, graphics, both] the scan stops at family 1 with graphics 1 and present 0 |
| Engine.FindQueueFamilyIndices | Engine/Engine/Engine.cpp:411-444 | the overwrite-and-break loop over the families returns exactly `DiscoveredIndices` |
| Engine.CheckDeviceExtensionSupport | Engine/Engine/Engine.cpp:390-406 | erasing every available name from the required set leaves it empty if and only if every required extension (just `VK_KHR_swapchain`) is available |
| Engine.IsDeviceSuitable | Engine/Engine/Engine.cpp:378-385 | suitable if and only if discovery is complete and the swapchain extension is available, that is some graphics family, some presenting family and the extension exist |
| Engine.UniqueQueueFamilies | Engine/Engine/Engine.cpp:176 | the set of the two family indices, in ascending order: one element when they are equal, two otherwise |
| Engine.BuildQueueCreateInfos | Engine/Engine/Engine.cpp:173-189 | `value()` on a missing index fails, and only then; otherwise one create-info with one queue per distinct family, in ascending family order |
| Engine.CreateLogicalDevice | Engine/Engine/Engine.cpp:171-215 | `value()` fails exactly when discovery is incomplete; a complete discovery with the driver refusing gives "failed to create logical device"; on success, one create-info with one queue per distinct discovered family, ascending, of which `vkCreateDevice` reads only the first, the family `RequestedQueueFamiliesAsWritten` gives |
| Engine.RequestedQueueFamiliesAsWritten | Engine/Engine/Engine.cpp:193-196 | with `queueCreateInfoCount` fixed at 1, the device asks only for the smaller family index |
| Engine.AsWrittenOmitsAFamily | Engine/Engine/Engine.cpp:193-196 | with distinct graphics and present families one of them is not requested; when graphics is the larger, the graphics family is missing |
| Engine.RequestedQueueFamilies | Engine/Engine/Engine.cpp:175-196 | counting every info built requests both families, each once |
| Engine.InstanceNextAsWritten | Engine/Engine/Engine.cpp:79-90 | with validation on, `pNext` is the address of the debug callback; with validation off, it is null |
| Engine.AsWrittenChainsCallbackAddress | Engine/Engine/Engine.cpp:83 | the chained pointer differs from the debug-messenger create-info that `MakeInstanceCreateInfo` chains |
| Engine.DebugCallback | Engine/Engine/Engine.h:93-103 | the callback never asks to abort the call that triggered it |
| Engine.Engine.constructor | Engine/Engine/Engine.h:67 | `_physicalDevice` starts as the null handle |
| Engine.Engine.SelectPhysicalDevice | Engine/Engine/Engine.cpp:148-166 | no device: the "no Vulkan GPU" error with the field untouched; otherwise the field is the pick, and the outcome is "no suitable GPU" exactly when it is null |
| Initializer.FindQueueFamilyIndices | Engine/Initializer/Initializer.cpp:382-407 | the graphics index is the first graphics family, and unset exactly when there is none |
| Initializer.QueueFamilyIndices.IsComplete | Engine/Initializer/Initializer.cpp:399 | defined as the graphics index holding a value, the test that ends the loop |
| Initializer.IsDeviceSuitable | Engine/Initializer/Initializer.cpp:372-377 | suitable if and only if the device has a graphics family |
| Initializer.CreateLogicalDevice | Engine/Initializer/Initializer.cpp:173-212 | `value()` fails when no graphics family exists; otherwise "failed to create logical device" when the driver refuses; success exactly when a graphics family exists and the driver accepts, requesting one queue of the first graphics family |
| Initializer.LayersSatisfied | Engine/Initializer/Initializer.cpp:65 | defined as the negation of the refusal test: validation off, or every requested layer available |
| Initializer.CreateInstance | Engine/Initializer/Initializer.cpp:63-109 | refused when validation is requested and a layer is missing; when the layers are available: SDL failing gives the extension-query error, the driver refusing gives the instance-creation error, and otherwise it succeeds; on success `pNext` chains the debug-messenger info and the layers are enabled exactly when validation is on, and the extensions are SDL's list followed by the debug-utils name exactly when validation is on |
| Initializer.VulkanGlobals.constructor | Engine/Initializer/Initializer.cpp:45 | the global `physicalDevice` starts as the null handle |
| Initializer.VulkanGlobals.SelectPhysicalDevice | Engine/Initializer/Initializer.cpp:150-168 | the same three outcomes as the Engine class, storing the pick in the global |
| InitializerInline.AccumulateScore | Engine/Initializer/Initializer.hpp:95-98 | the inline `+=` statements compute exactly the shared score |
| InitializerInline.SelectPhysicalDevice | Engine/Initializer/Initializer.hpp:72-118 | no device is an error before scoring; otherwise success if and only if some device scores above zero, else "no suitable GPU"; nothing else is observable |
| Window.ClampDimension | Engine/Window/Window.cpp:64 | a dimension is kept when at least 1 and becomes 1 otherwise |
| Window.ClampIdempotent | Engine/Window/Window.cpp:64 | clamping an already clamped dimension changes nothing |
| Window.Window.constructor | Engine/Window/Window.cpp:13-19 | 800 by 600, title "Engine", no native window, not stopped |
| Window.Window.Init | Engine/Window/Window.cpp:32-56 | fails when SDL creates no window, then when the extension query fails; otherwise succeeds, leaving dimensions and title as they were |
| Window.Window.SetWidth | Engine/Window/Window.cpp:62-74 | the width becomes the clamped argument and nothing else changes |
| Window.Window.SetHeight | Engine/Window/Window.cpp:80-92 | the height becomes the clamped argument and nothing else changes |
| Window.Window.SetTitle | Engine/Window/Window.cpp:97-105 | the title becomes the argument exactly and nothing else changes |
| Window.Window.GetWidth | Engine/Window/Window.h:25 | the stored width, at least 1 |
| Window.Window.GetHeight | Engine/Window/Window.h:26 | the stored height, at least 1 |
| Window.Window.GetTitle | Engine/Window/Window.h:27 | the stored title |
| Window.Window.IsStop | Engine/Window/Window.h:29 | the stored stop flag, which starts false and no modelled method changes |
| Window.SettersIdempotent | Engine/Window/Window.cpp:62-92 | setting a dimension twice to the same argument leaves the value the first call stored (the clamped argument), and the title and stop flag are kept |
| App.Dispatch | Engine/main.cpp:42-74 | one event of the `switch`: `stop` is set exactly when it was or the event is a QUIT, only a key press changes a dimension, and dimensions of at least 1 stay at least 1 |
| App.DispatchAll | Engine/main.cpp:40-75 | the events of a round handled in order; without key presses the dimensions are unchanged and `stop` is set only if it was already or a QUIT occurred |
| App.DispatchEffect | Engine/main.cpp:42-74 | RIGHT adds 8 to the width, and LEFT subtracts 8 with a floor of 1; DOWN adds 8 to the height, and UP subtracts 8 with a floor of 1; QUIT sets `stop`; every other key or event changes nothing; dimensions stay at least 1 |
| App.ResizeInverses | Engine/main.cpp:51-65 | RIGHT then LEFT, and DOWN then UP, restore the dimensions; LEFT then RIGHT (UP then DOWN) restores them exactly when the dimension was above 8 |
| App.DispatchAllValid | Engine/main.cpp:40-75 | dispatching any events keeps both dimensions at least 1 |
| App.DispatchAllStop | Engine/main.cpp:44-46 | after a sequence of events `stop` is set if and only if it was set before or a QUIT event occurred |
| App.DispatchAllAppend | Engine/main.cpp:38-76 | dispatching two sequences in a row is dispatching their concatenation |
| App.DrainEvents | Engine/main.cpp:40-75 | the inner polling loop dispatches every pending event in order, even after a QUIT |
| App.RunEventLoop | Engine/main.cpp:36-76 | the outer loop ends after the first round containing a QUIT, having dispatched all events up to that round's end, and keeps running when no round contains one; the title, the window's own stop flag and its native window are unchanged |
| App.ConfigureWindow | Engine/main.cpp:30-34 | the window is 1024 by 768 with title "Hello world" before `init` |
| App.Run | Engine/main.cpp:17-89 | `EXIT_FAILURE` when setup fails; an escaping exception when `init` fails; otherwise `EXIT_SUCCESS` if and only if a QUIT event arrives |
| Prototype.Singleton.constructor | Engine/Prototype/Singleton.h:43 | the slot starts empty |
| Prototype.Singleton.GetInstance | Engine/Prototype/Singleton.h:14-21 | an empty slot is filled with a new instance; a filled slot's instance is returned without creating another |
| Prototype.Singleton.DestroyInstance | Engine/Prototype/Singleton.h:26-33 | a held instance is deleted and the slot emptied; an empty slot is left as it is |
| Prototype.Lifecycle | Engine/Prototype/Singleton.h:14-33 | two gets share one instance; two destroys in a row delete exactly that one instance, so the second is a no-op; a get after destroy yields a new instance, never a deleted one |

## Constants

These are constants rather than functions, so they have no contract of their own; the members above that use them state what follows from them.

- `Engine.NoQueueFamilies`: the default-constructed `QueueFamilyIndicies` with both indices unset (Engine/Engine/Engine.h:19-22, Engine/Engine/Engine.cpp:413).
- `Engine.DeviceExtensions`: the required device extensions, just `VK_KHR_swapchain` (Engine/Engine/Engine.h:83-85).
- `InstanceSetup.ValidationLayerNames`: the requested layers, just `VK_LAYER_KHRONOS_validation` (Engine/Engine/Engine.h:79-81, Engine/Initializer/Initializer.cpp:49-51).

## Left out

- Driver and SDL calls are not modelled; what they return is input data. This covers enumerations, property and feature queries, surface support, layer and extension lists, `vkCreate*`/`vkDestroy*`, `SDL_Init`, `SDL_CreateWindow`, `SDL_SetWindowSize`, `SDL_SetWindowTitle`, `SDL_Vulkan_*` and `SDL_PollEvent`.
- Logging (`spdlog`), `searchExtensions`/`getExtensions` (log only), and the message formatting in `debugCallback` are left out.
- Engine/IniReader is not part of this model: it wraps the external `INIReader` library.
- `createSwapChain`, `querySwapChainSupport` and `chooseSwap*` are declared without a body and are not modelled.
- The float queue priority `1.0f` is not modelled.
- The remaining Vulkan object creation and teardown is struct filling plus driver calls: `setupDebugMessenger`, `createSurface`, `destroyInstance`, the debug-messenger function-pointer lookups, and `main`'s `initVulkan`/`destroy`. `initVulkan`'s outcome is a parameter of `App.Run`. `destroy` cannot report failure, so success follows the loop.
- Engine/Initializer/Initializer.h, an older `initialize`/`destroy`, is left out.
- Exception mechanics are not modelled. `throw` and `throw new`, and the catch-and-rethrow slicing, become error values. `Window::init` failing inside `main` is reported as an exception that escapes `main`.
- The validation-layer flag is a parameter rather than the build-time constant.
- `Engine::createInstance` is modelled by its `pNext` assignment (`Engine.InstanceNextAsWritten`). Its layer check and extension gathering are the shared `InstanceSetup` operations.
- `Window::initVulkan` is modelled only by whether its extension query succeeds. Note that it passes `data()` of an empty vector, so the names themselves are never read.
- `Window::run` is declared only. The native window's resize and rename on the setters are SDL calls. The destructor frees only the SDL window.
- `App.RunEventLoop` consumes a finite list of polling rounds. `main` polls forever until QUIT, so "keeps running" appears as the input running out with `stop` unset.
- `App.Dispatch` treats the window's `int` dimensions as unbounded. `width + 8` overflowing at `INT_MAX` is not modelled, because no real window size gets there.
- `Initializer.QueueFamilyIndices`: the structure that Engine/Initializer/Initializer.cpp uses is declared in a header that is not part of this snapshot (Engine/Initializer/Initializer.h is an older file). It is assumed to hold a graphics index only, complete once that index is set, because that file queries no surface.
- `Prototype.Singleton`: the `static` slot of one `Singleton<T>` is one shared object. `delete` appears as membership in a ghost set of released instances, and the memory itself is not modelled.
- `InitializerInline.SelectPhysicalDevice`: a second null-handle check follows the positive-score branch, which has just stored a real handle, so the check can never fire. The model proves that the stored device is the pick and omits that unreachable branch.

## Findings

| source | as written | input that shows it | evidently intended | confidence | as-written member | corrected member |
|---|---|---|---|---|---|---|
| Engine/Engine/Engine.cpp:195 | `queueCreateInfoCount` is the constant 1 although one create-info per distinct family is built, so only the first (smallest) family is requested | graphics family 1, present family 0: only family 0 is requested, then a graphics-family queue is fetched | the count is the number of infos built, so both families are requested | not executed | Engine.RequestedQueueFamiliesAsWritten (exhibited by Engine.AsWrittenOmitsAFamily) | Engine.RequestedQueueFamilies |
| Engine/Engine/Engine.cpp:83 | `pNext` is set to the address of the `debugCallback` function, cast to a create-info pointer | validation enabled: the chained structure is the callback's code, not a `VkDebugUtilsMessengerCreateInfoEXT` | chain the populated `debugCreateInfo`, as Engine/Initializer/Initializer.cpp:96 does | not executed | Engine.InstanceNextAsWritten (exhibited by Engine.AsWrittenChainsCallbackAddress) | InstanceSetup.MakeInstanceCreateInfo |
