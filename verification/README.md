# Vulkan bootstrap decision logic, in Dafny

This project models the pure decision logic inside the start-up code of
`ash-gltf`, a Rust/Vulkan rendering bootstrap. Almost everything that code
does is a call into the Vulkan driver. Between those calls it makes three
kinds of decisions, and those decisions are modelled and proved here:

- **Device and queue-family selection** (`src/app.rs`). The first enumerated
  physical device is picked. The queue-family table is then scanned left to
  right to record a graphics family and a family that can present to the
  window surface. The scan stops once both are recorded.
- **Debug-message severity mapping** (`src/app.rs`, `debug_callback`).
- **Swap-chain negotiation** (`src/app/swapchain.rs`). This covers the
  surface format, present mode, extent and image count. They are assembled
  into the swap-chain create-info, with one image-view descriptor per image.

Driver answers are inputs to the model: the device list, the queue-family
table, per-family surface-support answers, the three surface queries, and the
chain and images the driver creates. Each of these answers may be a
`VkResult` error, except the queue-family table:
`get_physical_device_queue_family_properties` cannot fail, so the table is a
plain sequence.
Rust panics (`formats[0]` on an empty list, `u32::clamp` with `min > max`,
`u32` overflow) become preconditions. `unwrap` of an unresolved graphics
index is the error `GraphicsUnresolved`.

Modules: `Wrappers` (Option/Result), `Vk` (`u32`, Vulkan 1.3 enumerant codes
and records), `QueueFamilies`, `App`, `Swapchain`.

Behaviour worth knowing, as the code has it:

- Although one might expect the first graphics-capable family and the first
  presenting family to be chosen, the code overwrites both indices on every
  match until both are set. So each index is the last match up to the stop
  point (`QueueFamilies.LaterGraphicsFamilyWins` shows a case).
- An incomplete pair of indices is not an error: the code returns `Ok` with
  the partial indices, and `App::new` only unwraps `graphics`. Start-up therefore proceeds with no presenting family at all
  (`App.SelectionIgnoresPresentSupport`).
- The create-info always uses exclusive sharing, even when the graphics and
  present families differ. The model keeps this.

## Model

| member | source | states |
|---|---|---|
| QueueFamilies.LastGraphics | src/app.rs:144-147 | the graphics index held after n families is the last graphics-capable family below n, and none if there is no such family |
| QueueFamilies.LastPresent | src/app.rs:148-156 | the present index held after n families is the last family below n whose support query answered true, and none if there is no such family |
| QueueFamilies.VisitedCount | src/app.rs:158-160 | the scan leaves the loop after the first prefix at which both indices are set, or after the whole table if that never happens |
| QueueFamilies.FirstError | src/app.rs:148-154 | the error the `?` propagates is the first failing support query, and every earlier query succeeded |
| QueueFamilies.ScanOutcome | src/app.rs:142-163 | a returned graphics index names a graphics-capable family, and a returned present index names a family whose query answered true |
| QueueFamilies.FindQueueFamilyIndices | src/app.rs:134-164 | the loop, with its `?` and `break`, returns exactly the reference outcome, and its indices are sound as above |
| QueueFamilies.ScanStopsAtFirstCompletion | src/app.rs:144-161 | on a complete success, the later index is the last family queried, no earlier prefix was complete, and each index is the last match up to that point |
| QueueFamilies.ScanIgnoresUnqueried | src/app.rs:148-160 | support answers past the last queried index cannot change the outcome |
| QueueFamilies.ScanCompleteIff | src/app.rs:142-163 | with no query error the scan succeeds, and the result is complete (`is_completed`, lines 223-225) iff some family is graphics-capable and some family presents |
| QueueFamilies.ScanFailsOnVisitedError | src/app.rs:148-154 | the scan fails iff a visited family's query fails, and then it reports the first such error |
| QueueFamilies.NoGraphicsFamilyStillSucceeds | src/app.rs:163 | a table with no graphics family and no query error still yields `Ok`, with `graphics` unresolved and the result incomplete |
| QueueFamilies.LaterGraphicsFamilyWins | src/app.rs:144-147 | with two graphics families where only the second presents, both indices are 1, not the first graphics family 0 |
| App.PickPhysicalDevice | src/app.rs:108-114 | an enumeration error propagates, an empty list is the `NoGpu` error, and a non-empty list yields exactly its first device |
| App.PickIgnoresLaterDevices | src/app.rs:112 | the devices after the first never affect the pick |
| App.SeverityLevel | src/app.rs:121-127 | VERBOSE maps to Debug, INFO to Info and ERROR to Error, each iff the severity is exactly that bit; everything else is Warn |
| App.SeverityLevelRoundTrip | src/app.rs:121-126 | the four levels produced map back from their own severity bit, so the mapping is one-to-one on the recognised bits |
| App.CombinedSeverityIsWarn | src/app.rs:126 | a severity with two or more bits set is logged as a warning |
| App.DebugCallback | src/app.rs:115-132 | the callback logs at the mapped level and always returns `VK_FALSE` |
| App.SelectDevice | src/app.rs:70-91 | device and scan errors propagate in order; after both succeed, the result is the picked device with exactly the scan's graphics index, or the `unwrap` failure when that index is unresolved; the family is always graphics-capable |
| App.SelectionIgnoresPresentSupport | src/app.rs:85-91 | a graphics family suffices for selection even when no family can present |
| App.SelectionNeedsGraphicsFamily | src/app.rs:88-90 | without a graphics family start-up stops at the `unwrap` |
| Swapchain.QuerySupportDetails | src/app/swapchain.rs:11-27 | the snapshot exists iff all three surface queries succeed; otherwise the first failing query's error, in the order capabilities, formats, modes |
| Swapchain.ScanFormats | src/app/swapchain.rs:33-38 | from position i the loop returns the preferred format if it occurs there, else `formats[0]` |
| Swapchain.ChooseSurfaceFormat | src/app/swapchain.rs:29-39 | the preferred format if listed, otherwise the first listed format; always a listed format |
| Swapchain.ScanPresentModes | src/app/swapchain.rs:42-48 | from position i the loop returns the preferred mode if it occurs there, else FIFO |
| Swapchain.ChoosePresentMode | src/app/swapchain.rs:41-49 | the preferred mode if listed, otherwise FIFO, so the result is a listed mode or FIFO |
| Swapchain.ChosenPresentModeSupported | src/app/swapchain.rs:41-49 | on a surface listing FIFO, as Vulkan requires, the chosen mode is always supported |
| Swapchain.Clamp | src/app/swapchain.rs:57-66 | `u32::clamp` stays within [lo, hi], leaves in-range values alone, and sends low values to lo and high values to hi |
| Swapchain.ClampIsNearest | src/app/swapchain.rs:57-66 | the clamped value is at least as close to the request as any admissible value |
| Swapchain.ChooseExtent | src/app/swapchain.rs:51-68 | without the width sentinel the current extent is returned verbatim; with it, each dimension is clamped on its own into the bounds, and an in-bounds request is kept |
| Swapchain.ChooseExtentIdempotent | src/app/swapchain.rs:51-68 | choosing again from the chosen extent returns the same extent |
| Swapchain.OptimalMinImageCount | src/app/swapchain.rs:70-72 | the image count is exactly one more than the surface minimum |
| Swapchain.ImageCountMayExceedMaximum | src/app/swapchain.rs:70-72 | the count is not capped: a surface with minimum = maximum = 2 is asked for 3 images |
| Swapchain.CreateInfo | src/app/swapchain.rs:93-115 | the create-info uses the negotiated format (B8G8R8_UNORM/sRGB if listed, else the first listed), MAILBOX or FIFO, exactly `choose_extent` of the requested size (verbatim current extent, or the clamped request) and the minimum plus one, with one layer, colour usage, exclusive sharing, the current transform, opaque alpha and clipping |
| Swapchain.NegotiationScenario | src/app/swapchain.rs:93-115 | formats {A, preferred}, modes {FIFO} and a fixed 800x600 extent yield the preferred format, FIFO and 800x600 whatever the request |
| Swapchain.CreateImageViews | src/app/swapchain.rs:129-160 | one view per image, index-aligned, each a 2D view in the given format with identity swizzles and one colour mip level and layer |
| Swapchain.ViewsRoundTrip | src/app/swapchain.rs:134-159 | reading the images back from the views gives the original images in order |
| Swapchain.NewSwapchain | src/app/swapchain.rs:84-127 | a query error propagates; on success the chain is the driver's answer to the negotiated create-info, its images are the driver's, and it has one colour view per image in the negotiated format; otherwise the error of the failing create call or image query is returned |

## Left out

- Instance creation, debug-messenger registration, surface creation and logical-device creation in `App::new` (src/app.rs:32-107). These are driver calls that only pass arguments; the queue priority 1.0 is a float.
- `App::run` (src/app.rs:166-209): the winit event loop and the Escape/F11 key handling.
- Formatting and logging the message text in `debug_callback` (src/app.rs:128-129): this is a raw-pointer read and a log call. Only the level and the return value are modelled.
- `src/app/frame.rs`: it only passes constants to the driver's command-pool, command-buffer and semaphore calls.
- `src/main.rs`: logger, window and event-loop start-up.
- Teardown order: the code has no `Drop` implementation or destroy sequence, so there is nothing to model.
- `create_image_view` itself and its `unwrap`: each view is modelled by its create-info descriptor, and the driver is assumed to accept it.
- The requested extent: `Swapchain::new` reads `crate::WINDOW_WIDTH`/`WINDOW_HEIGHT`, which the crate does not define (`main.rs` has `WIDTH`/`HEIGHT`). The model takes the requested extent as a parameter.
- Swapchain.OptimalMinImageCount: requires `minImageCount < u32::MAX`. A debug build panics there. The wrap-around to 0 of a release build is not modelled.
- QueueFamilies.FindQueueFamilyIndices: requires at most 2^32 families, because the driver reports the count as a `u32`. So `i as u32` never truncates.
- `maxImageArrayLayers`, `supportedTransforms`, `supportedCompositeAlpha` and `supportedUsageFlags` of `VkSurfaceCapabilitiesKHR` are not read by the code and are left out of `Vk.SurfaceCapabilities`.
