# Triangle renderer: device selection and the present loop

This project models the two pieces of logic in `src/vulkan.rs` of a small
renderer that draws one static triangle through Vulkan. Everything else in
that file builds objects through the vulkano and winit libraries.

1. **Physical-device selection** (`create_physical_device`). The enumerated
   devices are plain values. Each one has a set of supported extension names,
   a sequence of queue families and a device type. A queue family records
   whether it supports graphics and what the surface's support query answered.
   A failed query is `None`. The selection keeps the devices that support the
   required extensions (only `khr_swapchain`). It pairs each one with its first
   queue family that supports graphics and that the surface supports, and drops
   devices that have no such family. It then returns the pair whose device type
   ranks lowest: discrete 0, integrated 1, virtual 2, CPU 3, other 4. On a tie
   the first such pair wins, because Rust's `min_by_key` keeps the first
   minimum. When no pair is left the source panics; the model returns `None`.
   `DeviceSelection.SelectDevice` is this chain of `filter`, `filter_map`/`find`
   and `min_by_key`. `IsBestChoice` describes the right answer independently.
   The lemmas prove that the two agree, in both directions.

2. **The frame loop** (the closure passed to the event loop in `setup`,
   `recreate_swapchain` and `window_size_dependent_setup`). The closure's state
   is the `recreate_swapchain` flag, the swapchain, the framebuffers, the
   viewport, `previous_frame_end` and the event loop's control flow.
   `previous_frame_end` is abstracted to `Now | Pending(id)`. Each call into the
   graphics library is an input whose outcome is given:
   - acquire: `Acquired(image, suboptimal)`, `AcquireOutOfDate` or another error;
   - recreate: `Recreated(swapchain, images)`, `UnsupportedDimensions` or another error;
   - command-buffer building: success, failure of the builder, or a later failure;
   - flush: `Flushed(future)`, `FlushOutOfDate` or another error.

   Every panic of the source ends the step with `Fatal(reason)`. That covers
   `unwrap`, `panic!` and indexing out of range. Module `FrameLoop` is the pure
   state machine: `Step` handles one event and `RunFrom` runs a sequence of
   events. Class `Renderer.Vulkan` holds the same fields and updates them in
   place. Its `HandleEvent` is proved equal to `Step`.

   Building the command buffer can panic at three points, and the model keeps
   the source's order: first the builder's creation, then the framebuffer
   lookup `framebuffers[image_num]`, then the remaining `unwrap`s of the
   recording. A frame counts as drawn once its command buffer is recorded and
   handed to the flush. The flush may still fail, and that failure shows only
   in the new future and flag.

A framebuffer is modelled as the image it wraps. A viewport is modelled as the
integer dimensions of the image it is copied from. The vertex buffer is part of
the loop state, so the draw call's vertex count is the buffer's length. The
triangle's `f32` coordinates are exact binary fractions, so they are written as
reals.

## Model

| member | source | states |
|---|---|---|
| `DeviceSelection.FindQueueFamily` | src/vulkan.rs:308-311 | the returned id is that of the first family that supports graphics and whose surface query answered yes (a failed query counts as no); `None` exactly when there is no such family |
| `DeviceSelection.Candidates` | src/vulkan.rs:304-312 | every pair left after the two filters is a qualifying device with its first presenting family, and the pairs keep enumeration order |
| `DeviceSelection.CandidatesComplete` | src/vulkan.rs:304-312 | every device that passes both filters is among the candidates |
| `DeviceSelection.MinByRank` | src/vulkan.rs:313-320 | `None` exactly on no candidates; otherwise the result is a candidate with minimum rank, and it is strictly better than every candidate before it (first minimum wins) |
| `DeviceSelection.SelectedIsFirstMinimum` | src/vulkan.rs:313-320 | the selected device's rank is at most that of every qualifying device, and strictly less than that of every qualifying device enumerated before it |
| `DeviceSelection.SelectDeviceSound` | src/vulkan.rs:303-321 | a returned pair is the best choice: its device supports the required extensions, its family is the device's first presenting family, its rank is minimal, and ties go to the earliest device |
| `DeviceSelection.SelectDeviceFailsIff` | src/vulkan.rs:321 | selection fails (the `unwrap` panics) exactly when no device passes both filters |
| `DeviceSelection.BestChoiceUnique` | src/vulkan.rs:313-320 | at most one pair is the best choice, so the enumeration alone determines the selection |
| `DeviceSelection.SelectDeviceIsBestChoice` | src/vulkan.rs:303-325 | selection returns a pair if and only if that pair is the best choice |
| `DeviceSelection.DiscreteGpuPreferred` | src/vulkan.rs:314-320 | if a discrete GPU qualifies, selection succeeds and picks a discrete GPU |
| `DeviceSelection.SelectedDeviceCanPresent` | src/vulkan.rs:296-312 | with the required set `{khr_swapchain}`, the selected device supports `khr_swapchain`, and its family supports graphics and got a yes from the surface query |
| `FrameLoopProperties.NonRedrawEvents` | src/vulkan.rs:143-154 | a close request only sets the control flow to `Exit`; a resize only sets the flag, and its size is not used; any other event changes nothing |
| `FrameLoopProperties.ResizedIdempotent` | src/vulkan.rs:149-154 | two resizes in a row have the effect of one |
| `FrameLoopProperties.ResizeThenRecreation` | src/vulkan.rs:149-189 | a resize, then a redraw whose recreation succeeds and that reports nothing out of date, leaves the flag clear and the new swapchain live; exactly one frame is recorded, with a framebuffer and viewport from the new images, and the new future is stored |
| `FrameLoopProperties.RecreateOutcomes` | src/vulkan.rs:470-482 | unsupported dimensions return with the state untouched; any other error is fatal; success replaces the swapchain, rebuilds the framebuffers and the viewport from the new images and clears the flag; an empty image list panics at `images[0]` |
| `FrameLoopProperties.UnsupportedDimensionsRetried` | src/vulkan.rs:164-166 | with the flag set and unsupported dimensions, the redraw keeps the swapchain, framebuffers and viewport, and the flag is still set afterwards |
| `FrameLoopProperties.RecreatedSizeReachesFrame` | src/vulkan.rs:442-480 | a frame drawn right after a successful recreation renders into a framebuffer of one of the new images, with the viewport of the new images; when these were built at the window size, both have exactly that size |
| `FrameLoopProperties.AcquireOutOfDateSkipsFrame` | src/vulkan.rs:175-181 | an out-of-date acquire sets the flag and ends the tick with no submission; the future is kept |
| `FrameLoopProperties.SuboptimalStillDraws` | src/vulkan.rs:185-190 | a suboptimal acquire sets the flag and the frame is still drawn |
| `FrameLoopProperties.FlushOutcomes` | src/vulkan.rs:258-270 | a successful flush stores the new future; out of date also sets the flag and resets the future to `now`; any other error only resets the future to `now` |
| `FrameLoopProperties.DrawnFrameUsesCurrentSetup` | src/vulkan.rs:204-241 | a drawn frame comes from a redraw with an acquired image; it uses that image's framebuffer and the current viewport, and draws every vertex of the buffer, once |
| `FrameLoopProperties.FatalIff` | src/vulkan.rs:164-241 | a step panics exactly when it is a redraw and one of these holds: the recreation panicked, the acquire failed, the command buffer failed, or the image index is outside the framebuffers |
| `FrameLoopProperties.StepKeepsSizeDependentState` | src/vulkan.rs:141-274 | a step that does not panic keeps the framebuffers (one per image, in order) and the viewport (first image's size) in step with the live swapchain's images |
| `FrameLoopProperties.FramebufferOfAcquiredImage` | src/vulkan.rs:219-220 | with that invariant, the framebuffer lookup panics exactly when the acquired index is not an image of the swapchain, and the frame renders into the acquired image |
| `FrameLoopProperties.StepKeepsVertexBuffer` | src/vulkan.rs:141-274 | no event replaces the vertex buffer |
| `FrameLoopProperties.RunKeepsVertexBuffer` | src/vulkan.rs:141-274 | a run of events ends with the buffer it started with, and every frame it records draws the whole buffer (`vertex_buffer.len()` vertices) with 1 instance |
| `FrameLoopProperties.RunDrawsTriangle` | src/vulkan.rs:232 | from a state whose buffer holds the three triangle vertices of `create_vertex_buffer`, every frame recorded in a run draws 3 vertices with 1 instance |
| `FrameLoopProperties.RunKeepsSizeDependentState` | src/vulkan.rs:141-274 | a run of events that does not panic ends with the framebuffers and the viewport still built from the live swapchain's images |
| `FrameLoopProperties.FlagClearedOnlyByRecreation` | src/vulkan.rs:479-481 | once the flag is set, it stays set until a redraw in which the library grants a recreation |
| `FrameLoopProperties.ExitIsPermanent` | src/vulkan.rs:143-148 | once the control flow is `Exit`, no later event resets it |
| `Renderer.Vulkan.constructor` | src/vulkan.rs:125-139 | the state before the loop starts: flag clear, the triangle's three vertices in the buffer, the first swapchain with one framebuffer per image, the first image's viewport and `previous_frame_end = now` |
| `Renderer.Vulkan.WindowSizeDependentSetup` | src/vulkan.rs:442-464 | sets the viewport to the first image's dimensions and returns one framebuffer per image, in image order; on an empty list it panics (`None`) before touching the viewport |
| `Renderer.Vulkan.RecreateSwapchain` | src/vulkan.rs:470-482 | updates the fields exactly as `FrameLoop.Recreate` prescribes for the library's answer |
| `Renderer.Vulkan.Redraw` | src/vulkan.rs:155-271 | updates the fields exactly as `FrameLoop.Redraw` prescribes, and keeps the framebuffer/viewport invariant unless it panics |
| `Renderer.Vulkan.HandleEvent` | src/vulkan.rs:141-274 | updates the fields exactly as `FrameLoop.Step` prescribes for the event, and keeps the framebuffer/viewport invariant unless it panics |

## Left out

- Creating the instance, the window and surface, the logical device and its queue, the first swapchain, the vertex buffer, the shaders, the render pass and the pipeline (src/vulkan.rs:278-440). These are thin calls into libraries that are not part of this model. The constructor starts from their results.
- `Renderer.Vulkan.constructor`: it requires a non-empty image list. The first swapchain's `images[0]` would panic on an empty list, but Vulkan never gives a swapchain fewer than one image. The recreation path models the panic.
- GPU futures: `cleanup_finished`, `join`, `then_execute`, `then_swapchain_present` and the fence (src/vulkan.rs:160, 243-256). Work handed to the driver is reduced to the `Now | Pending(id)` token and the flush outcome.
- Floating point: the clear colour, and the `f32` viewport with its origin and depth range. The viewport is the integer image dimensions it is copied from. The vertex positions are exact in `f32` and appear as reals.
- Failures of `ImageView::new` and of the framebuffer builder inside `window_size_dependent_setup`. These `unwrap`s are treated as infallible.
- The `images` field. `recreate_swapchain` never updates it, so after a recreation it still holds the first swapchain's images. Nothing reads it again. The model instead tracks the live swapchain's images in a ghost field.
- The window's inner size is an input. Only the hypothesis of `RecreatedSizeReachesFrame` uses it, because the library, not the source, builds the images at that size.
- The winit event-loop runtime: its dispatching, its stopping after `Exit`, and the initial control flow (modelled as `Poll`). `RunFrom` only composes single steps, and stops at the first panic.
- `println!` output, `print_type_of`, and the physical-device and queue-family getters (src/vulkan.rs:38-40, 122, 327-333).
- Which message a panic prints is not modelled, only which panic it is.

## Notes on the code

- The comment at src/vulkan.rs:162-163 says everything that depends on the window size is recreated whenever the window resizes. The code does this only at the next redraw, and only if the recreation succeeds. The framebuffers match the images of the last successful recreation. After a resize, or after an attempt that reported unsupported dimensions, they lag behind until a recreation succeeds. The model follows the code.
- The recreation does not take the size carried by a resize event. It reads the window's inner size when it runs. That is why several resizes in a row act like one.
