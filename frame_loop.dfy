/**
 * The per-event closure that `Vulkan::setup` hands to the event loop, as a
 * pure state machine.
 *
 * The loop state is the part of `Vulkan` the closure changes: the
 * `recreate_swapchain` flag, the swapchain, the framebuffers, the viewport and
 * `previous_frame_end`, plus the event loop's control flow and the vertex
 * buffer the draw call reads. The images of the
 * live swapchain are recorded beside them so that the framebuffers and the
 * viewport can be related to them. Every call into the graphics library that
 * can fail is an input (a `Driver`), and every panic of the source (`unwrap`,
 * `panic!`, an index out of range) ends the step with `Fatal`.
 */
module FrameLoop {
  import opened Wrappers

  type SwapchainId = nat
  type FutureId = nat

  datatype Extent = Extent(width: nat, height: nat)

  /** A swapchain image; `dimensions` is what `image.dimensions()` reports. */
  datatype Image = Image(id: nat, dimensions: Extent)

  /** A framebuffer with one colour attachment: a view of `attachment`. */
  datatype Framebuffer = Framebuffer(attachment: Image)

  /** The dynamic viewport; its origin (0, 0) and depth range 0..1 never change. */
  datatype Viewport = Viewport(dimensions: Extent)

  /** `previous_frame_end`: `sync::now(device)`, or the fence future of a flushed frame. */
  datatype Future = Now | Pending(id: FutureId)

  datatype ControlFlow = Poll | Exit

  datatype Event = CloseRequested | Resized(size: Extent) | RedrawEventsCleared | OtherEvent

  /** `swapchain.recreate().dimensions(..).build()` */
  datatype RecreateOutcome =
    | Recreated(swapchain: SwapchainId, images: seq<Image>)
    | UnsupportedDimensions
    | RecreateError

  /** `swapchain::acquire_next_image` */
  datatype AcquireOutcome =
    | Acquired(imageNum: nat, suboptimal: bool)
    | AcquireOutOfDate
    | AcquireError

  /** Building the command buffer: `BuilderError` is a failure of
      `AutoCommandBufferBuilder::primary`, which comes before the framebuffer
      is looked up; `RecordError` is any later `unwrap` (begin and end of the
      render pass, the draw, `build`, `then_execute`). */
  datatype RecordOutcome = Recorded | BuilderError | RecordError

  /** `then_signal_fence_and_flush` */
  datatype FlushOutcome = Flushed(future: FutureId) | FlushOutOfDate | FlushError

  /** What the library answers to the calls one event may make. `windowSize`
      is the window's inner size the recreation asks for. */
  datatype Driver = Driver(
    windowSize: Extent,
    recreate: RecreateOutcome,
    acquire: AcquireOutcome,
    record: RecordOutcome,
    flush: FlushOutcome)

  /** The panics the closure can raise. */
  datatype Panic =
    | RecreateFailed
    | NoSwapchainImages
    | AcquireFailed
    | FramebufferIndexOutOfRange
    | CommandBufferFailed

  /** A vertex of the buffer. The source's `f32` coordinates of the triangle
      are exact binary fractions, so they are written here as reals. */
  datatype Vertex = Vertex(x: real, y: real)

  /** `create_vertex_buffer`: the three corners of the triangle. */
  const TriangleVertices: seq<Vertex> := [Vertex(0.5, 0.5), Vertex(-0.5, 0.5), Vertex(0.0, -0.5)]

  /** The command buffer recorded for one frame. It is handed to the flush,
      which may still fail; the flush outcome shows in the new state's
      future and flag, not here. */
  datatype Submission = Submission(
    imageNum: nat,
    framebuffer: Framebuffer,
    viewport: Viewport,
    vertexCount: nat,
    instanceCount: nat)

  /** `Drawn` means a command buffer was recorded and passed to the flush,
      whether or not the flush then succeeded. */
  datatype StepResult = Idle | Drawn(submission: Submission) | Fatal(panic: Panic)

  datatype LoopState = LoopState(
    recreateSwapchain: bool,
    swapchain: SwapchainId,
    swapchainImages: seq<Image>,
    framebuffers: seq<Framebuffer>,
    viewport: Viewport,
    previousFrameEnd: Future,
    controlFlow: ControlFlow,
    vertexBuffer: seq<Vertex>)

  datatype Transition = Transition(state: LoopState, result: StepResult)

  /** One framebuffer per image, in image order. */
  function FramebuffersFor(images: seq<Image>): seq<Framebuffer> {
    seq(|images|, i requires 0 <= i < |images| => Framebuffer(images[i]))
  }

  /** The viewport `window_size_dependent_setup` derives from the first image. */
  function ViewportFor(images: seq<Image>): Viewport
    requires |images| > 0
  {
    Viewport(images[0].dimensions)
  }

  /** The framebuffers and the viewport were built from the images of the
      live swapchain. */
  predicate SizeDependentStateMatches(s: LoopState) {
    |s.swapchainImages| > 0 &&
    s.framebuffers == FramebuffersFor(s.swapchainImages) &&
    s.viewport == ViewportFor(s.swapchainImages)
  }

  /** `recreate_swapchain`. The result is `Idle` or `Fatal`. */
  function Recreate(s: LoopState, outcome: RecreateOutcome): Transition {
    match outcome
    case UnsupportedDimensions => Transition(s, Idle)
    case RecreateError => Transition(s, Fatal(RecreateFailed))
    case Recreated(sc, images) =>
      // the new swapchain is stored before `images[0]` is read
      if |images| == 0 then Transition(s.(swapchain := sc), Fatal(NoSwapchainImages))
      else Transition(s.(swapchain := sc, swapchainImages := images,
                         framebuffers := FramebuffersFor(images),
                         viewport := ViewportFor(images),
                         recreateSwapchain := false), Idle)
  }

  /** The first part of a redraw: recreation when the flag is set. */
  function RecreateIfFlagged(s: LoopState, d: Driver): Transition {
    if s.recreateSwapchain then Recreate(s, d.recreate) else Transition(s, Idle)
  }

  /** The `RedrawEventsCleared` arm: recreate if flagged, acquire, record,
      submit and flush. */
  function Redraw(s: LoopState, d: Driver): Transition {
    var t := RecreateIfFlagged(s, d);
    if t.result.Fatal? then t
    else
      var s1 := t.state;
      match d.acquire
      case AcquireOutOfDate => Transition(s1.(recreateSwapchain := true), Idle)
      case AcquireError => Transition(s1, Fatal(AcquireFailed))
      case Acquired(imageNum, suboptimal) =>
        var s2 := if suboptimal then s1.(recreateSwapchain := true) else s1;
        if d.record == BuilderError then Transition(s2, Fatal(CommandBufferFailed))
        else if imageNum >= |s2.framebuffers| then Transition(s2, Fatal(FramebufferIndexOutOfRange))
        else if d.record == RecordError then Transition(s2, Fatal(CommandBufferFailed))
        else
          var sub := Submission(imageNum, s2.framebuffers[imageNum], s2.viewport, |s2.vertexBuffer|, 1);
          var s3 := match d.flush
            case Flushed(f) => s2.(previousFrameEnd := Pending(f))
            case FlushOutOfDate => s2.(recreateSwapchain := true, previousFrameEnd := Now)
            case FlushError => s2.(previousFrameEnd := Now);
          Transition(s3, Drawn(sub))
  }

  /** The closure: one event. */
  function Step(s: LoopState, e: Event, d: Driver): Transition {
    match e
    case CloseRequested => Transition(s.(controlFlow := Exit), Idle)
    case Resized(_) => Transition(s.(recreateSwapchain := true), Idle)
    case RedrawEventsCleared => Redraw(s, d)
    case OtherEvent => Transition(s, Idle)
  }

  datatype Input = Input(event: Event, driver: Driver)

  /** A run of the closure over a sequence of events: the final state, the
      frames recorded, and the panic that ended the run early, if any. */
  datatype Run = Run(state: LoopState, submissions: seq<Submission>, panic: Option<Panic>)

  function RunFrom(s: LoopState, inputs: seq<Input>): Run
    decreases |inputs|
  {
    if |inputs| == 0 then Run(s, [], None)
    else
      var t := Step(s, inputs[0].event, inputs[0].driver);
      match t.result
      case Fatal(p) => Run(t.state, [], Some(p))
      case Idle => RunFrom(t.state, inputs[1..])
      case Drawn(sub) =>
        var r := RunFrom(t.state, inputs[1..]);
        r.(submissions := [sub] + r.submissions)
  }
}
