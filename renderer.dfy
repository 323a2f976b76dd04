/**
 * The `Vulkan` object as the event loop sees it: the fields the closure of
 * `setup` updates in place, and its methods. Each method is the in-place
 * version of the function of module FrameLoop that specifies it
 * (`HandleEvent` of `Step`, `Redraw` of `FrameLoop.Redraw`,
 * `RecreateSwapchain` of `Recreate`), and its postcondition says the fields
 * end as that function prescribes; the properties of those functions are the
 * lemmas of module FrameLoopProperties.
 */
module Renderer {
  import opened Wrappers
  import opened FrameLoop

  class Vulkan {
    var recreateSwapchain: bool
    var swapchain: SwapchainId
    var framebuffers: seq<Framebuffer>
    var viewport: Viewport
    var previousFrameEnd: Future
    /** Stands for the event loop's `control_flow` out-parameter. */
    var controlFlow: ControlFlow
    /** The images the live swapchain owns (the object itself keeps only
        those of the first swapchain). */
    ghost var swapchainImages: seq<Image>
    var vertexBuffer: seq<Vertex>

    ghost function State(): LoopState
      reads this
    {
      LoopState(recreateSwapchain, swapchain, swapchainImages, framebuffers,
                viewport, previousFrameEnd, controlFlow, vertexBuffer)
    }

    ghost predicate Valid()
      reads this
    {
      SizeDependentStateMatches(State())
    }

    /** The state `setup` reaches before it enters the event loop: the first
        swapchain with its images, the triangle's vertex buffer, the zero viewport of `create_viewport`
        replaced by `create_framebuffers`, and `previous_frame_end = now`. */
    constructor (sc: SwapchainId, images: seq<Image>)
      requires |images| > 0
      ensures Valid()
      ensures State() == LoopState(false, sc, images, FramebuffersFor(images),
                                   ViewportFor(images), Now, Poll, TriangleVertices)
    {
      recreateSwapchain := false;
      swapchain := sc;
      swapchainImages := images;
      viewport := Viewport(Extent(0, 0));
      framebuffers := [];
      previousFrameEnd := Now;
      controlFlow := Poll;
      vertexBuffer := TriangleVertices;
      new;
      var fbs := WindowSizeDependentSetup(images);
      framebuffers := fbs.value;
    }

    /** `window_size_dependent_setup`: the viewport takes the first image's
        dimensions and one framebuffer is built per image, in order. `None`
        is the panic of `images[0]` on an empty list. */
    method WindowSizeDependentSetup(images: seq<Image>) returns (fbs: Option<seq<Framebuffer>>)
      modifies this`viewport
      ensures |images| == 0 ==> fbs.None? && viewport == old(viewport)
      ensures |images| > 0 ==> viewport == ViewportFor(images)
      ensures |images| > 0 ==> (fbs.Some? && |fbs.value| == |images| &&
        forall i :: 0 <= i < |images| ==> fbs.value[i] == Framebuffer(images[i]))
      ensures |images| > 0 ==> fbs == Some(FramebuffersFor(images))
    {
      if |images| == 0 {
        return None;
      }
      viewport := Viewport(images[0].dimensions);
      var built: seq<Framebuffer> := [];
      var i := 0;
      while i < |images|
        invariant 0 <= i <= |images|
        invariant |built| == i
        invariant forall k :: 0 <= k < i ==> built[k] == Framebuffer(images[k])
      {
        built := built + [Framebuffer(images[i])];
        i := i + 1;
      }
      assert built == FramebuffersFor(images);
      fbs := Some(built);
    }

    /** `recreate_swapchain`, given the library's answer to the rebuild. */
    method RecreateSwapchain(outcome: RecreateOutcome) returns (r: StepResult)
      modifies this
      ensures Transition(State(), r) == Recreate(old(State()), outcome)
    {
      match outcome {
        case UnsupportedDimensions =>
          return Idle;
        case RecreateError =>
          return Fatal(RecreateFailed);
        case Recreated(sc, images) =>
          swapchain := sc;
          var fbs := WindowSizeDependentSetup(images);
          if fbs.None? {
            return Fatal(NoSwapchainImages);
          }
          framebuffers := fbs.value;
          swapchainImages := images;
          recreateSwapchain := false;
          return Idle;
      }
    }

    /** The closure of `setup`, applied to one event. */
    method HandleEvent(e: Event, d: Driver) returns (r: StepResult)
      modifies this
      ensures Transition(State(), r) == Step(old(State()), e, d)
      ensures old(Valid()) && !r.Fatal? ==> Valid()
    {
      match e {
        case CloseRequested =>
          controlFlow := Exit;
          return Idle;
        case Resized(_) =>
          recreateSwapchain := true;
          return Idle;
        case OtherEvent =>
          return Idle;
        case RedrawEventsCleared =>
          r := Redraw(d);
      }
    }

    /** The `RedrawEventsCleared` arm of the closure. */
    method Redraw(d: Driver) returns (r: StepResult)
      modifies this
      ensures Transition(State(), r) == FrameLoop.Redraw(old(State()), d)
      ensures old(Valid()) && !r.Fatal? ==> Valid()
    {
      ghost var s0 := State();
      if recreateSwapchain {
        var rr := RecreateSwapchain(d.recreate);
        if rr.Fatal? {
          return rr;
        }
      }
      assert State() == RecreateIfFlagged(s0, d).state;
      var imageNum: nat;
      match d.acquire {
        case AcquireOutOfDate =>
          recreateSwapchain := true;
          return Idle;
        case AcquireError =>
          return Fatal(AcquireFailed);
        case Acquired(num, suboptimal) =>
          imageNum := num;
          if suboptimal {
            recreateSwapchain := true;
          }
      }
      if d.record == BuilderError {
        return Fatal(CommandBufferFailed);
      }
      if imageNum >= |framebuffers| {
        return Fatal(FramebufferIndexOutOfRange);
      }
      if d.record == RecordError {
        return Fatal(CommandBufferFailed);
      }
      var sub := Submission(imageNum, framebuffers[imageNum], viewport, |vertexBuffer|, 1);
      match d.flush {
        case Flushed(f) =>
          previousFrameEnd := Pending(f);
        case FlushOutOfDate =>
          recreateSwapchain := true;
          previousFrameEnd := Now;
        case FlushError =>
          previousFrameEnd := Now;
      }
      return Drawn(sub);
    }
  }
}
