/**
 * What the event closure promises, stated over the pure state machine of
 * module FrameLoop: single events first, then whole runs of events.
 */
module FrameLoopProperties {
  import opened Wrappers
  import opened FrameLoop

  // ---------------------------------------------------------------- events

  /** The events other than a redraw touch one field at most: a close
      request the control flow, a resize the flag (the size it carries is not
      used; the recreation later reads the window's size at that time), and
      anything else nothing. */
  lemma NonRedrawEvents(s: LoopState, size: Extent, d: Driver)
    ensures Step(s, CloseRequested, d) == Transition(s.(controlFlow := Exit), Idle)
    ensures Step(s, Resized(size), d) == Transition(s.(recreateSwapchain := true), Idle)
    ensures Step(s, OtherEvent, d) == Transition(s, Idle)
  {
  }

  /** Any number of resizes in a row have the effect of one. */
  lemma ResizedIdempotent(s: LoopState, a: Extent, b: Extent, d1: Driver, d2: Driver)
    ensures Step(Step(s, Resized(a), d1).state, Resized(b), d2) == Step(s, Resized(b), d2)
  {
  }

  /** A resize followed by a redraw whose recreation succeeds and whose
      acquire and flush report nothing out of date: the flag ends cleared,
      the new swapchain is live, and the frame is drawn with its images. */
  lemma ResizeThenRecreation(s: LoopState, size: Extent, d: Driver, sc: SwapchainId, images: seq<Image>, i: nat, f: FutureId)
    requires d.recreate == Recreated(sc, images) && i < |images|
    requires d.acquire == Acquired(i, false) && d.record == Recorded && d.flush == Flushed(f)
    ensures var r := RunFrom(s, [Input(Resized(size), d), Input(RedrawEventsCleared, d)]);
      r.panic.None? &&
      !r.state.recreateSwapchain &&
      r.state.swapchain == sc &&
      r.state.framebuffers == FramebuffersFor(images) &&
      r.state.previousFrameEnd == Pending(f) &&
      |r.submissions| == 1 &&
      r.submissions[0].framebuffer == Framebuffer(images[i]) &&
      r.submissions[0].viewport == ViewportFor(images)
  {
    var inputs := [Input(Resized(size), d), Input(RedrawEventsCleared, d)];
    var s1 := s.(recreateSwapchain := true);
    var t := Step(s1, RedrawEventsCleared, d);
    assert t.result.Drawn?;
    assert inputs[1..][1..] == [];
    assert RunFrom(s1, inputs[1..]) == Run(t.state, [t.result.submission], None);
  }

  // ------------------------------------------------------------ recreation

  /** `recreate_swapchain`: unsupported dimensions return early with the state
      untouched, so the flag stays set; any other error is fatal; a success
      replaces the swapchain, rebuilds the framebuffers and the viewport from
      the new images and clears the flag. */
  lemma RecreateOutcomes(s: LoopState, outcome: RecreateOutcome)
    ensures outcome == UnsupportedDimensions ==> Recreate(s, outcome) == Transition(s, Idle)
    ensures outcome == RecreateError ==> Recreate(s, outcome) == Transition(s, Fatal(RecreateFailed))
    ensures outcome.Recreated? && |outcome.images| > 0 ==>
      var t := Recreate(s, outcome);
      t.result == Idle &&
      t.state.swapchain == outcome.swapchain &&
      t.state.swapchainImages == outcome.images &&
      SizeDependentStateMatches(t.state) &&
      !t.state.recreateSwapchain &&
      t.state.previousFrameEnd == s.previousFrameEnd &&
      t.state.controlFlow == s.controlFlow
    ensures outcome.Recreated? && |outcome.images| == 0 ==>
      Recreate(s, outcome).result == Fatal(NoSwapchainImages)
  {
  }

  /** A set flag with unsupported dimensions: the redraw keeps the old
      swapchain, framebuffers and viewport, and the flag is still set when the
      step ends, so recreation is tried again on the next redraw. */
  lemma UnsupportedDimensionsRetried(s: LoopState, d: Driver)
    requires s.recreateSwapchain && d.recreate == UnsupportedDimensions
    ensures var t := Step(s, RedrawEventsCleared, d);
      t.state.recreateSwapchain &&
      t.state.swapchain == s.swapchain &&
      t.state.swapchainImages == s.swapchainImages &&
      t.state.framebuffers == s.framebuffers &&
      t.state.viewport == s.viewport
  {
  }

  /** After a completed recreation the frame drawn in the same redraw uses
      the new images: when the library built them at the window's size, the
      viewport and the framebuffer have exactly that size. */
  lemma RecreatedSizeReachesFrame(s: LoopState, d: Driver)
    requires s.recreateSwapchain
    requires d.recreate.Recreated? && |d.recreate.images| > 0
    requires forall i :: 0 <= i < |d.recreate.images| ==> d.recreate.images[i].dimensions == d.windowSize
    requires d.acquire.Acquired? && d.acquire.imageNum < |d.recreate.images|
    requires d.record == Recorded
    ensures var t := Step(s, RedrawEventsCleared, d);
      t.result.Drawn? &&
      t.result.submission.viewport.dimensions == d.windowSize &&
      t.result.submission.framebuffer.attachment == d.recreate.images[d.acquire.imageNum] &&
      t.result.submission.framebuffer.attachment.dimensions == d.windowSize
  {
  }

  // ----------------------------------------------------------- acquisition

  /** An out-of-date image raises the flag and ends the tick: nothing is
      submitted and the in-flight future is kept. */
  lemma AcquireOutOfDateSkipsFrame(s: LoopState, d: Driver)
    requires !RecreateIfFlagged(s, d).result.Fatal?
    requires d.acquire == AcquireOutOfDate
    ensures var t := Step(s, RedrawEventsCleared, d);
      t.result == Idle &&
      t.state == RecreateIfFlagged(s, d).state.(recreateSwapchain := true) &&
      t.state.previousFrameEnd == s.previousFrameEnd
  {
  }

  /** A suboptimal image raises the flag and the frame is still drawn. */
  lemma SuboptimalStillDraws(s: LoopState, d: Driver)
    requires !RecreateIfFlagged(s, d).result.Fatal?
    requires d.acquire.Acquired? && d.acquire.suboptimal
    requires d.acquire.imageNum < |RecreateIfFlagged(s, d).state.framebuffers|
    requires d.record == Recorded
    ensures var t := Step(s, RedrawEventsCleared, d);
      t.result.Drawn? && t.state.recreateSwapchain
  {
  }

  // ------------------------------------------------------------------ flush

  /** `then_signal_fence_and_flush`: success stores the new future; out of
      date raises the flag and resets the future to `now`; any other error
      only resets the future, leaving the flag as the acquisition left it. */
  lemma FlushOutcomes(s: LoopState, d: Driver, f: FutureId)
    requires Redraw(s, d.(flush := Flushed(f))).result.Drawn?
    ensures var ok := Redraw(s, d.(flush := Flushed(f)));
      ok.state.previousFrameEnd == Pending(f) &&
      Redraw(s, d.(flush := FlushOutOfDate)) ==
        Transition(ok.state.(recreateSwapchain := true, previousFrameEnd := Now), ok.result) &&
      Redraw(s, d.(flush := FlushError)) ==
        Transition(ok.state.(previousFrameEnd := Now), ok.result)
  {
  }

  // ------------------------------------------------------------- the frame

  /** A drawn frame is the redraw of an acquired image: its command buffer
      renders into that image's framebuffer with the current viewport, and
      draws every vertex of the buffer once. */
  lemma DrawnFrameUsesCurrentSetup(s: LoopState, e: Event, d: Driver)
    requires Step(s, e, d).result.Drawn?
    ensures var t := Step(s, e, d);
      var sub := t.result.submission;
      e == RedrawEventsCleared &&
      d.acquire.Acquired? && sub.imageNum == d.acquire.imageNum &&
      sub.imageNum < |t.state.framebuffers| &&
      sub.framebuffer == t.state.framebuffers[sub.imageNum] &&
      sub.viewport == t.state.viewport &&
      sub.vertexCount == |t.state.vertexBuffer| && sub.instanceCount == 1
  {
  }

  /** The panics of one event, exactly. */
  lemma FatalIff(s: LoopState, e: Event, d: Driver)
    ensures var r := RecreateIfFlagged(s, d);
      Step(s, e, d).result.Fatal? <==>
      e == RedrawEventsCleared &&
      (r.result.Fatal? ||
       d.acquire == AcquireError ||
       (d.acquire.Acquired? &&
        (d.record != Recorded || d.acquire.imageNum >= |r.state.framebuffers|)))
  {
  }

  /** A step that does not panic keeps the framebuffers and the viewport in
      step with the live swapchain's images. */
  lemma StepKeepsSizeDependentState(s: LoopState, e: Event, d: Driver)
    requires SizeDependentStateMatches(s)
    requires !Step(s, e, d).result.Fatal?
    ensures SizeDependentStateMatches(Step(s, e, d).state)
  {
  }

  /** With the framebuffers in step, the framebuffer lookup panics exactly
      when the acquired index is not one of the swapchain's images, and a
      drawn frame renders into the acquired image. */
  lemma FramebufferOfAcquiredImage(s: LoopState, d: Driver)
    requires SizeDependentStateMatches(s)
    requires !RecreateIfFlagged(s, d).result.Fatal?
    requires d.acquire.Acquired? && d.record == Recorded
    ensures var imgs := RecreateIfFlagged(s, d).state.swapchainImages;
      var t := Step(s, RedrawEventsCleared, d);
      (t.result == Fatal(FramebufferIndexOutOfRange) <==> d.acquire.imageNum >= |imgs|) &&
      (t.result.Drawn? ==> t.result.submission.framebuffer.attachment == imgs[d.acquire.imageNum])
  {
  }

  // ------------------------------------------------------------------- runs

  /** No event changes the vertex buffer. */
  lemma StepKeepsVertexBuffer(s: LoopState, e: Event, d: Driver)
    ensures Step(s, e, d).state.vertexBuffer == s.vertexBuffer
  {
  }

  /** Every frame of a run draws the whole vertex buffer the run started
      with, once; and the run ends with that same buffer. */
  lemma {:induction false} RunKeepsVertexBuffer(s: LoopState, inputs: seq<Input>)
    ensures RunFrom(s, inputs).state.vertexBuffer == s.vertexBuffer
    ensures forall k :: 0 <= k < |RunFrom(s, inputs).submissions| ==>
      RunFrom(s, inputs).submissions[k].vertexCount == |s.vertexBuffer| &&
      RunFrom(s, inputs).submissions[k].instanceCount == 1
    decreases |inputs|
  {
    if |inputs| > 0 {
      var t := Step(s, inputs[0].event, inputs[0].driver);
      StepKeepsVertexBuffer(s, inputs[0].event, inputs[0].driver);
      RunKeepsVertexBuffer(t.state, inputs[1..]);
      if t.result.Drawn? {
        DrawnFrameUsesCurrentSetup(s, inputs[0].event, inputs[0].driver);
      }
    }
  }

  /** From the state `setup` builds, whose buffer holds the triangle, every
      frame of a run draws 3 vertices, 1 instance. */
  lemma RunDrawsTriangle(s: LoopState, inputs: seq<Input>)
    requires s.vertexBuffer == TriangleVertices
    ensures forall k :: 0 <= k < |RunFrom(s, inputs).submissions| ==>
      RunFrom(s, inputs).submissions[k].vertexCount == 3 &&
      RunFrom(s, inputs).submissions[k].instanceCount == 1
  {
    RunKeepsVertexBuffer(s, inputs);
  }

  /** A run that does not panic ends with the framebuffers and the viewport
      still built from the live swapchain's images. */
  lemma {:induction false} RunKeepsSizeDependentState(s: LoopState, inputs: seq<Input>)
    requires SizeDependentStateMatches(s)
    requires RunFrom(s, inputs).panic.None?
    ensures SizeDependentStateMatches(RunFrom(s, inputs).state)
    decreases |inputs|
  {
    if |inputs| > 0 {
      var t := Step(s, inputs[0].event, inputs[0].driver);
      StepKeepsSizeDependentState(s, inputs[0].event, inputs[0].driver);
      RunKeepsSizeDependentState(t.state, inputs[1..]);
    }
  }

  /** The redraw of this input asks for a recreation that the library grants. */
  predicate GrantsRecreation(input: Input) {
    input.event == RedrawEventsCleared && input.driver.recreate.Recreated?
  }

  /** Once raised, the flag stays raised until a redraw whose recreation
      succeeds: nothing else clears it. */
  lemma {:induction false} FlagClearedOnlyByRecreation(s: LoopState, inputs: seq<Input>)
    requires s.recreateSwapchain
    requires !RunFrom(s, inputs).state.recreateSwapchain
    ensures exists k :: 0 <= k < |inputs| && GrantsRecreation(inputs[k])
    decreases |inputs|
  {
    var t := Step(s, inputs[0].event, inputs[0].driver);
    if GrantsRecreation(inputs[0]) {
    } else {
      assert t.state.recreateSwapchain;
      FlagClearedOnlyByRecreation(t.state, inputs[1..]);
      var k :| 0 <= k < |inputs| - 1 && GrantsRecreation(inputs[1..][k]);
      assert GrantsRecreation(inputs[k + 1]);
    }
  }

  /** Once a close request has been handled the control flow stays `Exit`:
      no later event resets it. */
  lemma {:induction false} ExitIsPermanent(s: LoopState, inputs: seq<Input>)
    requires s.controlFlow == Exit
    ensures RunFrom(s, inputs).state.controlFlow == Exit
    decreases |inputs|
  {
    if |inputs| > 0 {
      var t := Step(s, inputs[0].event, inputs[0].driver);
      assert t.state.controlFlow == Exit;
      ExitIsPermanent(t.state, inputs[1..]);
    }
  }
}
