/**
 * The OpenGL ES 2.0 renderer: binds to at most one decoder, drains the
 * decoder's output queue once per render cycle keeping only the newest frame,
 * draws it (video plane, then HUD), reports latencies and releases it.
 *
 * GL calls are not modelled. The buffer releases, the queue removal, the calls
 * into the video and HUD renderers and the idle sleep are recorded in a ghost
 * trace; the results of the video and HUD renderers, the clock and the
 * session's position and duration are parameters of a render cycle.
 */
module Gles2 {
  import opened Wrappers
  import opened FrameTiming
  import opened ColorConversion
  import opened Decoder
  import opened FrameDrain

  /** The arguments the video plane renderer receives besides the frame's planes. */
  datatype VideoCall = VideoCall(frame: Buffer, conversion: Conversion, renderWidth: int, renderHeight: int)

  /** One call from the renderer into a collaborator. */
  datatype Event =
    | Released(frame: Buffer, code: int)  // releaseOutputBuffer(frame) returned code
    | VideoRendered(call: VideoCall)      // Gles2Video::renderFrame
    | HudRendered(hudFrame: Buffer)       // Gles2Hud::renderHud
    | QueueRemoved(queue: BufferQueue, removeCode: int)  // removeOutputQueue(queue) returned removeCode
    | Slept                               // the 5 ms idle sleep

  /** The buffers released in a stretch of the trace, in order. */
  function FramesReleased(s: seq<Event>): seq<Buffer>
  {
    if s == [] then []
    else (if s[0].Released? then [s[0].frame] else []) + FramesReleased(s[1..])
  }

  lemma {:induction false} FramesReleasedAppend(s: seq<Event>, t: seq<Event>)
    ensures FramesReleased(s + t) == FramesReleased(s) + FramesReleased(t)
  {
    if s != [] {
      var head := if s[0].Released? then [s[0].frame] else [];
      assert (s + t)[0] == s[0];
      assert (s + t)[1..] == s[1..] + t;
      FramesReleasedAppend(s[1..], t);
      calc {
        FramesReleased(s + t);
        head + FramesReleased(s[1..] + t);
        head + (FramesReleased(s[1..]) + FramesReleased(t));
        (head + FramesReleased(s[1..])) + FramesReleased(t);
      }
    } else {
      assert s + t == t;
    }
  }

  /** Whether an event hands `frame` to the video or the HUD renderer. */
  predicate Draws(e: Event, frame: Buffer)
  {
    (e.VideoRendered? && e.call.frame == frame) || (e.HudRendered? && e.hudFrame == frame)
  }

  /** No buffer other than `frame` is passed to the video or HUD renderer in a
      stretch of the trace. */
  predicate DrawsOnly(s: seq<Event>, frame: Buffer)
  {
    forall i :: 0 <= i < |s| && (s[i].VideoRendered? || s[i].HudRendered?) ==> Draws(s[i], frame)
  }

  predicate AllReleases(s: seq<Event>)
  {
    forall i :: 0 <= i < |s| ==> s[i].Released?
  }

  /** Drawing happens only for a frame with metadata and a non-empty render region. */
  predicate DrawGate(frame: Buffer, renderWidth: int, renderHeight: int)
  {
    frame.metadata.Some? && renderWidth != 0 && renderHeight != 0
  }

  /** What drawing the retained frame does: the video renderer call, whether the
      HUD renderer is called and whether the latency line is produced. */
  datatype Presentation = Presentation(video: Option<VideoCall>, hud: bool, reported: bool)

  /** Drawing the retained frame, with the return code threaded through the
      video and HUD renderers as in the render cycle; a missing sub-renderer is
      skipped and leaves the code at 0. The HUD renderer exists only if the video
      renderer does, so the HUD is drawn only after a successful video draw. */
  function Present(frame: Buffer, renderWidth: int, renderHeight: int, hasVideo: bool, hasHud: bool,
                   videoRet: int, hudRet: int): (p: Presentation)
    requires hasHud ==> hasVideo
    ensures p.video.Some? <==> DrawGate(frame, renderWidth, renderHeight) && hasVideo
    ensures p.video.Some? ==>
      p.video.value == VideoCall(frame, ConversionFor(frame.metadata.value.colorFormat), renderWidth, renderHeight)
    ensures p.hud <==> DrawGate(frame, renderWidth, renderHeight) && hasHud && videoRet == 0
    ensures p.hud ==> p.video.Some? && videoRet == 0
    ensures p.reported <==>
      DrawGate(frame, renderWidth, renderHeight) && (!hasVideo || videoRet == 0) && (!hasHud || hudRet == 0)
  {
    if !DrawGate(frame, renderWidth, renderHeight) then Presentation(None, false, false)
    else
      var data := frame.metadata.value;
      var video := if hasVideo then Some(VideoCall(frame, ConversionFor(data.colorFormat), renderWidth, renderHeight)) else None;
      var afterVideo := if hasVideo then videoRet else 0;
      var hud := afterVideo == 0 && hasHud;
      var afterHud := if hud then hudRet else afterVideo;
      Presentation(video, hud, afterHud == 0)
  }

  /** The trace that drawing a frame leaves. */
  function DrawEvents(p: Presentation, frame: Buffer): seq<Event>
  {
    (if p.video.Some? then [VideoRendered(p.video.value)] else [])
    + (if p.hud then [HudRendered(frame)] else [])
  }

  /** Drawing a frame releases nothing. */
  lemma {:induction false} DrawEventsReleaseNothing(p: Presentation, frame: Buffer)
    ensures FramesReleased(DrawEvents(p, frame)) == []
  {
    var s := DrawEvents(p, frame);
    if p.video.Some? && p.hud {
      assert s[1..] == [HudRendered(frame)] && s[1..][1..] == [];
      assert FramesReleased(s[1..]) == [];
      assert FramesReleased(s) == FramesReleased(s[1..]);
    } else if s != [] {
      assert |s| == 1 && !s[0].Released? && s[1..] == [];
    }
  }

  /** Drawing a frame hands no other buffer to a renderer. */
  lemma {:induction false} DrawEventsDrawOnly(p: Presentation, frame: Buffer)
    requires p.video.Some? ==> p.video.value.frame == frame
    ensures DrawsOnly(DrawEvents(p, frame), frame)
  {
  }

  /** The trace of a render cycle that dequeued the non-empty `pending`: first
      the releases of every buffer but the newest, as the reference drain issues
      them, then the newest buffer's draw events, then its release returning
      `ret`. So the cycle releases exactly the dequeued buffers, in order, and
      draws nothing but the newest. */
  ghost predicate ServedCycle(cycle: seq<Event>, pending: seq<Buffer>, p: Presentation, ret: int)
    requires pending != []
  {
    var n := |pending|;
    var latest := pending[n - 1];
    |cycle| == n + |DrawEvents(p, latest)| &&
    AllReleases(cycle[..n - 1]) && FramesReleased(cycle[..n - 1]) == Drain(None, pending).released &&
    cycle[n - 1..|cycle| - 1] == DrawEvents(p, latest) &&
    cycle[|cycle| - 1] == Released(latest, ret) &&
    FramesReleased(cycle) == pending &&
    DrawsOnly(cycle, latest)
  }

  /** A cycle that found exactly one queued frame is that frame's draw events
      followed by its release. */
  lemma {:induction false} SingleFrameCycle(cycle: seq<Event>, frame: Buffer, p: Presentation, ret: int)
    requires ServedCycle(cycle, [frame], p, ret)
    ensures cycle == DrawEvents(p, frame) + [Released(frame, ret)]
  {
    assert cycle[0..|cycle| - 1] == DrawEvents(p, frame);
    assert cycle == cycle[0..|cycle| - 1] + [cycle[|cycle| - 1]];
  }

  class Gles2Renderer {
    var windowWidth: int
    var windowHeight: int
    var renderX: int
    var renderY: int
    var renderWidth: int
    var renderHeight: int
    var decoder: AvcDecoder?
    var outputQueue: BufferQueue?
    /** Whether the video plane renderer and the HUD renderer were created; the
        HUD renderer is attempted only once the video renderer exists. */
    const hasVideo: bool
    const hasHud: bool
    /** The calls made into collaborators, oldest first. */
    ghost var trace: seq<Event>

    /** The attachment invariant: a decoder is bound exactly when its queue is.
        And a HUD renderer never exists without a video renderer. */
    ghost predicate Valid()
      reads this
    {
      (decoder == null) == (outputQueue == null) &&
      (hasHud ==> hasVideo)
    }

    /** A render cycle can drain only with a bound, configured decoder. */
    predicate Active()
      reads this, decoder
    {
      decoder != null && decoder.configured
    }

    /** `videoAllocated` and `hudAllocated` say whether allocating each
        sub-renderer would succeed. The HUD renderer is allocated only if the
        video renderer was. */
    constructor (videoAllocated: bool, hudAllocated: bool)
      ensures Valid() && decoder == null && outputQueue == null
      ensures windowWidth == windowHeight == renderX == renderY == renderWidth == renderHeight == 0
      ensures hasVideo == videoAllocated && hasHud == (videoAllocated && hudAllocated) && trace == []
    {
      windowWidth, windowHeight := 0, 0;
      renderX, renderY, renderWidth, renderHeight := 0, 0, 0, 0;
      decoder, outputQueue := null, null;
      var ret := 0;
      hasVideo := false;
      if ret == 0 {
        hasVideo := videoAllocated;
        if !videoAllocated {
          ret := -1;
        }
      }
      hasHud := false;
      if ret == 0 {
        hasHud := hudAllocated;
        if !hudAllocated {
          ret := -1;
        }
      }
      trace := [];
    }

    /** Binds a decoder and the output queue it creates. A null decoder, a second
        decoder and a decoder that cannot add a queue are refused with -1, and a
        refusal leaves the attachment as it was. */
    method AddAvcDecoder(d: AvcDecoder?) returns (ret: int)
      requires Valid()
      modifies this`decoder, this`outputQueue
      ensures Valid()
      ensures ret == 0 || ret == -1
      ensures ret == 0 <==> d != null && old(decoder) == null && outputQueue != null
      ensures ret == 0 ==> decoder == d && fresh(outputQueue) && outputQueue.pending == []
      ensures ret != 0 ==> decoder == old(decoder) && outputQueue == old(outputQueue)
    {
      if d == null {
        return -1;
      }
      if decoder != null {
        return -1;
      }
      outputQueue := d.AddOutputQueue();
      if outputQueue == null {
        return -1;
      }
      decoder := d;
      return 0;
    }

    /** Unbinds the attached decoder. A null decoder or one other than the bound
        decoder is refused with -1 and nothing changes; otherwise the queue is
        handed back and the attachment is cleared whatever the decoder answers. */
    method RemoveAvcDecoder(d: AvcDecoder?) returns (ret: int)
      requires Valid()
      modifies this`decoder, this`outputQueue, this`trace
      ensures Valid()
      ensures ret == 0 <==> d != null && d == old(decoder)
      ensures ret == 0 ==> decoder == null && outputQueue == null
      ensures ret == 0 ==>
        |trace| == |old(trace)| + 1 && trace[..|old(trace)|] == old(trace) &&
        trace[|old(trace)|].QueueRemoved? && trace[|old(trace)|].queue == old(outputQueue)
      ensures ret != 0 ==> ret == -1 && decoder == old(decoder) && outputQueue == old(outputQueue)
      ensures ret != 0 ==> trace == old(trace)
    {
      if d == null {
        return -1;
      }
      if d != decoder {
        return -1;
      }
      if outputQueue != null {
        var removeRet := d.RemoveOutputQueue(outputQueue);
        // a failure here is only logged
        trace := trace + [QueueRemoved(outputQueue, removeRet)];
      }
      decoder := null;
      outputQueue := null;
      return 0;
    }

    /** Stores the window size and the render region; the GL state set up here is
        not modelled. */
    method SetRendererParams(windowWidth: int, windowHeight: int, renderX: int, renderY: int,
                             renderWidth: int, renderHeight: int) returns (ret: int)
      modifies this`windowWidth, this`windowHeight, this`renderX, this`renderY, this`renderWidth, this`renderHeight
      ensures ret == 0
      ensures this.windowWidth == windowWidth && this.windowHeight == windowHeight
      ensures this.renderX == renderX && this.renderY == renderY
      ensures this.renderWidth == renderWidth && this.renderHeight == renderHeight
    {
      this.windowWidth, this.windowHeight := windowWidth, windowHeight;
      this.renderX, this.renderY := renderX, renderY;
      this.renderWidth, this.renderHeight := renderWidth, renderHeight;
      ret := 0;
    }

    /** The drain loop of a render cycle: dequeues until the queue reports a
        failure, releasing the previously retained buffer each time a newer one
        arrives, and returns the buffer retained at the end. */
    method DrainOutputQueue() returns (buffer: Option<Buffer>, ghost cycle: seq<Event>)
      requires Valid() && decoder != null
      modifies this`trace, outputQueue
      ensures outputQueue.pending == [] && outputQueue.endStatus == old(outputQueue.endStatus)
      ensures buffer == Drain(None, old(outputQueue.pending)).retained
      ensures trace == old(trace) + cycle
      ensures AllReleases(cycle)
      ensures FramesReleased(cycle) == Drain(None, old(outputQueue.pending)).released
    {
      ghost var pending, status, start := outputQueue.pending, outputQueue.endStatus, trace;
      cycle := [];
      ghost var k := 0;
      buffer := None;
      var prevBuffer: Option<Buffer> := None;
      var dequeueRet: int;
      while true
        invariant k <= |pending| && outputQueue.pending == pending[k..]
        invariant outputQueue.endStatus == status
        invariant buffer == prevBuffer
        invariant trace == start + cycle && AllReleases(cycle)
        invariant DrainInvariant(pending, k, prevBuffer, FramesReleased(cycle))
        decreases |outputQueue.pending|
      {
        dequeueRet, buffer := decoder.DequeueOutputBuffer(outputQueue, buffer);
        if dequeueRet != 0 {
          // DEQUEUE_EMPTY, or another failure that is only logged
          break;
        }
        DrainInvariantStep(pending, k, prevBuffer, FramesReleased(cycle));
        if prevBuffer.Some? {
          var releaseRet := decoder.ReleaseOutputBuffer(prevBuffer.value);
          // a failure here is only logged
          ReleaseStep(cycle, prevBuffer.value, releaseRet);
          cycle := cycle + [Released(prevBuffer.value, releaseRet)];
          trace := trace + [Released(prevBuffer.value, releaseRet)];
        }
        prevBuffer := buffer;
        k := k + 1;
      }
    }

    /** Drawing the retained frame: the video plane renderer if the frame has
        metadata and the render region is not empty, then the HUD renderer if
        the video renderer succeeded, then the latency report if both did. */
    method DrawFrame(frame: Buffer, now: Timespec, currentTime: uint64, duration: uint64, videoRet: int, hudRet: int)
      returns (report: Option<LatencyReport>)
      requires Valid()
      modifies this`trace
      ensures var p := Present(frame, renderWidth, renderHeight, hasVideo, hasHud, videoRet, hudRet);
        trace == old(trace) + DrawEvents(p, frame) &&
        report == (if p.reported
                   then Some(Report(frame.metadata.value.demuxOutputTimestamp,
                                    frame.metadata.value.decoderOutputTimestamp,
                                    frame.metadata.value.auNtpTimestampLocal,
                                    RenderTimestamp(now), currentTime, duration))
                   else None)
    {
      report := None;
      var ret := 0;
      if frame.metadata.Some? && renderWidth != 0 && renderHeight != 0 {
        var data := frame.metadata.value;
        if ret == 0 {
          if hasVideo {
            var conversion := ConversionFor(data.colorFormat);
            trace := trace + [VideoRendered(VideoCall(frame, conversion, renderWidth, renderHeight))];
            ret := videoRet;
          }
        }
        if ret == 0 {
          if hasHud {
            trace := trace + [HudRendered(frame)];
            ret := hudRet;
          }
        }
        if ret == 0 {
          var renderTimestamp := RenderTimestamp(now);
          report := Some(Report(data.demuxOutputTimestamp, data.decoderOutputTimestamp,
                                data.auNtpTimestampLocal, renderTimestamp, currentTime, duration));
        }
      }
    }

    /** One render cycle. Without a configured decoder it only sleeps. Otherwise
        it drains the queue, sleeps if it got no buffer, and otherwise draws the
        newest buffer when the gate allows and releases it, returning that
        release's code. Every dequeued buffer is released exactly once, in
        dequeue order, and only the newest can reach the renderers. */
    method Render(timeout: int, now: Timespec, currentTime: uint64, duration: uint64, videoRet: int, hudRet: int)
      returns (ret: int, report: Option<LatencyReport>)
      requires Valid()
      modifies this`trace, outputQueue
      ensures Valid()
      ensures |old(trace)| <= |trace| && trace[..|old(trace)|] == old(trace)
      ensures outputQueue != null ==> outputQueue.endStatus == old(outputQueue.endStatus)
      ensures !old(Active()) ==>
        ret == 0 && report == None && trace == old(trace) + [Slept] &&
        (outputQueue != null ==> outputQueue.pending == old(outputQueue.pending))
      ensures old(Active()) ==>
        outputQueue.pending == [] &&
        FramesReleased(trace[|old(trace)|..]) == old(outputQueue.pending)
      ensures old(Active()) && old(outputQueue.pending) == [] ==>
        ret == 0 && report == None && trace == old(trace) + [Slept]
      ensures old(Active()) && old(outputQueue.pending) != [] ==>
        var pending := old(outputQueue.pending);
        var latest := pending[|pending| - 1];
        var p := Present(latest, renderWidth, renderHeight, hasVideo, hasHud, videoRet, hudRet);
        Drain(None, pending).retained == Some(latest) &&
        ServedCycle(trace[|old(trace)|..], pending, p, ret) &&
        report == (if p.reported
                   then Some(Report(latest.metadata.value.demuxOutputTimestamp,
                                    latest.metadata.value.decoderOutputTimestamp,
                                    latest.metadata.value.auNtpTimestampLocal,
                                    RenderTimestamp(now), currentTime, duration))
                   else None)
    {
      ret, report := 0, None;
      var configured := false;
      if decoder != null {
        configured := decoder.IsConfigured();
      }
      if !configured {
        trace := trace + [Slept];
        return;
      }

      ghost var pending := outputQueue.pending;
      ghost var before := trace;
      ghost var drained;
      var buffer;
      buffer, drained := DrainOutputQueue();
      DrainKeepsLatest(None, pending);

      if buffer.None? {
        // the queue was empty or failed: sleep
        trace := trace + [Slept];
        AllReleasesLength(drained);
        assert pending == [] && drained == [];
        AppendSlices(before, [Slept]);
        assert FramesReleased([Slept]) == [] by {
          assert [Slept][1..] == [];
        }
      }

      if buffer.Some? && ret == 0 {
        var frame := buffer.value;
        ghost var p := Present(frame, renderWidth, renderHeight, hasVideo, hasHud, videoRet, hudRet);
        report := DrawFrame(frame, now, currentTime, duration, videoRet, hudRet);
        ghost var drawn := trace;
        ret := decoder.ReleaseOutputBuffer(frame);
        trace := drawn + [Released(frame, ret)];

        ghost var cycle := drained + DrawEvents(p, frame) + [Released(frame, ret)];
        AppendThree(before, drained, DrawEvents(p, frame), Released(frame, ret));
        AppendSlices(before, cycle);
        CycleFacts(pending, drained, p, frame, ret);
        assert trace[|before|..] == cycle && FramesReleased(cycle) == pending;
      }
    }
  }

  lemma {:induction false} AppendThree<T>(a: seq<T>, b: seq<T>, c: seq<T>, x: T)
    ensures a + b + c + [x] == a + (b + c + [x])
  {
  }

  lemma {:induction false} AppendSlices<T>(a: seq<T>, b: seq<T>)
    ensures (a + b)[..|a|] == a && (a + b)[|a|..] == b
  {
  }

  /** The drain loop's invariant: after k dequeues with `prev` retained and
      `releasedSoFar` released, finishing the drain gives the reference result. */
  ghost predicate DrainInvariant(pending: seq<Buffer>, k: nat, prev: Option<Buffer>, releasedSoFar: seq<Buffer>)
  {
    k <= |pending| &&
    Drain(None, pending).released == releasedSoFar + Drain(prev, pending[k..]).released &&
    Drain(None, pending).retained == Drain(prev, pending[k..]).retained
  }

  /** One successful dequeue preserves the drain loop's invariant. */
  lemma {:induction false} DrainInvariantStep(pending: seq<Buffer>, k: nat, prev: Option<Buffer>, releasedSoFar: seq<Buffer>)
    requires DrainInvariant(pending, k, prev, releasedSoFar) && k < |pending|
    ensures DrainInvariant(pending, k + 1, Some(pending[k]), releasedSoFar + OptionToSeq(prev))
  {
    assert pending[k..][0] == pending[k];
    assert pending[k..][1..] == pending[k + 1..];
  }

  /** Appending a release keeps the trace all releases and extends its frames. */
  lemma {:induction false} ReleaseStep(cycle: seq<Event>, frame: Buffer, code: int)
    requires AllReleases(cycle)
    ensures AllReleases(cycle + [Released(frame, code)])
    ensures FramesReleased(cycle + [Released(frame, code)]) == FramesReleased(cycle) + [frame]
  {
    FramesReleasedAppend(cycle, [Released(frame, code)]);
  }

  lemma {:induction false} AllReleasesLength(s: seq<Event>)
    requires AllReleases(s)
    ensures |FramesReleased(s)| == |s|
  {
    if s != [] {
      AllReleasesLength(s[1..]);
    }
  }

  /** The shape of a render cycle that obtained a buffer: the drain releases,
      the draw events of the newest buffer and its final release. */
  lemma {:induction false} CycleFacts(pending: seq<Buffer>, drained: seq<Event>, p: Presentation, latest: Buffer, code: int)
    requires pending != [] && latest == pending[|pending| - 1]
    requires AllReleases(drained) && FramesReleased(drained) == Drain(None, pending).released
    requires p.video.Some? ==> p.video.value.frame == latest
    ensures Drain(None, pending).retained == Some(latest)
    ensures ServedCycle(drained + DrawEvents(p, latest) + [Released(latest, code)], pending, p, code)
  {
    DrainKeepsLatest(None, pending);
    AllReleasesLength(drained);
    CycleShape(drained, DrawEvents(p, latest), Released(latest, code));
    CycleReleases(pending, drained, p, latest, code);
    DrawEventsDrawOnly(p, latest);
    DrawsOnlyOfCycle(drained, DrawEvents(p, latest), Released(latest, code), latest);
  }

  lemma {:induction false} CycleShape(drained: seq<Event>, draws: seq<Event>, release: Event)
    ensures var cycle := drained + draws + [release];
      |cycle| == |drained| + |draws| + 1 &&
      cycle[..|drained|] == drained &&
      cycle[|drained|..|cycle| - 1] == draws &&
      cycle[|cycle| - 1] == release
  {
    var cycle := drained + draws + [release];
    assert cycle[..|drained|] == drained;
    assert cycle[|drained|..|cycle| - 1] == draws;
  }

  lemma {:induction false} CycleReleases(pending: seq<Buffer>, drained: seq<Event>, p: Presentation, latest: Buffer, code: int)
    requires pending != [] && latest == pending[|pending| - 1]
    requires FramesReleased(drained) == Drain(None, pending).released
    ensures FramesReleased(drained + DrawEvents(p, latest) + [Released(latest, code)]) == pending
  {
    DrawEventsReleaseNothing(p, latest);
    ReleasesAroundDraws(drained, DrawEvents(p, latest), latest, code);
    DrainKeepsLatest(None, pending);
    DrainThenReleaseIsDequeueOrder(pending);
  }

  /** Draw events between the drain releases and the final release add nothing
      to the released sequence. */
  lemma {:induction false} ReleasesAroundDraws(drained: seq<Event>, draws: seq<Event>, frame: Buffer, code: int)
    requires FramesReleased(draws) == []
    ensures FramesReleased(drained + draws + [Released(frame, code)]) == FramesReleased(drained) + [frame]
  {
    var release := [Released(frame, code)];
    FramesReleasedAppend(drained, draws);
    FramesReleasedAppend(drained + draws, release);
    assert FramesReleased(release) == [frame] by {
      assert release[1..] == [];
    }
  }

  /** A drain phase followed by a frame's draw events and its release draws
      nothing but that frame. */
  lemma {:induction false} DrawsOnlyOfCycle(drained: seq<Event>, draws: seq<Event>, release: Event, frame: Buffer)
    requires AllReleases(drained) && release.Released?
    requires DrawsOnly(draws, frame)
    ensures DrawsOnly(drained + draws + [release], frame)
  {
    var s := drained + draws + [release];
    forall i | 0 <= i < |s| && (s[i].VideoRendered? || s[i].HudRendered?)
      ensures Draws(s[i], frame)
    {
      assert |drained| <= i < |drained| + |draws| && s[i] == draws[i - |drained|];
    }
  }
}
