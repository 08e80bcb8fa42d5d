/**
 * Client scenarios of the renderer's documented behaviour, checked against the
 * contracts of Gles2Renderer alone.
 */
module Scenarios {
  import opened Wrappers
  import opened FrameTiming
  import opened Decoder
  import opened Gles2

  /** Attach exclusivity and the identity check of detach. */
  method AttachmentScenario(a: AvcDecoder, b: AvcDecoder)
    requires a != b
  {
    var renderer := new Gles2Renderer(true, true);
    var ret := renderer.RemoveAvcDecoder(a);
    assert ret == -1;
    ret := renderer.AddAvcDecoder(null);
    assert ret == -1 && renderer.decoder == null;
    ret := renderer.AddAvcDecoder(a);
    if ret == 0 {
      ret := renderer.AddAvcDecoder(b);
      assert ret == -1 && renderer.decoder == a;
      ret := renderer.RemoveAvcDecoder(b);
      assert ret == -1 && renderer.decoder == a;
      ret := renderer.RemoveAvcDecoder(a);
      assert ret == 0 && renderer.decoder == null && renderer.outputQueue == null;
    } else {
      assert renderer.decoder == null && renderer.outputQueue == null;
    }
  }

  /** Five frames queued before one cycle: only the fifth is drawn, and all
      five are released once each, in order, the fifth last. */
  method LatestWinsScenario(f1: Buffer, f2: Buffer, f3: Buffer, f4: Buffer, f5: Buffer)
  {
    var renderer := new Gles2Renderer(true, true);
    var ret := renderer.SetRendererParams(640, 480, 0, 0, 640, 480);
    var decoder := new AvcDecoder(true);
    ret := renderer.AddAvcDecoder(decoder);
    if ret == 0 {
      renderer.outputQueue.pending := [f1, f2, f3, f4, f5];
      var report;
      ret, report := renderer.Render(0, Timespec(1, 0), 0, 0, 0, 0);
      assert FramesReleased(renderer.trace) == [f1, f2, f3, f4, f5];
      assert DrawsOnly(renderer.trace, f5);
      assert renderer.trace[|renderer.trace| - 1] == Released(f5, ret);
      assert renderer.outputQueue.pending == [];
    }
  }

  /** A zero-width render region: the frame is not drawn but is released. */
  method SuppressedRegionScenario(f: Buffer)
  {
    var renderer := new Gles2Renderer(true, true);
    var ret := renderer.SetRendererParams(640, 480, 0, 0, 0, 480);
    var decoder := new AvcDecoder(true);
    ret := renderer.AddAvcDecoder(decoder);
    if ret == 0 {
      renderer.outputQueue.pending := [f];
      ghost var p := Present(f, 0, 480, true, true, 0, 0);
      assert p == Presentation(None, false, false);
      var report;
      ret, report := renderer.Render(0, Timespec(1, 0), 0, 0, 0, 0);
      SingleFrameCycle(renderer.trace[0..], f, p, ret);
      assert renderer.trace == [Released(f, ret)];
      assert report == None;
    }
  }

  /** A failing video renderer: no HUD, no report, and the frame still released. */
  method VideoFailureScenario(f: Buffer)
    requires f.metadata.Some?
  {
    var renderer := new Gles2Renderer(true, true);
    var ret := renderer.SetRendererParams(640, 480, 0, 0, 640, 480);
    var decoder := new AvcDecoder(true);
    ret := renderer.AddAvcDecoder(decoder);
    if ret == 0 {
      renderer.outputQueue.pending := [f];
      ghost var p := Present(f, 640, 480, true, true, -1, 0);
      assert p.video.Some? && !p.hud && !p.reported;
      var report;
      ret, report := renderer.Render(0, Timespec(1, 0), 0, 0, -1, 0);
      SingleFrameCycle(renderer.trace[0..], f, p, ret);
      assert |renderer.trace| == 2 && renderer.trace[0].VideoRendered?;
      assert renderer.trace[1] == Released(f, ret);
      assert report == None;
    }
  }

  /** The video renderer could not be allocated: the HUD renderer is then never
      allocated either, so a frame is not drawn at all, the latency line is still
      produced and the frame is released. */
  method NoVideoRendererScenario(f: Buffer)
    requires f.metadata.Some?
  {
    var renderer := new Gles2Renderer(false, true);
    assert !renderer.hasHud;
    var ret := renderer.SetRendererParams(640, 480, 0, 0, 640, 480);
    var decoder := new AvcDecoder(true);
    ret := renderer.AddAvcDecoder(decoder);
    if ret == 0 {
      renderer.outputQueue.pending := [f];
      ghost var p := Present(f, 640, 480, false, false, 0, 0);
      assert p == Presentation(None, false, true);
      var report;
      ret, report := renderer.Render(0, Timespec(1, 0), 0, 0, 0, 0);
      SingleFrameCycle(renderer.trace[0..], f, p, ret);
      assert renderer.trace == [Released(f, ret)];
      assert report.Some?;
    }
  }

  /** Detaching hands the bound queue back to the decoder. */
  method DetachScenario(a: AvcDecoder)
  {
    var renderer := new Gles2Renderer(true, true);
    var ret := renderer.AddAvcDecoder(a);
    if ret == 0 {
      var queue := renderer.outputQueue;
      ret := renderer.RemoveAvcDecoder(a);
      assert ret == 0 && |renderer.trace| == 1;
      assert renderer.trace[0].QueueRemoved? && renderer.trace[0].queue == queue;
    }
  }

  /** No decoder attached: the cycle only sleeps and succeeds. */
  method NoDecoderScenario()
  {
    var renderer := new Gles2Renderer(true, true);
    var ret, report := renderer.Render(0, Timespec(1, 0), 0, 0, 0, 0);
    assert ret == 0 && renderer.trace == [Slept];
  }
}
