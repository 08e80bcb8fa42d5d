# Gles2Renderer frame draining and presentation, in Dafny

This project models the OpenGL ES 2.0 renderer of libpdraw (`Pdraw::Gles2Renderer`).
The renderer sits between a video decoder, which fills an output buffer queue
asynchronously, and the display refresh, which calls `render()` once per tick.
The model covers:

- **Decoder attachment.** The renderer binds at most one decoder and the output
  queue it obtained from that decoder. The invariant is "decoder set ⇔ queue set".
  `AddAvcDecoder` refuses a null decoder, a second decoder, and a decoder that
  cannot add a queue. `RemoveAvcDecoder` refuses a null decoder and any decoder
  other than the bound one. A successful detach clears both fields even when the
  decoder fails to remove the queue.
- **The latest-wins drain loop.** `render()` dequeues without blocking until a
  dequeue fails. Each time a newer buffer arrives it releases the one retained
  before. So every dequeued buffer is released exactly once, in dequeue order,
  and only the newest one can reach the video and HUD renderers. The model proves
  this in two places. The loop in `Gles2Renderer.DrainOutputQueue` is proved
  against a recursive reference, `FrameDrain.Drain`. Lemmas then state what
  `Drain` means.
- **Drawing and its gates.** A frame is drawn only when its metadata pointer is
  non-null and both render dimensions are non-zero. The colour format picks the
  GL conversion: semi-planar frames get the semi-planar conversion, and every
  other value gets the planar one. The HUD is drawn only if the video renderer
  succeeded. The latency line is produced only if both succeeded. The retained
  buffer is released whatever happened, and `render()` returns that release's
  return code.
- **Timestamp arithmetic.** The render instant is `sec * 1000000 + nsec / 1000`
  in `uint64_t`, with the three latencies as unsigned microsecond differences.
  End-to-end latency is 0 when the frame has no NTP timestamp. Position and
  duration are formatted only when they are neither 0 nor `(uint64_t)-1`.

The decoder is an external collaborator (module `Decoder`). A queue is the
sequence of buffers it will still hand out, followed by the non-zero status a
dequeue reports once the queue is drained (`-2` for empty, any other value for
a failure). The model assumes that a failed dequeue leaves its out-parameter
untouched (see "Left out"). Some of the decoder's answers are left
nondeterministic: whether `addOutputQueue` yields a queue, and the return codes
of `removeOutputQueue` and `releaseOutputBuffer`. `isConfigured` is a plain
getter of the decoder's `configured` flag.
`Render` takes these as parameters: the return codes of the video and HUD
renderers, the `CLOCK_MONOTONIC` reading, and the session's position and duration.
The calls that hand something to a collaborator or wait are appended to a
ghost trace: a buffer release with its return code, a video draw, a HUD draw,
the removal of the output queue with its return code, and the idle sleep. The
contracts speak about that trace. The queue creation, the dequeues and the
`isConfigured` query are not traced; their effects appear as state instead. Module `Scenarios` holds client methods
that the contracts alone verify: attach exclusivity, five queued frames of which
only the fifth is drawn, a zero-width region that still releases, a failing video
renderer, a renderer whose video sub-renderer could not be allocated, a detach
that hands the queue back, and a cycle with no decoder.

Files: `wrappers.dfy` (Option), `color_conversion.dfy`, `frame_timing.dfy`,
`decoder.dfy`, `frame_drain.dfy`, `gles2_renderer.dfy`, `scenarios.dfy`.

Three behaviours of the code worth noting:

- `render()` returns the final release's return code, so a failed release is
  reported to the caller. It is not absorbed inside the cycle.
- Drawing also needs a non-null metadata pointer, not only a non-empty render
  region.
- The constructor allocates the HUD sub-renderer only if the video sub-renderer
  was allocated, so a HUD renderer never exists without a video renderer. If the
  video sub-renderer is missing (`mGles2Video` is NULL), neither renderer is
  called, the code stays at 0, and the latency line is still produced. The
  constructor flags `videoAllocated` and `hudAllocated` say whether each allocation
  would succeed.

## Model

| member | source | states |
|---|---|---|
| `Gles2.Gles2Renderer.constructor` | libpdraw/src/pdraw_renderer_gles2.cpp:56-92 | the renderer starts unattached with every viewport field 0 and an empty trace. The video sub-renderer exists iff its allocation succeeds. The HUD sub-renderer exists iff the video one does and its own allocation succeeds. |
| `Gles2.Gles2Renderer.AddAvcDecoder` | libpdraw/src/pdraw_renderer_gles2.cpp:104-127 | returns 0 exactly when the decoder is non-null, none is bound, and the decoder supplied a queue. Then that decoder and a fresh, empty queue are bound. Otherwise it returns -1 and the attachment is unchanged, so a second attach never replaces the first. "Decoder set ⇔ queue set" is preserved. |
| `Gles2.Gles2Renderer.RemoveAvcDecoder` | libpdraw/src/pdraw_renderer_gles2.cpp:130-157 | returns 0 exactly when the decoder is non-null and is the bound one. Then the bound queue is handed back through `removeOutputQueue` (one trace event naming that queue), and both fields are cleared whatever that call returned. Otherwise it returns -1 with nothing changed and nothing traced. |
| `Gles2.Gles2Renderer.SetRendererParams` | libpdraw/src/pdraw_renderer_gles2.cpp:160-186 | stores the window size and the render region (origin and size) and returns 0. |
| `Gles2.Gles2Renderer.DrainOutputQueue` | libpdraw/src/pdraw_renderer_gles2.cpp:195-209 | empties the queue and leaves its end status as it was. It adds only release events, and the buffers they release are those of `Drain(None, pending)`. The buffer it returns is the one `Drain` retains. |
| `Gles2.Gles2Renderer.DrawFrame` | libpdraw/src/pdraw_renderer_gles2.cpp:222-286 | appends exactly the draw events `Present` prescribes for the frame. It yields the latency report exactly when `Present` says the draw succeeded, and that report is computed from the frame's timestamps and the render instant. |
| `Gles2.Gles2Renderer.Render` | libpdraw/src/pdraw_renderer_gles2.cpp:189-301 | the queue's end status is never changed. Without a configured decoder: sleeps, returns 0, touches no queue. With one: the queue is emptied and the cycle's releases are exactly the dequeued buffers, in dequeue order. With no buffer: sleeps and returns 0. With buffers: the cycle is the release of every buffer but the newest, then the newest one's draw events, then its release. Only the newest is drawn, and the return value is that last release's code. |
| `Gles2.Present` | libpdraw/src/pdraw_renderer_gles2.cpp:224-263 | the video renderer is called iff the frame has metadata, both render dimensions are non-zero, and the video renderer exists. It gets the conversion for the frame's colour format. The HUD is called iff the gate holds, the HUD exists, and the video renderer returned 0. So a HUD call always follows a successful video call. The report is produced iff the gate holds and neither step failed. |
| `Gles2.DrawEventsReleaseNothing` | libpdraw/src/pdraw_renderer_gles2.cpp:241-262 | the drawing block releases no buffer: a frame's draw events contain no release. |
| `Gles2.DrawEventsDrawOnly` | libpdraw/src/pdraw_renderer_gles2.cpp:241-262 | when the video call is for the frame being drawn, the drawing block hands no other buffer to the video or HUD renderer. |
| `Gles2.CycleReleases` | libpdraw/src/pdraw_renderer_gles2.cpp:195-293 | the drain releases, the draw events and the final release of the newest buffer together release exactly the dequeued sequence, in order. |
| `Gles2.SingleFrameCycle` | libpdraw/src/pdraw_renderer_gles2.cpp:195-293 | a cycle that found exactly one queued buffer is that buffer's draw events followed by its release, with no other release. |
| `Gles2.CycleFacts` | libpdraw/src/pdraw_renderer_gles2.cpp:195-293 | a cycle made of the drain releases, the newest buffer's draws and its final release releases exactly the dequeued sequence and draws nothing but the newest buffer. |
| `FrameDrain.DrainKeepsLatest` | libpdraw/src/pdraw_renderer_gles2.cpp:198-209 | draining an empty queue changes nothing. Draining a non-empty one releases the previously retained buffer and every dequeued buffer but the last, in order, and retains the last. |
| `FrameDrain.DrainThenReleaseIsDequeueOrder` | libpdraw/src/pdraw_renderer_gles2.cpp:195-209 | starting with nothing retained, the loop's releases followed by the retained buffer are exactly the dequeued sequence, so each dequeued buffer is released once, in order. |
| `Decoder.AvcDecoder.DequeueOutputBuffer` | libpdraw/src/pdraw_renderer_gles2.cpp:198 | succeeds (0) iff the queue holds a buffer, and then hands out its head. Otherwise it reports the queue's non-zero end status and leaves the out-parameter unchanged. |
| `Decoder.AvcDecoder.AddOutputQueue` | libpdraw/src/pdraw_renderer_gles2.cpp:117 | yields NULL or a new, empty queue. |
| `ColorConversion.ConversionFor` | libpdraw/src/pdraw_renderer_gles2.cpp:231-240 | the mapping is total. Semi-planar maps to the semi-planar conversion and nothing else does. Planar and every unrecognised value map to the planar conversion. A named format gets the conversion that reads its layout. |
| `ColorConversion.ConversionForSourceLayout` | libpdraw/src/pdraw_renderer_gles2.cpp:231-240 | each conversion mode is the one chosen for the layout it reads. |
| `ColorConversion.UnrecognisedFormatIsPlanar` | libpdraw/src/pdraw_renderer_gles2.cpp:233-235 | an unrecognised value (the `default` label) is treated exactly like planar. |
| `FrameTiming.RenderTimestampDecomposes` | libpdraw/src/pdraw_renderer_gles2.cpp:269 | `RenderTimestamp` computes `sec * 1000000 + nsec / 1000` in `uint64_t`. For a normal clock reading that does not overflow, the microsecond timestamp divides back into the reading's seconds and its microseconds within the second. |
| `FrameTiming.RenderTimestampOfTimespecOf` | libpdraw/src/pdraw_renderer_gles2.cpp:269 | every microsecond count is the render timestamp of its own reading (round trip). The reading is built by `TimespecOf`, a reference inverse that the source does not have. |
| `FrameTiming.TimespecOfRenderTimestamp` | libpdraw/src/pdraw_renderer_gles2.cpp:269 | reading a render timestamp back loses only the sub-microsecond part of the nanoseconds. |
| `FrameTiming.RenderTimestampMonotonic` | libpdraw/src/pdraw_renderer_gles2.cpp:267-269 | a later clock reading never gives an earlier render timestamp. |
| `FrameTiming.Elapsed` | libpdraw/src/pdraw_renderer_gles2.cpp:282-283 | the unsigned difference is the true difference when time has not gone backwards, and wraps modulo 2^64 otherwise. Adding it back to the earlier instant always gives the later one. |
| `FrameTiming.EndToEndLatency` | libpdraw/src/pdraw_renderer_gles2.cpp:284 | 0 when the NTP timestamp is 0. Otherwise it is the unsigned time since capture, which is `now - ntp` when capture is not in the future. |
| `FrameTiming.FriendlyTimeArgument` | libpdraw/src/pdraw_renderer_gles2.cpp:271-278 | position and duration are handed to the conversion exactly when they are neither 0 nor `(uint64_t)-1`. Otherwise the displayed fields stay 0. |
| `FrameTiming.ReportExample` | libpdraw/src/pdraw_renderer_gles2.cpp:280-284 | timestamps 200000/201000/200500 µs rendered at 201500 µs give 1000 µs decoding, 500 µs rendering and 1000 µs end-to-end latency. Unknown position and duration leave their fields at 0. |

## Left out

- GL calls (`glClear`, `glViewport`, `glEnable`, ...) and the destructor: GPU state is outside the model.
- The internals of `Gles2Video::renderFrame` and `Gles2Hud::renderHud`: foreign GPU code. Their return codes are parameters of `Render`. The plane pointers, strides and telemetry record they receive are not carried, and the float aspect ratio passed to the HUD is not modelled.
- Sub-renderer allocation and texture-unit numbering in the constructor: allocation only. Whether each sub-renderer exists is a constructor flag.
- `usleep(5000)`: recorded as a `Slept` event. The duration is not modelled.
- `clock_gettime`: the reading is a parameter, with both fields already cast to `uint64_t`.
- `Session::getCurrentTime` / `getDuration`: plain parameters.
- `pdraw_friendlyTimeFromUs`: its body is not part of this model. Only the guard that decides whether it is called is modelled, and the report carries the value it would receive.
- The float conversion and the division by 1000 into milliseconds in the log line: latencies stay integer microseconds.
- `DequeueOutputBuffer`: that a failing dequeue leaves its out-parameter unchanged is an assumption, because the decoder's body is not part of this model. The exactly-once release property depends on it. If a failing dequeue wrote NULL, the cycle would sleep and never release the last dequeued buffer.
- `ColorConversion.OtherFormat`: the numbers of the named colour formats are not part of this model, so `raw` is not range-checked against them. A value equal to a named constant is always written as that constant.
- Logging (`ULOGE`, `ULOGI`). Because logging is left out, the empty status (-2) and other dequeue failures behave the same.
- The `timeout` argument of `render()`: it is unused by the source.
- The `uiHandler` argument of `setRendererParams`: it is unused by the source.
- The null renderer (`pdraw_renderer_null.hpp`): a declaration of a thread-driven renderer with no logic to model.
- The queue's synchronisation and the decoder's producer thread: concurrency. A queue's contents are whatever the producer left before the cycle.
- Method structure: the drain loop and the drawing block of `render()` are split out as methods of their own (`DrainOutputQueue`, `DrawFrame`). The source has them inline, and the behaviour is unchanged.
