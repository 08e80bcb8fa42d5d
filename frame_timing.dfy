/**
 * Timestamp and latency arithmetic of the render cycle. Every quantity is a
 * uint64_t count of microseconds, so subtraction and overflow wrap modulo 2^64.
 */
module FrameTiming {
  import opened Wrappers

  const TWO_TO_THE_64: int := 0x1_0000_0000_0000_0000
  type uint64 = x: int | 0 <= x < TWO_TO_THE_64

  /** (uint64_t)-1, the sentinel the session uses for "unknown". */
  const UINT64_MAX: uint64 := 0xFFFF_FFFF_FFFF_FFFF

  const US_PER_SEC: int := 1_000_000
  const NS_PER_US: int := 1_000
  const NS_PER_SEC: int := 1_000_000_000

  /** Reduction of a mathematical integer to uint64_t. */
  function Wrap(x: int): uint64
  {
    x % TWO_TO_THE_64
  }

  /** A CLOCK_MONOTONIC reading whose two fields have been cast to uint64_t. */
  datatype Timespec = Timespec(sec: uint64, nsec: uint64)

  /** What clock_gettime guarantees of tv_nsec. */
  predicate NormalTimespec(t: Timespec)
  {
    t.nsec < NS_PER_SEC
  }

  /** The reading is small enough that its microsecond count does not overflow. */
  predicate Representable(t: Timespec)
  {
    t.sec * US_PER_SEC + t.nsec / NS_PER_US < TWO_TO_THE_64
  }

  /** The render instant in microseconds, sec * 1000000 + nsec / 1000 in uint64_t
      arithmetic (wrapping once at the end equals wrapping after each operation). */
  function RenderTimestamp(t: Timespec): uint64
  {
    Wrap(t.sec * US_PER_SEC + t.nsec / NS_PER_US)
  }

  /** For a normal reading that does not overflow, the seconds and the
      microseconds within the second can be read back from the render instant. */
  lemma RenderTimestampDecomposes(t: Timespec)
    requires NormalTimespec(t) && Representable(t)
    ensures RenderTimestamp(t) / US_PER_SEC == t.sec
    ensures RenderTimestamp(t) % US_PER_SEC == t.nsec / NS_PER_US
  {
    var us := t.sec * US_PER_SEC + t.nsec / NS_PER_US;
    assert 0 <= t.nsec / NS_PER_US < US_PER_SEC;
    assert RenderTimestamp(t) == us;
  }

  /** The inverse reading: the normal Timespec of a microsecond count. */
  function TimespecOf(us: uint64): (t: Timespec)
    ensures NormalTimespec(t) && Representable(t)
  {
    Timespec(us / US_PER_SEC, (us % US_PER_SEC) * NS_PER_US)
  }

  /** Every microsecond count is the render timestamp of its own reading. */
  lemma RenderTimestampOfTimespecOf(us: uint64)
    ensures RenderTimestamp(TimespecOf(us)) == us
  {
    var t := TimespecOf(us);
    assert t.nsec / NS_PER_US == us % US_PER_SEC;
    assert t.sec * US_PER_SEC + t.nsec / NS_PER_US == us;
  }

  /** Reading a render timestamp back loses only the sub-microsecond part. */
  lemma TimespecOfRenderTimestamp(t: Timespec)
    requires NormalTimespec(t) && Representable(t)
    ensures TimespecOf(RenderTimestamp(t)) == Timespec(t.sec, t.nsec / NS_PER_US * NS_PER_US)
  {
    RenderTimestampDecomposes(t);
  }

  /** A later clock reading never yields an earlier render timestamp. */
  lemma RenderTimestampMonotonic(t1: Timespec, t2: Timespec)
    requires NormalTimespec(t1) && NormalTimespec(t2) && Representable(t2)
    requires t1.sec < t2.sec || (t1.sec == t2.sec && t1.nsec <= t2.nsec)
    ensures RenderTimestamp(t1) <= RenderTimestamp(t2)
  {
    assert t1.nsec / NS_PER_US < US_PER_SEC;
    if t1.sec < t2.sec {
      assert t1.sec * US_PER_SEC + US_PER_SEC <= t2.sec * US_PER_SEC;
    }
  }

  /** later - earlier in uint64_t arithmetic: the true difference when the clock
      has not gone backwards, and in every case the amount that, added to the
      earlier instant, gives back the later one. */
  function Elapsed(later: uint64, earlier: uint64): (d: uint64)
    ensures earlier <= later ==> d == later - earlier
    ensures later < earlier ==> d == TWO_TO_THE_64 - (earlier - later)
    ensures Wrap(earlier + d) == later
  {
    Wrap(later - earlier)
  }

  /** End-to-end latency: time since capture, or 0 when the frame carries no
      capture (NTP) timestamp. */
  function EndToEndLatency(now: uint64, ntp: uint64): (d: uint64)
    ensures ntp == 0 ==> d == 0
    ensures ntp != 0 ==> Wrap(ntp + d) == now
    ensures 0 < ntp <= now ==> d == now - ntp
  {
    if ntp != 0 then Elapsed(now, ntp) else 0
  }

  /** The value handed to the hours/minutes/seconds conversion, or None when the
      displayed fields stay at zero: 0 means "not started" and UINT64_MAX
      "unknown". */
  function FriendlyTimeArgument(v: uint64): (r: Option<uint64>)
    ensures r.None? <==> (v == 0 || v == UINT64_MAX)
    ensures r.Some? ==> r.value == v
  {
    if v > 0 && v != UINT64_MAX then Some(v) else None
  }

  /** The figures of the diagnostic line emitted after a successful draw. */
  datatype LatencyReport = LatencyReport(
    position: Option<uint64>,
    duration: Option<uint64>,
    decodeUs: uint64,
    renderUs: uint64,
    endToEndUs: uint64)

  function Report(demuxOutput: uint64, decoderOutput: uint64, ntp: uint64, renderTimestamp: uint64,
                  currentTime: uint64, duration: uint64): LatencyReport
  {
    LatencyReport(
      FriendlyTimeArgument(currentTime),
      FriendlyTimeArgument(duration),
      Elapsed(decoderOutput, demuxOutput),
      Elapsed(renderTimestamp, decoderOutput),
      EndToEndLatency(renderTimestamp, ntp))
  }

  /** Demux output at 200000us, decoder output at 201000us, capture at 200500us
      and rendering at 201500us give 1ms decoding, 0.5ms rendering and 1ms
      end-to-end latency. */
  lemma ReportExample()
    ensures Report(200_000, 201_000, 200_500, 201_500, 0, UINT64_MAX)
         == LatencyReport(None, None, 1_000, 500, 1_000)
  {
  }
}
