/**
 * The decoder side the renderer talks to: decoded frames, the output buffer
 * queue and the AvcDecoder calls the renderer makes. The decoder is an external
 * collaborator; its answers that the renderer cannot predict (whether it can
 * create a queue, the return codes of queue removal and buffer release) are left
 * nondeterministic, and a queue is the sequence of buffers it will still hand out
 * followed by the status it reports once drained.
 */
module Decoder {
  import opened Wrappers
  import opened FrameTiming
  import opened ColorConversion

  /** The metadata record of a decoded frame. The plane pointers, the strides and
      the telemetry record are opaque to the renderer and are not carried. */
  datatype FrameData = FrameData(
    colorFormat: ColorFormat,
    width: nat,
    height: nat,
    sarWidth: nat,
    sarHeight: nat,
    demuxOutputTimestamp: uint64,
    decoderOutputTimestamp: uint64,
    auNtpTimestampLocal: uint64)

  /** A decoder output buffer: its identity and its metadata pointer (None for NULL). */
  datatype Buffer = Buffer(id: nat, metadata: Option<FrameData>)

  /** The dequeue status meaning "nothing queued". */
  const DEQUEUE_EMPTY: int := -2

  /** A failed dequeue reports a non-zero status: DEQUEUE_EMPTY or another error. */
  type DequeueFailure = x: int | x != 0 witness DEQUEUE_EMPTY

  class BufferQueue {
    /** The buffers the decoder has queued and the renderer has not dequeued yet. */
    var pending: seq<Buffer>
    /** What a dequeue reports once pending is exhausted. */
    var endStatus: DequeueFailure

    constructor (pending: seq<Buffer>, endStatus: DequeueFailure)
      ensures this.pending == pending && this.endStatus == endStatus
    {
      this.pending := pending;
      this.endStatus := endStatus;
    }
  }

  class AvcDecoder {
    var configured: bool

    constructor (configured: bool)
      ensures this.configured == configured
    {
      this.configured := configured;
    }

    method IsConfigured() returns (c: bool)
      ensures c == configured
    {
      c := configured;
    }

    /** Either a new, empty output queue or NULL when the decoder cannot add one. */
    method AddOutputQueue() returns (q: BufferQueue?)
      ensures q != null ==> fresh(q) && q.pending == []
    {
      if * {
        q := new BufferQueue([], DEQUEUE_EMPTY);
      } else {
        q := null;
      }
    }

    /** Any return code: 0 for success, anything else for failure. */
    method RemoveOutputQueue(q: BufferQueue) returns (ret: int)
    {
      ret := *;
    }

    /** Non-blocking dequeue. On success (0) the head of the queue is written to
        the out-parameter; on failure the out-parameter keeps its value. */
    method DequeueOutputBuffer(q: BufferQueue, buffer: Option<Buffer>) returns (ret: int, bufferOut: Option<Buffer>)
      modifies q
      ensures q.endStatus == old(q.endStatus)
      ensures ret == 0 <==> old(q.pending) != []
      ensures ret == 0 ==> bufferOut == Some(old(q.pending)[0]) && q.pending == old(q.pending)[1..]
      ensures ret != 0 ==> ret == q.endStatus && bufferOut == buffer && q.pending == old(q.pending)
    {
      if q.pending == [] {
        ret, bufferOut := q.endStatus, buffer;
      } else {
        ret, bufferOut := 0, Some(q.pending[0]);
        q.pending := q.pending[1..];
      }
    }

    /** Hands a dequeued buffer back; any return code. */
    method ReleaseOutputBuffer(b: Buffer) returns (ret: int)
    {
      ret := *;
    }
  }
}
