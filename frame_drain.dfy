/**
 * Reference semantics of the latest-wins drain loop of a render cycle: each
 * successful dequeue releases the buffer retained before it, and the buffer
 * retained when the queue stops is the one kept for drawing.
 */
module FrameDrain {
  import opened Wrappers
  import opened Decoder

  datatype DrainResult = DrainResult(released: seq<Buffer>, retained: Option<Buffer>)

  function OptionToSeq<T>(o: Option<T>): (s: seq<T>)
    ensures |s| <= 1
  {
    if o.Some? then [o.value] else []
  }

  /** Draining `pending` when `prev` is retained: the releases issued, in order,
      and the buffer retained at the end. */
  function Drain(prev: Option<Buffer>, pending: seq<Buffer>): DrainResult
    decreases |pending|
  {
    if pending == [] then DrainResult([], prev)
    else
      var rest := Drain(Some(pending[0]), pending[1..]);
      DrainResult(OptionToSeq(prev) + rest.released, rest.retained)
  }

  /** Draining releases what was retained before and every dequeued buffer but
      the latest, in dequeue order, and retains the latest one. */
  lemma {:induction false} DrainKeepsLatest(prev: Option<Buffer>, pending: seq<Buffer>)
    ensures pending == [] ==> Drain(prev, pending) == DrainResult([], prev)
    ensures pending != [] ==>
      Drain(prev, pending).retained == Some(pending[|pending| - 1]) &&
      Drain(prev, pending).released == OptionToSeq(prev) + pending[..|pending| - 1]
    decreases |pending|
  {
    if pending != [] {
      var tail := pending[1..];
      DrainKeepsLatest(Some(pending[0]), tail);
      if tail != [] {
        assert pending[..|pending| - 1] == [pending[0]] + tail[..|tail| - 1];
      }
    }
  }

  /** A cycle that starts with nothing retained and releases its retained buffer
      at the end releases exactly the dequeued buffers, each once, in dequeue
      order. */
  lemma {:induction false} DrainThenReleaseIsDequeueOrder(pending: seq<Buffer>)
    requires pending != []
    ensures Drain(None, pending).retained.Some?
    ensures Drain(None, pending).released + [Drain(None, pending).retained.value] == pending
  {
    DrainKeepsLatest(None, pending);
    assert pending[..|pending| - 1] + [pending[|pending| - 1]] == pending;
  }
}
