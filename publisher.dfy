/**
 * The consumer side of a stream: each iteration pops the stream's queue with a
 * timeout, falls back to the placeholder when nothing arrives, encodes the frame
 * and emits it as one multipart part. The queue is looked up by id, so a stream
 * id without a queue fails on the first pop.
 */
module Publisher {
  import opened Options
  import opened Frames
  import opened FrameQueues
  import opened Mjpeg
  import opened Registry

  /** The lookup of an id that has no queue: the generator's key error. */
  datatype StreamError = UnknownStream

  /** The parts emitted for `frames`, each encoded by `encode`. */
  function Segments(frames: seq<Frame>, encode: Frame -> seq<byte>): (r: seq<seq<byte>>)
    ensures |r| == |frames| && forall k :: 0 <= k < |frames| ==> Unframe(r[k]) == Some(encode(frames[k]))
  {
    var r := seq(|frames|, k requires 0 <= k < |frames| => Segment(encode(frames[k])));
    forall k | 0 <= k < |frames| ensures Unframe(r[k]) == Some(encode(frames[k])) {
      UnframeSegment(encode(frames[k]));
    }
    r
  }

  /**
   * One generator iteration for stream `id`: the part for the front frame, which
   * leaves the queue, or for the placeholder when the queue is empty.
   */
  method NextSegment(registry: StreamRegistry, id: string, encode: Frame -> seq<byte>)
    returns (r: Result<seq<byte>, StreamError>)
    requires registry.Valid()
    modifies if id in registry.streams then {registry.streams[id].queue} else {}
    ensures id !in registry.streams ==> r == Failure(UnknownStream)
    ensures id in registry.streams ==>
      var (f, rest) := Popped(old(registry.streams[id].queue.items), registry.errorFrame.cached.value);
      r == Success(Segment(encode(f))) && registry.streams[id].queue.items == rest
  {
    if id !in registry.streams {
      return Failure(UnknownStream);
    }
    var popped := registry.streams[id].queue.GetTimeout();
    var frame := if popped.Some? then popped.value else registry.errorFrame.cached.value;
    r := Success(Segment(encode(frame)));
  }

  /**
   * `n` generator iterations with no producer running in between: the parts for
   * the queued frames, oldest first, then for the placeholder, and the queue
   * keeps what was not popped.
   */
  method GenFrames(registry: StreamRegistry, id: string, encode: Frame -> seq<byte>, n: nat)
    returns (r: Result<seq<seq<byte>>, StreamError>)
    requires registry.Valid()
    modifies if id in registry.streams then {registry.streams[id].queue} else {}
    ensures id !in registry.streams ==> r == Failure(UnknownStream)
    ensures id in registry.streams ==>
      var q := old(registry.streams[id].queue.items);
      && r == Success(Segments(Drain(q, n, registry.errorFrame.cached.value), encode))
      && registry.streams[id].queue.items == q[Min(n, |q|)..]
  {
    if id !in registry.streams {
      return Failure(UnknownStream);
    }
    var queue := registry.streams[id].queue;
    ghost var q := queue.items;
    ghost var placeholder := registry.errorFrame.cached.value;
    var parts: seq<seq<byte>> := [];
    for i := 0 to n
      invariant queue.items == q[Min(i, |q|)..]
      invariant parts == Segments(Drain(q, i, placeholder), encode)
    {
      var part := NextSegment(registry, id, encode);
      DrainSnoc(q, i, placeholder);
      parts := parts + [part.value];
    }
    r := Success(parts);
  }
}
