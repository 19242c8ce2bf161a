/**
 * The capture worker of one stream. After trying to open its source it runs one
 * of two endless loops: the degraded loop (source not opened) offers only the
 * placeholder frame; the streaming loop offers each frame it reads, or the
 * placeholder when a read fails. It never reconnects. One iteration, or a bounded
 * number of them, is modelled; the endless loop itself is not.
 */
module Capture {
  import opened Options
  import opened Frames
  import opened FrameQueues

  /** Where the worker is: before the open attempt, in the degraded loop, or in the streaming loop. */
  datatype Mode = Connecting | Degraded | Streaming

  /** The frame one loop iteration offers to the queue; `read` is the read's (success, frame) result. */
  function OfferedFrame(mode: Mode, read: Option<Frame>, errorFrame: Frame): (f: Frame)
    requires mode != Connecting
    ensures mode == Degraded ==> f == errorFrame
    ensures mode == Streaming && read.None? ==> f == errorFrame
    ensures mode == Streaming && read.Some? ==> f == read.value
  {
    if mode == Streaming && read.Some? then read.value else errorFrame
  }

  /** The frames a sequence of iterations offers, one per iteration and read result. */
  function Offers(mode: Mode, results: seq<Option<Frame>>, errorFrame: Frame): (fs: seq<Frame>)
    requires mode != Connecting
    ensures |fs| == |results|
    ensures forall i :: 0 <= i < |results| ==> fs[i] == OfferedFrame(mode, results[i], errorFrame)
  {
    seq(|results|, i requires 0 <= i < |results| => OfferedFrame(mode, results[i], errorFrame))
  }

  /** Every entry of `q` is `f`. */
  ghost predicate OnlyFrame(q: seq<Frame>, f: Frame)
  {
    forall i :: 0 <= i < |q| ==> q[i] == f
  }

  /**
   * When every offered frame is the placeholder (the degraded loop, or a streaming
   * loop whose reads all fail), a queue that held only placeholders holds only
   * placeholders after every iteration.
   */
  lemma {:induction false} OnlyPlaceholderThroughout(q: seq<Frame>, offers: seq<Frame>, errorFrame: Frame)
    requires OnlyFrame(q, errorFrame) && OnlyFrame(offers, errorFrame)
    ensures forall k :: 0 <= k <= |offers| ==> OnlyFrame(Run(q, offers[..k]), errorFrame)
    decreases |offers|
  {
    forall k | 0 <= k <= |offers|
      ensures OnlyFrame(Run(q, offers[..k]), errorFrame)
    {
      if k > 0 {
        var p := Pushed(q, offers[0]);
        assert OnlyFrame(p, errorFrame) by {
          if |q| < CAPACITY {
            assert p == q + [offers[0]];
          } else {
            assert p == q[1..];
          }
        }
        OnlyPlaceholderThroughout(p, offers[1..], errorFrame);
        assert offers[..k][1..] == offers[1..][..k - 1];
      }
    }
  }

  /** A degraded worker only ever leaves the placeholder in a fresh queue. */
  lemma DegradedQueueOnlyPlaceholder(results: seq<Option<Frame>>, errorFrame: Frame)
    ensures forall k :: 0 <= k <= |results| ==>
      OnlyFrame(Run([], Offers(Degraded, results, errorFrame)[..k]), errorFrame)
  {
    OnlyPlaceholderThroughout([], Offers(Degraded, results, errorFrame), errorFrame);
  }

  /**
   * A streaming worker whose reads all fail leaves only the placeholder in a fresh
   * queue after every iteration; it does not stop or change mode.
   */
  lemma FailedReadsOnlyPlaceholder(results: seq<Option<Frame>>, errorFrame: Frame)
    requires forall i :: 0 <= i < |results| ==> results[i].None?
    ensures forall k :: 0 <= k <= |results| ==>
      OnlyFrame(Run([], Offers(Streaming, results, errorFrame)[..k]), errorFrame)
  {
    OnlyPlaceholderThroughout([], Offers(Streaming, results, errorFrame), errorFrame);
  }

  /**
   * A streaming worker's queue, from empty, is an ordered selection of the frames
   * it offered (read frames and placeholders alike): nothing is reordered or duplicated.
   */
  lemma StreamingKeepsReadOrder(results: seq<Option<Frame>>, errorFrame: Frame)
    ensures Subsequence(Run([], Offers(Streaming, results, errorFrame)), Offers(Streaming, results, errorFrame))
  {
    FreshQueueHoldsOfferedFrames(Offers(Streaming, results, errorFrame));
  }

  /** The run after `i + 1` iterations is the run after `i` with the next offer pushed. */
  lemma StepExtendsRun(q: seq<Frame>, mode: Mode, results: seq<Option<Frame>>, i: nat, errorFrame: Frame)
    requires mode != Connecting && i < |results|
    ensures Run(q, Offers(mode, results[..i + 1], errorFrame)) ==
      Pushed(Run(q, Offers(mode, results[..i], errorFrame)), OfferedFrame(mode, results[i], errorFrame))
  {
    var offers := Offers(mode, results[..i], errorFrame);
    assert Offers(mode, results[..i + 1], errorFrame) == offers + [OfferedFrame(mode, results[i], errorFrame)];
    RunSnoc(q, offers, OfferedFrame(mode, results[i], errorFrame));
  }

  /** One capture worker (one thread) bound to a stream id and its source url. */
  class CaptureWorker {
    const streamId: string
    const url: Option<string>
    var mode: Mode

    constructor (streamId: string, url: Option<string>)
      ensures this.streamId == streamId && this.url == url && mode == Connecting
    {
      this.streamId := streamId;
      this.url := url;
      mode := Connecting;
    }

    /** The single open attempt: success enters the streaming loop, failure the degraded loop for good. */
    method Connect(isOpened: bool)
      requires mode == Connecting
      modifies this
      ensures mode == if isOpened then Streaming else Degraded
    {
      mode := if isOpened then Streaming else Degraded;
    }

    /**
     * One loop iteration against queue `q`: pick the frame to offer and push it.
     * A failed read does not close the source: the mode is unchanged.
     */
    method Step(q: FrameQueue, errorFrame: Frame, read: Option<Frame>) returns (offered: Frame, inserted: bool)
      requires mode != Connecting
      modifies q
      ensures offered == OfferedFrame(mode, read, errorFrame)
      ensures inserted <==> |old(q.items)| < CAPACITY
      ensures q.items == Pushed(old(q.items), offered)
      ensures mode == old(mode)
    {
      if mode == Degraded {
        offered := errorFrame;
      } else {
        match read
        case Some(frame) => offered := frame;
        case None => offered := errorFrame;
      }
      inserted := q.Push(offered);
    }

    /** `|results|` loop iterations against queue `q`, one read result each. */
    method Steps(q: FrameQueue, errorFrame: Frame, results: seq<Option<Frame>>)
      requires mode != Connecting
      modifies q
      ensures q.items == Run(old(q.items), Offers(mode, results, errorFrame))
      ensures mode == old(mode)
    {
      ghost var start := q.items;
      for i := 0 to |results|
        invariant q.items == Run(start, Offers(mode, results[..i], errorFrame))
      {
        var offered, inserted := Step(q, errorFrame, results[i]);
        StepExtendsRun(start, mode, results, i, errorFrame);
      }
      assert results[..|results|] == results;
    }
  }
}
