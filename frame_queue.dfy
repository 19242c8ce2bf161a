/**
 * The per-stream frame buffer: a FIFO queue bounded at ten frames. The producer
 * never blocks: an offer onto a full queue removes the oldest entry and the
 * offered frame is discarded. A consumer pop with a timeout yields the front
 * frame, or the placeholder when the queue is empty.
 */
module FrameQueues {
  import opened Options
  import opened Frames

  /** The queue's maximum size. */
  const CAPACITY: nat := 10

  /** Queue contents after the producer offers `f` once. */
  function Pushed(q: seq<Frame>, f: Frame): (r: seq<Frame>)
    ensures |q| <= CAPACITY ==> |r| <= CAPACITY
    // below capacity: earlier entries kept in order, f at the back
    ensures |q| < CAPACITY ==> |r| == |q| + 1 && r[..|q|] == q && r[|q|] == f
    // at capacity: exactly the oldest entry is gone and f was not admitted
    ensures |q| >= CAPACITY ==> |r| == |q| - 1 && [q[0]] + r == q
  {
    if |q| < CAPACITY then q + [f] else q[1..]
  }

  /** Queue contents after the producer offers each frame of `offers` in turn. */
  function Run(q: seq<Frame>, offers: seq<Frame>): (r: seq<Frame>)
    ensures |q| <= CAPACITY ==> |r| <= CAPACITY
    decreases |offers|
  {
    if offers == [] then q else Run(Pushed(q, offers[0]), offers[1..])
  }

  /** One more offer after a run is the same as a run one offer longer. */
  lemma {:induction false} RunSnoc(q: seq<Frame>, offers: seq<Frame>, f: Frame)
    ensures Run(q, offers + [f]) == Pushed(Run(q, offers), f)
    decreases |offers|
  {
    if offers == [] {
      assert offers + [f] == [f];
      assert [f][1..] == [];
    } else {
      assert (offers + [f])[1..] == offers[1..] + [f];
      RunSnoc(Pushed(q, offers[0]), offers[1..], f);
    }
  }

  /** Once full, the queue never drops below one short of full: it alternates between 10 and 9 frames. */
  lemma {:induction false} RunStaysNearFull(q: seq<Frame>, offers: seq<Frame>)
    requires CAPACITY - 1 <= |q| <= CAPACITY
    ensures CAPACITY - 1 <= |Run(q, offers)| <= CAPACITY
    decreases |offers|
  {
    if offers != [] {
      RunStaysNearFull(Pushed(q, offers[0]), offers[1..]);
    }
  }

  /** On a full queue two offers cost the oldest entry and admit only the second frame. */
  lemma FullQueueAdmitsEveryOtherFrame(q: seq<Frame>, a: Frame, b: Frame)
    requires |q| == CAPACITY
    ensures Run(q, [a, b]) == q[1..] + [b]
  {
    assert [a, b][1..] == [b];
    assert [b][1..] == [];
    assert Run(q, [a, b]) == Run(Pushed(q[1..], b), []);
  }

  /** `a` is `b` with some entries left out, the rest kept in their order. */
  ghost predicate Subsequence(a: seq<Frame>, b: seq<Frame>)
    decreases |b|
  {
    if a == [] then true
    else if b == [] then false
    else (a[|a| - 1] == b[|b| - 1] && Subsequence(a[..|a| - 1], b[..|b| - 1]))
         || Subsequence(a, b[..|b| - 1])
  }

  lemma {:induction false} SubsequenceDropFront(a: seq<Frame>, b: seq<Frame>)
    requires a != [] && Subsequence(a, b)
    ensures Subsequence(a[1..], b)
    decreases |b|
  {
    if |a| == 1 {
      assert a[1..] == [];
    } else if a[|a| - 1] == b[|b| - 1] && Subsequence(a[..|a| - 1], b[..|b| - 1]) {
      SubsequenceDropFront(a[..|a| - 1], b[..|b| - 1]);
      assert a[1..][..|a[1..]| - 1] == a[..|a| - 1][1..];
    } else {
      SubsequenceDropFront(a, b[..|b| - 1]);
    }
  }

  lemma SubsequenceSnoc(a: seq<Frame>, b: seq<Frame>, f: Frame)
    requires Subsequence(a, b)
    ensures Subsequence(a + [f], b + [f]) && Subsequence(a, b + [f])
  {
    assert (a + [f])[..|a|] == a;
    assert (b + [f])[..|b|] == b;
  }

  lemma {:induction false} SubsequenceMembers(a: seq<Frame>, b: seq<Frame>, i: nat)
    requires Subsequence(a, b) && i < |a|
    ensures a[i] in b
    decreases |b|
  {
    if a[|a| - 1] == b[|b| - 1] && Subsequence(a[..|a| - 1], b[..|b| - 1]) {
      if i < |a| - 1 {
        SubsequenceMembers(a[..|a| - 1], b[..|b| - 1], i);
      }
    } else {
      SubsequenceMembers(a, b[..|b| - 1], i);
    }
  }

  /**
   * FIFO order: if the queue was a subsequence of what had been offered so far, it
   * remains one after further offers. A frame is never duplicated or reordered.
   */
  lemma {:induction false} RunKeepsOfferOrder(q: seq<Frame>, past: seq<Frame>, offers: seq<Frame>)
    requires Subsequence(q, past)
    ensures Subsequence(Run(q, offers), past + offers)
    decreases |offers|
  {
    if offers == [] {
      assert past + offers == past;
    } else {
      var f := offers[0];
      SubsequenceSnoc(q, past, f);
      if |q| >= CAPACITY {
        SubsequenceDropFront(q, past + [f]);
      }
      RunKeepsOfferOrder(Pushed(q, f), past + [f], offers[1..]);
      assert past + [f] + offers[1..] == past + offers;
    }
  }

  /** From an empty queue, the queue is always an ordered selection of the offered frames. */
  lemma FreshQueueHoldsOfferedFrames(offers: seq<Frame>)
    ensures Subsequence(Run([], offers), offers)
    ensures forall i :: 0 <= i < |Run([], offers)| ==> Run([], offers)[i] in offers
  {
    RunKeepsOfferOrder([], [], offers);
    assert [] + offers == offers;
    forall i | 0 <= i < |Run([], offers)| ensures Run([], offers)[i] in offers {
      SubsequenceMembers(Run([], offers), offers, i);
    }
  }

  /** What a pop with a timeout yields, and the queue left behind. */
  function Popped(q: seq<Frame>, placeholder: Frame): (r: (Frame, seq<Frame>))
    ensures q != [] ==> [r.0] + r.1 == q
    ensures q == [] ==> r.0 == placeholder && r.1 == []
  {
    if q == [] then (placeholder, []) else (q[0], q[1..])
  }

  /** The frames `n` successive pops yield, with no producer running. */
  function Drain(q: seq<Frame>, n: nat, placeholder: Frame): (r: seq<Frame>)
    ensures |r| == n
    decreases n
  {
    if n == 0 then []
    else
      var (f, rest) := Popped(q, placeholder);
      [f] + Drain(rest, n - 1, placeholder)
  }

  function Min(a: nat, b: nat): nat { if a <= b then a else b }

  /** `n` copies of `f`. */
  function Repeat(f: Frame, n: nat): (r: seq<Frame>)
    ensures |r| == n && forall i :: 0 <= i < n ==> r[i] == f
  {
    seq(n, _ => f)
  }

  /** Pops first hand out the queued frames oldest first, then only the placeholder. */
  lemma {:induction false} DrainInOrder(q: seq<Frame>, n: nat, placeholder: Frame)
    ensures Drain(q, n, placeholder) == q[..Min(n, |q|)] + Repeat(placeholder, n - Min(n, |q|))
    decreases n
  {
    if n > 0 {
      var (f, rest) := Popped(q, placeholder);
      DrainInOrder(rest, n - 1, placeholder);
      if q == [] {
        assert Repeat(placeholder, n) == [placeholder] + Repeat(placeholder, n - 1);
      } else {
        assert q[..Min(n, |q|)] == [q[0]] + rest[..Min(n - 1, |rest|)];
      }
    }
  }

  /** One more pop yields what a pop of the remaining queue yields, and leaves one frame fewer. */
  lemma DrainSnoc(q: seq<Frame>, n: nat, placeholder: Frame)
    ensures Drain(q, n + 1, placeholder) == Drain(q, n, placeholder) + [Popped(q[Min(n, |q|)..], placeholder).0]
    ensures Popped(q[Min(n, |q|)..], placeholder).1 == q[Min(n + 1, |q|)..]
  {
    DrainInOrder(q, n, placeholder);
    DrainInOrder(q, n + 1, placeholder);
    if n < |q| {
      assert q[..n + 1] == q[..n] + [q[n]];
    } else {
      assert Repeat(placeholder, n + 1 - |q|) == Repeat(placeholder, n - |q|) + [placeholder];
    }
  }

  /** Queue contents that respect the capacity. */
  type Bounded = q: seq<Frame> | |q| <= CAPACITY witness []

  /** The buffer object shared by one producer and its consumers; its size never exceeds the capacity. */
  class FrameQueue {
    var items: Bounded

    constructor ()
      ensures items == []
    {
      items := [];
    }

    /** A non-blocking put: admits `f` only below capacity; `ok == false` is the "full" error. */
    method PutNowait(f: Frame) returns (ok: bool)
      modifies this
      ensures ok <==> |old(items)| < CAPACITY
      ensures items == if ok then old(items) + [f] else old(items)
    {
      ok := |items| < CAPACITY;
      if ok {
        items := items + [f];
      }
    }

    /** A blocking get, only ever called on a full (so non-empty) queue: removes the front. */
    method Get() returns (f: Frame)
      requires items != []
      modifies this
      ensures [f] + items == old(items)
    {
      f := items[0];
      items := items[1..];
    }

    /** A get with a timeout: the front frame, or `None` when the queue stays empty. */
    method GetTimeout() returns (r: Option<Frame>)
      modifies this
      ensures old(items) == [] ==> r == None && items == []
      ensures old(items) != [] ==> r.Some? && [r.value] + items == old(items)
    {
      if items == [] {
        r := None;
      } else {
        r := Some(items[0]);
        items := items[1..];
      }
    }

    /** The producer's push policy: try a put; when full, drop one (the oldest) entry instead. */
    method Push(f: Frame) returns (inserted: bool)
      modifies this
      ensures inserted <==> |old(items)| < CAPACITY
      ensures items == Pushed(old(items), f)
    {
      inserted := PutNowait(f);
      if !inserted {
        var dropped := Get();
      }
    }
  }
}
