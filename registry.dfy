/**
 * The stream registry: the process-wide table from stream id to that stream's
 * frame queue and capture worker, plus the shared placeholder cache. Starting a
 * stream installs a fresh empty queue and records a new worker; the start-up pass
 * skips ids that already have a queue.
 */
module Registry {
  import opened Options
  import opened Frames
  import opened Placeholder
  import opened FrameQueues
  import opened Capture

  /** The configured stream ids, in configuration order. */
  const CONFIGURED_IDS: seq<string> := ["stream1", "stream2", "stream3"]

  /** The environment variable holding each configured stream's source, in the same order. */
  const URL_VARIABLES: seq<string> := ["RTSP_STREAM1", "RTSP_STREAM2", "RTSP_STREAM3"]

  /** The configured sources: each configured id maps to its variable's value, `None` when unset. */
  function RtspUrls(env: map<string, string>): (urls: map<string, Option<string>>)
    ensures urls.Keys == Members(CONFIGURED_IDS)
    ensures forall i :: 0 <= i < |CONFIGURED_IDS| ==>
      urls[CONFIGURED_IDS[i]] == (if URL_VARIABLES[i] in env then Some(env[URL_VARIABLES[i]]) else None)
  {
    map i | 0 <= i < |CONFIGURED_IDS| :: CONFIGURED_IDS[i] := if URL_VARIABLES[i] in env then Some(env[URL_VARIABLES[i]]) else None
  }

  ghost predicate Distinct(ids: seq<string>)
  {
    forall i, j :: 0 <= i < j < |ids| ==> ids[i] != ids[j]
  }

  lemma ConfiguredIdsDistinct()
    ensures Distinct(CONFIGURED_IDS)
  {
  }

  /** The ids occurring in `ids`. */
  function Members(ids: seq<string>): (r: set<string>)
    ensures forall x :: x in r <==> x in ids
  {
    set x | x in ids
  }

  lemma PrefixSnoc(ids: seq<string>, i: nat)
    requires Distinct(ids) && i < |ids|
    ensures ids[..i + 1] == ids[..i] + [ids[i]] && ids[i] !in ids[..i]
  {
  }

  lemma MembersSnoc(ids: seq<string>, id: string)
    ensures Members(ids + [id]) == Members(ids) + {id}
  {
  }

  /** The ids of `ids` that are not in `present`, in order: those a start-up pass starts. */
  function Unstarted(ids: seq<string>, present: set<string>): (r: seq<string>)
    ensures forall x :: x in r <==> x in ids && x !in present
    decreases |ids|
  {
    if ids == [] then []
    else if ids[0] in present then Unstarted(ids[1..], present)
    else [ids[0]] + Unstarted(ids[1..], present)
  }

  /** Nothing is left to start once every id is present: initialisation is idempotent. */
  lemma {:induction false} UnstartedAfterInit(ids: seq<string>, present: set<string>)
    ensures Unstarted(ids, present + Members(ids)) == []
    decreases |ids|
  {
    if ids != [] {
      assert ids[0] in present + Members(ids);
      UnstartedAfterInit(ids[1..], present + Members(ids));
      assert present + Members(ids) + Members(ids[1..]) == present + Members(ids);
    }
  }

  /** A pass over an empty table starts every id, in order. */
  lemma {:induction false} UnstartedAllAbsent(ids: seq<string>)
    ensures Unstarted(ids, {}) == ids
    decreases |ids|
  {
    if ids != [] {
      UnstartedAllAbsent(ids[1..]);
    }
  }

  lemma NothingToStart(ids: seq<string>, present: set<string>)
    requires Members(ids) <= present
    ensures Unstarted(ids, present) == [] && present + Members(ids) == present
  {
  }

  lemma SameEntries<V>(m: map<string, V>, m': map<string, V>)
    requires m'.Keys == m.Keys && forall k :: k in m ==> m'[k] == m[k]
    ensures m' == m
  {
  }

  lemma UnstartedSnoc(ids: seq<string>, present: set<string>, id: string)
    ensures Unstarted(ids + [id], present) ==
      Unstarted(ids, present) + (if id in present then [] else [id])
    decreases |ids|
  {
    if ids == [] {
      assert ids + [id] == [id];
    } else {
      assert (ids + [id])[1..] == ids[1..] + [id];
      UnstartedSnoc(ids[1..], present, id);
    }
  }

  /** A stream's two halves: its frame queue and the worker that fills it. */
  datatype Stream = Stream(queue: FrameQueue, worker: CaptureWorker)

  /** A just-started stream: its queue is empty and its worker, for `url`, has not yet tried to connect. */
  ghost predicate Idle(s: Stream, id: string, url: Option<string>)
    reads s.queue, s.worker
  {
    s.queue.items == [] && s.worker.streamId == id && s.worker.url == url && s.worker.mode == Connecting
  }

  /**
   * The start-up pass after its first `i` ids, from table `before`: `started` lists
   * the ids it started, the table gained exactly the ids seen so far, and no earlier
   * entry changed.
   */
  ghost predicate Progress(ids: seq<string>, i: nat, before: map<string, Stream>, started: seq<string>,
                           streams: map<string, Stream>, cacheBefore: Option<Frame>, asset: Asset, cached: Option<Frame>)
  {
    && CacheDuringPass(started, cacheBefore, asset, cached)
    && i <= |ids|
    && started == Unstarted(ids[..i], before.Keys)
    && streams.Keys == before.Keys + Members(ids[..i])
    && forall k :: k in before ==> streams[k] == before[k]
  }

  /**
   * The placeholder cache during the start-up pass, from `before`: unchanged while
   * nothing has been started, and loaded once from `asset` after the first start.
   */
  ghost predicate CacheDuringPass(started: seq<string>, before: Option<Frame>, asset: Asset, cached: Option<Frame>)
  {
    cached == if started == [] then before else AfterLoad(before, asset)
  }

  /** Starting one more id loads the cache again, which changes it only if nothing was started yet. */
  lemma CacheAfterStart(started: seq<string>, id: string, before: Option<Frame>, asset: Asset, cached: Option<Frame>)
    requires CacheDuringPass(started, before, asset, cached)
    ensures CacheDuringPass(started + [id], before, asset, AfterLoad(cached, asset))
  {
  }

  /** Starting the `i`-th id, absent so far, advances the pass by one id. */
  lemma ProgressStarting(ids: seq<string>, i: nat, before: map<string, Stream>, started: seq<string>,
                         streams: map<string, Stream>, s: Stream, cacheBefore: Option<Frame>, asset: Asset,
                         cached: Option<Frame>)
    requires Distinct(ids) && i < |ids| && ids[i] !in streams
    requires Progress(ids, i, before, started, streams, cacheBefore, asset, cached)
    ensures Progress(ids, i + 1, before, started + [ids[i]], streams[ids[i] := s], cacheBefore, asset,
                     AfterLoad(cached, asset))
  {
    CacheAfterStart(started, ids[i], cacheBefore, asset, cached);
    PrefixSnoc(ids, i);
    UnstartedSnoc(ids[..i], before.Keys, ids[i]);
    MembersSnoc(ids[..i], ids[i]);
  }

  /** Skipping the `i`-th id, which already has a queue, advances the pass by one id. */
  lemma ProgressSkipping(ids: seq<string>, i: nat, before: map<string, Stream>, started: seq<string>,
                         streams: map<string, Stream>, cacheBefore: Option<Frame>, asset: Asset, cached: Option<Frame>)
    requires Distinct(ids) && i < |ids| && ids[i] in streams
    requires Progress(ids, i, before, started, streams, cacheBefore, asset, cached)
    ensures Progress(ids, i + 1, before, started, streams, cacheBefore, asset, cached)
  {
    PrefixSnoc(ids, i);
    UnstartedSnoc(ids[..i], before.Keys, ids[i]);
    MembersSnoc(ids[..i], ids[i]);
  }

  /**
   * A finished pass: it started exactly the absent ids, in order, the table gained
   * exactly the ids, and when every id was already present nothing changed at all.
   */
  lemma PassComplete(ids: seq<string>, before: map<string, Stream>, started: seq<string>,
                     streams: map<string, Stream>, cacheBefore: Option<Frame>, asset: Asset, cached: Option<Frame>)
    requires Progress(ids, |ids|, before, started, streams, cacheBefore, asset, cached)
    ensures started == Unstarted(ids, before.Keys)
    ensures streams.Keys == before.Keys + Members(ids)
    ensures forall k :: k in before ==> streams[k] == before[k]
    ensures Members(ids) <= before.Keys ==> started == [] && streams == before
    ensures cached == if started == [] then cacheBefore else AfterLoad(cacheBefore, asset)
  {
    assert ids[..|ids|] == ids;
    if Members(ids) <= before.Keys {
      NothingToStart(ids, before.Keys);
      SameEntries(before, streams);
    }
  }

  class StreamRegistry {
    var streams: map<string, Stream>
    const errorFrame: ErrorFrameCache

    /** A started stream implies a loaded placeholder. */
    ghost predicate Valid()
      reads this, errorFrame
    {
      streams != map[] ==> errorFrame.cached.Some?
    }

    constructor ()
      ensures Valid() && fresh(errorFrame)
      ensures streams == map[] && errorFrame.cached == None
    {
      streams := map[];
      errorFrame := new ErrorFrameCache();
    }

    /**
     * Loads the placeholder, installs a fresh empty queue for `id` (replacing any
     * earlier one) and records a new worker for it, not yet connected.
     */
    method StartCaptureThread(id: string, url: Option<string>, asset: Asset)
      requires Valid()
      modifies this, errorFrame
      ensures Valid()
      ensures id in streams && streams == old(streams)[id := streams[id]]
      ensures fresh(streams[id].queue) && fresh(streams[id].worker) && Idle(streams[id], id, url)
      ensures errorFrame.cached == AfterLoad(old(errorFrame.cached), asset)
    {
      var loaded := errorFrame.Load(asset);
      var q := new FrameQueue();
      var w := new CaptureWorker(id, url);
      streams := streams[id := Stream(q, w)];
    }

    /**
     * The start-up pass's step for the `i`-th id: starts it only when it has no
     * queue yet, and records it in `started` when it does.
     */
    method InitStep(ids: seq<string>, i: nat, urls: map<string, Option<string>>, asset: Asset,
                    ghost before: map<string, Stream>, ghost cacheBefore: Option<Frame>, started: seq<string>)
      returns (started': seq<string>)
      requires Valid() && Distinct(ids) && i < |ids| && Members(ids) <= urls.Keys
      requires Progress(ids, i, before, started, streams, cacheBefore, asset, errorFrame.cached)
      modifies this, errorFrame
      ensures Valid() && Progress(ids, i + 1, before, started', streams, cacheBefore, asset, errorFrame.cached)
      ensures forall k :: k in old(streams) ==> k in streams && streams[k] == old(streams[k])
      ensures forall k :: k in streams && k !in old(streams) ==> k in urls && Idle(streams[k], k, urls[k])
      ensures started' == started ==> errorFrame.cached == old(errorFrame.cached)
    {
      var id := ids[i];
      if id !in streams {
        StartCaptureThread(id, urls[id], asset);
        started' := started + [id];
        ProgressStarting(ids, i, before, started, old(streams), streams[id], cacheBefore, asset, old(errorFrame.cached));
      } else {
        started' := started;
        ProgressSkipping(ids, i, before, started, streams, cacheBefore, asset, errorFrame.cached);
      }
    }

    /**
     * The start-up pass: `ids` are the configuration's stream ids in order and
     * `urls` their sources. In order, it starts a worker for each id that has no
     * queue yet and returns the ids it started.
     */
    method InitStreams(ids: seq<string>, urls: map<string, Option<string>>, asset: Asset) returns (started: seq<string>)
      requires Valid() && Distinct(ids) && Members(ids) <= urls.Keys
      modifies this, errorFrame
      ensures Valid()
      ensures started == Unstarted(ids, old(streams.Keys))
      ensures streams.Keys == old(streams.Keys) + Members(ids)
      ensures forall id :: id in old(streams) ==> streams[id] == old(streams[id])
      ensures forall id :: id in streams && id !in old(streams) ==> id in urls && Idle(streams[id], id, urls[id])
      ensures Members(ids) <= old(streams.Keys) ==> started == [] && streams == old(streams)
      ensures errorFrame.cached == if started == [] then old(errorFrame.cached) else AfterLoad(old(errorFrame.cached), asset)
    {
      started := [];
      for i := 0 to |ids|
        invariant Valid() && Progress(ids, i, old(streams), started, streams, old(errorFrame.cached), asset, errorFrame.cached)
        invariant forall k :: k in streams && k !in old(streams) ==> k in urls && Idle(streams[k], k, urls[k])
      {
        started := InitStep(ids, i, urls, asset, old(streams), old(errorFrame.cached), started);
      }
      PassComplete(ids, old(streams), started, streams, old(errorFrame.cached), asset, errorFrame.cached);
    }

    /**
     * The start-up pass over the configured streams, with sources read from `env`.
     * A second pass finds every configured id present and starts nothing.
     */
    method InitConfiguredStreams(env: map<string, string>, asset: Asset) returns (started: seq<string>)
      requires Valid()
      modifies this, errorFrame
      ensures Valid()
      ensures started == Unstarted(CONFIGURED_IDS, old(streams.Keys))
      ensures streams.Keys == old(streams.Keys) + Members(CONFIGURED_IDS)
      ensures forall id :: id in old(streams) ==> streams[id] == old(streams[id])
      ensures forall id :: id in streams && id !in old(streams) ==>
        id in RtspUrls(env) && Idle(streams[id], id, RtspUrls(env)[id])
      ensures Members(CONFIGURED_IDS) <= old(streams.Keys) ==> started == [] && streams == old(streams)
      ensures errorFrame.cached == if started == [] then old(errorFrame.cached) else AfterLoad(old(errorFrame.cached), asset)
    {
      ConfiguredIdsDistinct();
      started := InitStreams(CONFIGURED_IDS, RtspUrls(env), asset);
    }

    /**
     * One capture-loop iteration of worker `w`. The queue is looked up by the
     * worker's stream id on every iteration, as the loop does.
     */
    method CaptureStep(w: CaptureWorker, result: Option<Frame>) returns (offered: Frame)
      requires Valid() && w.streamId in streams && w.mode != Connecting
      modifies streams[w.streamId].queue
      ensures offered == OfferedFrame(w.mode, result, errorFrame.cached.value)
      ensures streams[w.streamId].queue.items == Pushed(old(streams[w.streamId].queue.items), offered)
    {
      var q := streams[w.streamId].queue;
      var inserted;
      offered, inserted := w.Step(q, errorFrame.cached.value, result);
    }
  }

  /**
   * Initialising twice: the second pass starts nothing and leaves the table and the
   * placeholder cache as the first pass left them (`afterFirst`, `cacheAfterFirst`).
   */
  method InitStreamsTwice(registry: StreamRegistry, ids: seq<string>, urls: map<string, Option<string>>, asset: Asset)
    returns (first: seq<string>, second: seq<string>,
             ghost afterFirst: map<string, Stream>, ghost cacheAfterFirst: Option<Frame>)
    requires registry.Valid() && Distinct(ids) && Members(ids) <= urls.Keys
    modifies registry, registry.errorFrame
    ensures registry.Valid()
    ensures first == Unstarted(ids, old(registry.streams.Keys))
    ensures afterFirst.Keys == old(registry.streams.Keys) + Members(ids)
    ensures second == [] && registry.streams == afterFirst && registry.errorFrame.cached == cacheAfterFirst
  {
    first := registry.InitStreams(ids, urls, asset);
    afterFirst, cacheAfterFirst := registry.streams, registry.errorFrame.cached;
    second := registry.InitStreams(ids, urls, asset);
  }

  /**
   * Process start-up: a new registry and one pass over the configuration's ids
   * `ids` with sources `urls`. Every id then has an idle stream, and the placeholder
   * is the one the asset gives.
   */
  method StartUp(ids: seq<string>, urls: map<string, Option<string>>, asset: Asset)
    returns (registry: StreamRegistry, started: seq<string>)
    requires ids != [] && Distinct(ids) && Members(ids) <= urls.Keys
    ensures fresh(registry) && fresh(registry.errorFrame) && registry.Valid()
    ensures started == ids && registry.streams.Keys == Members(ids)
    ensures forall id :: id in registry.streams ==> id in urls && Idle(registry.streams[id], id, urls[id])
    ensures registry.errorFrame.cached == Some(FromAsset(asset))
  {
    registry := new StreamRegistry();
    assert registry.streams.Keys == {};
    started := registry.InitStreams(ids, urls, asset);
    UnstartedAllAbsent(ids);
  }
}
