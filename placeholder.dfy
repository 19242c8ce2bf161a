/**
 * The placeholder ("camera unavailable") frame: loaded once from a static asset,
 * or synthesised when the asset is missing or cannot be decoded, then cached for
 * the rest of the process.
 */
module Placeholder {
  import opened Options
  import opened Frames

  const FALLBACK_HEIGHT: nat := 480
  const FALLBACK_WIDTH: nat := 640
  const FALLBACK_CHANNELS: nat := 3
  const UNAVAILABLE_LABEL: string := "Камера недоступна"

  /** The synthesised frame: a black 480x640x3 raster with a green label at (150, 240). */
  const FALLBACK: Frame :=
    Frame(FALLBACK_HEIGHT, FALLBACK_WIDTH, FALLBACK_CHANNELS,
          LabelledBlank(UNAVAILABLE_LABEL, 150, 240, 1, Bgr(0, 255, 0), 2))

  /** What probing the static asset path yields: no file, a file the decoder rejects, or an image. */
  datatype Asset = Missing | Undecodable | Image(frame: Frame)

  /** The frame the first load produces from what the asset probe found. */
  function FromAsset(asset: Asset): (f: Frame)
    ensures asset.Image? ==> f == asset.frame
    ensures !asset.Image? ==>
      f.height == FALLBACK_HEIGHT && f.width == FALLBACK_WIDTH && f.channels == FALLBACK_CHANNELS &&
      f.pixels.LabelledBlank? && f.pixels.text == UNAVAILABLE_LABEL
  {
    match asset
    case Image(frame) => frame
    case _ => FALLBACK
  }

  /** The cache after one load: an empty cache is filled from the asset, a set one is kept. */
  function AfterLoad(cached: Option<Frame>, asset: Asset): (r: Option<Frame>)
    ensures r.Some?
    ensures cached.Some? ==> r == cached
    ensures cached.None? ==> r == Some(FromAsset(asset))
  {
    if cached.Some? then cached else Some(FromAsset(asset))
  }

  /** The cache is set at most once: further loads, whatever they probe, change nothing. */
  lemma AfterLoadSettles(cached: Option<Frame>, first: Asset, second: Asset)
    ensures AfterLoad(AfterLoad(cached, first), second) == AfterLoad(cached, first)
  {
  }

  /** The process-wide cached placeholder; `cached == None` until the first load. */
  class ErrorFrameCache {
    var cached: Option<Frame>

    constructor ()
      ensures cached == None
    {
      cached := None;
    }

    /**
     * Returns the cached frame; on the first call, fills the cache from the asset.
     * It never fails, and once the cache is set it is never changed.
     */
    method Load(asset: Asset) returns (f: Frame)
      modifies this
      ensures cached == Some(f)
      ensures old(cached).Some? ==> f == old(cached).value
      ensures old(cached).None? ==> f == FromAsset(asset)
    {
      if cached.None? {
        cached := Some(FromAsset(asset));
      }
      f := cached.value;
    }
  }

  /** Loading twice yields the same frame, whatever the second probe finds. */
  method LoadTwice(cache: ErrorFrameCache, first: Asset, second: Asset) returns (f1: Frame, f2: Frame)
    modifies cache
    ensures f1 == f2 && cache.cached == Some(f1)
    ensures old(cache.cached).None? ==> f1 == FromAsset(first)
  {
    f1 := cache.Load(first);
    f2 := cache.Load(second);
  }
}
