/**
 * The cache bookkeeping of `ChallengeDownloadCachingService`: the persisted `DownloadCache`
 * (image bytes by URL, the last challenge list, the time of the last poll), `copy`, the
 * "needs refresh" rule, cache-first `getImage`, and `downloadAndCacheChallenges`.
 *
 * The network answers are parameters: the CSV body (`None` when the response was not a
 * success) and, for images, a function from URL to the bytes the server would send. The
 * clock is the parameter `now`. The JSON wrapping of the persisted state is taken to be
 * lossless, so the state is kept decoded.
 */
module DownloadCaching {
  import opened Wrappers
  import opened ChallengeSheet

  type Bytes = seq<bv8>

  /** An instant, in whole seconds since the epoch. */
  type Instant = int

  /** `Instant.DISTANT_PAST`, to the second. */
  const DistantPast: Instant := -3217862419201
  const OneMinute: int := 60

  datatype DownloadCache = DownloadCache(imageCache: map<string, Bytes>, challenges: Option<seq<Challenge>>, lastPoll: Instant)
  {
    /** `DownloadCache.copy`: every field not named keeps its current value. */
    function Copy(imageCache: map<string, Bytes> := this.imageCache,
                  challengesCache: Option<seq<Challenge>> := this.challenges,
                  lastPoll: Instant := this.lastPoll): DownloadCache
    {
      DownloadCache(imageCache, challengesCache, lastPoll)
    }
  }

  /** The state the service starts from before anything was persisted. */
  const InitialCache := DownloadCache(map[], None, DistantPast)

  /** A copy that names no field is the cache itself, and each field named replaces only that field. */
  lemma CopyReplacesOnlyNamedFields(c: DownloadCache, images: map<string, Bytes>, cs: Option<seq<Challenge>>, t: Instant)
    ensures c.Copy() == c
    ensures c.Copy(challengesCache := cs, lastPoll := t) == DownloadCache(c.imageCache, cs, t)
    ensures c.Copy(imageCache := images) == DownloadCache(images, c.challenges, c.lastPoll)
  {
  }

  /**
   * The `needsRefresh` computation: the cached list taken only while the last poll is less
   * than a minute old, and a refresh needed when that gives `null`.
   */
  function NeedsRefresh(cache: DownloadCache, now: Instant): (r: bool)
    ensures r <==> cache.challenges.None? || cache.lastPoll + OneMinute <= now
  {
    (if cache.lastPoll + OneMinute > now then cache.challenges else None).None?
  }

  /** The initial cache always needs a refresh. */
  lemma InitialCacheNeedsRefresh(now: Instant)
    ensures NeedsRefresh(InitialCache, now)
  {
  }

  /** `map[key]`: the entry for `key`, `None` (Kotlin's `null`) when there is none. */
  function Lookup(m: map<string, Bytes>, key: string): Option<Bytes> {
    if key in m then Some(m[key]) else None
  }

  /** The image cache after `getImage(url)` when the server would answer `download`. */
  function Cached(images: map<string, Bytes>, url: string, download: Option<Bytes>): (r: map<string, Bytes>)
    ensures url in images ==> r == images
    ensures url !in images && download.Some? ==> r == images[url := download.value]
    ensures url !in images && download.None? ==> r == images
  {
    if url in images then images
    else if download.Some? then images[url := download.value]
    else images
  }

  /** Some URL of `urls` is not cached in `images` and the server answers it, so `hydrateImages` stores a download. */
  predicate StoresSome(images: map<string, Bytes>, urls: seq<string>, fetch: string -> Option<Bytes>) {
    exists u :: u in urls && u !in images && fetch(u).Some?
  }

  /** The image cache after `getImage` was called for each of `urls` in turn. */
  function Hydrated(images: map<string, Bytes>, urls: seq<string>, fetch: string -> Option<Bytes>): map<string, Bytes>
    decreases |urls|
  {
    if urls == [] then images else Hydrated(Cached(images, urls[0], fetch(urls[0])), urls[1..], fetch)
  }

  /**
   * Hydrating never drops or replaces a cached image, adds exactly the URLs that were asked
   * for, were not cached and that the server answers, and stores what the server sent.
   */
  lemma {:induction false} HydratedContents(images: map<string, Bytes>, urls: seq<string>, fetch: string -> Option<Bytes>)
    ensures Hydrated(images, urls, fetch).Keys == images.Keys + (set u | u in urls && fetch(u).Some?)
    ensures forall u :: u in images ==> Hydrated(images, urls, fetch)[u] == images[u]
    ensures forall u :: u in Hydrated(images, urls, fetch) && u !in images ==> fetch(u) == Some(Hydrated(images, urls, fetch)[u])
    decreases |urls|
  {
    if urls != [] {
      var next := Cached(images, urls[0], fetch(urls[0]));
      HydratedContents(next, urls[1..], fetch);
      assert forall u :: u in urls <==> u == urls[0] || u in urls[1..];
    }
  }

  /** Hydrating adds an image exactly when some URL asked for is not cached and is answered. */
  lemma HydratedStoresSome(images: map<string, Bytes>, urls: seq<string>, fetch: string -> Option<Bytes>)
    ensures Hydrated(images, urls, fetch).Keys != images.Keys <==> StoresSome(images, urls, fetch)
  {
    HydratedContents(images, urls, fetch);
    if StoresSome(images, urls, fetch) {
      var u :| u in urls && u !in images && fetch(u).Some?;
      assert u in Hydrated(images, urls, fetch).Keys;
    }
  }

  /** What `downloadChallenges` comes back with. */
  datatype Download =
    | Downloaded(challenges: seq<Challenge>)
    | NotDownloaded(error: Option<string>)   // `null`; `error` is what was passed to `onError`, if anything
    | Crashed                                // an exception escaped the row mapping

  /**
   * `downloadChallenges` once the HTTP response is known: `None` for a response that was not
   * a success (logged, not reported through `onError`), otherwise the body's row mapping.
   */
  function DownloadChallenges(response: Option<string>): (r: Download)
    ensures response.None? ==> r == NotDownloaded(None)
    ensures r.Downloaded? ==> response.Some? && ParseSheet(response.value) == Parsed(r.challenges)
    ensures r.NotDownloaded? && r.error.Some? ==> response.Some? && ParseSheet(response.value) == Reported(r.error.value)
    ensures response.Some? ==> (r.Downloaded? <==> ParseSheet(response.value).Parsed?)
    ensures response.Some? && ParseSheet(response.value).Reported? ==> r == NotDownloaded(Some(ParseSheet(response.value).message))
    ensures response.Some? && ParseSheet(response.value).Threw? ==> r == Crashed
  {
    match response
    case None => NotDownloaded(None)
    case Some(body) =>
      match ParseSheet(body)
      case Parsed(cs) => Downloaded(cs)
      case Reported(msg) => NotDownloaded(Some(msg))
      case Threw => Crashed
  }

  /** A sheet written from valid rows downloads as one challenge per row. */
  lemma DownloadFormattedSheet(header: string, rows: seq<SheetRow>)
    requires '\n' !in header && '\r' !in header
    requires forall i :: 0 <= i < |rows| ==> ValidRow(rows[i])
    ensures DownloadChallenges(Some(FormatSheet(header, rows)))
         == Downloaded(seq(|rows|, i requires 0 <= i < |rows| => ChallengeOf(rows[i])))
  {
    SheetRoundTrip(header, rows);
  }

  /** The URLs of the images of a challenge list, in order. */
  function ImageUrls(cs: seq<Challenge>): seq<string> {
    seq(|cs|, i requires 0 <= i < |cs| => cs[i].imageUrl)
  }

  class ChallengeDownloadCachingService {
    /** The persisted state (`state.asRealState()`). */
    var state: DownloadCache
    /** The `challenges` state flow that subscribers collect. */
    var challenges: Option<seq<Challenge>>

    /**
     * The published list is either still the initial `null` or the list of the persisted
     * state, because only `updateRealState` writes it.
     */
    predicate Valid()
      reads this
    {
      challenges.None? || challenges == state.challenges
    }

    /** A new service over what the IDE persisted, or over the initial cache when nothing was. */
    constructor(persisted: Option<DownloadCache>)
      ensures state == (if persisted.Some? then persisted.value else InitialCache)
      ensures challenges == None
      ensures Valid()
    {
      state := if persisted.Some? then persisted.value else InitialCache;
      challenges := None;
    }

    /**
     * What a new subscriber sees first and whether it starts a refresh: the cached list, and
     * `true` exactly when that list is absent or at least a minute old.
     */
    function Subscribe(now: Instant): (r: (Option<seq<Challenge>>, bool))
      reads this
      ensures r.0 == state.challenges
      ensures r.1 <==> state.challenges.None? || state.lastPoll + OneMinute <= now
    {
      (state.challenges, NeedsRefresh(state, now))
    }

    /** `updateRealState`: replace the state by `action` of it and publish its challenge list. */
    method UpdateRealState(action: DownloadCache -> DownloadCache)
      modifies this
      ensures state == action(old(state))
      ensures challenges == state.challenges
      ensures Valid()
    {
      state := action(state);
      challenges := state.challenges;
    }

    /**
     * `getImage(url)` when the server would answer `download`: the cached bytes without a
     * download when the URL is cached; otherwise the download, stored under the URL when there
     * is one, and the cache's entry for the URL (none) when there is not.
     */
    method GetImage(url: string, download: Option<Bytes>) returns (image: Option<Bytes>)
      requires Valid()
      modifies this
      ensures Valid()
      ensures url in old(state.imageCache) ==> image == Some(old(state.imageCache)[url]) && state == old(state)
      ensures url !in old(state.imageCache) ==> image == download
      ensures state.imageCache == Cached(old(state.imageCache), url, download)
      ensures state.challenges == old(state.challenges) && state.lastPoll == old(state.lastPoll)
      ensures url !in old(state.imageCache) && download.Some? ==> challenges == state.challenges
      ensures !(url !in old(state.imageCache) && download.Some?) ==> challenges == old(challenges)
    {
      if url in state.imageCache {
        return Some(state.imageCache[url]);
      }
      if download.Some? {
        UpdateRealState((c: DownloadCache) => c.Copy(imageCache := c.imageCache[url := download.value]));
        image := download;
      } else {
        image := Lookup(state.imageCache, url);
      }
    }

    /**
     * `hydrateImages`: `getImage` for every URL, one after the other. The challenge list is
     * published again exactly when one of the downloads was stored.
     */
    method HydrateImages(urls: seq<string>, fetch: string -> Option<Bytes>)
      requires Valid()
      modifies this
      ensures Valid()
      ensures state.imageCache == Hydrated(old(state.imageCache), urls, fetch)
      ensures state.challenges == old(state.challenges) && state.lastPoll == old(state.lastPoll)
      ensures StoresSome(old(state.imageCache), urls, fetch) ==> challenges == state.challenges
      ensures !StoresSome(old(state.imageCache), urls, fetch) ==> challenges == old(challenges)
    {
      var i := 0;
      while i < |urls|
        invariant 0 <= i <= |urls| && Valid()
        invariant Hydrated(state.imageCache, urls[i..], fetch) == Hydrated(old(state.imageCache), urls, fetch)
        invariant state.challenges == old(state.challenges) && state.lastPoll == old(state.lastPoll)
        invariant old(state.imageCache).Keys <= state.imageCache.Keys
        invariant state.imageCache.Keys == old(state.imageCache).Keys ==> challenges == old(challenges)
        invariant state.imageCache.Keys != old(state.imageCache).Keys ==> challenges == state.challenges
      {
        assert urls[i..][1..] == urls[i + 1..];
        var _ := GetImage(urls[i], fetch(urls[i]));
        i := i + 1;
      }
      HydratedStoresSome(old(state.imageCache), urls, fetch);
    }

    /**
     * `downloadAndCacheChallenges` at time `now`: on a successful download the new list and
     * `now` replace the cached list and the last poll, the list is published, and the images of
     * the new challenges are fetched; otherwise nothing changes.
     */
    method DownloadAndCacheChallenges(response: Option<string>, now: Instant, fetch: string -> Option<Bytes>)
      returns (outcome: Download)
      requires Valid()
      modifies this
      ensures Valid()
      ensures outcome == DownloadChallenges(response)
      ensures outcome.Downloaded? ==>
        && state.challenges == Some(outcome.challenges)
        && challenges == state.challenges
        && state.lastPoll == now
        && state.imageCache == Hydrated(old(state.imageCache), ImageUrls(outcome.challenges), fetch)
      ensures !outcome.Downloaded? ==> state == old(state) && challenges == old(challenges)
    {
      outcome := DownloadChallenges(response);
      if outcome.Downloaded? {
        var cs := outcome.challenges;
        UpdateRealState((c: DownloadCache) => c.Copy(challengesCache := Some(cs), lastPoll := now));
        HydrateImages(ImageUrls(cs), fetch);
      }
    }

    /** `hydrateFreshCaches`: whether the download succeeded. */
    method HydrateFreshCaches(response: Option<string>, now: Instant, fetch: string -> Option<Bytes>)
      returns (succeeded: bool, outcome: Download)
      requires Valid()
      modifies this
      ensures Valid()
      ensures outcome == DownloadChallenges(response)
      ensures succeeded <==> outcome.Downloaded?
      ensures succeeded ==> state.challenges == Some(outcome.challenges) && challenges == state.challenges
      ensures succeeded ==> state.lastPoll == now
      ensures succeeded ==> state.imageCache == Hydrated(old(state.imageCache), ImageUrls(outcome.challenges), fetch)
      ensures succeeded ==> !NeedsRefresh(state, now) && NeedsRefresh(state, now + OneMinute)
      ensures !succeeded ==> state == old(state) && challenges == old(challenges)
    {
      outcome := DownloadAndCacheChallenges(response, now, fetch);
      succeeded := outcome.Downloaded?;
    }
  }

  /**
   * A refresh whose download succeeds publishes the downloaded list, keeps every image that
   * was cached, and leaves the cache fresh for exactly one minute.
   */
  method RefreshScenario(persisted: DownloadCache, response: Option<string>, now: Instant,
                         fetch: string -> Option<Bytes>)
    returns (service: ChallengeDownloadCachingService)
    requires DownloadChallenges(response).Downloaded?
    ensures service.challenges == Some(DownloadChallenges(response).challenges)
    ensures forall u :: u in persisted.imageCache ==>
                          u in service.state.imageCache && service.state.imageCache[u] == persisted.imageCache[u]
    ensures forall t :: NeedsRefresh(service.state, t) <==> now + OneMinute <= t
  {
    service := new ChallengeDownloadCachingService(Some(persisted));
    var ok, outcome := service.HydrateFreshCaches(response, now, fetch);
    HydratedContents(persisted.imageCache, ImageUrls(outcome.challenges), fetch);
  }
}
