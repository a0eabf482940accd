/**
 The poster resolver shared by both front-ends: a cache from movie id to image URL,
 consulted first; on a miss, one request to the metadata service whose outcome decides
 the URL, which is then written to the cache under that id.

 The HTTP session, retry policy, timeout and JSON decoding are not modelled; what reaches
 the resolver is their combined outcome, a `FetchOutcome`.
 */
module PosterCache {

  import opened Wrappers

  /** The id-to-URL cache; it only ever grows. */
  type Cache = map<int, string>

  /**
   What the request to the metadata service produced after retries: a decoded body
   with its `poster_path` field (absent or `null` is `None`), a failure of the request
   itself (connection error, timeout, exhausted retries, bad status), or any other
   failure while handling the response.
   */
  datatype FetchOutcome =
    | Ok(posterPath: Option<string>)
    | RequestError
    | OtherError

  /** The URL constants one front-end uses. */
  datatype PosterStyle = PosterStyle(
    imagePrefix: string,
    noPoster: string,
    requestFailed: string,
    otherFailure: string)

  /** The URL a resolver returns, and the cache after the call. */
  datatype Resolution = Resolution(url: string, cache: Cache)

  /** The URL produced for a fresh id from the service's outcome. */
  function UrlFor(style: PosterStyle, outcome: FetchOutcome): (url: string)
    ensures outcome.Ok? && outcome.posterPath.Some? && outcome.posterPath.value != "" ==>
      url == style.imagePrefix + outcome.posterPath.value
    ensures outcome == Ok(None) || outcome == Ok(Some("")) ==> url == style.noPoster
    ensures outcome == RequestError ==> url == style.requestFailed
    ensures outcome == OtherError ==> url == style.otherFailure
  {
    match outcome
    case Ok(Some(path)) => if path != "" then style.imagePrefix + path else style.noPoster
    case Ok(None) => style.noPoster
    case RequestError => style.requestFailed
    case OtherError => style.otherFailure
  }

  /** `fetch_poster(movie_id)`, with the cache passed in and out. */
  function Resolve(cache: Cache, id: int, outcome: FetchOutcome, style: PosterStyle): (r: Resolution)
    ensures id in cache ==> r.url == cache[id] && r.cache == cache
    ensures id !in cache ==> r.url == UrlFor(style, outcome)
    ensures r.cache.Keys == cache.Keys + {id}
    ensures r.cache[id] == r.url
    ensures forall k :: k in cache && k != id ==> r.cache[k] == cache[k]
  {
    if id in cache then Resolution(cache[id], cache)
    else
      var url := UrlFor(style, outcome);
      Resolution(url, cache[id := url])
  }

  /**
   A second call for the same id, whatever the service would answer, returns the same
   URL and leaves the cache as the first call left it.
   */
  lemma ResolveIdempotent(cache: Cache, id: int, first: FetchOutcome, second: FetchOutcome, style: PosterStyle)
    ensures Resolve(Resolve(cache, id, first, style).cache, id, second, style)
         == Resolve(cache, id, first, style)
  {
  }

  /** A resolver never answers with an empty URL when its constants are non-empty. */
  lemma ResolveNonEmpty(cache: Cache, id: int, outcome: FetchOutcome, style: PosterStyle)
    requires forall k :: k in cache ==> cache[k] != ""
    requires style.imagePrefix != "" && style.noPoster != ""
    requires style.requestFailed != "" && style.otherFailure != ""
    ensures Resolve(cache, id, outcome, style).url != ""
  {
  }

  /** The URLs resolved for a batch of ids, in order, and the cache after all of them. */
  datatype Batch = Batch(urls: seq<string>, cache: Cache)

  /**
   Resolves `ids` one after another, threading the cache; the request made for the
   `k`-th id, if any, gets the outcome `net(k)`.
   */
  function ResolveAll(cache: Cache, ids: seq<int>, net: nat -> FetchOutcome, style: PosterStyle): (b: Batch)
    ensures |b.urls| == |ids|
    decreases |ids|
  {
    if ids == [] then Batch([], cache)
    else
      var n := |ids| - 1;
      var prev := ResolveAll(cache, ids[..n], net, style);
      var last := Resolve(prev.cache, ids[n], net(n), style);
      Batch(prev.urls + [last.url], last.cache)
  }

  /** Unfolds one step of `ResolveAll`: the last id is resolved against the cache left by the others. */
  lemma ResolveAllStep(cache: Cache, ids: seq<int>, net: nat -> FetchOutcome, style: PosterStyle)
    requires ids != []
    ensures var n := |ids| - 1;
      var prev := ResolveAll(cache, ids[..n], net, style);
      var last := Resolve(prev.cache, ids[n], net(n), style);
      ResolveAll(cache, ids, net, style) == Batch(prev.urls + [last.url], last.cache)
  {
  }

  /** A batch adds exactly its ids to the cache and leaves every earlier entry as it was. */
  lemma {:induction false} ResolveAllKeys(cache: Cache, ids: seq<int>, net: nat -> FetchOutcome, style: PosterStyle)
    ensures var b := ResolveAll(cache, ids, net, style);
      && (forall k :: k in b.cache <==> k in cache || k in ids)
      && (forall k :: k in cache ==> b.cache[k] == cache[k])
    decreases |ids|
  {
    if ids != [] {
      var n := |ids| - 1;
      var front := ids[..n];
      ResolveAllKeys(cache, front, net, style);
      ResolveAllStep(cache, ids, net, style);
      assert ids == front + [ids[n]];
      var b := ResolveAll(cache, ids, net, style);
      forall k
        ensures k in b.cache <==> k in cache || k in ids
      {
        assert k in ids <==> k in front || k == ids[n];
      }
    }
  }

  /** Every URL of a batch is the one cached for its id at the end of the batch. */
  lemma {:induction false} ResolveAllCached(cache: Cache, ids: seq<int>, net: nat -> FetchOutcome, style: PosterStyle)
    ensures var b := ResolveAll(cache, ids, net, style);
      forall m :: 0 <= m < |ids| ==> ids[m] in b.cache && b.urls[m] == b.cache[ids[m]]
    decreases |ids|
  {
    if ids != [] {
      var n := |ids| - 1;
      var front := ids[..n];
      ResolveAllCached(cache, front, net, style);
      ResolveAllStep(cache, ids, net, style);
      var prev := ResolveAll(cache, front, net, style);
      var b := ResolveAll(cache, ids, net, style);
      forall m | 0 <= m < |ids|
        ensures ids[m] in b.cache && b.urls[m] == b.cache[ids[m]]
      {
        if m < n {
          assert front[m] == ids[m];
          assert b.urls[m] == prev.urls[m];
          assert prev.urls[m] == prev.cache[ids[m]];
        }
      }
    }
  }

  /** An id neither cached before nor seen earlier in the batch gets its own outcome's URL. */
  lemma {:induction false} ResolveAllFresh(cache: Cache, ids: seq<int>, net: nat -> FetchOutcome, style: PosterStyle)
    ensures var b := ResolveAll(cache, ids, net, style);
      forall m :: 0 <= m < |ids| && ids[m] !in cache && ids[m] !in ids[..m] ==>
        b.urls[m] == UrlFor(style, net(m))
    decreases |ids|
  {
    if ids != [] {
      var n := |ids| - 1;
      var front := ids[..n];
      ResolveAllFresh(cache, front, net, style);
      ResolveAllKeys(cache, front, net, style);
      ResolveAllStep(cache, ids, net, style);
      var prev := ResolveAll(cache, front, net, style);
      var b := ResolveAll(cache, ids, net, style);
      forall m | 0 <= m < |ids| && ids[m] !in cache && ids[m] !in ids[..m]
        ensures b.urls[m] == UrlFor(style, net(m))
      {
        if m < n {
          assert front[m] == ids[m];
          assert front[..m] == ids[..m];
          assert b.urls[m] == prev.urls[m];
        } else {
          assert ids[..m] == front;
          assert ids[n] !in prev.cache;
        }
      }
    }
  }

  /**
   After a batch, the cache holds exactly the old keys plus the batch's ids, old entries
   are untouched, every returned URL is what the cache now holds for its id, and an id
   that was neither cached nor seen earlier in the batch got the URL its own outcome decides.
   */
  lemma ResolveAllFacts(cache: Cache, ids: seq<int>, net: nat -> FetchOutcome, style: PosterStyle)
    ensures var b := ResolveAll(cache, ids, net, style);
      && (forall k :: k in b.cache <==> k in cache || k in ids)
      && (forall k :: k in cache ==> b.cache[k] == cache[k])
      && (forall m :: 0 <= m < |ids| ==> ids[m] in b.cache && b.urls[m] == b.cache[ids[m]])
      && (forall m :: 0 <= m < |ids| && ids[m] !in cache && ids[m] !in ids[..m] ==>
            b.urls[m] == UrlFor(style, net(m)))
  {
    ResolveAllKeys(cache, ids, net, style);
    ResolveAllCached(cache, ids, net, style);
    ResolveAllFresh(cache, ids, net, style);
  }

}
