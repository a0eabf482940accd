/**
 The Streamlit front-end: its `fetch_poster`, which tells request failures apart from
 other failures, and `recommend`, which returns the titles and posters of the ranked
 movies as two aligned lists. The session-state cache is passed in and out explicitly.
 */
module StreamlitApp {

  import opened Wrappers
  import opened StableSort
  import opened Ranking
  import opened PosterCache
  import App

  /** Ends in a slash, unlike the Flask front-end's prefix. */
  const ImagePrefix := "https://image.tmdb.org/t/p/w500/"
  const NoPoster := "https://via.placeholder.com/500x750?text=No+Poster+Available"
  const PosterUnavailable := "https://via.placeholder.com/500x750?text=Poster+Unavailable"
  const ErrorLoading := "https://via.placeholder.com/500x750?text=Error+Loading+Poster"

  const Style := PosterStyle(ImagePrefix, NoPoster, PosterUnavailable, ErrorLoading)

  /** `fetch_poster(movie_id)`. */
  function FetchPoster(cache: Cache, id: int, outcome: FetchOutcome): (r: Resolution)
    ensures id in cache ==> r.url == cache[id] && r.cache == cache
    ensures id !in cache ==> r.cache == cache[id := r.url]
    ensures id !in cache && outcome.Ok? && outcome.posterPath.Some? && outcome.posterPath.value != "" ==>
      r.url == ImagePrefix + outcome.posterPath.value
    ensures id !in cache && (outcome == Ok(None) || outcome == Ok(Some(""))) ==> r.url == NoPoster
    ensures id !in cache && outcome == RequestError ==> r.url == PosterUnavailable
    ensures id !in cache && outcome == OtherError ==> r.url == ErrorLoading
  {
    Resolve(cache, id, outcome, Style)
  }

  /** A second `fetch_poster` for the same id returns the first answer and changes nothing. */
  lemma FetchPosterIdempotent(cache: Cache, id: int, first: FetchOutcome, second: FetchOutcome)
    ensures var r := FetchPoster(cache, id, first);
      FetchPoster(r.cache, id, second) == r
  {
    ResolveIdempotent(cache, id, first, second, Style);
  }

  /**
   On a fresh id the three kinds of outcome give three different placeholders, and a
   request failure is never confused with any other failure.
   */
  lemma PlaceholdersDistinct(cache: Cache, id: int)
    requires id !in cache
    ensures FetchPoster(cache, id, RequestError).url != FetchPoster(cache, id, OtherError).url
    ensures FetchPoster(cache, id, Ok(None)).url != FetchPoster(cache, id, RequestError).url
    ensures FetchPoster(cache, id, Ok(None)).url != FetchPoster(cache, id, OtherError).url
  {
    assert PosterUnavailable[41] != ErrorLoading[41];
    assert NoPoster[41] != PosterUnavailable[41];
    assert NoPoster[41] != ErrorLoading[41];
  }

  /** The index of the queried title's row; the source requires it to exist. */
  function QueryRow(ds: Dataset, title: string): (i: nat)
    requires exists j :: 0 <= j < |ds.movies| && ds.movies[j].title == title
    ensures i < |ds.movies| && ds.movies[i].title == title
    ensures forall j :: 0 <= j < i ==> ds.movies[j].title != title
  {
    FirstIndexOf(ds.movies, title).value
  }

  /**
   The movie rows `recommend` walks through: the rows of the columns ranked second to
   sixth in the queried row, `min(5, n - 1)` of them for `n` movies.
   */
  function RecommendedRows(ds: Dataset, title: string): (rows: seq<Movie>)
    requires WellFormed(ds)
    requires exists j :: 0 <= j < |ds.movies| && ds.movies[j].title == title
    ensures |rows| == Min(ResultCount, |ds.movies| - 1)
    ensures var ranked := Ranked(ds.similarity[QueryRow(ds, title)]);
      forall k :: 0 <= k < |rows| ==>
        ranked[k + 1].index < |ds.movies| && rows[k] == ds.movies[ranked[k + 1].index]
  {
    var row := ds.similarity[QueryRow(ds, title)];
    var kept := Kept(row);
    KeptFacts(row);
    var rows := seq(|kept|, k requires 0 <= k < |kept| => ds.movies[kept[k].index]);
    assert forall k :: 0 <= k < |rows| ==> kept[k] == Ranked(row)[k + 1] && rows[k] == ds.movies[kept[k].index];
    rows
  }

  /** The ids of a list of movie rows, in order. */
  function IdsOf(rows: seq<Movie>): (ids: seq<int>)
  {
    seq(|rows|, k requires 0 <= k < |rows| => rows[k].movieId)
  }

  /**
   The loop of `recommend` that calls `fetch_poster` for each id in turn. Every id ends up
   cached, each returned URL is the one now cached for its id, entries cached before are
   untouched, and no other key is added.
   */
  method FetchPosters(cache: Cache, ids: seq<int>, net: nat -> FetchOutcome)
    returns (posters: seq<string>, cache': Cache)
    ensures |posters| == |ids|
    ensures forall k :: 0 <= k < |ids| ==> ids[k] in cache' && posters[k] == cache'[ids[k]]
    ensures forall id :: id in cache' <==> id in cache || id in ids
    ensures forall id :: id in cache ==> cache'[id] == cache[id]
    ensures forall k :: 0 <= k < |ids| && ids[k] !in cache && ids[k] !in ids[..k] ==>
      posters[k] == UrlFor(Style, net(k))
  {
    posters, cache' := [], cache;
    var n := 0;
    while n < |ids|
      invariant n <= |ids|
      invariant posters == ResolveAll(cache, ids[..n], net, Style).urls
      invariant cache' == ResolveAll(cache, ids[..n], net, Style).cache
    {
      var r := FetchPoster(cache', ids[n], net(n));
      ghost var front := ids[..n + 1];
      assert front[..n] == ids[..n] && front[n] == ids[n];
      posters := posters + [r.url];
      cache' := r.cache;
      n := n + 1;
    }
    assert ids[..n] == ids;
    ResolveAllFacts(cache, ids, net, Style);
  }

  /**
   `recommend(movie)`. The source indexes the first match without a guard, so the title
   must be present; the dataset must be aligned, since nothing catches a bad index.
   `net(k)` is the metadata service's outcome for the `k`-th poster request.
   Returns the titles, the poster URLs and the cache afterwards: entry `k` of both lists
   belongs to the same movie row, and the poster is the one now cached for its id.
   */
  method Recommend(ds: Dataset, title: string, cache: Cache, net: nat -> FetchOutcome)
    returns (names: seq<string>, posters: seq<string>, cache': Cache)
    requires WellFormed(ds)
    requires exists j :: 0 <= j < |ds.movies| && ds.movies[j].title == title
    ensures var rows := RecommendedRows(ds, title);
      && |names| == |posters| == |rows|
      && (forall k :: 0 <= k < |rows| ==>
            && names[k] == rows[k].title
            && rows[k].movieId in cache'
            && posters[k] == cache'[rows[k].movieId])
      && (forall id :: id in cache' <==> id in cache || id in IdsOf(rows))
      && (forall k :: 0 <= k < |rows| && rows[k].movieId !in cache && rows[k].movieId !in IdsOf(rows)[..k] ==>
            posters[k] == UrlFor(Style, net(k)))
    ensures forall id :: id in cache ==> cache'[id] == cache[id]
  {
    var rows := RecommendedRows(ds, title);
    names := seq(|rows|, k requires 0 <= k < |rows| => rows[k].title);
    var ids := IdsOf(rows);
    posters, cache' := FetchPosters(cache, ids, net);
    assert forall k :: 0 <= k < |rows| ==> ids[k] == rows[k].movieId;
  }

  /**
   Both front-ends rank alike: for a present title in an aligned dataset, the movies
   `recommend` returns are, in order, those `get_recommendations` returns.
   */
  lemma FrontEndsAgree(ds: Dataset, title: string, round: real -> real)
    requires WellFormed(ds)
    requires exists j :: 0 <= j < |ds.movies| && ds.movies[j].title == title
    ensures var r := App.GetRecommendations(ds, title, round);
      var rows := RecommendedRows(ds, title);
      && |r| == |rows|
      && forall k :: 0 <= k < |r| ==> r[k].title == rows[k].title && r[k].movieId == rows[k].movieId
  {
    App.GetRecommendationsFound(ds, title, round, QueryRow(ds, title));
  }

}
