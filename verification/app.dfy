/**
 The Flask front-end: `fetch_poster`, `get_recommendations` and the body of the
 `/recommend` route, with the poster cache passed in and out explicitly.
 */
module App {

  import opened Wrappers
  import opened StableSort
  import opened Ranking
  import opened PosterCache

  const ImagePrefix := "https://image.tmdb.org/t/p/w500"
  const NoPoster := "https://via.placeholder.com/300x450?text=No+Poster+Available"
  const PosterUnavailable := "https://via.placeholder.com/300x450?text=Poster+Unavailable"

  /** This front-end catches every failure alike, so both failure kinds share one placeholder. */
  const Style := PosterStyle(ImagePrefix, NoPoster, PosterUnavailable, PosterUnavailable)

  /** `fetch_poster(movie_id)`. */
  function FetchPoster(cache: Cache, id: int, outcome: FetchOutcome): (r: Resolution)
    ensures id in cache ==> r.url == cache[id] && r.cache == cache
    ensures id !in cache ==> r.cache == cache[id := r.url]
    ensures id !in cache && outcome.Ok? && outcome.posterPath.Some? && outcome.posterPath.value != "" ==>
      r.url == ImagePrefix + outcome.posterPath.value
    ensures id !in cache && (outcome == Ok(None) || outcome == Ok(Some(""))) ==> r.url == NoPoster
    ensures id !in cache && !outcome.Ok? ==> r.url == PosterUnavailable
  {
    Resolve(cache, id, outcome, Style)
  }

  /** A second `fetch_poster` for the same id returns the first answer and changes nothing. */
  lemma FetchPosterIdempotent(cache: Cache, id: int, first: FetchOutcome, second: FetchOutcome)
    ensures var r := FetchPoster(cache, id, first);
      FetchPoster(r.cache, id, second) == r
  {
    ResolveIdempotent(cache, id, first, second, Style);
  }

  /** One element of the list `get_recommendations` returns; `poster` is added by the route. */
  datatype Recommendation = Recommendation(title: string, movieId: int, similarity: real, poster: Option<string>)

  /** The result for one kept pair: that row's title and id, and the rounded score. */
  function FromPair(ds: Dataset, p: Scored, round: real -> real): (r: Recommendation)
    requires p.index < |ds.movies|
    ensures r.title == ds.movies[p.index].title && r.movieId == ds.movies[p.index].movieId
    ensures r.similarity == round(p.score) && r.poster == None
  {
    Recommendation(ds.movies[p.index].title, ds.movies[p.index].movieId, round(p.score), None)
  }

  /**
   `get_recommendations(movie)`. Every exception in the source yields `[]`: an unknown
   title, a row missing from the matrix, or a kept column with no movie row.
   `round` stands for `round(score, 3)`.
   */
  function GetRecommendations(ds: Dataset, title: string, round: real -> real): (r: seq<Recommendation>)
    ensures |r| <= ResultCount
    ensures FirstIndexOf(ds.movies, title).None? ==> r == []
    ensures forall k :: 0 <= k < |r| ==> r[k].poster == None
  {
    match FirstIndexOf(ds.movies, title)
    case None => []
    case Some(i) =>
      if i >= |ds.similarity| then []
      else
        var kept := Kept(ds.similarity[i]);
        if exists k :: 0 <= k < |kept| && kept[k].index >= |ds.movies| then []
        else seq(|kept|, k requires 0 <= k < |kept| => FromPair(ds, kept[k], round))
  }

  /** For a known title in an aligned dataset, result `k` is built from kept pair `k`. */
  lemma GetRecommendationsPairs(ds: Dataset, title: string, round: real -> real, i: nat)
    requires WellFormed(ds)
    requires FirstIndexOf(ds.movies, title) == Some(i)
    ensures var r := GetRecommendations(ds, title, round);
      var kept := Kept(ds.similarity[i]);
      && |r| == |kept|
      && forall k :: 0 <= k < |kept| ==> kept[k].index < |ds.movies| && r[k] == FromPair(ds, kept[k], round)
  {
    KeptFacts(ds.similarity[i]);
  }

  /**
   For a known title in a well-formed dataset of `n` movies, the result has
   `min(5, n - 1)` entries, and entry `k` carries the title, id and rounded score of the
   movie whose column was ranked at position `k + 1`.
   */
  lemma GetRecommendationsFound(ds: Dataset, title: string, round: real -> real, i: nat)
    requires WellFormed(ds)
    requires FirstIndexOf(ds.movies, title) == Some(i)
    ensures var r := GetRecommendations(ds, title, round);
      var ranked := Ranked(ds.similarity[i]);
      && |r| == Min(ResultCount, |ds.movies| - 1)
      && forall k :: 0 <= k < |r| ==>
           && ranked[k + 1].index < |ds.movies|
           && r[k].title == ds.movies[ranked[k + 1].index].title
           && r[k].movieId == ds.movies[ranked[k + 1].index].movieId
           && r[k].similarity == round(ds.similarity[i][ranked[k + 1].index])
  {
    var row := ds.similarity[i];
    KeptFacts(row);
    GetRecommendationsPairs(ds, title, round, i);
  }

  /** A rounding function that never reverses the order of two scores (as `round(x, 3)` does not). */
  ghost predicate Monotone(round: real -> real)
  {
    forall a: real, b: real :: a <= b ==> round(a) <= round(b)
  }

  /**
   Results come in non-increasing similarity; among equal raw scores the movie with the
   smaller row index comes first.
   */
  lemma GetRecommendationsOrdered(ds: Dataset, title: string, round: real -> real, i: nat)
    requires WellFormed(ds)
    requires FirstIndexOf(ds.movies, title) == Some(i)
    requires Monotone(round)
    ensures var r := GetRecommendations(ds, title, round);
      var kept := Kept(ds.similarity[i]);
      && |r| == |kept|
      && (forall k, l :: 0 <= k < l < |r| ==> r[k].similarity >= r[l].similarity)
      && (forall k, l :: 0 <= k < l < |kept| && kept[k].score == kept[l].score ==>
            kept[k].index < kept[l].index)
  {
    var row := ds.similarity[i];
    var kept := Kept(row);
    var r := GetRecommendations(ds, title, round);
    KeptFacts(row);
    GetRecommendationsPairs(ds, title, round, i);
    forall k, l | 0 <= k < l < |r|
      ensures r[k].similarity >= r[l].similarity
    {
      assert r[k] == FromPair(ds, kept[k], round);
      assert r[l] == FromPair(ds, kept[l], round);
      assert kept[k].score >= kept[l].score;
    }
  }

  /**
   When the queried movie's self-score is strictly above every other score in its row,
   every result comes from a different row; with unique movie ids, no result carries the
   queried movie's id.
   */
  lemma GetRecommendationsExcludeSelf(ds: Dataset, title: string, round: real -> real, i: nat)
    requires WellFormed(ds)
    requires FirstIndexOf(ds.movies, title) == Some(i)
    requires forall j :: 0 <= j < |ds.movies| && j != i ==> ds.similarity[i][j] < ds.similarity[i][i]
    ensures var r := GetRecommendations(ds, title, round);
      var kept := Kept(ds.similarity[i]);
      && |r| == |kept|
      && forall k :: 0 <= k < |r| ==>
           kept[k].index < |ds.movies| && kept[k].index != i && r[k] == FromPair(ds, kept[k], round)
    ensures (forall a, b :: 0 <= a < b < |ds.movies| ==> ds.movies[a].movieId != ds.movies[b].movieId) ==>
      var r := GetRecommendations(ds, title, round);
      forall k :: 0 <= k < |r| ==> r[k].movieId != ds.movies[i].movieId
  {
    var row := ds.similarity[i];
    var kept := Kept(row);
    var r := GetRecommendations(ds, title, round);
    KeptFacts(row);
    GetRecommendationsPairs(ds, title, round, i);
    SelfExcludedWhenStrictMax(row, i);
    if forall a, b :: 0 <= a < b < |ds.movies| ==> ds.movies[a].movieId != ds.movies[b].movieId {
      forall k | 0 <= k < |r|
        ensures r[k].movieId != ds.movies[i].movieId
      {
        var j := kept[k].index;
        assert r[k].movieId == ds.movies[j].movieId;
        assert j != i;
      }
    }
  }

  /**
   Three movies whose first row scores 1.0, 0.8 and 0.5: asking for the first title yields
   the other two, best first, with fewer than five results because only two remain.
   */
  lemma ThreeMovieQuery(round: real -> real)
    ensures var ds := Dataset(
      [Movie("A", 1), Movie("B", 2), Movie("C", 3)],
      [[1.0, 0.8, 0.5], [0.8, 1.0, 0.3], [0.5, 0.3, 1.0]]);
      GetRecommendations(ds, "A", round)
        == [Recommendation("B", 2, round(0.8), None), Recommendation("C", 3, round(0.5), None)]
  {
    var ds := Dataset(
      [Movie("A", 1), Movie("B", 2), Movie("C", 3)],
      [[1.0, 0.8, 0.5], [0.8, 1.0, 0.3], [0.5, 0.3, 1.0]]);
    assert WellFormed(ds);
    assert FirstIndexOf(ds.movies, "A") == Some(0);
    ThreeColumnRanking();
    GetRecommendationsPairs(ds, "A", round, 0);
  }

  /** The form fields the route reads; a field absent from the request is `None`. */
  datatype Form = Form(movie: Option<string>, enablePosters: Option<string>)

  /** The JSON body and HTTP status the route answers with. */
  datatype Response = Response(
    error: Option<string>,
    recommendations: seq<Recommendation>,
    selectedMovie: string,
    enablePosters: bool,
    status: nat)

  const NoRecommendationsError := "No recommendations found for this movie"
  const FaultPrefix := "An error occurred: "

  /** The route's answer and the poster cache after it. */
  datatype RouteResult = RouteResult(response: Response, cache: Cache)

  /** The ids of a list of recommendations, in order. */
  function MovieIds(recs: seq<Recommendation>): seq<int>
  {
    seq(|recs|, k requires 0 <= k < |recs| => recs[k].movieId)
  }

  /** Sets `poster` on every recommendation, in order, fetching through the cache. */
  function AttachPosters(recs: seq<Recommendation>, cache: Cache, net: nat -> FetchOutcome): (r: (seq<Recommendation>, Cache))
    ensures |r.0| == |recs|
    ensures forall k :: k in r.1 <==> k in cache || k in MovieIds(recs)
    ensures forall k :: k in cache ==> r.1[k] == cache[k]
    ensures forall k :: 0 <= k < |recs| ==>
      recs[k].movieId in r.1 && r.0[k] == recs[k].(poster := Some(r.1[recs[k].movieId]))
    ensures forall k :: 0 <= k < |recs| && recs[k].movieId !in cache && recs[k].movieId !in MovieIds(recs)[..k] ==>
      r.0[k].poster == Some(UrlFor(Style, net(k)))
  {
    var ids := MovieIds(recs);
    var b := ResolveAll(cache, ids, net, Style);
    ResolveAllFacts(cache, ids, net, Style);
    var out := seq(|recs|, k requires 0 <= k < |recs| => recs[k].(poster := Some(b.urls[k])));
    assert forall k :: 0 <= k < |recs| ==> ids[k] == recs[k].movieId && out[k] == recs[k].(poster := Some(b.urls[k]));
    (out, b.cache)
  }

  /**
   The body of the `/recommend` route. `net(k)` is the metadata service's outcome for the
   poster request of the `k`-th recommendation. A request without a `movie` field raises
   inside the route and is answered with status 500.
   */
  function RecommendRoute(ds: Dataset, form: Form, cache: Cache, net: nat -> FetchOutcome, round: real -> real): (r: RouteResult)
    ensures form.movie.None? ==>
      r == RouteResult(Response(Some(FaultPrefix), [], "", false, 500), cache)
    ensures form.movie.Some? ==>
      && r.response.selectedMovie == form.movie.value
      && r.response.status == 200
      && (r.response.enablePosters <==> form.enablePosters == Some("on"))
    ensures form.movie.Some? && GetRecommendations(ds, form.movie.value, round) == [] ==>
      && r.response.error == Some(NoRecommendationsError)
      && r.response.recommendations == []
      && r.cache == cache
    ensures form.movie.Some? && GetRecommendations(ds, form.movie.value, round) != [] ==>
      var recs := GetRecommendations(ds, form.movie.value, round);
      && r.response.error == None
      && |r.response.recommendations| == |recs|
      && (r.response.enablePosters ==>
            && (r.response.recommendations, r.cache) == AttachPosters(recs, cache, net)
            && (forall id :: id in r.cache <==> id in cache || id in MovieIds(recs))
            && (forall id :: id in cache ==> r.cache[id] == cache[id])
            && (forall k :: 0 <= k < |recs| ==>
                  recs[k].movieId in r.cache &&
                  r.response.recommendations[k] == recs[k].(poster := Some(r.cache[recs[k].movieId])))
            && (forall k :: 0 <= k < |recs| && recs[k].movieId !in cache && recs[k].movieId !in MovieIds(recs)[..k] ==>
                  r.response.recommendations[k].poster == Some(UrlFor(Style, net(k)))))
      && (!r.response.enablePosters ==>
            r.response.recommendations == recs && r.cache == cache &&
            forall k :: 0 <= k < |recs| ==> r.response.recommendations[k].poster == None)
  {
    match form.movie
    case None => RouteResult(Response(Some(FaultPrefix), [], "", false, 500), cache)
    case Some(name) =>
      var enable := form.enablePosters == Some("on");
      var recs := GetRecommendations(ds, name, round);
      if recs == [] then
        RouteResult(Response(Some(NoRecommendationsError), [], name, enable, 200), cache)
      else if enable then
        var (withPosters, cache') := AttachPosters(recs, cache, net);
        RouteResult(Response(None, withPosters, name, enable, 200), cache')
      else
        RouteResult(Response(None, recs, name, enable, 200), cache)
  }

}
