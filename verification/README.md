# Movie recommender: ranking and poster cache

A Dafny model of the two pieces of logic shared by the Flask front-end (`app.py`) and the
Streamlit front-end (`streamlit_app.py`) of a movie recommender:

* **Similarity ranking.** The query finds the first movie row whose title equals the
  requested title. It pairs every column of that row of the similarity matrix with its
  index and sorts the pairs by descending score. The sort is stable, so ties stay in
  ascending index order. It then drops the first sorted pair *by position*
  (`distances[1:6]`), keeps the next five, and maps each kept index to that movie's title
  and id.
* **Poster resolver.** `fetch_poster` consults an id-to-URL cache first. On a miss, one
  `session.get` call to the metadata service, with its retries, decides the URL. It is the image prefix plus the poster
  path, a "no poster" placeholder, or a failure placeholder. The URL is then cached under
  that id.
* **Route shaping.** The Flask `/recommend` route turns the form fields into a JSON
  response. It optionally attaches a poster to every recommendation.

Modules:

* `StableSort` (`stable_sort.dfy`): `sorted(..., reverse=True, key=score)` as a stable
  insertion sort. It comes with proofs of descending order, permutation and stability.
  Stability is stated as "for each score, the subsequence with that score is unchanged".
* `Ranking` (`ranking.dfy`): the dataset, the first-match title lookup, `enumerate`,
  Python slicing, and the facts about the kept pairs.
* `PosterCache` (`poster_cache.dfy`): the cache transition, parameterised by the URL
  constants of a front-end, and the batch of lookups made for a list of ids.
* `App` (`app.dfy`) and `StreamlitApp` (`streamlit_app.dfy`): each front-end's constants
  and operations.

The cache is an explicit `map<int, string>` passed in and returned. The service's answer
is an abstract `FetchOutcome`: `Ok(posterPath)`, `RequestError` or `OtherError`. When a
list of posters is fetched, `net(k)` is the outcome of the request made for the `k`-th
entry.

The drop of the first sorted pair is positional. `Ranking.SelfExcludedWhenStrictMax`
proves that the queried movie is excluded when its self-score is strictly greater than
every other score in its row. `Ranking.TieNotDropped` proves that a tie with a
lower-index column keeps the query from sorting first, so the drop removes another
column instead. `Ranking.SelfKeptOnTie` exhibits the row `[1.0, 1.0]`: there the query for
column 1 drops column 0 and keeps itself. Excluding the queried movie by
identity would be a different program, so the model keeps the positional drop, as the
code does.

## Model

| member | source | states |
|---|---|---|
| `StableSort.Insert` | app.py:69-73 | inserting a pair yields a list one longer, holding the old pairs plus the new one (as a multiset) |
| `StableSort.InsertSorted` | app.py:69-73 | inserting into a descending list keeps it descending |
| `StableSort.Sort` | app.py:69-73 | the sort is a permutation of its input and its scores never increase |
| `StableSort.SortStable` | app.py:69-73 | for every score value, the pairs with that score appear in the same order as in the input (stability) |
| `StableSort.SortRankOrdered` | app.py:69-73 | sorting an enumerated row orders it by descending score and, on ties, ascending column index |
| `Ranking.FirstIndexOf` | app.py:68 | the result is the first row whose title equals the query; `None` exactly when no row matches |
| `Ranking.Enumerate` | app.py:70 | `list(enumerate(row))`: one pair per column, pair `j` holding index `j` and score `row[j]`, so indices strictly increase |
| `Ranking.Ranked` | app.py:69-73 | the sorted pair list is a permutation of the enumerated row, ordered by descending score and, on ties, ascending index |
| `Ranking.Slice` | app.py:76 | Python slicing with clamped bounds: the length is `min(hi, n) - lo` (0 when `n <= lo`), and element `k` is element `lo + k` |
| `Ranking.TopAfterFirst` | app.py:76 | `distances[1:6]`: the first sorted pair is dropped by position; the result has `min(5, n - 1)` pairs (none when `n <= 1`), pair `k` being sorted pair `k + 1` |
| `Ranking.Kept` | app.py:69-76 | the pairs a query keeps: at most 5, exactly `min(5, n - 1)` for a non-empty row, pair `k` being the row's sorted pair `k + 1` |
| `Ranking.RankedFacts` | app.py:69-73 | the sorted pairs hold every column exactly once, each with its own score, rank-ordered |
| `Ranking.KeptFacts` | app.py:69-76 | at most 5 pairs are kept; they are rank-ordered, use distinct in-range columns and carry their own scores |
| `Ranking.SelfExcludedWhenStrictMax` | app.py:69-76 | if the query's self-score strictly beats every other score in its row, it sorts first and no kept pair is the query |
| `Ranking.TieNotDropped` | app.py:69-76 | if a column with a smaller index scores at least as high as the query's column, the query does not sort first, so the positional drop does not remove it; in a row of at most six columns the query is then among the kept pairs |
| `Ranking.SelfKeptOnTie` | app.py:69-76 | in the row [1.0, 1.0], a query for column 1 drops column 0 and keeps column 1 itself |
| `PosterCache.UrlFor` | streamlit_app.py:38-60 | a non-empty path gives prefix + path; a missing or empty path gives the no-poster URL; each failure kind gives its placeholder |
| `PosterCache.Resolve` | app.py:23-64 | a hit returns the cached URL and leaves the cache as it was; a miss returns the URL the outcome decides; either way the id is added and no other key changes |
| `PosterCache.ResolveIdempotent` | app.py:25-26 | a second call for the same id returns the first URL and leaves the cache unchanged, whatever the service would answer |
| `PosterCache.ResolveNonEmpty` | app.py:50-64 | the resolver always returns a non-empty URL and never an error |
| `PosterCache.ResolveAll` | app.py:112-115 | resolving a list of ids returns one URL per id |
| `PosterCache.ResolveAllKeys` | app.py:112-115 | after a batch, the cache holds exactly the old keys plus the batch's ids, and every earlier entry is unchanged |
| `PosterCache.ResolveAllCached` | app.py:112-115 | every URL of a batch is the one cached for its id when the batch ends, so a repeated id gets the same URL each time |
| `PosterCache.ResolveAllFresh` | app.py:112-115 | an id neither cached before nor seen earlier in the batch gets the URL decided by its own request's outcome |
| `App.FetchPoster` | app.py:23-64 | prefix without a trailing slash; missing or empty path gives `No+Poster+Available`; any failure gives `Poster+Unavailable`; only that id's entry is written |
| `App.FetchPosterIdempotent` | app.py:25-26 | a repeated `fetch_poster` returns the same URL and changes nothing |
| `App.FromPair` | app.py:77-81 | one result dict: title and id from the pair's own movie row, similarity the rounded score, no poster yet |
| `App.GetRecommendations` | app.py:66-89 | at most 5 results; an unknown title gives `[]`; no result has a poster yet |
| `App.GetRecommendationsFound` | app.py:68-81 | for a known title among `n` movies there are `min(5, n - 1)` results, and result `k` carries the title, id and rounded score of the row ranked at position `k + 1` |
| `App.GetRecommendationsOrdered` | app.py:69-80 | with a monotone rounding, similarities are non-increasing; among equal scores the kept columns ascend |
| `App.GetRecommendationsPairs` | app.py:76-82 | for a known title in an aligned dataset, result `k` carries the title and id of kept pair `k`'s row and that pair's rounded score |
| `App.GetRecommendationsExcludeSelf` | app.py:69-81 | with a strict self-maximum, every result comes from a kept column other than the query's; with unique ids, none has the query's id |
| `Ranking.ThreeColumnRanking` | app.py:69-76 | the row [1.0, 0.8, 0.5] keeps columns 1 and 2, in that order |
| `App.ThreeMovieQuery` | app.py:66-84 | three movies A, B, C with row [1.0, 0.8, 0.5]: querying A yields B (score 0.8) then C (score 0.5), each score rounded |
| `App.AttachPosters` | app.py:112-115 | every recommendation gets the poster now cached for its id, in order; the cache gains exactly those ids and keeps its old entries; an id not cached before and not earlier in the list gets the URL its own request's outcome decides |
| `App.RecommendRoute` | app.py:97-130 | a missing `movie` field gives the 500 fault record; posters are enabled iff the flag equals `"on"`; no results give the error record with `[]` and the title echoed; otherwise results come in order; with posters enabled each gets the poster `AttachPosters` fetches, old cache entries are kept, only the recommended ids are added, and a fresh id gets its outcome's URL; with posters disabled none gets a poster and the cache is unchanged |
| `StreamlitApp.FetchPoster` | streamlit_app.py:9-60 | prefix with a trailing slash; missing or empty path gives `No+Poster+Available`; a request failure gives `Poster+Unavailable`; any other failure gives `Error+Loading+Poster`; each is cached under the id |
| `StreamlitApp.FetchPosterIdempotent` | streamlit_app.py:11-12 | a repeated `fetch_poster` returns the cached value and changes nothing |
| `StreamlitApp.PlaceholdersDistinct` | streamlit_app.py:44-60 | the three placeholders for a fresh id are pairwise different |
| `StreamlitApp.QueryRow` | streamlit_app.py:64 | the queried row is the first row with that title |
| `StreamlitApp.RecommendedRows` | streamlit_app.py:64-74 | the rows walked are those of the columns ranked second to sixth, `min(5, n - 1)` of them |
| `StreamlitApp.FetchPosters` | streamlit_app.py:74-82 | one poster per id, each the URL now cached for it; old entries untouched; no key other than the ids added |
| `StreamlitApp.Recommend` | streamlit_app.py:63-93 | names and posters have the same length, `min(5, n - 1)`; entry `k` of both belongs to the same row; the cache gains exactly the recommended ids and keeps its old entries; a poster for an id not cached before and not earlier in the list is the URL its own request's outcome decides |
| `StreamlitApp.FrontEndsAgree` | streamlit_app.py:64-83 | both front-ends return the same movies in the same order |

## Left out

- HTTP: the session, retry policy (up to 3 retries, so 4 attempts, back-off factor 1, retried statuses), timeout, headers and JSON decoding are library behaviour. Their combined result is the `FetchOutcome` parameter. Which concrete failures count as a request failure rather than another failure depends on the library version, so the model does not decide it.
- `poster_path` is typed as an optional string. Other truthy JSON values are not modelled.
- Loading the pickled artifacts, Flask routing and `jsonify`, the `/` index route, Streamlit widgets, the progress bar, `time.sleep` delays, and `print`/`st.warning` logging are not modelled.
- The Streamlit page body (streamlit_app.py:96-141) is left out because it is display only. This includes the five-column layout, which indexes results 0 to 4 without a guard, and the fast mode, which repeats the same ranking.
- `App.GetRecommendations`: the rounding `round(score, 3)` is a parameter `round`, and its ordering lemma assumes only that `round` is monotone. Rounding and float formatting are not modelled.
- Scores are exact reals. NaN and other floating-point details are not modelled.
- The lookup assumes the movie table keeps its default index, so the label `.index[0]` returns is the row position used by `iloc`.
- `App.RecommendRoute`: the fault record's message is the fixed prefix `An error occurred: `. The exception text the source appends is not modelled.
- Concurrency on the shared cache is not modelled. The cache is explicit state passed in and out.
- The movie-list artifact and the similarity matrix are inputs. How they were computed is not part of this model.
- Exclusion of the queried movie by identity is not modelled. The code drops the first sorted pair by position, and the model follows the code.
- The Streamlit image prefix ends in `/`. A poster path that starts with `/` therefore yields a double slash. The model keeps the constant as written.
