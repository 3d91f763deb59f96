# Movie recommender: a Dafny model

This project models the two pieces of logic in the movie recommender.

- **The backend** (`backend/app.py`). It extracts name lists from the parsed TMDB columns, strips spaces from them and concatenates them into each movie's `tags`. It then ranks a movie's neighbours by similarity score. Each recommended or catalog title gets a poster, or a placeholder when there is none.
- **The browser client** (`frontend/movieFrontend/src/App.jsx`). The `App` component holds five state slots: `movies`, `selectedMovie`, `recommendations`, `loading` and `error`. The model covers how the catalog load and the recommendation request update them, and what the page shows from them.

Modules:

- `Wrappers`: `Option`.
- `Features`: `convert`, `convert3`, `fetch_director`, space stripping and `tags`.
- `Catalog`: the rows of `new_df`, `get_movies`, and the lookup of a title.
- `Ranking`: the stable descending sort, `get_recommendations`, and the lookup as written (see Findings).
- `Api`: the poster rule, `/recommend` and `/posters`.
- `Frontend`: the `App` class.

The loops of the source are methods with loop invariants, each proved equal to a specification function:

- `convert`, `convert3` and `fetch_director`, including `convert3`'s counter and both `break`s;
- the poster loops.

Comprehensions, slicing and `sorted` are functions. The client's state is a class whose methods state the whole new state.

Inputs the model takes as given:

- The TMDB records arrive already parsed, as `Entry(name, job)` sequences.
- The overview arrives already split into words.
- `new_df` is a sequence of `Row(indexLabel, movieId, title, tags)`.
- The similarity matrix is an `n`-by-`n` matrix of integer scores for a table of `n` rows.
- An OMDb lookup is a function from a title to the `Poster` field of the answer, if any.
- A client `fetch` is given as the way it settles: `TransportError(message)`, or `Response(ok, body)`. The body is either `Parsed(payload)` or `Malformed(message)`.

Details of the client code that the model keeps:

- An ok JSON answer without a `recommendations` field does not throw. The code stores `undefined` as the list (see Left out).
- The request status lives in two independent slots, `loading` and `error`. The model keeps both.
- The error line is hidden when the error message is the empty string, because `{error && ...}` treats `""` as false (`Frontend.App.ErrorLine`).

## Model

| member | source | states |
|---|---|---|
| `Features.Names` | backend/app.py:25-29 | One name per entry, in input order: the length equals the input length and position `i` holds entry `i`'s `name` |
| `Features.Convert` | backend/app.py:25-29 | The appending loop of `convert` yields exactly `Names` of its input |
| `Features.Convert3` | backend/app.py:31-40 | The counter-and-break loop yields the names of the first min(3, n) entries, and that list is a prefix of `convert`'s result |
| `Features.DirectorIndex` | backend/app.py:42-48 | Finds the first entry whose job is exactly "Director", or reports that no entry has that job |
| `Features.DirectorNames` | backend/app.py:42-48 | At most one name. The list is empty exactly when no crew entry has the job "Director". Otherwise it holds the name of a director entry with no director before it |
| `Features.FetchDirector` | backend/app.py:42-48 | The scan that stops at the first director yields exactly `DirectorNames` |
| `Features.RemoveSpaces` | backend/app.py:55-58 | The result has no ' ' and keeps every other character with its multiplicity (`replace(" ", "")`) |
| `Features.RemoveSpacesConcat` | backend/app.py:55-58 | Stripping works piece by piece, so the remaining characters stay in order |
| `Features.RemoveSpacesFixed` | backend/app.py:55-58 | A name without spaces is left unchanged |
| `Features.RemoveSpacesIdempotent` | backend/app.py:55-58 | Stripping twice is the same as stripping once |
| `Features.StripAll` | backend/app.py:55-58 | The comprehension keeps the list's length and order, and no output string contains ' ' |
| `Features.TagTokens` | backend/app.py:50-60 | The part of `tags` after the overview has one token per genre, one per keyword, one for each of the first min(3, n) cast members, and one more when there is a director. No token contains ' ' |
| `Features.TagTokensOrder` | backend/app.py:50-60 | The tokens come in column order: the stripped genre names first, in order, then the stripped keyword names, then the stripped names of the leading cast members. The director's stripped name comes last |
| `Features.Tags` | backend/app.py:60 | `tags` starts with the overview words unchanged. Its length is the overview's plus the token count, and no word after the overview contains ' ' |
| `Features.BuildTags` | backend/app.py:50-60 | The three helpers, then stripping, then concatenation in the order overview, genres, keywords, cast, crew, give exactly `Tags` |
| `Catalog.GetMovies` | backend/app.py:99-102 | The `title` column in table order, one title per row |
| `Catalog.FirstIndex` | backend/app.py:70 | The position of the first row with the requested title, or none when no row matches or the request has no `movie` field |
| `Ranking.Enumerate` | backend/app.py:72 | `enumerate(distances)`: one pair per position, and pair `i` is `(i, distances[i])` |
| `Ranking.InsertPos` | backend/app.py:72 | A new pair goes after every entry whose score is at least its own and before the first lower score |
| `Ranking.Insert` | backend/app.py:72 | Insertion adds exactly one pair, and keeps ranked order when the new pair comes from a later position |
| `Ranking.SortDesc` | backend/app.py:72 | The sort is a permutation of its input. Pairs arriving in position order come out ranked: higher score first, ties in position order, as Python's stable `reverse=True` sort does |
| `Ranking.RankedUnique` | backend/app.py:72 | Two ranked permutations of the same pairs are equal, so `SortDesc` is the only stable descending sort |
| `Ranking.RankRow` | backend/app.py:71-72 | The ranked row has one pair per position, in ranked order, and is a permutation of `enumerate(distances)` |
| `Ranking.RankRowMember` | backend/app.py:71-72 | Every ranked pair is a real `(position, score)` pair of the row |
| `Ranking.Neighbours` | backend/app.py:72 | `[1:6]` keeps min(5, n-1) pairs, and pair `k` of the result is pair `k + 1` of the ranking, so the top-ranked pair is skipped. They are in ranked order, each a real position of the row with its score |
| `Ranking.NeighboursAreTop` | backend/app.py:72 | Every returned neighbour ranks above every position that is neither returned nor the skipped first one |
| `Ranking.NeighboursDistinct` | backend/app.py:72 | No position is returned twice |
| `Ranking.TitlesAt` | backend/app.py:73 | One title per picked pair, in order: the title of the table row at that pair's position (`iloc`) |
| `Ranking.GetRecommendations` | backend/app.py:68-77 | No matching title gives `[]`. Otherwise the result has exactly min(5, n-1) titles, and title `k` is that of neighbour `k` of the matching row's similarity row. All of them are catalog titles |
| `Ranking.RecommendationsFollowRanking` | backend/app.py:70-73 | After a match, the recommendations are the titles of the pairs ranked second to sixth (fewer for a short table), every one of them, in ranking order, so their scores never increase |
| `Ranking.GetRecommendationsByLabel` | backend/app.py:68-77 | The lookup as written. The matching row's pandas label selects the matrix row: with a label below n, the result is min(5, n-1) titles of that row's neighbours. A label of n or more gives `[]` through the `except`, although the title is in the catalog |
| `Ranking.ByLabelWhenContiguous` | backend/app.py:70-71 | When the labels are the positions, the as-written lookup and the positional one agree |
| `Ranking.ByLabelReadsWrongRow` | backend/app.py:70-71 | With one dropped row, the as-written lookup for "B" reads "C"'s similarity row. It returns ["B", "A"] where the positional lookup returns ["C", "A"] |
| `Api.PosterUrl` | backend/app.py:91-94 | The URL is OMDb's poster when the answer has one other than "N/A", and the placeholder otherwise. It is never "N/A" |
| `Api.AttachPosters` | backend/app.py:87-94 | One entry per title, with the same title, in the same order, and the poster the rule picks for that title's lookup |
| `Api.RecommendMovies` | backend/app.py:80-96 | One entry per title of the positional lookup `GetRecommendations`, in order, with the poster rule applied. No match gives `[]`. Every entry is a catalog title with a URL other than "N/A" |
| `Api.GetPosters` | backend/app.py:105-117 | One entry per catalog row, in table order, with the poster rule applied |
| `Frontend.Failure` | frontend/movieFrontend/src/App.jsx:14-18 | A call succeeds exactly when the response is ok and its body parsed. A response that is not ok fails with "Network response was not ok" whatever its body. Other failures carry their own message |
| `Frontend.ToOptions` | frontend/movieFrontend/src/App.jsx:19-22 | Each title `t` maps to an option with value `t` and label `t`, keeping length and order |
| `Frontend.App.constructor` | frontend/movieFrontend/src/App.jsx:5-9 | Starts with no movies, no selection, no recommendations, not loading and no error |
| `Frontend.App.FetchMovies` | frontend/movieFrontend/src/App.jsx:12-27 | On success, `movies` becomes the mapped options and `error` is untouched. On any failure, `error` is the message and `movies` is unchanged. Other slots are untouched |
| `Frontend.App.Choose` | frontend/movieFrontend/src/App.jsx:59-64 | Selecting or clearing sets only `selectedMovie`. The action is disabled exactly when the selection is cleared, and `recommendations` is kept |
| `Frontend.App.ActionDisabled` | frontend/movieFrontend/src/App.jsx:115 | The button is disabled exactly when nothing is selected. An option is truthy, so one titled "" still enables it |
| `Frontend.App.Dispatch` | frontend/movieFrontend/src/App.jsx:33-41 | Sets `loading` and clears `error` before any outcome. A request body exists exactly when a movie is selected, that is, exactly when the button is enabled, and it carries the movie's value |
| `Frontend.App.Settle` | frontend/movieFrontend/src/App.jsx:43-52 | `loading` is false on every path. Success replaces `recommendations` with the response list and leaves `error`. Failure sets `error` and leaves `recommendations` |
| `Frontend.App.GetRecommendations` | frontend/movieFrontend/src/App.jsx:32-53 | After the call settles, `loading` is false. Success replaces `recommendations` and `error` is null. Failure, including a missing selection, sets only `error`. Catalog and selection are untouched |
| `Frontend.App.ErrorLine` | frontend/movieFrontend/src/App.jsx:120 | The error line appears exactly for a non-empty message, and reads "Error: " followed by it |
| `Frontend.App.Results` | frontend/movieFrontend/src/App.jsx:123-128 | One card per recommendation, in backend order, with no reordering or dedup. The image source is the poster URL, and the alt text and caption are the title |

## Left out

- Reading the CSV files, `merge`, `dropna` and column selection (backend/app.py:14-22): file input and library behaviour. `new_df` is a given sequence of rows that keep their pandas labels.
- `ast.literal_eval` (backend/app.py:27, 34, 44): a foreign parser. Its result is a given sequence of `Entry` records. A record without `name` or `job`, which would raise `KeyError`, is not modelled.
- `overview.split()` (backend/app.py:54): Python's whitespace splitting. The overview is a given sequence of words.
- `CountVectorizer` and `cosine_similarity` (backend/app.py:64-66): library code and floating point. The matrix is a given square matrix of integer scores, so NaN ordering and floating-point ties are not modelled.
- The OMDb HTTP call, `response.json()` and the unescaped title in the query URL (backend/app.py:88-90, 110-112): network input. The lookup is a function parameter from title to poster.
- Flask routing, CORS, `jsonify`, and a request whose body is not JSON (backend/app.py:79-82, 96, 99-102, 117): framework plumbing. The model starts from the request's `movie` field.
- `print` of the caught exception (backend/app.py:76): console output.
- React rendering, `react-select`, the inline style objects and the loading paragraph (frontend/movieFrontend/src/App.jsx:55-131): presentation. What the page shows is given by `ErrorLine`, `Results` and the `loading` slot.
- The race between overlapping `getRecommendations` calls: it needs concurrent asynchronous resumption. Each call is one start-then-settle step, and `Dispatch`/`Settle` expose the state in between.
- Api.RecommendMovies: it is built on the positional lookup `Ranking.GetRecommendations`, the corrected one of Findings. On the Findings input it attaches posters to ["C", "A"], where `/recommend` as written returns ["B", "A"] (`Ranking.GetRecommendationsByLabel`).
- `useEffect` running the catalog load exactly once on mount: the model does not restrict how often a caller invokes `FetchMovies`.
- Frontend.App.Settle: an ok JSON answer without a `recommendations` field stores `undefined` in the code. The model has no such value, so only `Parsed(list)` and `Malformed(message)` bodies are modelled.
- The `TypeError` text for reading `.value` of `null` depends on the JavaScript engine. The model uses V8's wording (`NullSelectionMessage`).

## Findings

| source | as written | input that shows it | evidently intended | confidence | as-written member | corrected member |
|---|---|---|---|---|---|---|
| backend/app.py:70-71 | `new_df[...].index[0]` is a pandas label, but `similarity_matrix[movie_index]` uses it as a row position. After `dropna` the labels skip the dropped rows, so the wrong similarity row is read. A label past the end raises `IndexError`, which is swallowed into `[]` | rows labelled 0, 2, 3 titled "A", "B", "C", with similarity rows [9,1,0], [1,9,5], [0,5,9], and a request for "B" | rank by the similarity row at the matching row's position | not executed | `Ranking.GetRecommendationsByLabel` (shown by `Ranking.ByLabelReadsWrongRow`) | `Ranking.GetRecommendations` |
