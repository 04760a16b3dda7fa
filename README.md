# Movie recommender: a Dafny model of its recommendation logic

The application is a Streamlit page with two modes. Genre mode lists movies of a
chosen genre. Title mode lists movies similar to a searched title. Both
modes get a pool of movies from a remote movie catalogue, sort it by rating
and show it ten movies at a time behind a "Show More" button. Each movie shown
is annotated with the streaming services that carry it. These come from a
local table with one row per title and a 0/1 flag for each of Netflix, Hulu,
Prime Video and Disney+.

The model has four modules:

- `Platforms` (platforms.dfy): the availability lookup `get_movie_platforms`
  as a function over a `seq` of rows, and the `", "` join that
  `display_movie` applies to its result. Lemmas show that the lookup returns
  the fallback "Buy movie online" exactly when it should. Otherwise it returns
  the services of the first matching row whose flag is 1, in column order.
  That list is pinned down uniquely.
- `Ranking` (ranking.dfy): the pool of one query, taken from pages 1 to 3. The
  `for page in range(1, 4)` loop is the method `FetchPages`, proved against the
  pure `Candidates`. Python's `sorted(..., key=vote_average, reverse=True)` is
  `SortByRating`. It is proved non-increasing, a permutation, stable, and the
  only list with those properties. The slice `sorted_movies[:end]` is
  `Reveal`, and the "Show More" condition is `MoreOffered`.
- `Sessions` (sessions.dfy): the session state of each mode as a class,
  `GenreSession` (`genre_page`, `selected_genre`, `genre_results`) and
  `TitleSession` (`title_page`, `title_input`, `title_results`). Each class has
  the button transitions `Reset` and `ShowMore`, a `Render` method for the part
  of the script that runs from the stored state, and `Run` for one full run of
  the mode's function. The remote service is given as input functions
  (`discover(genreId, page)`, `search(query)`, `similar(movieId, page)`). Every
  run returns the requests it made, so "no similar-title request after an empty
  search" is part of a contract.
- `Scenarios` (scenarios.dfy): clients that replay whole interactions through
  the contracts alone. One is a genre with 25 movies, clicked through to the
  end in five runs: a "Show More" click takes two runs, the click run and the
  rerun it asks for. The other is a search with no hit.

`vote_average` is only ever compared, so a movie's rating is an `int` key. A
Streamlit run is a call of `Run`, which sees at most one button click. A "Show
More" click is seen by the run after the click. That run shows the old slice;
if it offers the button, it advances the reveal step and asks for another run
(`rerun`), which shows the new slice.

Three behaviours of the code that the contracts make explicit:

- Every run fetches all three pages again, including the run that handles a
  "Show More" click (app.py:63-75, app.py:101-115). `Render`'s request trace
  says so.
- An empty title makes no request and shows nothing (app.py:101).
- `page` is never clamped: the button is no longer offered (app.py:85,
  app.py:125), and the slice limits what is shown.

## Model

| member | source | states |
|---|---|---|
| Platforms.MoviePlatforms | app.py:32-37 | `get_movie_platforms` always returns between one and four labels |
| Platforms.Join | app.py:43 | `', '.join` of no labels is empty, and a non-empty join starts with the first label |
| Platforms.WhereToWatch | app.py:43 | the "Where to watch" text is never empty and starts with the lookup's first label |
| Platforms.FirstMatch | app.py:33 | the row consulted is the first row whose title equals the query exactly; there is none iff no row has that title |
| Platforms.LookupFallback | app.py:32-37 | the lookup is exactly ["Buy movie online"] iff no row has the title or the first matching row has no flag equal to 1 |
| Platforms.LookupListsServices | app.py:36-37 | when the lookup does not fall back, its list is non-empty and does not contain the fallback |
| Platforms.LookupFirstRow | app.py:33-36 | for a matching title only the first matching row is consulted: a later row with the same title changes nothing; a service's name is listed iff its flag in that row equals 1 |
| Platforms.ActiveServicesExact | app.py:36 | the services listed for a row are exactly those whose flag equals 1, in strictly increasing column order Netflix, Hulu, Prime Video, Disney+ |
| Platforms.ActiveServicesUnique | app.py:36 | any list holding exactly the flagged services in column order is the lookup's list, so the result is the ordered subsequence of the four columns |
| Platforms.WhereToWatchFallback | app.py:43 | the displayed "Where to watch" text is "Buy movie online" iff the lookup falls back |
| Platforms.JoinAppend | app.py:43 | `', '.join` puts one ", " between consecutive labels: joining one more label appends ", " and the label |
| Platforms.DuneOnNetflix | app.py:32-37 | in any table whose first "Dune" row has only the Netflix flag set, "Dune" gives ["Netflix"], shown as "Netflix" |
| Platforms.UnknownTitle | app.py:33-35 | a title with no row gives ["Buy movie online"], shown as that text |
| Ranking.Pool | app.py:66-75 | after n pages the pool holds exactly the movies of pages 1..n: nothing dropped, nothing added |
| Ranking.Candidates | app.py:112-115 | a movie is a candidate iff it is on page 1, 2 or 3 of the query |
| Ranking.FetchPages | app.py:66-75 | the loop requests pages 1, 2, 3 in order, and the pool is page 1 then page 2 then page 3 of the same query, concatenated |
| Ranking.CandidatesArePages | app.py:112-115 | the pool is the three pages in order with no deduplication: its multiset is the sum of the pages' multisets and its length the sum of their lengths |
| Ranking.SortByRating | app.py:77 | the sorted pool is non-increasing by rating and a permutation of the pool |
| Ranking.InsertAddsOne | app.py:117 | inserting one movie adds exactly that movie to the list's multiset |
| Ranking.InsertKeepsOrder | app.py:117 | inserting one movie into a list sorted by rating, highest first, keeps it sorted |
| Ranking.SortIsStable | app.py:77 | the sort is stable: for every rating, the movies with that rating keep their fetched order |
| Ranking.SortIsUnique | app.py:117 | a non-increasing list that keeps, for every rating, the fetched movies in fetched order equals the sorted pool, so these properties fully determine it |
| Ranking.End | app.py:78 | the reveal count `end` is a positive multiple of the page size 10 |
| Ranking.MoreOffered | app.py:85 | the `end < len(sorted_movies)` condition holds iff the slice shows fewer movies than were sorted |
| Ranking.Reveal | app.py:78-79 | the stored results are the prefix of the sorted pool of length min(len(sorted), (page+1)*10) |
| Ranking.MoreOfferedIffHidden | app.py:85 | "Show More" is offered iff some sorted movie is not shown |
| Ranking.RevealGrows | app.py:85-87 | the next reveal step extends what is shown, by at most ten movies, and shows strictly more iff "Show More" was offered |
| Ranking.ShownFromPool | app.py:117-119 | what is shown is a sub-multiset of the fetched pool: nothing is shown more often than it was fetched |
| Ranking.MoreOfferedIffFewerShown | app.py:117-125 | "Show More" is offered iff fewer movies are shown than were fetched |
| Ranking.TwentyFiveMovies | app.py:78-85 | with 25 sorted movies the reveal steps 0, 1, 2 show 10, 20 and 25 movies, and "Show More" is offered at steps 0 and 1 only |
| Sessions.GenreId | app.py:64 | the genre id is that of the first genre with an equal name, and absent iff no genre has that name |
| Sessions.Truthy | app.py:65 | `if genre_id:` is false exactly for `None` and for the id 0 |
| Sessions.ListedGenre | app.py:63-65 | a genre is listed iff a selection is stored and its id is truthy, that is present and not 0 |
| Sessions.GenreSession.constructor | app.py:49-50 | a new session starts at reveal step 0 with no results and no genre chosen |
| Sessions.GenreSession.Reset | app.py:58-61 | "Show Movies" sets the step to 0, records the chosen genre and clears the results |
| Sessions.GenreSession.ShowMore | app.py:86-87 | "Show More" increments the step by exactly 1 and changes neither the selection nor the results |
| Sessions.GenreSession.Render | app.py:63-88 | with no listable genre nothing is requested, shown or changed; otherwise the three discovery pages are requested again, the results become the sorted pool revealed to the current step, "Show More" is offered iff movies remain hidden, and a click advances the step only when it is offered |
| Sessions.GenreSession.Run | app.py:48-88 | a run, which sees at most one click, requests the genre list first, then applies "Show Movies" and renders from the resulting state |
| Sessions.TitleSession.constructor | app.py:92-93 | a new session starts at reveal step 0 with no results and no title searched |
| Sessions.TitleSession.Reset | app.py:96-99 | "Search" records the typed title, sets the step to 0 and clears the results |
| Sessions.TitleSession.ShowMore | app.py:126-127 | "Show More Recommendations" increments the step by exactly 1 and changes neither the title nor the results |
| Sessions.TitleSession.Render | app.py:101-128 | an absent or empty title does nothing; a search with no hit reports "not found" after the search request alone and changes nothing; otherwise the first hit's id selects the similar titles, fetched, sorted and revealed as in genre mode |
| Sessions.TitleSession.Run | app.py:91-128 | a run, which sees at most one click, applies "Search" and then renders from the resulting state |
| Scenarios.GenreTwentyFive | app.py:58-88 | for a genre whose pool holds 25 movies, the five runs "Show Movies", "Show More", rerun, "Show More", rerun show 10, 10, 20, 20 and 25 movies, offer the button in all but the last, ask for a rerun after each click, and each requests the genre list and all three pages again (20 requests) |
| Scenarios.TitleNotFound | app.py:96-108 | searching a title with no hit shows "not found", makes the search request only and leaves step 0 and empty results |

## Left out

- Streamlit rendering, the widgets, `st.rerun` and the sidebar navigation (app.py:17-20, app.py:40-45, app.py:131-137) are UI. A run's `View` and its `rerun` flag stand for what is drawn and for the rerun request.
- The HTTP requests and JSON decoding are network I/O, so each endpoint is an input function. A response whose JSON has no `results`/`genres` key becomes an empty list through `.get(..., [])` (app.py:53, app.py:75, app.py:104, app.py:115), which the input function can return. A request that raises (connection error, timeout, or a body that is not JSON) aborts the run with an uncaught exception, keeping any `Reset` made earlier in that run. The model has no outcome for a raised exception: a run always completes.
- `load_dotenv`/`os.getenv` (app.py:8-9) are environment I/O and are not modelled.
- Loading the CSV with pandas, the `@st.cache_data` memoisation and dropping the `^Unnamed` columns (app.py:23-29) are file I/O and a library cache. The table is an input `seq` of rows.
- The rating's `:.1f` formatting (app.py:42) is floating-point formatting. `vote_average` is an integer key, so NaN and other float ordering effects are not modelled.
- The overview line (app.py:44-45) is display only.
- Sessions.GenreSession.Run: the select box value is a string. With an empty genre list Streamlit would store `None`, which matches no genre either. The model then stores whatever string the caller passes.
- Sessions.TitleSession.Render: a search hit's `id` is taken as an integer. The source only interpolates it into a URL.
