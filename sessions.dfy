/**
  The per-mode session state of the two recommendation modes and one run of
  each mode's script body.

  Streamlit re-executes the script on every interaction. A run of a mode
  first handles its primary button ("Show Movies" or "Search"), which resets
  the reveal step, clears the stored results and records the selection; it
  then renders from the stored selection: it re-fetches the three pages,
  sorts, stores and shows the first `(page + 1) * 10` movies, and offers
  "Show More" while some are hidden. A click on "Show More" is seen by the
  run that follows it, which advances the reveal step and asks for a rerun.

  The remote service is given as functions: `discover(genreId, page)`,
  `search(query)` and `similar(movieId, page)`; the list of genres is the
  answer to the genre-list request. Each run returns the requests it made,
  in order.
 */
module Sessions {
  import opened Wrappers
  import opened Ranking

  datatype Genre = Genre(id: int, name: string)

  /** A call to the remote service. */
  datatype Request =
    | GenreList
    | Discover(genreId: int, page: int)
    | SearchTitle(query: string)
    | Similar(movieId: int, page: int)

  /** What a run of a mode shows below its input controls. */
  datatype View =
    | Blank
    | NotFound
    | Listing(movies: seq<Movie>, moreOffered: bool)

  /** The id of the first genre named `name`, or `None`. */
  function GenreId(genres: seq<Genre>, name: string): (r: Option<int>)
    ensures r.None? <==> forall i :: 0 <= i < |genres| ==> genres[i].name != name
    ensures r.Some? ==> exists i :: 0 <= i < |genres| && genres[i].name == name && genres[i].id == r.value &&
                          forall j :: 0 <= j < i ==> genres[j].name != name
  {
    if genres == [] then None
    else if genres[0].name == name then Some(genres[0].id)
    else
      var r := GenreId(genres[1..], name);
      assert forall i :: 1 <= i < |genres| ==> genres[i] == genres[1..][i - 1];
      r
  }

  /** Python's truth value of the resolved id: `None` and `0` are false. */
  predicate Truthy(id: Option<int>): (r: bool)
    ensures r <==> id !in {None, Some(0)}
  {
    id.Some? && id.value != 0
  }

  /** The sorted pool of one query. */
  function Ranked(fetch: (int, int) -> seq<Movie>, key: int): seq<Movie>
  {
    SortByRating(Candidates(fetch, key))
  }

  /** The three page requests a render makes for one query. */
  function PageRequests(make: int -> Request): seq<Request>
  {
    [make(1), make(2), make(3)]
  }

  /** The genre to list, if the stored selection resolves to a truthy id. */
  function ListedGenre(genres: seq<Genre>, selection: Option<string>): (id: Option<int>)
    ensures id.Some? <==> selection.Some? && Truthy(GenreId(genres, selection.value))
    ensures id.Some? ==> id.value != 0 && GenreId(genres, selection.value) == id
  {
    if selection.Some? && Truthy(GenreId(genres, selection.value)) then GenreId(genres, selection.value)
    else None
  }

  /** Session state of the genre mode: `genre_page`, `selected_genre` and `genre_results`. */
  class GenreSession {
    var page: nat
    var selection: Option<string>
    var results: seq<Movie>

    /** The `setdefault` calls: reveal step 0, no results, no genre chosen yet. */
    constructor ()
      ensures page == 0 && selection == None && results == []
    {
      page, selection, results := 0, None, [];
    }

    /** "Show Movies": start over with the genre chosen in the select box. */
    method Reset(chosen: string)
      modifies this
      ensures page == 0 && selection == Some(chosen) && results == []
    {
      page, selection, results := 0, Some(chosen), [];
    }

    /** "Show More": reveal one more page of the same pool. */
    method ShowMore()
      modifies this
      ensures page == old(page) + 1
      ensures selection == old(selection) && results == old(results)
    {
      page := page + 1;
    }

    /**
      The rendering part of a run. Nothing is fetched or shown unless the
      stored genre name resolves to a truthy id; otherwise the pool is
      re-fetched, sorted and revealed up to the current step, and a pending
      "Show More" click is honoured only when the button is offered.
     */
    method Render(genres: seq<Genre>, discover: (int, int) -> seq<Movie>, moreClicked: bool)
      returns (view: View, requests: seq<Request>, rerun: bool)
      modifies this
      ensures selection == old(selection)
      ensures ListedGenre(genres, old(selection)).None? ==>
        view == Blank && requests == [] && !rerun && page == old(page) && results == old(results)
      ensures ListedGenre(genres, old(selection)).Some? ==>
        var id := ListedGenre(genres, old(selection)).value;
        var sorted := Ranked(discover, id);
        && results == Reveal(sorted, old(page))
        && view == Listing(results, MoreOffered(sorted, old(page)))
        && requests == PageRequests(p => Discover(id, p))
        && rerun == (moreClicked && MoreOffered(sorted, old(page)))
        && page == if rerun then old(page) + 1 else old(page)
    {
      view, requests, rerun := Blank, [], false;
      if selection.Some? {
        var genreId := GenreId(genres, selection.value);
        if genreId.Some? && genreId.value != 0 {
          var id := genreId.value;
          var movies, pages := FetchPages(discover, id);
          requests := [Discover(id, pages[0]), Discover(id, pages[1]), Discover(id, pages[2])];
          var sorted := SortByRating(movies);
          var more := MoreOffered(sorted, page);
          results := Reveal(sorted, page);
          view := Listing(results, more);
          if more && moreClicked {
            ShowMore();
            rerun := true;
          }
        }
      }
    }

    /**
      One run of `genre_recommendation`: the genre list is requested, the
      "Show Movies" button is handled, then the stored selection is rendered.
      Streamlit reports at most one button click per run.
     */
    method Run(genres: seq<Genre>, chosen: string, showClicked: bool,
               discover: (int, int) -> seq<Movie>, moreClicked: bool)
      returns (view: View, requests: seq<Request>, rerun: bool)
      requires !(showClicked && moreClicked)
      modifies this
      ensures selection == if showClicked then Some(chosen) else old(selection)
      ensures var start := if showClicked then 0 else old(page);
        ListedGenre(genres, selection).None? ==>
        && view == Blank && requests == [GenreList] && !rerun && page == start
        && results == if showClicked then [] else old(results)
      ensures var start := if showClicked then 0 else old(page);
        ListedGenre(genres, selection).Some? ==>
        var id := ListedGenre(genres, selection).value;
        var sorted := Ranked(discover, id);
        && results == Reveal(sorted, start)
        && view == Listing(results, MoreOffered(sorted, start))
        && requests == [GenreList] + PageRequests(p => Discover(id, p))
        && rerun == (moreClicked && MoreOffered(sorted, start))
        && page == if rerun then start + 1 else start
    {
      if showClicked {
        Reset(chosen);
      }
      var rendered;
      view, rendered, rerun := Render(genres, discover, moreClicked);
      requests := [GenreList] + rendered;
    }
  }

  /** Session state of the title mode: `title_page`, `title_input` and `title_results`. */
  class TitleSession {
    var page: nat
    var input: Option<string>
    var results: seq<Movie>

    /** The `setdefault` calls: reveal step 0, no results, nothing searched yet. */
    constructor ()
      ensures page == 0 && input == None && results == []
    {
      page, input, results := 0, None, [];
    }

    /** "Search": start over with the text typed in the input box. */
    method Reset(typed: string)
      modifies this
      ensures page == 0 && input == Some(typed) && results == []
    {
      page, input, results := 0, Some(typed), [];
    }

    /** "Show More Recommendations": reveal one more page of the same pool. */
    method ShowMore()
      modifies this
      ensures page == old(page) + 1
      ensures input == old(input) && results == old(results)
    {
      page := page + 1;
    }

    /**
      The rendering part of a run. An absent or empty stored title renders
      nothing and fetches nothing. Otherwise the title is searched; with no
      hit the run reports "not found" and stops before any similar-title
      request; with hits, the similar titles of the first hit are fetched,
      sorted and revealed up to the current step.
     */
    method Render(search: string -> seq<Movie>, similar: (int, int) -> seq<Movie>, moreClicked: bool)
      returns (view: View, requests: seq<Request>, rerun: bool)
      modifies this
      ensures input == old(input)
      ensures old(input).None? || old(input).value == "" ==>
        view == Blank && requests == [] && !rerun && page == old(page) && results == old(results)
      ensures old(input).Some? && old(input).value != "" && search(old(input).value) == [] ==>
        view == NotFound && requests == [SearchTitle(old(input).value)] && !rerun &&
        page == old(page) && results == old(results)
      ensures old(input).Some? && old(input).value != "" && search(old(input).value) != [] ==>
        var query := old(input).value;
        var id := search(query)[0].id;
        var sorted := Ranked(similar, id);
        && results == Reveal(sorted, old(page))
        && view == Listing(results, MoreOffered(sorted, old(page)))
        && requests == [SearchTitle(query)] + PageRequests(p => Similar(id, p))
        && rerun == (moreClicked && MoreOffered(sorted, old(page)))
        && page == if rerun then old(page) + 1 else old(page)
    {
      view, requests, rerun := Blank, [], false;
      if input.Some? && input.value != "" {
        var query := input.value;
        var hits := search(query);
        requests := [SearchTitle(query)];
        if hits == [] {
          view := NotFound;
          return;
        }
        var id := hits[0].id;
        var movies, pages := FetchPages(similar, id);
        requests := requests + [Similar(id, pages[0]), Similar(id, pages[1]), Similar(id, pages[2])];
        var sorted := SortByRating(movies);
        var more := MoreOffered(sorted, page);
        results := Reveal(sorted, page);
        view := Listing(results, more);
        if more && moreClicked {
          ShowMore();
          rerun := true;
        }
      }
    }

    /**
      One run of `title_recommendation`: the "Search" button is handled, then
      the stored title is rendered. Streamlit reports at most one button click
      per run.
     */
    method Run(typed: string, searchClicked: bool, search: string -> seq<Movie>,
               similar: (int, int) -> seq<Movie>, moreClicked: bool)
      returns (view: View, requests: seq<Request>, rerun: bool)
      requires !(searchClicked && moreClicked)
      modifies this
      ensures input == if searchClicked then Some(typed) else old(input)
      ensures var start := if searchClicked then 0 else old(page);
        var kept := if searchClicked then [] else old(results);
        input.None? || input.value == "" ==>
        view == Blank && requests == [] && !rerun && page == start && results == kept
      ensures var start := if searchClicked then 0 else old(page);
        var kept := if searchClicked then [] else old(results);
        input.Some? && input.value != "" && search(input.value) == [] ==>
        view == NotFound && requests == [SearchTitle(input.value)] && !rerun && page == start && results == kept
      ensures var start := if searchClicked then 0 else old(page);
        input.Some? && input.value != "" && search(input.value) != [] ==>
        var id := search(input.value)[0].id;
        var sorted := Ranked(similar, id);
        && results == Reveal(sorted, start)
        && view == Listing(results, MoreOffered(sorted, start))
        && requests == [SearchTitle(input.value)] + PageRequests(p => Similar(id, p))
        && rerun == (moreClicked && MoreOffered(sorted, start))
        && page == if rerun then start + 1 else start
    {
      if searchClicked {
        Reset(typed);
      }
      view, requests, rerun := Render(search, similar, moreClicked);
    }
  }
}
