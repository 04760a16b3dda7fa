/**
  Clients of the session classes that replay whole interactions, seen only
  through the contracts of the runs.
 */
module Scenarios {
  import opened Wrappers
  import opened Ranking
  import opened Sessions

  /**
    A genre whose three discovery pages hold 25 movies in all, driven as
    Streamlit drives it: one click per run, and each "Show More" click costs
    two runs, the click run (old slice, step advanced, rerun requested) and
    the rerun (new slice). The five runs are "Show Movies", "Show More", the
    rerun, "Show More", the rerun. They show 10, 10, 20, 20 and 25 movies;
    "Show More" is offered by all but the last; two runs ask for a rerun; and
    every run requests the genre list and all three pages again.
   */
  method GenreTwentyFive(genres: seq<Genre>, name: string, discover: (int, int) -> seq<Movie>)
    returns (shown: seq<nat>, offered: seq<bool>, reruns: seq<bool>, fetches: seq<seq<Request>>)
    requires Truthy(GenreId(genres, name))
    requires |Candidates(discover, GenreId(genres, name).value)| == 25
    ensures shown == [10, 10, 20, 20, 25]
    ensures offered == [true, true, true, true, false]
    ensures reruns == [false, true, false, true, false]
    ensures var id := GenreId(genres, name).value;
      var each := [GenreList, Discover(id, 1), Discover(id, 2), Discover(id, 3)];
      fetches == [each, each, each, each, each]
  {
    var id := GenreId(genres, name).value;
    var sorted := Ranked(discover, id);
    assert |sorted| == 25 by {
      assert |multiset(sorted)| == |multiset(Candidates(discover, id))|;
    }
    TwentyFiveMovies(sorted);
    assert ListedGenre(genres, Some(name)) == Some(id);
    var each := [GenreList, Discover(id, 1), Discover(id, 2), Discover(id, 3)];
    assert [GenreList] + PageRequests(p => Discover(id, p)) == each;
    var session := new GenreSession();
    var v1, r1, again1 := session.Run(genres, name, true, discover, false);
    assert session.page == 0;
    var v2, r2, again2 := session.Run(genres, name, false, discover, true);
    assert session.page == 1;
    var v3, r3, again3 := session.Run(genres, name, false, discover, false);
    assert session.page == 1;
    var v4, r4, again4 := session.Run(genres, name, false, discover, true);
    assert session.page == 2;
    var v5, r5, again5 := session.Run(genres, name, false, discover, false);
    assert session.page == 2;
    shown := [|v1.movies|, |v2.movies|, |v3.movies|, |v4.movies|, |v5.movies|];
    offered := [v1.moreOffered, v2.moreOffered, v3.moreOffered, v4.moreOffered, v5.moreOffered];
    reruns := [again1, again2, again3, again4, again5];
    fetches := [r1, r2, r3, r4, r5];
  }

  /**
    A search with no hit reports "not found", makes the search request only,
    and leaves the reveal step and the stored results as "Search" set them.
   */
  method TitleNotFound(query: string, search: string -> seq<Movie>, similar: (int, int) -> seq<Movie>)
    returns (view: View, requests: seq<Request>, page: nat, results: seq<Movie>)
    requires query != "" && search(query) == []
    ensures view == NotFound
    ensures requests == [SearchTitle(query)]
    ensures page == 0 && results == []
  {
    var session := new TitleSession();
    var rerun;
    view, requests, rerun := session.Run(query, true, search, similar, false);
    page, results := session.page, session.results;
  }
}
