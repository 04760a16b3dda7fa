/**
  The recommendation pool and its incremental reveal.

  Each render fetches pages 1, 2 and 3 of one remote query (a genre's
  discovery listing or a movie's similar titles) and concatenates them in page
  order, without removing duplicates. The pool is sorted by rating, highest
  first, with Python's stable `sorted(..., reverse=True)`, and the first
  `(page + 1) * 10` movies are shown.
 */
module Ranking {

  /**
    A movie as returned by the remote catalogue. `rating` is `vote_average`;
    the code only ever compares it, so it is kept as an ordered integer key.
   */
  datatype Movie = Movie(id: int, title: string, rating: int, overview: string)

  /** How many movies one "Show More" reveals. */
  const PageSize: nat := 10

  /** The remote pages fetched per render: 1 up to and including `LastPage`. */
  const LastPage: nat := 3

  // ---------------------------------------------------------------------------
  // The candidate pool

  /** Pages 1..n of query `key`, concatenated in page order. */
  function Pool(fetch: (int, int) -> seq<Movie>, key: int, n: nat): (pool: seq<Movie>)
    ensures forall x :: x in pool <==> exists p :: 1 <= p <= n && x in fetch(key, p)
  {
    if n == 0 then []
    else
      var prev := Pool(fetch, key, n - 1);
      var pool := prev + fetch(key, n);
      assert forall x :: x in pool <==> x in prev || x in fetch(key, n);
      pool
  }

  /** The candidates of one render: pages 1 to 3 of query `key`. */
  function Candidates(fetch: (int, int) -> seq<Movie>, key: int): (pool: seq<Movie>)
    ensures forall x :: x in pool <==> x in fetch(key, 1) || x in fetch(key, 2) || x in fetch(key, 3)
  {
    Pool(fetch, key, LastPage)
  }

  /**
    The `for page in range(1, 4)` loop: fetches the pages one by one and
    extends the pool with each. Returns the pool and the pages requested,
    in request order.
   */
  method FetchPages(fetch: (int, int) -> seq<Movie>, key: int) returns (movies: seq<Movie>, requested: seq<nat>)
    ensures movies == fetch(key, 1) + fetch(key, 2) + fetch(key, 3)
    ensures movies == Candidates(fetch, key)
    ensures requested == [1, 2, 3]
  {
    movies, requested := [], [];
    for page := 1 to LastPage + 1
      invariant movies == Pool(fetch, key, page - 1)
      invariant requested == Pages(page - 1)
    {
      movies := movies + fetch(key, page);
      requested := requested + [page];
    }
    CandidatesArePages(fetch, key);
  }

  /** The page numbers 1..n in order. */
  function Pages(n: nat): (r: seq<nat>)
    ensures |r| == n && forall i :: 0 <= i < n ==> r[i] == i + 1
  {
    if n == 0 then [] else Pages(n - 1) + [n]
  }

  /** The pool is exactly pages 1, 2 and 3 in that order: nothing dropped, nothing merged. */
  lemma CandidatesArePages(fetch: (int, int) -> seq<Movie>, key: int)
    ensures Candidates(fetch, key) == fetch(key, 1) + fetch(key, 2) + fetch(key, 3)
    ensures multiset(Candidates(fetch, key)) ==
            multiset(fetch(key, 1)) + multiset(fetch(key, 2)) + multiset(fetch(key, 3))
    ensures |Candidates(fetch, key)| == |fetch(key, 1)| + |fetch(key, 2)| + |fetch(key, 3)|
  {
    assert Pool(fetch, key, 1) == [] + fetch(key, 1) == fetch(key, 1);
    assert Pool(fetch, key, 2) == fetch(key, 1) + fetch(key, 2);
    assert Pool(fetch, key, 3) == fetch(key, 1) + fetch(key, 2) + fetch(key, 3);
  }

  // ---------------------------------------------------------------------------
  // Sorting by rating, highest first, stably

  predicate NonIncreasing(s: seq<Movie>)
  {
    forall i, j :: 0 <= i < j < |s| ==> s[i].rating >= s[j].rating
  }

  /** The movies of `s` rated exactly `k`, in their order in `s`. */
  function WithRating(s: seq<Movie>, k: int): seq<Movie>
  {
    if s == [] then []
    else (if s[0].rating == k then [s[0]] else []) + WithRating(s[1..], k)
  }

  /**
    Inserts `m` in front of the first movie rated no higher than it. When `m`
    precedes every movie of `r` in the input, this keeps equal ratings in
    input order.
   */
  function Insert(m: Movie, r: seq<Movie>): seq<Movie>
  {
    if r == [] || r[0].rating <= m.rating then [m] + r
    else [r[0]] + Insert(m, r[1..])
  }

  /** Insertion adds exactly the inserted movie. */
  lemma {:induction false} InsertAddsOne(m: Movie, r: seq<Movie>)
    ensures multiset(Insert(m, r)) == multiset(r) + multiset{m}
  {
    if r != [] && r[0].rating > m.rating {
      InsertAddsOne(m, r[1..]);
      assert r == [r[0]] + r[1..];
    }
  }

  /** Insertion into a list sorted by rating, highest first, keeps it sorted. */
  lemma {:induction false} InsertKeepsOrder(m: Movie, r: seq<Movie>)
    requires NonIncreasing(r)
    ensures NonIncreasing(Insert(m, r))
  {
    if r != [] && r[0].rating > m.rating {
      var rest := Insert(m, r[1..]);
      InsertKeepsOrder(m, r[1..]);
      InsertAddsOne(m, r[1..]);
      forall x | x in rest ensures x.rating <= r[0].rating {
        assert x in multiset(rest);
        if x != m {
          assert x in multiset(r[1..]);
          var k :| 0 <= k < |r[1..]| && r[1..][k] == x;
          assert r[k + 1] == x;
        }
      }
      ConsNonIncreasing(r[0], rest);
    } else {
      ConsNonIncreasing(m, r);
    }
  }

  lemma ConsNonIncreasing(x: Movie, s: seq<Movie>)
    requires NonIncreasing(s)
    requires forall y :: y in s ==> y.rating <= x.rating
    ensures NonIncreasing([x] + s)
  {
    forall i, j | 0 <= i < j < |[x] + s| ensures ([x] + s)[i].rating >= ([x] + s)[j].rating {
      assert ([x] + s)[j] == s[j - 1];
      if i > 0 {
        assert ([x] + s)[i] == s[i - 1];
      } else {
        assert s[j - 1] in s;
      }
    }
  }

  /** Python's `sorted(movies, key=vote_average, reverse=True)`. */
  function SortByRating(s: seq<Movie>): (r: seq<Movie>)
    ensures NonIncreasing(r)
    ensures multiset(r) == multiset(s)
  {
    if s == [] then []
    else
      var rest := SortByRating(s[1..]);
      InsertKeepsOrder(s[0], rest);
      InsertAddsOne(s[0], rest);
      assert s == [s[0]] + s[1..];
      Insert(s[0], rest)
  }

  lemma {:induction false} InsertWithRating(m: Movie, r: seq<Movie>, k: int)
    requires NonIncreasing(r)
    ensures WithRating(Insert(m, r), k) ==
            if m.rating == k then [m] + WithRating(r, k) else WithRating(r, k)
  {
    if r == [] || r[0].rating <= m.rating {
      assert ([m] + r)[1..] == r;
    } else {
      var rest := Insert(m, r[1..]);
      InsertWithRating(m, r[1..], k);
      assert ([r[0]] + rest)[1..] == rest;
    }
  }

  /**
    The sort is stable: for every rating, the movies with that rating appear
    in the sorted list in the same order as in the input.
   */
  lemma {:induction false} SortIsStable(s: seq<Movie>, k: int)
    ensures WithRating(SortByRating(s), k) == WithRating(s, k)
  {
    if s != [] {
      var rest := SortByRating(s[1..]);
      SortIsStable(s[1..], k);
      InsertWithRating(s[0], rest, k);
      assert SortByRating(s) == Insert(s[0], rest);
      assert WithRating(s, k) == (if s[0].rating == k then [s[0]] else []) + WithRating(s[1..], k);
    }
  }

  lemma {:induction false} WithRatingMembers(s: seq<Movie>, k: int, x: Movie)
    requires x in WithRating(s, k)
    ensures x in s && x.rating == k
  {
    if s[0].rating == k && x == s[0] {
    } else {
      WithRatingMembers(s[1..], k, x);
    }
  }

  /**
    A list that is sorted by rating and holds, for every rating, the same
    movies in the same order as `s` is the sorted list: the two properties
    determine the result of the sort completely.
   */
  lemma SortIsUnique(s: seq<Movie>, r: seq<Movie>)
    requires NonIncreasing(r)
    requires forall k :: WithRating(r, k) == WithRating(s, k)
    ensures r == SortByRating(s)
  {
    forall k ensures WithRating(r, k) == WithRating(SortByRating(s), k) {
      SortIsStable(s, k);
    }
    SameRatingsEqual(r, SortByRating(s));
  }

  lemma {:induction false} HeadRatingBound(a: seq<Movie>, b: seq<Movie>)
    requires a != [] && NonIncreasing(b)
    requires WithRating(b, a[0].rating) == WithRating(a, a[0].rating)
    ensures b != [] && a[0].rating <= b[0].rating
  {
    var k := a[0].rating;
    assert WithRating(a, k)[0] == a[0];
    var x := WithRating(b, k)[0];
    WithRatingMembers(b, k, x);
    var i :| 0 <= i < |b| && b[i] == x;
    assert i == 0 || b[0].rating >= b[i].rating;
  }

  lemma {:induction false} SameRatingsEqual(a: seq<Movie>, b: seq<Movie>)
    requires NonIncreasing(a) && NonIncreasing(b)
    requires forall k :: WithRating(a, k) == WithRating(b, k)
    ensures a == b
  {
    if a != [] {
      HeadRatingBound(a, b);
      HeadRatingBound(b, a);
      var k := a[0].rating;
      assert a[0] == WithRating(a, k)[0] == WithRating(b, k)[0] == b[0];
      forall j ensures WithRating(a[1..], j) == WithRating(b[1..], j) {
        var head := if a[0].rating == j then [a[0]] else [];
        assert WithRating(a, j) == head + WithRating(a[1..], j);
        assert WithRating(b, j) == head + WithRating(b[1..], j);
        assert WithRating(a[1..], j) == WithRating(a, j)[|head|..];
        assert WithRating(b[1..], j) == WithRating(b, j)[|head|..];
      }
      SameRatingsEqual(a[1..], b[1..]);
      assert a == [a[0]] + a[1..];
      assert b == [b[0]] + b[1..];
    } else if b != [] {
      HeadRatingBound(b, a);
    }
  }

  // ---------------------------------------------------------------------------
  // The reveal

  /** `end` in the source: how many movies are shown at reveal step `page`. */
  function End(page: nat): (end: nat)
    ensures end >= PageSize && end % PageSize == 0
  {
    (page + 1) * PageSize
  }

  /** `sorted_movies[:end]`: Python's slice, which stops at the end of the list. */
  function Reveal(sorted: seq<Movie>, page: nat): (shown: seq<Movie>)
    ensures |shown| == if End(page) < |sorted| then End(page) else |sorted|
    ensures shown == sorted[..|shown|]
  {
    if End(page) <= |sorted| then sorted[..End(page)] else sorted
  }

  /** "Show More" is offered while `end < len(sorted_movies)`. */
  predicate MoreOffered(sorted: seq<Movie>, page: nat): (offered: bool)
    ensures offered <==> |Reveal(sorted, page)| < |sorted|
  {
    End(page) < |sorted|
  }

  /** "Show More" is offered exactly when some sorted movie is still hidden. */
  lemma MoreOfferedIffHidden(sorted: seq<Movie>, page: nat)
    ensures MoreOffered(sorted, page) <==> Reveal(sorted, page) != sorted
    ensures MoreOffered(sorted, page) <==> |Reveal(sorted, page)| < |sorted|
  {
  }

  /**
    Each step keeps what was shown and, while more is offered, shows strictly
    more; the step reveals at most one page of movies.
   */
  lemma RevealGrows(sorted: seq<Movie>, page: nat)
    ensures Reveal(sorted, page) <= Reveal(sorted, page + 1)
    ensures MoreOffered(sorted, page) <==> |Reveal(sorted, page)| < |Reveal(sorted, page + 1)|
    ensures |Reveal(sorted, page + 1)| <= |Reveal(sorted, page)| + PageSize
  {
  }

  /** What is shown is drawn from the fetched pool, each movie at most as often as it was fetched. */
  lemma ShownFromPool(movies: seq<Movie>, page: nat)
    ensures multiset(Reveal(SortByRating(movies), page)) <= multiset(movies)
  {
    var sorted := SortByRating(movies);
    var shown := Reveal(sorted, page);
    assert sorted == shown + sorted[|shown|..];
    assert multiset(sorted) == multiset(shown) + multiset(sorted[|shown|..]);
  }

  /** "Show More" is offered exactly when fewer movies are shown than were fetched. */
  lemma MoreOfferedIffFewerShown(movies: seq<Movie>, page: nat)
    ensures MoreOffered(SortByRating(movies), page) <==> |Reveal(SortByRating(movies), page)| < |movies|
  {
    var sorted := SortByRating(movies);
    assert |sorted| == |multiset(sorted)| == |multiset(movies)| == |movies|;
  }

  /**
    Twenty-five rated movies: the first render shows ten with "Show More";
    the next shows twenty with "Show More"; the one after shows all
    twenty-five, and "Show More" is gone.
   */
  lemma TwentyFiveMovies(sorted: seq<Movie>)
    requires |sorted| == 25
    ensures |Reveal(sorted, 0)| == 10 && MoreOffered(sorted, 0)
    ensures |Reveal(sorted, 1)| == 20 && MoreOffered(sorted, 1)
    ensures Reveal(sorted, 2) == sorted && !MoreOffered(sorted, 2)
  {
  }
}
