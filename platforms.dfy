/**
  The local availability table and the "Where to watch" annotation.

  The table is the CSV file loaded once at start-up: one row per title with a
  0/1 flag per streaming service. A lookup is an exact, case-sensitive join on
  the title; only the first matching row is consulted, and the services whose
  flag equals 1 are listed in the fixed column order Netflix, Hulu,
  Prime Video, Disney+. No match, or no flag set, yields the single fallback
  label "Buy movie online".
 */
module Platforms {
  import opened Wrappers

  /** The four streaming-service columns of the table. */
  datatype Service = Netflix | Hulu | PrimeVideo | DisneyPlus

  /** A row of the table. Flags are kept as read; only `== 1` means "available". */
  datatype Row = Row(title: string, netflix: int, hulu: int, primeVideo: int, disneyPlus: int)

  const Fallback: string := "Buy movie online"

  /** The column order in which services are listed. */
  const Services: seq<Service> := [Netflix, Hulu, PrimeVideo, DisneyPlus]

  /** The column header of a service, which is also the label shown to the user. */
  function Name(s: Service): string
  {
    match s
    case Netflix => "Netflix"
    case Hulu => "Hulu"
    case PrimeVideo => "Prime Video"
    case DisneyPlus => "Disney+"
  }

  /** Position of a service's column in `Services`. */
  function Rank(s: Service): (i: nat)
    ensures i < |Services| && Services[i] == s
  {
    match s
    case Netflix => 0
    case Hulu => 1
    case PrimeVideo => 2
    case DisneyPlus => 3
  }

  function Flag(row: Row, s: Service): int
  {
    match s
    case Netflix => row.netflix
    case Hulu => row.hulu
    case PrimeVideo => row.primeVideo
    case DisneyPlus => row.disneyPlus
  }

  /** Each service of `ss` comes strictly after the previous one in column order. */
  predicate InColumnOrder(ss: seq<Service>)
  {
    forall a, b :: 0 <= a < b < |ss| ==> Rank(ss[a]) < Rank(ss[b])
  }

  predicate Available(row: Row, s: Service)
  {
    Flag(row, s) == 1
  }

  /** The first row of `table` whose title equals `title`, if any. */
  function FirstMatch(table: seq<Row>, title: string): (r: Option<Row>)
    ensures r.None? <==> forall i :: 0 <= i < |table| ==> table[i].title != title
    ensures r.Some? ==> exists i :: 0 <= i < |table| && table[i] == r.value && table[i].title == title &&
                          forall j :: 0 <= j < i ==> table[j].title != title
  {
    if table == [] then None
    else if table[0].title == title then Some(table[0])
    else
      var r := FirstMatch(table[1..], title);
      assert forall i :: 1 <= i < |table| ==> table[i] == table[1..][i - 1];
      r
  }

  /** The services of `cols` available in `row`, in the order of `cols`. */
  function AvailableIn(row: Row, cols: seq<Service>): (r: seq<Service>)
    ensures |r| <= |cols|
  {
    if cols == [] then []
    else (if Available(row, cols[0]) then [cols[0]] else []) + AvailableIn(row, cols[1..])
  }

  function Names(ss: seq<Service>): (r: seq<string>)
    ensures |r| == |ss| && forall i :: 0 <= i < |ss| ==> r[i] == Name(ss[i])
  {
    if ss == [] then [] else [Name(ss[0])] + Names(ss[1..])
  }

  /** The services available in `row`, in column order. */
  function ActiveServices(row: Row): seq<Service>
  {
    AvailableIn(row, Services)
  }

  /** `get_movie_platforms`: the labels shown for `title`, with the fallback. */
  function MoviePlatforms(table: seq<Row>, title: string): (labels: seq<string>)
    ensures 0 < |labels| <= |Services|
  {
    match FirstMatch(table, title)
    case None => [Fallback]
    case Some(row) =>
      var active := ActiveServices(row);
      if active == [] then [Fallback] else Names(active)
  }

  /** Python's `', '.join(labels)`. */
  function Join(labels: seq<string>): (text: string)
    ensures labels == [] ==> text == ""
    ensures labels != [] ==> labels[0] <= text
  {
    if labels == [] then ""
    else if |labels| == 1 then labels[0]
    else
      labels[0] + ", " + Join(labels[1..])
  }

  /** The text after "Where to watch:" in `display_movie`. */
  function WhereToWatch(table: seq<Row>, title: string): (text: string)
    ensures MoviePlatforms(table, title)[0] <= text
    ensures text != ""
  {
    var labels := MoviePlatforms(table, title);
    assert labels[0] != "" by {
      if FirstMatch(table, title).Some? && ActiveServices(FirstMatch(table, title).value) != [] {
        assert labels[0] == Name(ActiveServices(FirstMatch(table, title).value)[0]);
      }
    }
    Join(labels)
  }

  /** True when the lookup falls back: no row has the title, or its first row has no flag set. */
  predicate FallsBack(table: seq<Row>, title: string)
  {
    FirstMatch(table, title).None? || ActiveServices(FirstMatch(table, title).value) == []
  }

  // ---------------------------------------------------------------------------
  // The services listed for a row

  lemma {:induction false} AvailableInMembership(row: Row, cols: seq<Service>, s: Service)
    ensures s in AvailableIn(row, cols) <==> s in cols && Available(row, s)
  {
    if cols != [] {
      AvailableInMembership(row, cols[1..], s);
      assert cols == [cols[0]] + cols[1..];
    }
  }

  /** Every element of `AvailableIn(row, cols)` is taken from `cols`, and in the order of `cols`. */
  lemma {:induction false} AvailableInOrdered(row: Row, cols: seq<Service>)
    requires InColumnOrder(cols)
    ensures InColumnOrder(AvailableIn(row, cols))
  {
    if cols != [] {
      var tail := AvailableIn(row, cols[1..]);
      AvailableInOrdered(row, cols[1..]);
      forall s | s in tail ensures Rank(cols[0]) < Rank(s) {
        AvailableInMembership(row, cols[1..], s);
        var k :| 0 <= k < |cols[1..]| && cols[1..][k] == s;
        assert cols[k + 1] == s;
      }
      var r := AvailableIn(row, cols);
      if Available(row, cols[0]) {
        assert r == [cols[0]] + tail;
        forall a, b | 0 <= a < b < |r| ensures Rank(r[a]) < Rank(r[b]) {
          assert r[b] == tail[b - 1];
          if a > 0 {
            assert r[a] == tail[a - 1];
          } else {
            assert r[0] == cols[0];
            assert tail[b - 1] in tail;
          }
        }
      } else {
        assert r == tail;
      }
    }
  }

  /**
    A row's service list is exactly the available services, each once, in
    column order.
   */
  lemma ActiveServicesExact(row: Row)
    ensures forall s :: s in ActiveServices(row) <==> Available(row, s)
    ensures InColumnOrder(ActiveServices(row))
  {
    forall s ensures s in ActiveServices(row) <==> Available(row, s) {
      AvailableInMembership(row, Services, s);
      assert Services[Rank(s)] == s;
    }
    assert InColumnOrder(Services) by {
      assert Rank(Services[0]) == 0 && Rank(Services[1]) == 1;
      assert Rank(Services[2]) == 2 && Rank(Services[3]) == 3;
    }
    AvailableInOrdered(row, Services);
    assert ActiveServices(row) == AvailableIn(row, Services);
  }

  /**
    Any list that holds exactly the available services, in strictly increasing
    column order, is the list the lookup produces: the services are the
    subsequence of Netflix, Hulu, Prime Video, Disney+ whose flag is 1.
   */
  lemma ActiveServicesUnique(row: Row, r: seq<Service>)
    requires forall s :: s in r <==> Available(row, s)
    requires InColumnOrder(r)
    ensures r == ActiveServices(row)
  {
    ActiveServicesExact(row);
    SortedSetsEqual(r, ActiveServices(row));
  }

  /** The head of a list in strictly increasing column order has the least rank of its members. */
  lemma HeadLeastRank(p: seq<Service>, s: Service)
    requires InColumnOrder(p)
    requires s in p
    ensures Rank(p[0]) <= Rank(s)
  {
  }

  lemma SameMembersBothEmpty(p: seq<Service>, q: seq<Service>)
    requires forall s :: s in p <==> s in q
    ensures p == [] <==> q == []
  {
    if p != [] {
      assert p[0] in q;
    }
    if q != [] {
      assert q[0] in p;
    }
  }

  lemma {:induction false} SortedSetsEqual(p: seq<Service>, q: seq<Service>)
    requires forall s :: s in p <==> s in q
    requires InColumnOrder(p)
    requires InColumnOrder(q)
    ensures p == q
  {
    SameMembersBothEmpty(p, q);
    if p != [] {
      HeadLeastRank(p, q[0]);
      HeadLeastRank(q, p[0]);
      assert p[0] == q[0] by {
        assert Services[Rank(p[0])] == p[0];
      }
      forall s ensures s in p[1..] <==> s in q[1..] {
        assert p == [p[0]] + p[1..];
        assert q == [q[0]] + q[1..];
        if s in p[1..] {
          var k :| 0 <= k < |p[1..]| && p[1..][k] == s;
          assert Rank(p[0]) < Rank(s) by { assert p[k + 1] == s; }
          assert s in p && s in q && s != q[0];
        }
        if s in q[1..] {
          var k :| 0 <= k < |q[1..]| && q[1..][k] == s;
          assert Rank(q[0]) < Rank(s) by { assert q[k + 1] == s; }
          assert s in q && s in p && s != p[0];
        }
      }
      SortedSetsEqual(p[1..], q[1..]);
      assert p == [p[0]] + p[1..];
      assert q == [q[0]] + q[1..];
    }
  }

  // ---------------------------------------------------------------------------
  // The lookup

  /**
    The lookup returns exactly the fallback when no row has the title or the
    first matching row has no flag equal to 1.
   */
  lemma LookupFallback(table: seq<Row>, title: string)
    ensures MoviePlatforms(table, title) == [Fallback] <==> FallsBack(table, title)
  {
    if !FallsBack(table, title) {
      LookupListsServices(table, title);
    }
  }

  /** Otherwise the lookup returns a non-empty list that does not hold the fallback. */
  lemma LookupListsServices(table: seq<Row>, title: string)
    requires !FallsBack(table, title)
    ensures MoviePlatforms(table, title) != []
    ensures Fallback !in MoviePlatforms(table, title)
  {
    var active := ActiveServices(FirstMatch(table, title).value);
    var r := MoviePlatforms(table, title);
    assert r == Names(active);
    forall i | 0 <= i < |r| ensures r[i] != Fallback {
      assert r[i] == Name(active[i]);
      assert r[i][0] != 'B';
    }
  }

  /**
    For a title present in the table, the labels are the names of the services
    available in the FIRST matching row, in column order; rows further down
    with the same title are ignored.
   */
  lemma LookupFirstRow(table: seq<Row>, title: string, i: nat)
    requires i < |table| && table[i].title == title
    requires forall j :: 0 <= j < i ==> table[j].title != title
    requires ActiveServices(table[i]) != []
    ensures MoviePlatforms(table, title) == Names(ActiveServices(table[i]))
    ensures forall s :: Name(s) in MoviePlatforms(table, title) <==> Available(table[i], s)
  {
    var m := FirstMatch(table, title);
    var k :| 0 <= k < |table| && table[k] == m.value && table[k].title == title &&
             forall j :: 0 <= j < k ==> table[j].title != title;
    assert k == i;
    var r := MoviePlatforms(table, title);
    var active := ActiveServices(table[i]);
    ActiveServicesExact(table[i]);
    forall s ensures Name(s) in r <==> Available(table[i], s) {
      if Name(s) in r {
        var n :| 0 <= n < |r| && r[n] == Name(s);
        assert Name(active[n]) == Name(s);
        NameInjective(active[n], s);
        assert active[n] in active;
      }
      if Available(table[i], s) {
        var n :| 0 <= n < |active| && active[n] == s;
        assert r[n] == Name(s);
      }
    }
  }

  lemma NameInjective(s: Service, t: Service)
    requires Name(s) == Name(t)
    ensures s == t
  {
  }

  // ---------------------------------------------------------------------------
  // The displayed text

  /**
    The "Where to watch" text is the fallback label exactly when the lookup
    falls back; otherwise it is the service names separated by ", ".
   */
  lemma WhereToWatchFallback(table: seq<Row>, title: string)
    ensures WhereToWatch(table, title) == Fallback <==> FallsBack(table, title)
  {
    if !FallsBack(table, title) {
      var labels := MoviePlatforms(table, title);
      var active := ActiveServices(FirstMatch(table, title).value);
      assert labels[0] == Name(active[0]);
      assert labels[0][0] != Fallback[0];
      assert WhereToWatch(table, title)[0] == labels[0][0];
    }
  }

  /** Joining one more label appends ", " and that label. */
  lemma {:induction false} JoinAppend(labels: seq<string>, last: string)
    requires labels != []
    ensures Join(labels + [last]) == Join(labels) + ", " + last
  {
    var longer := labels + [last];
    assert longer[0] == labels[0] && longer[1..] == labels[1..] + [last];
    if |labels| == 1 {
      assert longer[1..] == [last];
      assert Join(longer) == labels[0] + ", " + Join([last]);
    } else {
      JoinAppend(labels[1..], last);
      assert Join(longer) == labels[0] + ", " + Join(labels[1..] + [last]);
      assert Join(labels) == labels[0] + ", " + Join(labels[1..]);
    }
  }

  /**
    Whatever else the table holds, if its first "Dune" row has only the
    Netflix flag set, "Dune" is shown as available on Netflix alone.
   */
  lemma DuneOnNetflix(table: seq<Row>, i: nat)
    requires i < |table| && table[i] == Row("Dune", 1, 0, 0, 0)
    requires forall j :: 0 <= j < i ==> table[j].title != "Dune"
    ensures MoviePlatforms(table, "Dune") == ["Netflix"]
    ensures WhereToWatch(table, "Dune") == "Netflix"
  {
    var m := FirstMatch(table, "Dune");
    var k :| 0 <= k < |table| && table[k] == m.value && table[k].title == "Dune" &&
             forall j :: 0 <= j < k ==> table[j].title != "Dune";
    assert k == i;
    assert ActiveServices(table[i]) == [Netflix];
  }

  /** A title with no row is shown with the fallback label. */
  lemma UnknownTitle(table: seq<Row>)
    requires forall i :: 0 <= i < |table| ==> table[i].title != "Unknown Movie"
    ensures MoviePlatforms(table, "Unknown Movie") == [Fallback]
    ensures WhereToWatch(table, "Unknown Movie") == Fallback
  {
  }
}
