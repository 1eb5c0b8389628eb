/** What reciprocal rank fusion does to rankings. */
module FusionOrder {
  import opened Basics
  import opened RankFusion
  import opened CandidateLadder

  // Stated over ranks alone, with the weight 1 / (60 + rank) written out.

  /** What one route adds to a chunk's score. */
  ghost function RouteScore(candidates: seq<Candidate>, c: nat): real {
    if candidates == [] then 0.0
    else
      RouteScore(candidates[..|candidates| - 1], c) +
      if candidates[|candidates| - 1].chunk == c then 1.0 / (60 + |candidates|) as real else 0.0
  }

  ghost function TotalScore(routes: seq<Route>, c: nat): real {
    if routes == [] then 0.0
    else TotalScore(routes[..|routes| - 1], c) + RouteScore(routes[|routes| - 1].candidates, c)
  }

  lemma {:induction false} ScoreAppends(a: seq<Entry>, b: seq<Entry>, c: nat)
    ensures ScoreOf(a + b, c) == ScoreOf(a, c) + ScoreOf(b, c)
  {
    if b == [] {
      assert a + b == a;
    } else {
      ScoreAppends(a, b[..|b| - 1], c);
      assert (a + b)[..|a + b| - 1] == a + b[..|b| - 1];
    }
  }

  lemma {:induction false} EntryScores(route: Route, c: nat, n: nat)
    requires n <= |route.candidates|
    ensures ScoreOf(RouteEntries(route)[..n], c) == RouteScore(route.candidates[..n], c)
  {
    if n > 0 {
      EntryScores(route, c, n - 1);
      assert RouteEntries(route)[..n][..n - 1] == RouteEntries(route)[..n - 1];
      assert route.candidates[..n][..n - 1] == route.candidates[..n - 1];
    }
  }

  /** A chunk's score is the sum of 1 / (60 + rank) over the routes that return it. */
  lemma {:induction false} ScoreIsTheSum(routes: seq<Route>, c: nat)
    ensures ScoreOf(EntriesOf(routes), c) == TotalScore(routes, c)
  {
    if routes != [] {
      var last := routes[|routes| - 1];
      ScoreIsTheSum(routes[..|routes| - 1], c);
      ScoreAppends(EntriesOf(routes[..|routes| - 1]), RouteEntries(last), c);
      EntryScores(last, c, |last.candidates|);
      assert RouteEntries(last)[..|last.candidates|] == RouteEntries(last);
      assert last.candidates[..|last.candidates|] == last.candidates;
    }
  }

  // ---------------------------------------------------------------- one route

  ghost predicate DistinctRoute(route: Route) {
    forall i, j :: 0 <= i < j < |route.candidates| ==> route.candidates[i].chunk != route.candidates[j].chunk
  }

  ghost predicate Returns(route: Route, c: nat) {
    exists i :: 0 <= i < |route.candidates| && route.candidates[i].chunk == c
  }

  lemma {:induction false} NotReturnedScore(candidates: seq<Candidate>, c: nat)
    requires forall i :: 0 <= i < |candidates| ==> candidates[i].chunk != c
    ensures RouteScore(candidates, c) == 0.0
  {
    if candidates != [] {
      NotReturnedScore(candidates[..|candidates| - 1], c);
    }
  }

  /** Returned at position `i`, which is rank `i + 1`, a chunk gets 1 / (61 + i) from a route without repetitions. */
  lemma {:induction false} ReturnedScore(candidates: seq<Candidate>, i: nat)
    requires i < |candidates| && forall k, l :: 0 <= k < l < |candidates| ==> candidates[k].chunk != candidates[l].chunk
    ensures RouteScore(candidates, candidates[i].chunk) == 1.0 / (61 + i) as real
  {
    var front, last := candidates[..|candidates| - 1], candidates[|candidates| - 1];
    if i < |front| {
      ReturnedScore(front, i);
      assert last.chunk != candidates[i].chunk;
    } else {
      NotReturnedScore(front, last.chunk);
    }
  }

  lemma ReciprocalFalls(m: nat, n: nat)
    requires 0 < m < n
    ensures 0.0 < 1.0 / n as real < 1.0 / m as real
  {
    var x, y := m as real, n as real;
    assert 1.0 / x - 1.0 / y == (y - x) / (x * y);
  }

  /** Wherever a route returns `b`, it returns `a` earlier. */
  ghost predicate Before(route: Route, a: nat, b: nat) {
    forall j :: 0 <= j < |route.candidates| && route.candidates[j].chunk == b ==>
      exists i :: 0 <= i < j && route.candidates[i].chunk == a
  }

  lemma BeforeScores(route: Route, a: nat, b: nat)
    requires DistinctRoute(route) && Before(route, a, b)
    ensures RouteScore(route.candidates, a) >= RouteScore(route.candidates, b) >= 0.0
    ensures Returns(route, a) ==> RouteScore(route.candidates, a) > RouteScore(route.candidates, b)
  {
    if j :| 0 <= j < |route.candidates| && route.candidates[j].chunk == b {
      var i :| 0 <= i < j && route.candidates[i].chunk == a;
      ReturnedScore(route.candidates, i);
      ReturnedScore(route.candidates, j);
      ReciprocalFalls(61 + i, 61 + j);
    } else {
      NotReturnedScore(route.candidates, b);
      if i :| 0 <= i < |route.candidates| && route.candidates[i].chunk == a {
        ReturnedScore(route.candidates, i);
      } else {
        NotReturnedScore(route.candidates, a);
      }
    }
  }

  // ---------------------------------------------------------------- all routes

  ghost predicate AllDistinct(routes: seq<Route>) {
    forall r :: 0 <= r < |routes| ==> DistinctRoute(routes[r])
  }

  ghost predicate EverywhereBefore(routes: seq<Route>, a: nat, b: nat) {
    forall r :: 0 <= r < |routes| ==> Before(routes[r], a, b)
  }

  ghost predicate SomewhereReturned(routes: seq<Route>, c: nat) {
    exists r :: 0 <= r < |routes| && Returns(routes[r], c)
  }

  lemma {:induction false} DominatingScores(routes: seq<Route>, a: nat, b: nat)
    requires AllDistinct(routes) && EverywhereBefore(routes, a, b)
    ensures TotalScore(routes, a) >= TotalScore(routes, b) >= 0.0
    ensures SomewhereReturned(routes, a) ==> TotalScore(routes, a) > TotalScore(routes, b)
  {
    hide Before, DistinctRoute, RouteScore, Returns;
    if routes != [] {
      var front, last := routes[..|routes| - 1], routes[|routes| - 1];
      DominatingScores(front, a, b);
      BeforeScores(last, a, b);
      if SomewhereReturned(routes, a) && !Returns(last, a) {
        var r :| 0 <= r < |routes| && Returns(routes[r], a);
        assert Returns(front[r], a);
      }
    }
  }

  lemma ReturnedSomewhere(routes: seq<Route>, c: nat)
    ensures RankFusion.Returned(EntriesOf(routes), c) <==> SomewhereReturned(routes, c)
  {
    hide EntriesOf;
    EntriesComeFromRoutes(routes, c);
    if SomewhereReturned(routes, c) {
      var r :| 0 <= r < |routes| && Returns(routes[r], c);
      var i :| 0 <= i < |routes[r].candidates| && routes[r].candidates[i].chunk == c;
      assert AtRoute(routes, routes[r].candidates[i]);
    }
    if x :| AtRoute(routes, x) && x.chunk == c {
      var r :| 0 <= r < |routes| && x in routes[r].candidates;
      assert Returns(routes[r], c);
    }
  }

  /** A chunk that every route lists before another one, wherever it lists the other, is fused ahead of it. */
  lemma DominatingStandsAhead(routes: seq<Route>, a: nat, b: nat)
    requires AllDistinct(routes) && EverywhereBefore(routes, a, b) && SomewhereReturned(routes, a)
    ensures a in Fused(EntriesOf(routes)) && Ahead(EntriesOf(routes), a, b)
    ensures var s := Fused(EntriesOf(routes));
      forall i, j :: 0 <= i < |s| && 0 <= j < |s| && s[i] == a && s[j] == b ==> i < j
  {
    hide Fused, EntriesOf, ScoreOf, BestRank, AllDistinct, EverywhereBefore, SomewhereReturned, TotalScore;
    var entries := EntriesOf(routes);
    DominatingScores(routes, a, b);
    ScoreIsTheSum(routes, a);
    ScoreIsTheSum(routes, b);
    ReturnedSomewhere(routes, a);
    FusedIsFusion(entries);
  }

  function Chunks(candidates: seq<Candidate>): seq<nat> {
    seq(|candidates|, i requires 0 <= i < |candidates| => candidates[i].chunk)
  }

  /** The only route that returns anything is fused to itself. */
  lemma OneRouteIsKept(routes: seq<Route>, r: nat)
    requires r < |routes| && DistinctRoute(routes[r])
    requires forall q :: 0 <= q < |routes| && q != r ==> routes[q].candidates == []
    ensures Fused(EntriesOf(routes)) == Chunks(routes[r].candidates)
  {
    hide Fused, EntriesOf, Ahead;
    var entries, list := EntriesOf(routes), Chunks(routes[r].candidates);
    forall c ensures c in list <==> RankFusion.Returned(entries, c) {
      ReturnedSomewhere(routes, c);
      if Returns(routes[r], c) {
        var i :| 0 <= i < |routes[r].candidates| && routes[r].candidates[i].chunk == c;
        assert list[i] == c;
      }
    }
    forall i, j | 0 <= i < j < |list| ensures Ahead(entries, list[i], list[j]) {
      assert Returns(routes[r], list[i]);
      DominatingStandsAhead(routes, list[i], list[j]);
    }
    OnlyFusion(entries, list);
  }

  /** A chunk that one route alone returns, at rank `i + 1`, scores 1 / (61 + i). */
  lemma {:induction false} ReturnedOnceScores(routes: seq<Route>, r: nat, i: nat)
    requires r < |routes| && DistinctRoute(routes[r]) && i < |routes[r].candidates|
    requires forall q :: 0 <= q < |routes| && q != r ==> !Returns(routes[q], routes[r].candidates[i].chunk)
    ensures ScoreOf(EntriesOf(routes), routes[r].candidates[i].chunk) == 1.0 / (61 + i) as real
  {
    var c := routes[r].candidates[i].chunk;
    ScoreIsTheSum(routes, c);
    var front, last := routes[..|routes| - 1], routes[|routes| - 1];
    if r == |front| {
      NowhereReturned(front, c);
      ReturnedScore(last.candidates, i);
    } else {
      ReturnedOnceScores(front, r, i);
      ScoreIsTheSum(front, c);
      assert !Returns(last, c);
      NotReturnedScore(last.candidates, c);
    }
  }

  lemma {:induction false} NowhereReturned(routes: seq<Route>, c: nat)
    requires forall q :: 0 <= q < |routes| ==> !Returns(routes[q], c)
    ensures TotalScore(routes, c) == 0.0
  {
    if routes != [] {
      NowhereReturned(routes[..|routes| - 1], c);
      assert !Returns(routes[|routes| - 1], c);
      NotReturnedScore(routes[|routes| - 1].candidates, c);
    }
  }

  /** Earlier in the fusion means a greater sum, or an equal one with the better best rank, or all equal and the smaller
      identifier. */
  lemma FusionOrderSpelledOut(routes: seq<Route>, i: nat, j: nat)
    requires i < j < |Fused(EntriesOf(routes))|
    ensures var s, entries := Fused(EntriesOf(routes)), EntriesOf(routes);
      TotalScore(routes, s[i]) > TotalScore(routes, s[j]) ||
      (TotalScore(routes, s[i]) == TotalScore(routes, s[j]) &&
       BestRank(entries, s[i]).Some? && BestRank(entries, s[j]).Some? &&
       (BestRank(entries, s[i]).value < BestRank(entries, s[j]).value ||
        (BestRank(entries, s[i]).value == BestRank(entries, s[j]).value && s[i] < s[j])))
  {
    hide Fused, EntriesOf, ScoreOf, BestRank, TotalScore;
    var s, entries := Fused(EntriesOf(routes)), EntriesOf(routes);
    FusedIsFusion(entries);
    ScoreIsTheSum(routes, s[i]);
    ScoreIsTheSum(routes, s[j]);
    assert s[i] in s && s[j] in s;
    ScoredExactlyWhenReturned(entries, s[i]);
    ScoredExactlyWhenReturned(entries, s[j]);
  }
}
