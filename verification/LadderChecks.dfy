/** The loops of the case check: routes, fused list, final list and boundaries, each accepted exactly when its
    comparison holds. */
module LadderChecks {
  import opened Basics
  import opened Sorting
  import opened RankFusion
  import opened CandidateLadder
  import opened LadderAdjudicator

  // One pass over the routes accumulates scores, ranks, memberships and identities; then the fused list, the final
  // list, the boundaries and the classification are compared with it.

  /** The dictionaries the pass fills; `order` is their key order. */
  datatype Tally = Tally(order: seq<nat>, scores: map<nat, real>, best: map<nat, nat>,
                         memberships: map<nat, seq<Membership>>, identities: map<nat, Identity>)

  ghost predicate TallyAt(t: Tally, entries: seq<Entry>, c: nat) {
    (c in t.scores <==> RankFusion.Returned(entries, c)) && (c in t.best <==> c in t.scores) &&
    (c in t.memberships <==> c in t.scores) &&
    (c in t.scores ==>
      t.scores[c] == ScoreOf(entries, c) && BestRank(entries, c) == Some(t.best[c]) &&
      t.memberships[c] == MembershipsOf(entries, c))
  }

  ghost predicate Tallies(t: Tally, entries: seq<Entry>) {
    t.order == FirstSeen(entries) && forall c: nat :: TallyAt(t, entries, c)
  }

  function Added(t: Tally, e: Entry, identity: Identity): Tally {
    var c := e.chunk;
    Tally(if c in t.order then t.order else t.order + [c],
          t.scores[c := (if c in t.scores then t.scores[c] else 0.0) + Weight(e.rank)],
          t.best[c := if c in t.best && t.best[c] <= e.rank then t.best[c] else e.rank],
          t.memberships[c := (if c in t.memberships then t.memberships[c] else []) + [Membership(e.backend, e.document, e.rank)]],
          t.identities[c := identity])
  }

  lemma AddedAt(t: Tally, entries: seq<Entry>, e: Entry, identity: Identity, c: nat)
    requires TallyAt(t, entries, c)
    ensures TallyAt(Added(t, e, identity), entries + [e], c)
  {
    hide RankFusion.Returned, Weight;
    assert (entries + [e])[..|entries|] == entries;
    ReturnedByMore(entries, e, c);
    ScoredExactlyWhenReturned(entries, c);
  }

  lemma AddedTallies(t: Tally, entries: seq<Entry>, e: Entry, identity: Identity)
    requires Tallies(t, entries)
    ensures Tallies(Added(t, e, identity), entries + [e])
  {
    hide TallyAt;
    assert (entries + [e])[..|entries|] == entries;
    forall c: nat ensures TallyAt(Added(t, e, identity), entries + [e], c) {
      AddedAt(t, entries, e, identity, c);
    }
  }

  ghost predicate KnownChunk(routes: seq<Route>, k: nat, identity: Identity) {
    exists c :: AtRoute(routes, c) && c.chunk == k && IdentityOf(c) == identity
  }

  /** The recorded identities are those of the routes' candidates, which therefore agree. */
  ghost predicate Identified(identities: map<nat, Identity>, routes: seq<Route>) {
    (forall c :: AtRoute(routes, c) ==> c.chunk in identities && identities[c.chunk] == IdentityOf(c)) &&
    forall k :: k in identities ==> KnownChunk(routes, k, identities[k])
  }

  function Partly(route: Route, n: nat): Route
    requires n <= |route.candidates|
  {
    route.(candidates := route.candidates[..n])
  }

  lemma PartEntries(before: seq<Route>, route: Route, n: nat)
    requires n < |route.candidates|
    ensures EntriesOf(before + [Partly(route, n + 1)]) ==
      EntriesOf(before + [Partly(route, n)]) + [Entry(route.candidates[n].chunk, n + 1, route.backend, route.sourceDocument)]
  {
    var fewer, more := before + [Partly(route, n)], before + [Partly(route, n + 1)];
    assert fewer[..|before|] == before && more[..|before|] == before;
    assert RouteEntries(Partly(route, n + 1)) ==
           RouteEntries(Partly(route, n)) + [Entry(route.candidates[n].chunk, n + 1, route.backend, route.sourceDocument)];
  }

  lemma PartAtRoute(before: seq<Route>, route: Route, n: nat, c: Candidate)
    requires n < |route.candidates|
    ensures AtRoute(before + [Partly(route, n + 1)], c) <==>
      AtRoute(before + [Partly(route, n)], c) || c == route.candidates[n]
  {
    AtMoreRoutes(before, Partly(route, n), c);
    AtMoreRoutes(before, Partly(route, n + 1), c);
    assert route.candidates[..n + 1] == route.candidates[..n] + [route.candidates[n]];
  }

  lemma PartIdentified(identities: map<nat, Identity>, before: seq<Route>, route: Route, n: nat)
    requires n < |route.candidates| && Identified(identities, before + [Partly(route, n)])
    requires var c := route.candidates[n]; c.chunk in identities ==> identities[c.chunk] == IdentityOf(c)
    ensures Identified(identities[route.candidates[n].chunk := IdentityOf(route.candidates[n])], before + [Partly(route, n + 1)])
  {
    hide AtRoute, IdentityOf;
    var c := route.candidates[n];
    var fewer, more := before + [Partly(route, n)], before + [Partly(route, n + 1)];
    forall d: Candidate ensures AtRoute(more, d) <==> AtRoute(fewer, d) || d == c {
      PartAtRoute(before, route, n, d);
    }
    var later := identities[c.chunk := IdentityOf(c)];
    forall k | k in later ensures KnownChunk(more, k, later[k]) {
      if k == c.chunk {
        assert AtRoute(more, c);
      } else {
        assert KnownChunk(fewer, k, identities[k]);
        var d :| AtRoute(fewer, d) && d.chunk == k && IdentityOf(d) == identities[k];
        assert AtRoute(more, d);
      }
    }
  }

  lemma EmptyPart(before: seq<Route>, route: Route, identities: map<nat, Identity>)
    ensures EntriesOf(before + [Partly(route, 0)]) == EntriesOf(before)
    ensures Identified(identities, before) ==> Identified(identities, before + [Partly(route, 0)])
  {
    hide IdentityOf;
    var all := before + [Partly(route, 0)];
    assert all[..|before|] == before;
    assert RouteEntries(Partly(route, 0)) == [];
    forall c: Candidate ensures AtRoute(all, c) <==> AtRoute(before, c) {
      AtMoreRoutes(before, Partly(route, 0), c);
    }
    if Identified(identities, before) {
      forall k | k in identities ensures KnownChunk(all, k, identities[k]) {
        assert KnownChunk(before, k, identities[k]);
        var d :| AtRoute(before, d) && d.chunk == k && IdentityOf(d) == identities[k];
        assert AtRoute(all, d);
      }
    }
  }

  /** None of the candidates contradicts an identity recorded before. */
  ghost predicate Compatible(identities: map<nat, Identity>, candidates: seq<Candidate>) {
    forall i :: 0 <= i < |candidates| && candidates[i].chunk in identities ==>
      identities[candidates[i].chunk] == IdentityOf(candidates[i])
  }

  method TallyRoute(route: Route, t: Tally, required: set<nat>, ghost before: seq<Route>)
    returns (r: Result<Tally, Rejection>)
    requires Tallies(t, EntriesOf(before)) && Identified(t.identities, before)
    ensures r.Ok? <==> CandidatesOk(route.candidates, required) && Compatible(t.identities, route.candidates)
    ensures r.Ok? ==> Tallies(r.value, EntriesOf(before + [route])) && Identified(r.value.identities, before + [route])
  {
    hide Tallies, Identified, EntriesOf, ValidCandidate, IdentityOf, Added;
    var tally := t;
    var localIds: set<nat> := {};
    EmptyPart(before, route, t.identities);
    for i := 0 to |route.candidates|
      invariant Tallies(tally, EntriesOf(before + [Partly(route, i)])) &&
        Identified(tally.identities, before + [Partly(route, i)])
      invariant CandidatesOk(route.candidates[..i], required) && Compatible(t.identities, route.candidates[..i])
      invariant localIds == set k | 0 <= k < i :: route.candidates[k].chunk
      invariant forall c :: c !in localIds ==> (c in tally.identities <==> c in t.identities)
      invariant forall c :: c !in localIds && c in t.identities ==> tally.identities[c] == t.identities[c]
    {
      var c := route.candidates[i];
      if !ValidCandidate(c, i + 1, required) {
        return Raised(InvalidCandidate);
      }
      if c.chunk in localIds {
        return Raised(DuplicateCandidate);
      }
      if c.chunk in tally.identities && tally.identities[c.chunk] != IdentityOf(c) {
        return Raised(IdentityDrift);
      }
      PartEntries(before, route, i);
      PartIdentified(tally.identities, before, route, i);
      AddedTallies(tally, EntriesOf(before + [Partly(route, i)]),
                   Entry(c.chunk, i + 1, route.backend, route.sourceDocument), IdentityOf(c));
      AddedIdentity(tally, Entry(c.chunk, i + 1, route.backend, route.sourceDocument), IdentityOf(c));
      tally := Added(tally, Entry(c.chunk, i + 1, route.backend, route.sourceDocument), IdentityOf(c));
      localIds := localIds + {c.chunk};
    }
    assert Partly(route, |route.candidates|) == route && route.candidates[..|route.candidates|] == route.candidates;
    r := Ok(tally);
  }

  lemma AddedIdentity(t: Tally, e: Entry, identity: Identity)
    ensures Added(t, e, identity).identities == t.identities[e.chunk := identity]
  {
  }

  lemma NothingTallied()
    ensures Tallies(Tally([], map[], map[], map[], map[]), EntriesOf([])) && Identified(map[], [])
  {
    forall c: nat ensures TallyAt(Tally([], map[], map[], map[], map[]), [], c) {
    }
  }

  lemma IdentifiedAgree(identities: map<nat, Identity>, routes: seq<Route>)
    requires Identified(identities, routes)
    ensures IdentitiesAgree(routes)
  {
    hide AtRoute, IdentityOf;
  }

  /** A route that contradicts an earlier one breaks agreement for good. */
  lemma DriftIsFinal(identities: map<nat, Identity>, routes: seq<Route>, n: nat)
    requires n < |routes| && Identified(identities, routes[..n]) && !Compatible(identities, routes[n].candidates)
    ensures !IdentitiesAgree(routes)
  {
    hide IdentityOf;
    var i :| 0 <= i < |routes[n].candidates| && routes[n].candidates[i].chunk in identities &&
      identities[routes[n].candidates[i].chunk] != IdentityOf(routes[n].candidates[i]);
    var c := routes[n].candidates[i];
    assert KnownChunk(routes[..n], c.chunk, identities[c.chunk]);
    var d :| AtRoute(routes[..n], d) && d.chunk == c.chunk && IdentityOf(d) == identities[c.chunk];
    var q :| 0 <= q < n && d in routes[..n][q].candidates;
    assert AtRoute(routes, d) by { assert d in routes[q].candidates; }
    assert AtRoute(routes, c) by { assert c in routes[n].candidates; }
  }

  method TallyRoutes(routes: seq<Route>, documents: seq<nat>, required: set<nat>) returns (r: Result<Tally, Rejection>)
    requires |documents| == 2
    ensures r.Ok? <==> RoutesOk(routes, documents, required)
    ensures r.Ok? ==> Tallies(r.value, EntriesOf(routes)) && Identified(r.value.identities, routes)
  {
    hide Tallies, Identified, EntriesOf, CandidatesOk, RouteHeaderOk, IdentitiesAgree;
    if |routes| != 4 {
      return Raised(RouteCount);
    }
    var tally := Tally([], map[], map[], map[], map[]);
    var seen: set<(RouteBackend, nat)> := {};
    NothingTallied();
    for n := 0 to |routes|
      invariant EachRouteOk(routes[..n], documents, required)
      invariant seen == RoutePairs(routes[..n])
      invariant Tallies(tally, EntriesOf(routes[..n])) && Identified(tally.identities, routes[..n])
    {
      var route := routes[n];
      assert routes[..n] + [route] == routes[..n + 1];
      if (route.backend, route.sourceDocument) in seen || !RouteHeaderOk(route, documents) {
        return Raised(RouteIdentity);
      }
      var next := TallyRoute(route, tally, required, routes[..n]);
      if next.Raised? {
        if !Compatible(tally.identities, route.candidates) {
          DriftIsFinal(tally.identities, routes, n);
        }
        return Raised(next.error);
      }
      tally := next.value;
      seen := seen + {(route.backend, route.sourceDocument)};
    }
    assert routes[..|routes|] == routes;
    IdentifiedAgree(tally.identities, routes);
    FourRoutesCover(routes, documents, required);
    if seen != AllPairs(documents) {
      return Raised(RouteCoverage);
    }
    r := Ok(tally);
  }

  // ---------------------------------------------------------------- the comparisons

  /** The sort key read from the dictionaries. */
  function TallyOrder(t: Tally): (nat, nat) -> bool {
    (a: nat, b: nat) =>
      if a in t.scores && b in t.scores && a in t.best && b in t.best then
        t.scores[a] > t.scores[b] ||
        (t.scores[a] == t.scores[b] && (t.best[a] < t.best[b] || (t.best[a] == t.best[b] && a <= b)))
      else a <= b
  }

  lemma TallyOrderIsFusionOrder(t: Tally, entries: seq<Entry>)
    requires Tallies(t, entries)
    ensures SortedBy(t.order, TallyOrder(t)) == Fused(entries)
  {
    hide RankFusion.Returned, ScoreOf, BestRank, MembershipsOf;
    FirstSeenContents(entries);
    forall a, b | a in t.order && b in t.order ensures TallyOrder(t)(a, b) == FusionOrder(entries)(a, b) {
      assert TallyAt(t, entries, a) && TallyAt(t, entries, b);
    }
    SortedAgrees(t.order, TallyOrder(t), FusionOrder(entries));
  }

  lemma IdentityMatches(identities: map<nat, Identity>, routes: seq<Route>, c: Candidate)
    requires Identified(identities, routes) && RankFusion.Returned(EntriesOf(routes), c.chunk)
    ensures c.chunk in identities && (IdentityOf(c) == identities[c.chunk] <==> HasRoute(routes, c))
  {
    hide AtRoute;
    EntriesComeFromRoutes(routes, c.chunk);
    var d :| AtRoute(routes, d) && d.chunk == c.chunk;
    if HasRoute(routes, c) {
      var e :| AtRoute(routes, e) && IdentityOf(e) == IdentityOf(c);
      assert e.chunk == c.chunk;
    }
  }

  lemma TallyOfOrder(t: Tally, entries: seq<Entry>, order: seq<nat>, i: nat)
    requires Tallies(t, entries) && order == Fused(entries) && i < |order|
    ensures RankFusion.Returned(entries, order[i]) && TallyAt(t, entries, order[i])
  {
    FusedIsFusion(entries);
    assert order[i] in order;
  }

  method CheckFused(routes: seq<Route>, fused: seq<Candidate>, t: Tally, required: set<nat>)
    returns (rejection: Option<Rejection>)
    requires Tallies(t, EntriesOf(routes)) && Identified(t.identities, routes)
    ensures rejection.None? <==> FusedOk(routes, fused, required)
  {
    hide Tallies, Identified, EntriesOf, ValidCandidate, IdentityOf, HasRoute, Fused, SortedBy, TallyOrder, RankFusion.Returned,
         ScoreOf, MembershipsOf;
    TallyOrderIsFusionOrder(t, EntriesOf(routes));
    var order := SortedBy(t.order, TallyOrder(t));
    if |fused| != |order| {
      return Some(FusedCount);
    }
    for i := 0 to |fused|
      invariant forall k :: 0 <= k < i ==> FusedCandidateOk(fused[k], k + 1, order[k], routes, required)
    {
      var c := fused[i];
      TallyOfOrder(t, EntriesOf(routes), order, i);
      if c.chunk == order[i] {
        IdentityMatches(t.identities, routes, c);
      }
      if !ValidCandidate(c, i + 1, required) {
        return Some(InvalidCandidate);
      }
      if c.chunk != order[i] || IdentityOf(c) != t.identities[order[i]] || !Close(c.score, t.scores[order[i]]) ||
         c.membership != t.memberships[order[i]] {
        return Some(FusedArithmetic);
      }
    }
    rejection := None;
  }

  method CheckFinal(fused: seq<Candidate>, final: seq<Candidate>, required: set<nat>)
    returns (rejection: Option<Rejection>)
    ensures rejection.None? <==> FinalOk(fused, final, required)
  {
    if |final| != Smaller(3, |fused|) {
      return Some(FinalCount);
    }
    for i := 0 to |final|
      invariant forall k :: 0 <= k < i ==> ValidCandidate(final[k], k + 1, required) && final[k] == fused[k]
    {
      if !ValidCandidate(final[i], i + 1, required) {
        return Some(InvalidCandidate);
      }
      if final[i] != fused[i] {
        return Some(FinalNotPrefix);
      }
    }
    rejection := None;
  }

  method CheckBoundaries(ladder: Ladder, documents: seq<nat>, required: set<nat>) returns (rejection: Option<Rejection>)
    ensures rejection.None? <==> BoundariesOk(ladder, documents, required)
  {
    var boundaries := ladder.boundaries;
    if |boundaries| != |required| {
      return Some(BoundaryCount);
    }
    var seen: set<nat> := {};
    for i := 0 to |boundaries|
      invariant seen == set k | 0 <= k < i :: boundaries[k].sourceChunk
      invariant forall k :: 0 <= k < i ==> BoundaryOk(boundaries[k], ladder, documents, required)
      invariant forall j, k :: 0 <= j < k < i ==> boundaries[j].sourceChunk != boundaries[k].sourceChunk
    {
      hide Observed, RankOfSource;
      var b := boundaries[i];
      if b.sourceChunk !in required || b.sourceChunk in seen || b.sourceDocument !in documents {
        return Some(BoundaryIdentity);
      }
      seen := seen + {b.sourceChunk};
      if b.elasticsearch != Observed(ladder.routes, ElasticsearchBm25, b.sourceDocument, b.sourceChunk) ||
         b.milvus != Observed(ladder.routes, MilvusDense, b.sourceDocument, b.sourceChunk) {
        return Some(BoundaryBackend);
      }
      if b.fusedRank != RankOfSource(ladder.fused, b.sourceChunk) ||
        b.finalRank != RankOfSource(ladder.final, b.sourceChunk) {
        return Some(BoundaryFusion);
      }
    }
    rejection := None;
  }

  /** Accepts a case exactly when every comparison holds, and answers its verdict. */
  method ValidateCase(c: Case) returns (r: Result<Cause, Rejection>)
    ensures r.Ok? <==> Accepted(c)
    ensures r.Ok? ==> r.value == c.classification.primary
  {
    hide RoutesOk, FusedOk, FinalOk, BoundariesOk, Classify, Tallies, Identified, EntriesOf;
    if !TargetOk(c) {
      return Raised(TargetIdentity);
    }
    if c.ladder.configuration != FROZEN_CONFIGURATION {
      return Raised(CaseConfig);
    }
    if c.ladder.preCutoffObserved {
      return Raised(CutoffBoundary);
    }
    var required := SetOf(c.requiredChunks);
    var tally := TallyRoutes(c.ladder.routes, c.requiredDocuments, required);
    if tally.Raised? {
      return Raised(tally.error);
    }
    var rejection := CheckFused(c.ladder.routes, c.ladder.fused, tally.value, required);
    if rejection.None? {
      rejection := CheckFinal(c.ladder.fused, c.ladder.final, required);
    }
    if rejection.None? {
      rejection := CheckBoundaries(c.ladder, c.requiredDocuments, required);
    }
    if rejection.Some? {
      return Raised(rejection.value);
    }
    if c.classification != Classify(c.ladder, SetOf(c.requiredDocuments)) {
      return Raised(WrongClassification);
    }
    r := Ok(c.classification.primary);
  }
}
