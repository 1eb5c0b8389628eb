/** The candidate ladder of one evaluation case, and its classification from the documents observed at each rung. */
module CandidateLadder {
  import opened Basics
  import opened RankFusion

  datatype Candidate = Candidate(rank: nat, score: real, chunk: nat, sourceChunk: nat, document: nat, sourceDocument: nat,
                                 pageStart: int, pageEnd: int, section: nat, targetMatch: bool, relevance: int,
                                 membership: seq<Membership>)

  datatype Route = Route(backend: RouteBackend, sourceDocument: nat, requestedK: nat, returnedCount: nat, candidates: seq<Candidate>)

  datatype Observation = Returned(rank: nat) | NotObserved

  /** What both backends, the fusion and the final list show of one required chunk. */
  datatype Boundary = Boundary(sourceChunk: nat, sourceDocument: nat, elasticsearch: Observation, milvus: Observation,
                               fusedRank: Option<nat>, finalRank: Option<nat>)

  datatype Configuration = Configuration(candidateK: nat, rrfK: nat, finalTopK: nat, vectorMinScore: real,
                                         queryDecomposition: bool, routeCoverage: bool, reranker: bool)

  const FROZEN_CONFIGURATION := Configuration(20, 60, 3, 0.5, false, false, false)

  datatype Ladder = Ladder(configuration: Configuration, preCutoffObserved: bool, routes: seq<Route>, boundaries: seq<Boundary>,
                           fused: seq<Candidate>, final: seq<Candidate>)

  // ---------------------------------------------------------------- classification

  datatype Cause = EsCandidateRetrieval | MilvusCandidateRetrieval | FusionOrRanking | Inconclusive

  /** Sorted document lists are sets here. */
  datatype Classification = Classification(primary: Cause, coPrimary: Option<Cause>, backendCauses: seq<Cause>,
                                           required: set<nat>, esObserved: set<nat>, milvusObserved: set<nat>,
                                           fusedObserved: set<nat>, finalObserved: set<nat>)

  function Coverage(candidates: seq<Candidate>): set<nat> {
    set c | c in candidates && c.targetMatch :: c.sourceDocument
  }

  function BackendCandidates(routes: seq<Route>, b: RouteBackend): seq<Candidate> {
    if routes == [] then []
    else
      var last := routes[|routes| - 1];
      BackendCandidates(routes[..|routes| - 1], b) + if last.backend == b then last.candidates else []
  }

  /** The branches of the classification, in their order. */
  function Verdict(required: set<nat>, es: set<nat>, milvus: set<nat>, fused: set<nat>,
                   final: set<nat>): (Cause, Option<Cause>) {
    if required - fused != {} then
      if (required - es) * (required - milvus) != {} then (EsCandidateRetrieval, Some(MilvusCandidateRetrieval))
      else (FusionOrRanking, None)
    else if required - final != {} then (FusionOrRanking, None)
    else (Inconclusive, None)
  }

  function Classify(ladder: Ladder, required: set<nat>): Classification {
    var es := Coverage(BackendCandidates(ladder.routes, ElasticsearchBm25));
    var milvus := Coverage(BackendCandidates(ladder.routes, MilvusDense));
    var fused, final := Coverage(ladder.fused), Coverage(ladder.final);
    var causes := (if required - es != {} then [EsCandidateRetrieval] else []) +
                  if required - milvus != {} then [MilvusCandidateRetrieval] else [];
    var verdict := Verdict(required, es, milvus, fused, final);
    Classification(verdict.0, verdict.1, causes, required, es, milvus, fused, final)
  }

  // ---------------------------------------------------------------- entries of the routes

  function RouteEntries(route: Route): seq<Entry> {
    seq(|route.candidates|, i requires 0 <= i < |route.candidates| =>
      Entry(route.candidates[i].chunk, i + 1, route.backend, route.sourceDocument))
  }

  /** All returned candidates in the order in which the routes list them. */
  function EntriesOf(routes: seq<Route>): seq<Entry> {
    if routes == [] then [] else EntriesOf(routes[..|routes| - 1]) + RouteEntries(routes[|routes| - 1])
  }

  predicate AtRoute(routes: seq<Route>, c: Candidate) {
    exists r :: 0 <= r < |routes| && c in routes[r].candidates
  }

  lemma {:induction false} EntriesComeFromRoutes(routes: seq<Route>, chunk: nat)
    ensures RankFusion.Returned(EntriesOf(routes), chunk) <==> exists c :: AtRoute(routes, c) && c.chunk == chunk
  {
    if routes == [] {
    } else {
      var front, last := routes[..|routes| - 1], routes[|routes| - 1];
      EntriesComeFromRoutes(front, chunk);
      var all, before := EntriesOf(routes), EntriesOf(front);
      assert routes == front + [last] && all == before + RouteEntries(last);
      if RankFusion.Returned(all, chunk) {
        var i :| 0 <= i < |all| && all[i].chunk == chunk;
        if i < |before| {
          assert RankFusion.Returned(before, chunk);
          var c :| AtRoute(front, c) && c.chunk == chunk;
          AtMoreRoutes(front, last, c);
        } else {
          var c := last.candidates[i - |before|];
          AtMoreRoutes(front, last, c);
        }
      }
      if c :| AtRoute(routes, c) && c.chunk == chunk {
        AtMoreRoutes(front, last, c);
        if AtRoute(front, c) {
          var i :| 0 <= i < |before| && before[i].chunk == chunk;
          assert all[i].chunk == chunk;
        } else {
          var i :| 0 <= i < |last.candidates| && last.candidates[i] == c;
          assert all[|before| + i].chunk == chunk;
        }
      }
    }
  }

  lemma AtMoreRoutes(front: seq<Route>, last: Route, c: Candidate)
    ensures AtRoute(front + [last], c) <==> AtRoute(front, c) || c in last.candidates
  {
    var all := front + [last];
    if AtRoute(front, c) {
      var r :| 0 <= r < |front| && c in front[r].candidates;
      assert c in all[r].candidates;
    }
    if c in last.candidates {
      assert c in all[|front|].candidates;
    }
  }

  lemma {:induction false} BackendCandidatesAtRoutes(routes: seq<Route>)
    ensures forall c :: c in BackendCandidates(routes, ElasticsearchBm25) || c in BackendCandidates(routes, MilvusDense) <==>
      AtRoute(routes, c)
  {
    if routes != [] {
      var front, last := routes[..|routes| - 1], routes[|routes| - 1];
      BackendCandidatesAtRoutes(front);
      assert routes == front + [last];
      forall c
        ensures c in BackendCandidates(routes, ElasticsearchBm25) || c in BackendCandidates(routes, MilvusDense) <==>
          AtRoute(routes, c)
      {
        AtMoreRoutes(front, last, c);
      }
    }
  }

  ghost predicate ListedBy(routes: seq<Route>, b: RouteBackend, c: Candidate) {
    exists r :: 0 <= r < |routes| && routes[r].backend == b && c in routes[r].candidates
  }

  lemma {:induction false} BackendListsItsRoutes(routes: seq<Route>, b: RouteBackend, c: Candidate)
    ensures c in BackendCandidates(routes, b) <==> ListedBy(routes, b, c)
  {
    if routes != [] {
      var front, last := routes[..|routes| - 1], routes[|routes| - 1];
      BackendListsItsRoutes(front, b, c);
      if ListedBy(front, b, c) {
        var r :| 0 <= r < |front| && front[r].backend == b && c in front[r].candidates;
        assert routes[r] == front[r];
      }
      if ListedBy(routes, b, c) {
        var r :| 0 <= r < |routes| && routes[r].backend == b && c in routes[r].candidates;
        assert r < |front| ==> front[r] == routes[r];
      }
      if last.backend == b && c in last.candidates {
        assert routes[|front|].backend == b && c in routes[|front|].candidates;
      }
    }
  }

  ghost predicate ShowsDocument(candidates: seq<Candidate>, d: nat) {
    exists i :: 0 <= i < |candidates| && candidates[i].targetMatch && candidates[i].sourceDocument == d
  }

  ghost predicate BackendShows(routes: seq<Route>, b: RouteBackend, d: nat) {
    exists r :: 0 <= r < |routes| && routes[r].backend == b && ShowsDocument(routes[r].candidates, d)
  }

  /** A document counts as observed exactly where a candidate of it that is a target is listed: by one of the backend's
      routes, in the fused list, or in the final list. */
  lemma ObservedDocuments(ladder: Ladder, required: set<nat>, d: nat)
    ensures var v := Classify(ladder, required);
      (d in v.esObserved <==> BackendShows(ladder.routes, ElasticsearchBm25, d)) &&
      (d in v.milvusObserved <==> BackendShows(ladder.routes, MilvusDense, d)) &&
      (d in v.fusedObserved <==> ShowsDocument(ladder.fused, d)) && (d in v.finalObserved <==> ShowsDocument(ladder.final, d))
  {
    hide BackendCandidates, Verdict, ShowsDocument, BackendShows, Coverage;
    BackendCoverageShows(ladder.routes, ElasticsearchBm25, d);
    BackendCoverageShows(ladder.routes, MilvusDense, d);
    CoverageShows(ladder.fused, d);
    CoverageShows(ladder.final, d);
  }

  lemma CoverageShows(candidates: seq<Candidate>, d: nat)
    ensures d in Coverage(candidates) <==> ShowsDocument(candidates, d)
  {
    if d in Coverage(candidates) {
      var c :| c in candidates && c.targetMatch && c.sourceDocument == d;
      var i :| 0 <= i < |candidates| && candidates[i] == c;
    }
  }

  lemma BackendCoverageShows(routes: seq<Route>, b: RouteBackend, d: nat)
    ensures d in Coverage(BackendCandidates(routes, b)) <==> BackendShows(routes, b, d)
  {
    hide BackendCandidates;
    if d in Coverage(BackendCandidates(routes, b)) {
      var c :| c in BackendCandidates(routes, b) && c.targetMatch && c.sourceDocument == d;
      BackendListsItsRoutes(routes, b, c);
      var r :| 0 <= r < |routes| && routes[r].backend == b && c in routes[r].candidates;
      CoverageShows(routes[r].candidates, d);
    }
    if r :| 0 <= r < |routes| && routes[r].backend == b && ShowsDocument(routes[r].candidates, d) {
      var i :| 0 <= i < |routes[r].candidates| && routes[r].candidates[i].targetMatch && routes[r].candidates[i].sourceDocument == d;
      BackendListsItsRoutes(routes, b, routes[r].candidates[i]);
    }
  }

  // ---------------------------------------------------------------- what a faithful ladder forces

  /** The reported identity of a candidate, apart from its rank, score and memberships. */
  datatype Identity = Identity(chunk: nat, sourceChunk: nat, document: nat, sourceDocument: nat, pageStart: int, pageEnd: int,
                               section: nat, targetMatch: bool, relevance: int)

  function IdentityOf(c: Candidate): Identity {
    Identity(c.chunk, c.sourceChunk, c.document, c.sourceDocument, c.pageStart, c.pageEnd, c.section, c.targetMatch, c.relevance)
  }

  ghost predicate HasRoute(routes: seq<Route>, f: Candidate) {
    exists c :: AtRoute(routes, c) && IdentityOf(c) == IdentityOf(f)
  }

  ghost predicate IsFused(fused: seq<Candidate>, chunk: nat) {
    exists i :: 0 <= i < |fused| && fused[i].chunk == chunk
  }

  /** One chunk has one identity across the routes. */
  ghost predicate IdentitiesAgree(routes: seq<Route>) {
    forall c, d :: AtRoute(routes, c) && AtRoute(routes, d) && c.chunk == d.chunk ==> IdentityOf(c) == IdentityOf(d)
  }

  /** Every fused candidate has the identity of a route candidate, and every route candidate's chunk is fused. */
  ghost predicate FusesRoutes(routes: seq<Route>, fused: seq<Candidate>) {
    IdentitiesAgree(routes) && (forall f :: f in fused ==> HasRoute(routes, f)) &&
    (forall c :: AtRoute(routes, c) ==> IsFused(fused, c.chunk))
  }

  lemma RouteOfFused(routes: seq<Route>, fused: seq<Candidate>, f: Candidate) returns (c: Candidate)
    requires FusesRoutes(routes, fused) && f in fused
    ensures AtRoute(routes, c) && IdentityOf(c) == IdentityOf(f)
  {
    hide AtRoute, IdentitiesAgree, IsFused;
    assert HasRoute(routes, f);
    c :| AtRoute(routes, c) && IdentityOf(c) == IdentityOf(f);
  }

  lemma FusedOfRoute(routes: seq<Route>, fused: seq<Candidate>, c: Candidate) returns (f: Candidate)
    requires FusesRoutes(routes, fused) && AtRoute(routes, c)
    ensures f in fused && IdentityOf(f) == IdentityOf(c)
  {
    hide AtRoute, HasRoute;
    assert IsFused(fused, c.chunk);
    var i :| 0 <= i < |fused| && fused[i].chunk == c.chunk;
    f := fused[i];
    var d := RouteOfFused(routes, fused, f);
    assert d.chunk == c.chunk;
  }

  lemma SeenByABackend(routes: seq<Route>, fused: seq<Candidate>, d: nat)
    requires FusesRoutes(routes, fused)
    ensures d in Coverage(fused) <==>
      d in Coverage(BackendCandidates(routes, ElasticsearchBm25)) ||
      d in Coverage(BackendCandidates(routes, MilvusDense))
  {
    hide FusesRoutes, AtRoute, BackendCandidates;
    var es, milvus := BackendCandidates(routes, ElasticsearchBm25), BackendCandidates(routes, MilvusDense);
    BackendCandidatesAtRoutes(routes);
    if d in Coverage(fused) {
      var f :| f in fused && f.targetMatch && f.sourceDocument == d;
      var c := RouteOfFused(routes, fused, f);
      assert c.targetMatch && c.sourceDocument == d && (c in es || c in milvus);
    }
    if d in Coverage(es) || d in Coverage(milvus) {
      var c :| (c in es || c in milvus) && c.targetMatch && c.sourceDocument == d;
      var f := FusedOfRoute(routes, fused, c);
      assert f.targetMatch && f.sourceDocument == d;
    }
  }

  /** Fusion observes exactly the target documents that some backend observed. */
  lemma FusedCoverage(ladder: Ladder)
    requires FusesRoutes(ladder.routes, ladder.fused)
    ensures Coverage(ladder.fused) ==
      Coverage(BackendCandidates(ladder.routes, ElasticsearchBm25)) + Coverage(BackendCandidates(ladder.routes, MilvusDense))
  {
    hide FusesRoutes, BackendCandidates, Coverage;
    forall d: nat ensures d in Coverage(ladder.fused) <==>
      d in Coverage(BackendCandidates(ladder.routes, ElasticsearchBm25)) + Coverage(BackendCandidates(ladder.routes, MilvusDense))
    {
      SeenByABackend(ladder.routes, ladder.fused, d);
    }
  }

  lemma VerdictsOfSets(required: set<nat>, es: set<nat>, milvus: set<nat>, final: set<nat>)
    ensures var unseen := (required - es) * (required - milvus);
      var (primary, coPrimary) := Verdict(required, es, milvus, es + milvus, final);
      required - (es + milvus) == unseen &&
      (primary == EsCandidateRetrieval <==> unseen != {}) &&
      (coPrimary == Some(MilvusCandidateRetrieval) <==> unseen != {}) &&
      (primary == FusionOrRanking <==> unseen == {} && required - final != {}) &&
      (primary == Inconclusive <==> unseen == {} && required <= final)
  {
    assert required - (es + milvus) == (required - es) * (required - milvus);
    assert required - final == {} <==> required <= final by {
      if required - final == {} {
        forall d | d in required ensures d in final {
          assert d !in required - final;
        }
      }
    }
  }

  lemma MissingMeans(required: set<nat>, observed: set<nat>)
    ensures required - observed != {} <==> exists d :: d in required && d !in observed
  {
    if d :| d in required - observed {
      assert d in required && d !in observed;
    }
    if d :| d in required && d !in observed {
      assert d in required - observed;
    }
  }

  /** A document is missing after fusion exactly when both backends missed it, so "fusion lost what a backend found"
      never happens, and the three verdicts are characterised by what the backends and the final list observed. */
  lemma VerdictsAreExact(ladder: Ladder, required: set<nat>)
    requires FusesRoutes(ladder.routes, ladder.fused)
    ensures var v := Classify(ladder, required);
      var unseen := (required - v.esObserved) * (required - v.milvusObserved);
      required - v.fusedObserved == unseen &&
      (v.primary == EsCandidateRetrieval <==> unseen != {}) &&
      (v.coPrimary == Some(MilvusCandidateRetrieval) <==> unseen != {}) &&
      (v.primary == FusionOrRanking <==> unseen == {} && required - v.finalObserved != {}) &&
      (v.primary == Inconclusive <==> unseen == {} && required <= v.finalObserved) &&
      (EsCandidateRetrieval in v.backendCauses <==> exists d :: d in required && d !in v.esObserved) &&
      (MilvusCandidateRetrieval in v.backendCauses <==> exists d :: d in required && d !in v.milvusObserved)
  {
    hide FusesRoutes, BackendCandidates, Coverage, Verdict;
    MissingMeans(required, Classify(ladder, required).esObserved);
    MissingMeans(required, Classify(ladder, required).milvusObserved);
    FusedCoverage(ladder);
    var v := Classify(ladder, required);
    VerdictsOfSets(required, v.esObserved, v.milvusObserved, v.finalObserved);
  }

  /** A final list taken from the front of the fused one never shows more than the fusion does. */
  lemma FinalShowsLess(ladder: Ladder)
    requires ladder.final <= ladder.fused
    ensures Coverage(ladder.final) <= Coverage(ladder.fused)
  {
    forall c | c in ladder.final ensures c in ladder.fused {
    }
  }
}
