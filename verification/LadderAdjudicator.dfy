/** The independent check of one reported case against the recomputed fusion. */
module LadderAdjudicator {
  import opened Basics
  import opened RankFusion
  import opened CandidateLadder

  datatype Case = Case(requiredDocuments: seq<nat>, requiredChunks: seq<nat>, ladder: Ladder, classification: Classification)

  datatype Rejection =
    | TargetIdentity | CaseConfig | CutoffBoundary | RouteCount | RouteIdentity | RouteCandidateCount | InvalidCandidate
    | DuplicateCandidate | IdentityDrift | RouteCoverage | FusedCount | FusedArithmetic | FinalCount | FinalNotPrefix
    | BoundaryCount | BoundaryIdentity | BoundaryBackend | BoundaryFusion | WrongClassification

  // ---------------------------------------------------------------- what is accepted

  predicate ValidCandidate(c: Candidate, rank: nat, required: set<nat>) {
    c.rank == rank && c.chunk != 0 && c.sourceChunk != 0 && c.document != 0 && c.sourceDocument != 0 &&
    1 <= c.pageStart <= c.pageEnd && c.targetMatch == (c.sourceChunk in required)
  }

  ghost predicate DistinctChunks(candidates: seq<Candidate>) {
    forall i, k :: 0 <= i < k < |candidates| ==> candidates[i].chunk != candidates[k].chunk
  }

  ghost predicate CandidatesOk(candidates: seq<Candidate>, required: set<nat>) {
    (forall i :: 0 <= i < |candidates| ==> ValidCandidate(candidates[i], i + 1, required)) && DistinctChunks(candidates)
  }

  predicate RouteHeaderOk(route: Route, documents: seq<nat>) {
    route.sourceDocument in documents && route.requestedK == 20 && route.returnedCount == |route.candidates| <= 20
  }

  ghost predicate EachRouteOk(routes: seq<Route>, documents: seq<nat>, required: set<nat>) {
    (forall r :: 0 <= r < |routes| ==> RouteHeaderOk(routes[r], documents)) &&
    (forall r :: 0 <= r < |routes| ==> CandidatesOk(routes[r].candidates, required)) &&
    (forall r, q :: 0 <= r < q < |routes| ==>
      (routes[r].backend, routes[r].sourceDocument) != (routes[q].backend, routes[q].sourceDocument))
  }

  ghost predicate RoutesOk(routes: seq<Route>, documents: seq<nat>, required: set<nat>) {
    |routes| == 4 && EachRouteOk(routes, documents, required) && IdentitiesAgree(routes)
  }

  const TOLERANCE := 0.000000000001

  predicate Close(a: real, b: real) {
    -TOLERANCE <= a - b <= TOLERANCE
  }

  /** One fused candidate against the recomputed fusion. */
  ghost predicate FusedCandidateOk(c: Candidate, rank: nat, chunk: nat, routes: seq<Route>, required: set<nat>) {
    ValidCandidate(c, rank, required) && c.chunk == chunk && HasRoute(routes, c) &&
    Close(c.score, ScoreOf(EntriesOf(routes), chunk)) && c.membership == MembershipsOf(EntriesOf(routes), chunk)
  }

  ghost predicate FusedOk(routes: seq<Route>, fused: seq<Candidate>, required: set<nat>) {
    var order := Fused(EntriesOf(routes));
    |fused| == |order| && forall i :: 0 <= i < |fused| ==> FusedCandidateOk(fused[i], i + 1, order[i], routes, required)
  }

  function Smaller(a: nat, b: nat): nat {
    if a <= b then a else b
  }

  ghost predicate FinalOk(fused: seq<Candidate>, final: seq<Candidate>, required: set<nat>) {
    |final| == Smaller(3, |fused|) &&
    forall i :: 0 <= i < |final| ==> ValidCandidate(final[i], i + 1, required) && final[i] == fused[i]
  }

  function FirstWithSource(candidates: seq<Candidate>, sourceChunk: nat): Option<Candidate> {
    if candidates == [] then None
    else if candidates[0].sourceChunk == sourceChunk then Some(candidates[0])
    else FirstWithSource(candidates[1..], sourceChunk)
  }

  function RankOfSource(candidates: seq<Candidate>, sourceChunk: nat): Option<nat> {
    var c := FirstWithSource(candidates, sourceChunk);
    if c.Some? then Some(c.value.rank) else None
  }

  function FindRoute(routes: seq<Route>, backend: RouteBackend, document: nat): Option<Route> {
    if routes == [] then None
    else if routes[0].backend == backend && routes[0].sourceDocument == document then Some(routes[0])
    else FindRoute(routes[1..], backend, document)
  }

  /** What one backend shows of a required chunk on its document's route. */
  function Observed(routes: seq<Route>, backend: RouteBackend, document: nat, sourceChunk: nat): Observation {
    var route := FindRoute(routes, backend, document);
    if route.None? then NotObserved
    else
      var rank := RankOfSource(route.value.candidates, sourceChunk);
      if rank.Some? then CandidateLadder.Returned(rank.value) else NotObserved
  }

  predicate BoundaryOk(b: Boundary, ladder: Ladder, documents: seq<nat>, required: set<nat>) {
    b.sourceChunk in required && b.sourceDocument in documents &&
    b.elasticsearch == Observed(ladder.routes, ElasticsearchBm25, b.sourceDocument, b.sourceChunk) &&
    b.milvus == Observed(ladder.routes, MilvusDense, b.sourceDocument, b.sourceChunk) &&
    b.fusedRank == RankOfSource(ladder.fused, b.sourceChunk) && b.finalRank == RankOfSource(ladder.final, b.sourceChunk)
  }

  ghost predicate BoundariesOk(ladder: Ladder, documents: seq<nat>, required: set<nat>) {
    |ladder.boundaries| == |required| &&
    (forall i :: 0 <= i < |ladder.boundaries| ==> BoundaryOk(ladder.boundaries[i], ladder, documents, required)) &&
    forall i, k :: 0 <= i < k < |ladder.boundaries| ==>
      ladder.boundaries[i].sourceChunk != ladder.boundaries[k].sourceChunk
  }

  function SetOf(s: seq<nat>): set<nat> {
    set x | x in s
  }

  predicate TargetOk(c: Case) {
    |c.requiredDocuments| == 2 && c.requiredDocuments[0] != c.requiredDocuments[1] &&
    c.requiredChunks != [] && |SetOf(c.requiredChunks)| == |c.requiredChunks|
  }

  ghost predicate Accepted(c: Case) {
    TargetOk(c) && c.ladder.configuration == FROZEN_CONFIGURATION && !c.ladder.preCutoffObserved &&
    RoutesOk(c.ladder.routes, c.requiredDocuments, SetOf(c.requiredChunks)) &&
    FusedOk(c.ladder.routes, c.ladder.fused, SetOf(c.requiredChunks)) &&
    FinalOk(c.ladder.fused, c.ladder.final, SetOf(c.requiredChunks)) &&
    BoundariesOk(c.ladder, c.requiredDocuments, SetOf(c.requiredChunks)) &&
    c.classification == Classify(c.ladder, SetOf(c.requiredDocuments))
  }

  // ---------------------------------------------------------------- what acceptance means

  function ChunksIn(candidates: seq<Candidate>): seq<nat> {
    seq(|candidates|, i requires 0 <= i < |candidates| => candidates[i].chunk)
  }

  lemma AcceptedFuses(routes: seq<Route>, fused: seq<Candidate>, documents: seq<nat>, required: set<nat>)
    requires RoutesOk(routes, documents, required) && FusedOk(routes, fused, required)
    ensures FusesRoutes(routes, fused) && ChunksIn(fused) == Fused(EntriesOf(routes))
  {
    hide ValidCandidate, Fused, AtRoute, RankFusion.Returned, EntriesOf, HasRoute, IdentitiesAgree, EachRouteOk;
    var order := Fused(EntriesOf(routes));
    assert ChunksIn(fused) == order;
    FusedIsFusion(EntriesOf(routes));
    forall f | f in fused ensures HasRoute(routes, f) {
      var i :| 0 <= i < |fused| && fused[i] == f;
      assert FusedCandidateOk(fused[i], i + 1, order[i], routes, required);
    }
    forall c | AtRoute(routes, c) ensures IsFused(fused, c.chunk) {
      EntriesComeFromRoutes(routes, c.chunk);
      assert c.chunk in order;
      var i :| 0 <= i < |order| && order[i] == c.chunk;
      assert fused[i].chunk == c.chunk;
    }
  }

  /** An accepted ladder lists exactly the returned chunks, each once, strictly by (score, best rank, identifier); no
      other order is acceptable. */
  lemma AcceptedLadderIsTheFusion(c: Case, other: seq<nat>)
    requires Accepted(c)
    ensures IsFusion(EntriesOf(c.ladder.routes), ChunksIn(c.ladder.fused))
    ensures IsFusion(EntriesOf(c.ladder.routes), other) ==> other == ChunksIn(c.ladder.fused)
  {
    hide IsFusion, EntriesOf, FusedOk, RoutesOk, Fused, FinalOk, BoundariesOk, Classify;
    AcceptedFuses(c.ladder.routes, c.ladder.fused, c.requiredDocuments, SetOf(c.requiredChunks));
    FusedIsFusion(EntriesOf(c.ladder.routes));
    if IsFusion(EntriesOf(c.ladder.routes), other) {
      OnlyFusion(EntriesOf(c.ladder.routes), other);
    }
  }

  /** In an accepted case a document is missing after fusion exactly when both backends missed it; the reported verdict
      is exactly the one the observations determine, and fusion never loses a document some backend found. */
  lemma AcceptedVerdict(c: Case)
    requires Accepted(c)
    ensures var v := c.classification;
      var unseen := (v.required - v.esObserved) * (v.required - v.milvusObserved);
      v.required - v.fusedObserved == unseen && v.finalObserved <= v.fusedObserved &&
      (v.primary == EsCandidateRetrieval <==> unseen != {}) &&
      (v.primary == FusionOrRanking <==> unseen == {} && v.required - v.finalObserved != {}) &&
      (v.primary == Inconclusive <==> unseen == {} && v.required <= v.finalObserved)
  {
    AcceptedFuses(c.ladder.routes, c.ladder.fused, c.requiredDocuments, SetOf(c.requiredChunks));
    assert c.ladder.final == c.ladder.fused[..|c.ladder.final|];
    hide FusesRoutes, RoutesOk, FusedOk, FinalOk, BoundariesOk, Coverage, BackendCandidates, Verdict;
    FinalShowsLess(c.ladder);
    VerdictsAreExact(c.ladder, SetOf(c.requiredDocuments));
  }

  /** As many boundaries as required chunks, none repeated, leave no required chunk out. */
  lemma EveryTargetHasABoundary(c: Case)
    requires Accepted(c)
    ensures forall x :: x in c.requiredChunks ==> exists i :: 0 <= i < |c.ladder.boundaries| && c.ladder.boundaries[i].sourceChunk == x
  {
    var boundaries, required := c.ladder.boundaries, SetOf(c.requiredChunks);
    var chunks := seq(|boundaries|, i requires 0 <= i < |boundaries| => boundaries[i].sourceChunk);
    hide BoundaryOk, RoutesOk, FusedOk, FinalOk, Classify;
    forall i | 0 <= i < |boundaries| ensures boundaries[i].sourceChunk in required {
      BoundaryTarget(boundaries[i], c.ladder, c.requiredDocuments, required);
    }
    Pigeonhole(chunks, required);
    forall x | x in c.requiredChunks ensures exists i :: 0 <= i < |boundaries| && boundaries[i].sourceChunk == x {
      assert x in required && x in Elements(chunks);
      var i :| 0 <= i < |chunks| && chunks[i] == x;
      assert boundaries[i].sourceChunk == x;
    }
  }

  lemma BoundaryTarget(b: Boundary, ladder: Ladder, documents: seq<nat>, required: set<nat>)
    requires BoundaryOk(b, ladder, documents, required)
    ensures b.sourceChunk in required
  {
  }

  /** The constants of an accepted case, and how close its scores are. */
  lemma AcceptedCaseIsFrozen(c: Case)
    requires Accepted(c)
    ensures c.ladder.configuration == Configuration(20, 60, 3, 0.5, false, false, false) && |c.ladder.routes| == 4
    ensures forall r :: 0 <= r < 4 ==> c.ladder.routes[r].requestedK == 20 && |c.ladder.routes[r].candidates| <= 20
    ensures |c.ladder.final| == if |c.ladder.fused| >= 3 then 3 else |c.ladder.fused|
    ensures forall i :: 0 <= i < |c.ladder.fused| ==>
      -0.000000000001 <= c.ladder.fused[i].score - ScoreOf(EntriesOf(c.ladder.routes), c.ladder.fused[i].chunk) <= 0.000000000001
    ensures |c.requiredDocuments| == 2 && c.requiredDocuments[0] != c.requiredDocuments[1]
    ensures forall r, i :: 0 <= r < 4 && 0 <= i < |c.ladder.routes[r].candidates| ==>
      var candidate := c.ladder.routes[r].candidates[i];
      candidate.rank == i + 1 && candidate.chunk > 0 && candidate.sourceChunk > 0 && candidate.document > 0 &&
      candidate.sourceDocument > 0 && 0 < candidate.pageStart <= candidate.pageEnd &&
      (candidate.targetMatch <==> candidate.sourceChunk in c.requiredChunks)
  {
    forall r | 0 <= r < 4 ensures CandidatesOk(c.ladder.routes[r].candidates, SetOf(c.requiredChunks)) {
    }
    hide Fused, EntriesOf, ScoreOf, MembershipsOf, HasRoute, BoundariesOk, Classify, IdentitiesAgree, CandidatesOk;
    var order, required := Fused(EntriesOf(c.ladder.routes)), SetOf(c.requiredChunks);
    forall i | 0 <= i < |c.ladder.fused|
      ensures Close(c.ladder.fused[i].score, ScoreOf(EntriesOf(c.ladder.routes), c.ladder.fused[i].chunk))
    {
      assert FusedCandidateOk(c.ladder.fused[i], i + 1, order[i], c.ladder.routes, required);
    }
  }

  ghost predicate FirstAt(candidates: seq<Candidate>, sourceChunk: nat, n: nat) {
    n < |candidates| && candidates[n].sourceChunk == sourceChunk &&
    forall i :: 0 <= i < n ==> candidates[i].sourceChunk != sourceChunk
  }

  lemma {:induction false} RankOfFirst(candidates: seq<Candidate>, sourceChunk: nat)
    ensures forall n: nat :: FirstAt(candidates, sourceChunk, n) ==>
      RankOfSource(candidates, sourceChunk) == Some(candidates[n].rank)
    ensures RankOfSource(candidates, sourceChunk).Some? ==> exists n: nat :: FirstAt(candidates, sourceChunk, n)
  {
    if candidates != [] {
      var rest := candidates[1..];
      RankOfFirst(rest, sourceChunk);
      if candidates[0].sourceChunk == sourceChunk {
        assert FirstAt(candidates, sourceChunk, 0);
      } else {
        forall n: nat | FirstAt(candidates, sourceChunk, n)
          ensures RankOfSource(candidates, sourceChunk) == Some(candidates[n].rank)
        {
          assert FirstAt(rest, sourceChunk, n - 1);
        }
        if n: nat :| FirstAt(rest, sourceChunk, n) {
          assert FirstAt(candidates, sourceChunk, n + 1);
        }
      }
    }
  }

  lemma {:induction false} OnlyRouteIsFound(routes: seq<Route>, r: nat)
    requires r < |routes| && forall q, s :: 0 <= q < s < |routes| ==>
      (routes[q].backend, routes[q].sourceDocument) != (routes[s].backend, routes[s].sourceDocument)
    ensures FindRoute(routes, routes[r].backend, routes[r].sourceDocument) == Some(routes[r])
  {
    if r > 0 {
      OnlyRouteIsFound(routes[1..], r - 1);
    }
  }

  lemma {:induction false} NoRouteIsFound(routes: seq<Route>, backend: RouteBackend, document: nat)
    requires forall r :: 0 <= r < |routes| ==> (routes[r].backend, routes[r].sourceDocument) != (backend, document)
    ensures FindRoute(routes, backend, document) == None
  {
    if routes != [] {
      NoRouteIsFound(routes[1..], backend, document);
    }
  }

  /** What a list of an accepted case shows of a chunk: the number, counted from one, of its first candidate from that
      chunk, or nothing. */
  ghost predicate Tells(candidates: seq<Candidate>, sourceChunk: nat, rank: Option<nat>) {
    if rank.Some? then rank.value >= 1 && FirstAt(candidates, sourceChunk, rank.value - 1)
    else forall i :: 0 <= i < |candidates| ==> candidates[i].sourceChunk != sourceChunk
  }

  function RankIn(o: Observation): Option<nat> {
    if o.NotObserved? then None else Some(o.rank)
  }

  lemma SomeIsFirst(candidates: seq<Candidate>, sourceChunk: nat, i: nat) returns (n: nat)
    requires i < |candidates| && candidates[i].sourceChunk == sourceChunk
    ensures FirstAt(candidates, sourceChunk, n)
    decreases i
  {
    if k :| 0 <= k < i && candidates[k].sourceChunk == sourceChunk {
      n := SomeIsFirst(candidates, sourceChunk, k);
    } else {
      n := i;
    }
  }

  lemma RankTells(candidates: seq<Candidate>, sourceChunk: nat)
    requires forall i :: 0 <= i < |candidates| ==> candidates[i].rank == i + 1
    ensures Tells(candidates, sourceChunk, RankOfSource(candidates, sourceChunk))
  {
    hide RankOfSource;
    RankOfFirst(candidates, sourceChunk);
    if i :| 0 <= i < |candidates| && candidates[i].sourceChunk == sourceChunk {
      var n := SomeIsFirst(candidates, sourceChunk, i);
      assert RankOfSource(candidates, sourceChunk) == Some(n + 1);
    }
  }

  /** What an accepted boundary says of its chunk: for each backend the place on that backend's route of the boundary's
      document, and the places in the fused and the final list. */
  lemma AcceptedBoundary(c: Case, i: nat, r: nat)
    requires Accepted(c) && i < |c.ladder.boundaries| && r < |c.ladder.routes|
    ensures var b, route := c.ladder.boundaries[i], c.ladder.routes[r];
      (route.sourceDocument == b.sourceDocument ==>
        Tells(route.candidates, b.sourceChunk, RankIn(if route.backend == MilvusDense then b.milvus else b.elasticsearch))) &&
      Tells(c.ladder.fused, b.sourceChunk, b.fusedRank) && Tells(c.ladder.final, b.sourceChunk, b.finalRank)
  {
    var b, route, required := c.ladder.boundaries[i], c.ladder.routes[r], SetOf(c.requiredChunks);
    assert BoundaryOk(b, c.ladder, c.requiredDocuments, required);
    assert CandidatesOk(route.candidates, required);
    RanksCount(c);
    hide Accepted, Tells, RankOfSource, FindRoute;
    RankTells(route.candidates, b.sourceChunk);
    RankTells(c.ladder.fused, b.sourceChunk);
    RankTells(c.ladder.final, b.sourceChunk);
    if route.sourceDocument == b.sourceDocument {
      OnlyRouteIsFound(c.ladder.routes, r);
    }
  }

  lemma RanksCount(c: Case)
    requires Accepted(c)
    ensures forall i :: 0 <= i < |c.ladder.fused| ==> c.ladder.fused[i].rank == i + 1
    ensures forall i :: 0 <= i < |c.ladder.final| ==> c.ladder.final[i].rank == i + 1
    ensures forall q, s :: 0 <= q < s < |c.ladder.routes| ==>
      (c.ladder.routes[q].backend, c.ladder.routes[q].sourceDocument) !=
      (c.ladder.routes[s].backend, c.ladder.routes[s].sourceDocument)
  {
    hide Fused, EntriesOf, ScoreOf, MembershipsOf, HasRoute, BoundariesOk, Classify, IdentitiesAgree;
    var required, order := SetOf(c.requiredChunks), Fused(EntriesOf(c.ladder.routes));
    forall i | 0 <= i < |c.ladder.fused| ensures c.ladder.fused[i].rank == i + 1 {
      assert FusedCandidateOk(c.ladder.fused[i], i + 1, order[i], c.ladder.routes, required);
    }
    forall i | 0 <= i < |c.ladder.final| ensures c.ladder.final[i].rank == i + 1 {
      assert ValidCandidate(c.ladder.final[i], i + 1, required);
    }
  }

  /** Four different routes over two documents cover both backends for both documents: the coverage check never
      rejects. */
  lemma FourRoutesCover(routes: seq<Route>, documents: seq<nat>, required: set<nat>)
    requires |routes| == 4 && EachRouteOk(routes, documents, required) && |documents| == 2
    ensures RoutePairs(routes) == AllPairs(documents)
  {
    hide CandidatesOk;
    var pairs := seq(4, r requires 0 <= r < 4 => (routes[r].backend, routes[r].sourceDocument));
    forall r | 0 <= r < 4 ensures pairs[r] in AllPairs(documents) {
      var b := routes[r].backend;
      assert b == ElasticsearchBm25 || b == MilvusDense;
    }
    var d, e := documents[0], documents[1];
    assert AllPairs(documents) == {(ElasticsearchBm25, d), (ElasticsearchBm25, e), (MilvusDense, d), (MilvusDense, e)};
    FourAtMost((ElasticsearchBm25, d), (ElasticsearchBm25, e), (MilvusDense, d), (MilvusDense, e));
    Pigeonhole(pairs, AllPairs(documents));
    assert RoutePairs(routes) == Elements(pairs) by {
      forall p ensures p in RoutePairs(routes) <==> p in pairs {
        if p in RoutePairs(routes) {
          var r :| 0 <= r < |routes| && p == (routes[r].backend, routes[r].sourceDocument);
          assert pairs[r] == p;
        }
      }
    }
  }

  lemma FourAtMost<T>(a: T, b: T, c: T, d: T)
    ensures |{a, b, c, d}| <= 4
  {
    assert {a, b, c, d} == {a, b, c} + {d};
    assert {a, b, c} == {a, b} + {c};
    assert {a, b} == {a} + {b};
  }

  function RoutePairs(routes: seq<Route>): set<(RouteBackend, nat)> {
    set r | 0 <= r < |routes| :: (routes[r].backend, routes[r].sourceDocument)
  }

  function AllPairs(documents: seq<nat>): set<(RouteBackend, nat)> {
    set b, d | b in {ElasticsearchBm25, MilvusDense} && d in documents :: (b, d)
  }
}
