/** The producer of a case: it serializes one observed retrieval into a ladder. */
module LadderLocalization {
  import opened Basics
  import opened Sorting
  import opened RankFusion
  import opened CandidateLadder
  import opened LadderAdjudicator

  datatype Ranked = Ranked(rank: nat, score: real, chunk: nat, document: nat, pageStart: int, pageEnd: int, section: nat)

  datatype Ranking = Ranking(backend: RouteBackend, document: nat, candidates: seq<Ranked>)

  datatype LadderObservation = LadderObservation(configuration: Configuration, preCutoffObserved: bool, rankings: seq<Ranking>,
                                                 fused: seq<Ranked>, final: seq<Ranked>)

  datatype Relevant = Relevant(chunk: nat, document: nat, relevance: int)

  datatype Target = Target(relevant: seq<Relevant>, requiredDocuments: seq<nat>)

  /** Runtime identifiers mapped to source identifiers. */
  datatype SourceMaps = SourceMaps(chunks: map<nat, nat>, documents: map<nat, nat>)

  function SourceOf(m: map<nat, nat>, k: nat): nat {
    if k in m then m[k] else 0
  }

  function Judgement(relevant: seq<Relevant>, chunk: nat): Option<Relevant> {
    if relevant == [] then None
    else if relevant[0].chunk == chunk then Some(relevant[0])
    else Judgement(relevant[1..], chunk)
  }

  predicate Mapped(maps: SourceMaps, c: Ranked) {
    c.chunk in maps.chunks && c.document in maps.documents
  }

  function RecordOf(maps: SourceMaps, target: Target, c: Ranked, memberships: seq<Membership>): Candidate {
    var source := SourceOf(maps.chunks, c.chunk);
    var judgement := Judgement(target.relevant, source);
    Candidate(c.rank, c.score, c.chunk, source, c.document, SourceOf(maps.documents, c.document), c.pageStart, c.pageEnd, c.section,
              judgement.Some?, if judgement.Some? then judgement.value.relevance else 0, memberships)
  }

  function RecordsOf(maps: SourceMaps, target: Target, candidates: seq<Ranked>): seq<Candidate> {
    seq(|candidates|, i requires 0 <= i < |candidates| => RecordOf(maps, target, candidates[i], []))
  }

  function RouteOf(maps: SourceMaps, target: Target, ranking: Ranking, requestedK: nat): Route {
    Route(ranking.backend, SourceOf(maps.documents, ranking.document), requestedK, |ranking.candidates|,
          RecordsOf(maps, target, ranking.candidates))
  }

  function RoutesOf(maps: SourceMaps, target: Target, rankings: seq<Ranking>, requestedK: nat): seq<Route> {
    seq(|rankings|, r requires 0 <= r < |rankings| => RouteOf(maps, target, rankings[r], requestedK))
  }

  lemma {:induction false} JudgementExactly(relevant: seq<Relevant>, chunk: nat)
    requires forall i, k :: 0 <= i < k < |relevant| ==> relevant[i].chunk != relevant[k].chunk
    ensures Judgement(relevant, chunk).Some? <==> exists i :: 0 <= i < |relevant| && relevant[i].chunk == chunk
    ensures forall i :: 0 <= i < |relevant| && relevant[i].chunk == chunk ==> Judgement(relevant, chunk) == Some(relevant[i])
  {
    if relevant != [] && relevant[0].chunk != chunk {
      var rest := relevant[1..];
      JudgementExactly(rest, chunk);
      forall i | 0 <= i < |relevant| && relevant[i].chunk == chunk ensures Judgement(relevant, chunk) == Some(relevant[i]) {
        assert rest[i - 1] == relevant[i];
      }
    }
  }

  /** How an observed candidate is reported: as it was observed, under its source identifiers, and with the relevance of
      the target's judgement of its source chunk, if there is one. */
  lemma RecordExactly(maps: SourceMaps, target: Target, c: Ranked, memberships: seq<Membership>)
    requires c.chunk in maps.chunks && c.document in maps.documents
    requires forall i, k :: 0 <= i < k < |target.relevant| ==> target.relevant[i].chunk != target.relevant[k].chunk
    ensures var n := RecordOf(maps, target, c, memberships);
      n.rank == c.rank && n.score == c.score && n.chunk == c.chunk && n.document == c.document && n.pageStart == c.pageStart &&
      n.pageEnd == c.pageEnd && n.section == c.section && n.membership == memberships &&
      n.sourceChunk == maps.chunks[c.chunk] && n.sourceDocument == maps.documents[c.document] &&
      (n.targetMatch <==> exists i :: 0 <= i < |target.relevant| && target.relevant[i].chunk == n.sourceChunk) &&
      (!n.targetMatch ==> n.relevance == 0) &&
      forall t :: t in target.relevant && t.chunk == n.sourceChunk ==> n.relevance == t.relevance
  {
    JudgementExactly(target.relevant, maps.chunks[c.chunk]);
  }

  /** The routes that returned a chunk, with the rank each reported. */
  function ReportedBy(document: nat, backend: RouteBackend, candidates: seq<Ranked>, chunk: nat): seq<Membership> {
    if candidates == [] then []
    else
      var last := candidates[|candidates| - 1];
      ReportedBy(document, backend, candidates[..|candidates| - 1], chunk) +
      if last.chunk == chunk then [Membership(backend, document, last.rank)] else []
  }

  function ReportedByAll(maps: SourceMaps, rankings: seq<Ranking>, chunk: nat): seq<Membership> {
    if rankings == [] then []
    else
      var last := rankings[|rankings| - 1];
      ReportedByAll(maps, rankings[..|rankings| - 1], chunk) +
      ReportedBy(SourceOf(maps.documents, last.document), last.backend, last.candidates, chunk)
  }

  function FusedRecords(maps: SourceMaps, target: Target, candidates: seq<Ranked>,
                        rankings: seq<Ranking>): seq<Candidate> {
    seq(|candidates|, i requires 0 <= i < |candidates| =>
      RecordOf(maps, target, candidates[i], ReportedByAll(maps, rankings, candidates[i].chunk)))
  }

  function ByChunk(): (Relevant, Relevant) -> bool {
    (a: Relevant, b: Relevant) => a.chunk <= b.chunk
  }

  function BoundaryFor(routes: seq<Route>, fused: seq<Candidate>, final: seq<Candidate>, r: Relevant): Boundary {
    Boundary(r.chunk, r.document, Observed(routes, ElasticsearchBm25, r.document, r.chunk),
             Observed(routes, MilvusDense, r.document, r.chunk),
             RankOfSource(fused, r.chunk), RankOfSource(final, r.chunk))
  }

  function LadderOf(maps: SourceMaps, target: Target, o: LadderObservation): Ladder {
    var routes := RoutesOf(maps, target, o.rankings, o.configuration.candidateK);
    var fused, final := FusedRecords(maps, target, o.fused, o.rankings), FusedRecords(maps, target, o.final, o.rankings);
    var targets := SortedBy(target.relevant, ByChunk());
    Ladder(o.configuration.(queryDecomposition := false, routeCoverage := false, reranker := false), o.preCutoffObserved, routes,
           seq(|targets|, i requires 0 <= i < |targets| => BoundaryFor(routes, fused, final, targets[i])), fused, final)
  }

  function CaseOf(maps: SourceMaps, target: Target, o: LadderObservation): Case {
    var ladder := LadderOf(maps, target, o);
    Case(target.requiredDocuments, seq(|target.relevant|, i requires 0 <= i < |target.relevant| => target.relevant[i].chunk), ladder,
         Classify(ladder, SetOf(target.requiredDocuments)))
  }

  // ---------------------------------------------------------------- a well-formed observation

  /** Two evaluated documents and at least one relevant chunk, each in one of them, none repeated. */
  ghost predicate TargetIsFrozen(target: Target) {
    |target.requiredDocuments| == 2 && target.requiredDocuments[0] != target.requiredDocuments[1] &&
    target.relevant != [] &&
    (forall i :: 0 <= i < |target.relevant| ==> target.relevant[i].document in target.requiredDocuments) &&
    forall i, k :: 0 <= i < k < |target.relevant| ==> target.relevant[i].chunk != target.relevant[k].chunk
  }

  ghost predicate RankedOk(maps: SourceMaps, c: Ranked) {
    c.chunk in maps.chunks && c.document in maps.documents && c.chunk != 0 && c.document != 0 && maps.chunks[c.chunk] != 0 &&
    maps.documents[c.document] != 0 &&
    1 <= c.pageStart <= c.pageEnd
  }

  ghost predicate RankingOk(maps: SourceMaps, target: Target, ranking: Ranking) {
    |ranking.candidates| <= 20 && ranking.document in maps.documents &&
    maps.documents[ranking.document] in target.requiredDocuments &&
    (forall i :: 0 <= i < |ranking.candidates| ==>
      RankedOk(maps, ranking.candidates[i]) && ranking.candidates[i].rank == i + 1) &&
    forall i, k :: 0 <= i < k < |ranking.candidates| ==> ranking.candidates[i].chunk != ranking.candidates[k].chunk
  }

  ghost predicate SamePayload(a: Ranked, b: Ranked) {
    a.chunk == b.chunk && a.document == b.document && a.pageStart == b.pageStart && a.pageEnd == b.pageEnd &&
    a.section == b.section
  }

  predicate InRankings(rankings: seq<Ranking>, c: Ranked) {
    exists r :: 0 <= r < |rankings| && c in rankings[r].candidates
  }

  /** One route per backend and document, with contiguous ranks, and backends that agree on every payload. */
  ghost predicate RankingsOk(maps: SourceMaps, target: Target, rankings: seq<Ranking>) {
    |rankings| == 4 && (forall r :: 0 <= r < |rankings| ==> RankingOk(maps, target, rankings[r])) &&
    (forall r, q :: 0 <= r < q < |rankings| ==>
      (rankings[r].backend, SourceOf(maps.documents, rankings[r].document)) !=
        (rankings[q].backend, SourceOf(maps.documents, rankings[q].document))) &&
    forall c, d :: InRankings(rankings, c) && InRankings(rankings, d) && c.chunk == d.chunk ==> SamePayload(c, d)
  }

  /** The entries the fusion adds up: each candidate's chunk at its own rank. */
  function ObservedEntries(maps: SourceMaps, rankings: seq<Ranking>): seq<Entry> {
    if rankings == [] then []
    else
      var last := rankings[|rankings| - 1];
      ObservedEntries(maps, rankings[..|rankings| - 1]) +
      seq(|last.candidates|, i requires 0 <= i < |last.candidates| =>
        Entry(last.candidates[i].chunk, last.candidates[i].rank, last.backend, SourceOf(maps.documents, last.document)))
  }

  /** The exact fusion, carrying the payloads of the routes. */
  ghost predicate FusedExactly(maps: SourceMaps, o: LadderObservation) {
    var entries := ObservedEntries(maps, o.rankings);
    var order := Fused(entries);
    |o.fused| == |order| && forall i :: 0 <= i < |order| ==>
      o.fused[i].rank == i + 1 && o.fused[i].chunk == order[i] && o.fused[i].score == ScoreOf(entries, order[i]) &&
      HasPayload(o.rankings, o.fused[i])
  }

  ghost predicate HasPayload(rankings: seq<Ranking>, f: Ranked) {
    exists c :: InRankings(rankings, c) && SamePayload(c, f)
  }

  ghost predicate WellFormed(maps: SourceMaps, target: Target, o: LadderObservation) {
    TargetIsFrozen(target) && o.configuration == FROZEN_CONFIGURATION && !o.preCutoffObserved &&
    RankingsOk(maps, target, o.rankings) && FusedExactly(maps, o) && o.final == o.fused[..Smaller(3, |o.fused|)]
  }

  // ---------------------------------------------------------------- the serializing loops

  ghost predicate RankingMapped(maps: SourceMaps, ranking: Ranking) {
    ranking.document in maps.documents && forall c :: c in ranking.candidates ==> Mapped(maps, c)
  }

  /** Both backends have a route for the document of every relevant chunk. */
  predicate TargetRouted(routes: seq<Route>, r: Relevant) {
    FindRoute(routes, ElasticsearchBm25, r.document).Some? && FindRoute(routes, MilvusDense, r.document).Some?
  }

  ghost predicate HasRouteFor(routes: seq<Route>, backend: RouteBackend, document: nat) {
    exists q :: 0 <= q < |routes| && routes[q].backend == backend && routes[q].sourceDocument == document
  }

  lemma {:induction false} FoundExactly(routes: seq<Route>, backend: RouteBackend, document: nat)
    ensures FindRoute(routes, backend, document).Some? <==> HasRouteFor(routes, backend, document)
  {
    if routes != [] {
      FoundExactly(routes[1..], backend, document);
      if HasRouteFor(routes[1..], backend, document) {
        var q :| 0 <= q < |routes| - 1 && routes[1..][q].backend == backend && routes[1..][q].sourceDocument == document;
        assert routes[q + 1] == routes[1..][q];
      }
      if HasRouteFor(routes, backend, document) && !(routes[0].backend == backend && routes[0].sourceDocument == document) {
        var q :| 0 <= q < |routes| && routes[q].backend == backend && routes[q].sourceDocument == document;
        assert routes[1..][q - 1] == routes[q];
      }
    }
  }

  lemma RoutedExactly(routes: seq<Route>, r: Relevant)
    ensures TargetRouted(routes, r) <==>
      HasRouteFor(routes, ElasticsearchBm25, r.document) && HasRouteFor(routes, MilvusDense, r.document)
  {
    hide HasRouteFor;
    FoundExactly(routes, ElasticsearchBm25, r.document);
    FoundExactly(routes, MilvusDense, r.document);
  }

  /** What serialization needs: every identity is mapped, and both routes exist for every relevant chunk's document. */
  ghost predicate Serializable(maps: SourceMaps, target: Target, o: LadderObservation) {
    (forall k :: 0 <= k < |o.rankings| ==> RankingMapped(maps, o.rankings[k])) &&
    (forall c :: c in o.fused || c in o.final ==> Mapped(maps, c)) &&
    (forall t :: t in target.relevant ==> TargetRouted(RoutesOf(maps, target, o.rankings, o.configuration.candidateK), t))
  }

  function Reports(m: map<nat, seq<Membership>>, chunk: nat): seq<Membership> {
    if chunk in m then m[chunk] else []
  }

  /** The memberships recorded so far are those before this route and then its own. */
  ghost predicate ReportsAlso(after: map<nat, seq<Membership>>, before: map<nat, seq<Membership>>, document: nat,
                              backend: RouteBackend,
                              candidates: seq<Ranked>) {
    forall c: nat :: Reports(after, c) == Reports(before, c) + ReportedBy(document, backend, candidates, c)
  }

  lemma ReportsOneMore(after: map<nat, seq<Membership>>, before: map<nat, seq<Membership>>, document: nat,
                       backend: RouteBackend,
                       candidates: seq<Ranked>, last: Ranked)
    requires ReportsAlso(after, before, document, backend, candidates)
    ensures ReportsAlso(after[last.chunk := Reports(after, last.chunk) + [Membership(backend, document, last.rank)]], before,
                        document, backend, candidates + [last])
  {
    assert (candidates + [last])[..|candidates|] == candidates;
  }

  lemma NothingMore(before: map<nat, seq<Membership>>, document: nat, backend: RouteBackend)
    ensures ReportsAlso(before, before, document, backend, [])
  {
  }

  lemma NoRecords(maps: SourceMaps, target: Target)
    ensures RecordsOf(maps, target, []) == []
  {
  }

  lemma RecordsOneMore(maps: SourceMaps, target: Target, candidates: seq<Ranked>, last: Ranked)
    ensures RecordsOf(maps, target, candidates + [last]) == RecordsOf(maps, target, candidates) + [RecordOf(maps, target, last, [])]
  {
    hide RecordOf;
  }

  lemma NoRoutes(maps: SourceMaps, target: Target, requestedK: nat)
    ensures RoutesOf(maps, target, [], requestedK) == []
  {
  }

  lemma RoutesOneMore(maps: SourceMaps, target: Target, rankings: seq<Ranking>, last: Ranking, requestedK: nat)
    ensures RoutesOf(maps, target, rankings + [last], requestedK) ==
      RoutesOf(maps, target, rankings, requestedK) + [RouteOf(maps, target, last, requestedK)]
  {
    hide RecordsOf;
  }

  method SerializeRanking(maps: SourceMaps, target: Target, ranking: Ranking, before: map<nat, seq<Membership>>)
    returns (r: Option<seq<Candidate>>, memberships: map<nat, seq<Membership>>)
    requires ranking.document in maps.documents
    ensures r.Some? <==> RankingMapped(maps, ranking)
    ensures r.Some? ==> r.value == RecordsOf(maps, target, ranking.candidates) && |r.value| == |ranking.candidates|
    ensures r.Some? ==> ReportsAlso(memberships, before, maps.documents[ranking.document], ranking.backend, ranking.candidates)
  {
    hide RecordOf, ReportsAlso, RecordsOf;
    var source := maps.documents[ranking.document];
    var records: seq<Candidate> := [];
    memberships := before;
    NothingMore(before, source, ranking.backend);
    NoRecords(maps, target);
    for i := 0 to |ranking.candidates|
      invariant records == RecordsOf(maps, target, ranking.candidates[..i]) && |records| == i
      invariant forall c :: c in ranking.candidates[..i] ==> Mapped(maps, c)
      invariant ReportsAlso(memberships, before, source, ranking.backend, ranking.candidates[..i])
    {
      var c := ranking.candidates[i];
      assert ranking.candidates[..i + 1] == ranking.candidates[..i] + [c];
      ReportsOneMore(memberships, before, source, ranking.backend, ranking.candidates[..i], c);
      RecordsOneMore(maps, target, ranking.candidates[..i], c);
      memberships := memberships[c.chunk := Reports(memberships, c.chunk) + [Membership(ranking.backend, source, c.rank)]];
      if !Mapped(maps, c) {
        return None, memberships;
      }
      records := records + [RecordOf(maps, target, c, [])];
    }
    assert ranking.candidates[..|ranking.candidates|] == ranking.candidates;
    r := Some(records);
  }

  method SerializeRankings(maps: SourceMaps, target: Target, rankings: seq<Ranking>, requestedK: nat)
    returns (r: Option<seq<Route>>, memberships: map<nat, seq<Membership>>)
    ensures r.Some? <==> forall k :: 0 <= k < |rankings| ==> RankingMapped(maps, rankings[k])
    ensures r.Some? ==> r.value == RoutesOf(maps, target, rankings, requestedK)
    ensures r.Some? ==> forall c: nat :: Reports(memberships, c) == ReportedByAll(maps, rankings, c)
  {
    hide RecordsOf, RoutesOf, ReportedBy, Reports;
    var routes: seq<Route> := [];
    NoRoutes(maps, target, requestedK);
    memberships := map[];
    assert forall c: nat :: Reports(memberships, c) == [] by { NothingReported(); }
    for k := 0 to |rankings|
      invariant routes == RoutesOf(maps, target, rankings[..k], requestedK)
      invariant forall j :: 0 <= j < k ==> RankingMapped(maps, rankings[j])
      invariant forall c: nat :: Reports(memberships, c) == ReportedByAll(maps, rankings[..k], c)
    {
      hide RankingMapped;
      var ranking := rankings[k];
      assert rankings[..k + 1] == rankings[..k] + [ranking] && rankings[..k + 1][..k] == rankings[..k];
      if ranking.document !in maps.documents {
        UnmappedDocument(maps, ranking);
        return None, memberships;
      }
      var records;
      records, memberships := SerializeRanking(maps, target, ranking, memberships);
      if records.None? {
        return None, memberships;
      }
      RoutesOneMore(maps, target, rankings[..k], ranking, requestedK);
      var route := Route(ranking.backend, maps.documents[ranking.document], requestedK, |records.value|, records.value);
      assert |records.value| == |ranking.candidates| && route == RouteOf(maps, target, ranking, requestedK);
      routes := routes + [route];
    }
    assert rankings[..|rankings|] == rankings;
    r := Some(routes);
  }

  lemma NothingReported()
    ensures forall c: nat :: Reports(map[], c) == []
  {
  }

  lemma UnmappedDocument(maps: SourceMaps, ranking: Ranking)
    requires ranking.document !in maps.documents
    ensures !RankingMapped(maps, ranking)
  {
  }

  method SerializeFused(maps: SourceMaps, target: Target, candidates: seq<Ranked>,
                        memberships: map<nat, seq<Membership>>,
                        ghost rankings: seq<Ranking>)
    returns (r: Option<seq<Candidate>>)
    requires forall c: nat :: Reports(memberships, c) == ReportedByAll(maps, rankings, c)
    ensures r.Some? <==> forall c :: c in candidates ==> Mapped(maps, c)
    ensures r.Some? ==> r.value == FusedRecords(maps, target, candidates, rankings)
  {
    hide RecordOf, ReportedByAll, Reports;
    var records: seq<Candidate> := [];
    for i := 0 to |candidates|
      invariant records == FusedRecords(maps, target, candidates[..i], rankings)
      invariant forall c :: c in candidates[..i] ==> Mapped(maps, c)
    {
      var c := candidates[i];
      assert candidates[..i + 1] == candidates[..i] + [c];
      if !Mapped(maps, c) {
        return None;
      }
      records := records + [RecordOf(maps, target, c, Reports(memberships, c.chunk))];
    }
    assert candidates[..|candidates|] == candidates;
    r := Some(records);
  }

  /** Serializes exactly when every identity is mapped and every relevant document has both routes. */
  method SerializeObservation(maps: SourceMaps, target: Target, o: LadderObservation) returns (r: Result<Ladder, ()>)
    ensures r.Ok? <==> Serializable(maps, target, o)
    ensures r.Ok? ==> r.value == LadderOf(maps, target, o)
  {
    hide RankingMapped, RoutesOf, ReportedByAll, Reports, FusedRecords, TargetRouted, BoundaryFor, SortedBy, ByChunk;
    var routes, memberships := SerializeRankings(maps, target, o.rankings, o.configuration.candidateK);
    if routes.None? {
      return Raised(());
    }
    var fused := SerializeFused(maps, target, o.fused, memberships, o.rankings);
    if fused.None? {
      return Raised(());
    }
    var final := SerializeFused(maps, target, o.final, memberships, o.rankings);
    if final.None? {
      return Raised(());
    }
    var targets := SortedBy(target.relevant, ByChunk());
    SortedContents(target.relevant, ByChunk());
    var boundaries: seq<Boundary> := [];
    for i := 0 to |targets|
      invariant |boundaries| == i && forall k :: 0 <= k < i ==>
        boundaries[k] == BoundaryFor(routes.value, fused.value, final.value, targets[k])
      invariant forall k :: 0 <= k < i ==> TargetRouted(routes.value, targets[k])
    {
      if !TargetRouted(routes.value, targets[i]) {
        assert targets[i] in targets;
        return Raised(());
      }
      boundaries := boundaries + [BoundaryFor(routes.value, fused.value, final.value, targets[i])];
    }
    forall t | t in target.relevant ensures TargetRouted(routes.value, t) {
      assert t in targets;
    }
    r := Ok(Ladder(o.configuration.(queryDecomposition := false, routeCoverage := false, reranker := false), o.preCutoffObserved,
                   routes.value, boundaries, fused.value, final.value));
    assert boundaries == LadderOf(maps, target, o).boundaries;
  }
}
