/** Every case serialized from a well-formed observation is accepted. */
module LadderCompleteness {
  import opened Basics
  import opened Sorting
  import opened RankFusion
  import opened CandidateLadder
  import opened LadderAdjudicator
  import opened LadderChecks
  import opened LadderLocalization

  // ---------------------------------------------------------------- the same entries on both sides

  lemma {:induction false} SameEntries(maps: SourceMaps, target: Target, rankings: seq<Ranking>, k: nat)
    requires forall r :: 0 <= r < |rankings| ==> RankingOk(maps, target, rankings[r])
    ensures ObservedEntries(maps, rankings) == EntriesOf(RoutesOf(maps, target, rankings, k))
  {
    hide RankedOk, RecordOf;
    if rankings != [] {
      var front, last := rankings[..|rankings| - 1], rankings[|rankings| - 1];
      SameEntries(maps, target, front, k);
      var routes := RoutesOf(maps, target, rankings, k);
      assert routes[..|routes| - 1] == RoutesOf(maps, target, front, k);
      assert RankingOk(maps, target, last);
      RouteEntriesMatch(maps, target, last, k);
    }
  }

  lemma RouteEntriesMatch(maps: SourceMaps, target: Target, ranking: Ranking, k: nat)
    requires RankingOk(maps, target, ranking)
    ensures RouteEntries(RouteOf(maps, target, ranking, k)) ==
      seq(|ranking.candidates|, i requires 0 <= i < |ranking.candidates| =>
        Entry(ranking.candidates[i].chunk, ranking.candidates[i].rank, ranking.backend, SourceOf(maps.documents, ranking.document)))
  {
    hide RankedOk;
  }

  lemma {:induction false} MembershipsAppend(a: seq<Entry>, b: seq<Entry>, c: nat)
    ensures MembershipsOf(a + b, c) == MembershipsOf(a, c) + MembershipsOf(b, c)
  {
    if b == [] {
      assert a + b == a;
    } else {
      MembershipsAppend(a, b[..|b| - 1], c);
      assert (a + b)[..|a + b| - 1] == a + b[..|b| - 1];
    }
  }

  function RankedEntries(document: nat, backend: RouteBackend, candidates: seq<Ranked>): seq<Entry> {
    seq(|candidates|, i requires 0 <= i < |candidates| => Entry(candidates[i].chunk, candidates[i].rank, backend, document))
  }

  lemma {:induction false} ReportsAreMemberships(document: nat, backend: RouteBackend, candidates: seq<Ranked>, c: nat)
    ensures ReportedBy(document, backend, candidates, c) == MembershipsOf(RankedEntries(document, backend, candidates), c)
  {
    if candidates != [] {
      var front := candidates[..|candidates| - 1];
      ReportsAreMemberships(document, backend, front, c);
      var all := RankedEntries(document, backend, candidates);
      assert all[..|all| - 1] == RankedEntries(document, backend, front);
    }
  }

  lemma {:induction false} AllReportsAreMemberships(maps: SourceMaps, rankings: seq<Ranking>, c: nat)
    ensures ReportedByAll(maps, rankings, c) == MembershipsOf(ObservedEntries(maps, rankings), c)
  {
    if rankings != [] {
      var front, last := rankings[..|rankings| - 1], rankings[|rankings| - 1];
      AllReportsAreMemberships(maps, front, c);
      var entries := RankedEntries(SourceOf(maps.documents, last.document), last.backend, last.candidates);
      ReportsAreMemberships(SourceOf(maps.documents, last.document), last.backend, last.candidates, c);
      MembershipsAppend(ObservedEntries(maps, front), entries, c);
      assert ObservedEntries(maps, rankings) == ObservedEntries(maps, front) + entries;
    }
  }

  // ---------------------------------------------------------------- routes

  function RequiredChunks(target: Target): seq<nat> {
    seq(|target.relevant|, i requires 0 <= i < |target.relevant| => target.relevant[i].chunk)
  }

  lemma {:induction false} JudgedExactlyWhenRequired(relevant: seq<Relevant>, chunk: nat)
    ensures Judgement(relevant, chunk).Some? <==> exists i :: 0 <= i < |relevant| && relevant[i].chunk == chunk
  {
    if relevant != [] {
      JudgedExactlyWhenRequired(relevant[1..], chunk);
      if i :| 0 <= i < |relevant| && relevant[i].chunk == chunk {
        if i > 0 {
          assert relevant[1..][i - 1].chunk == chunk;
        }
      }
    }
  }

  lemma TargetMatches(target: Target, chunk: nat)
    ensures Judgement(target.relevant, chunk).Some? <==> chunk in SetOf(RequiredChunks(target))
  {
    JudgedExactlyWhenRequired(target.relevant, chunk);
    var chunks := RequiredChunks(target);
    if i :| 0 <= i < |target.relevant| && target.relevant[i].chunk == chunk {
      assert chunks[i] == chunk;
    }
  }

  lemma RecordIsValid(maps: SourceMaps, target: Target, c: Ranked, memberships: seq<Membership>)
    requires RankedOk(maps, c)
    ensures ValidCandidate(RecordOf(maps, target, c, memberships), c.rank, SetOf(RequiredChunks(target)))
  {
    TargetMatches(target, SourceOf(maps.chunks, c.chunk));
  }

  lemma RecordIdentity(maps: SourceMaps, target: Target, a: Ranked, b: Ranked, m: seq<Membership>, n: seq<Membership>)
    requires SamePayload(a, b)
    ensures IdentityOf(RecordOf(maps, target, a, m)) == IdentityOf(RecordOf(maps, target, b, n))
  {
  }

  lemma RouteIsOk(maps: SourceMaps, target: Target, ranking: Ranking)
    requires RankingOk(maps, target, ranking)
    ensures RouteHeaderOk(RouteOf(maps, target, ranking, 20), target.requiredDocuments)
    ensures CandidatesOk(RouteOf(maps, target, ranking, 20).candidates, SetOf(RequiredChunks(target)))
  {
    hide ValidCandidate, RankedOk;
    forall i | 0 <= i < |ranking.candidates|
      ensures ValidCandidate(RecordOf(maps, target, ranking.candidates[i], []), i + 1, SetOf(RequiredChunks(target)))
    {
      RecordIsValid(maps, target, ranking.candidates[i], []);
    }
  }

  lemma RecordedAtRoute(maps: SourceMaps, target: Target, rankings: seq<Ranking>, c: Candidate) returns (ranked: Ranked)
    requires AtRoute(RoutesOf(maps, target, rankings, 20), c)
    ensures InRankings(rankings, ranked) && c == RecordOf(maps, target, ranked, [])
  {
    hide RecordOf;
    var routes := RoutesOf(maps, target, rankings, 20);
    var r :| 0 <= r < |routes| && c in routes[r].candidates;
    var i :| 0 <= i < |routes[r].candidates| && routes[r].candidates[i] == c;
    ranked := rankings[r].candidates[i];
    assert ranked in rankings[r].candidates;
  }

  lemma RankedIsAtRoute(maps: SourceMaps, target: Target, rankings: seq<Ranking>, ranked: Ranked)
    requires InRankings(rankings, ranked)
    ensures AtRoute(RoutesOf(maps, target, rankings, 20), RecordOf(maps, target, ranked, []))
  {
    hide RecordOf;
    var r :| 0 <= r < |rankings| && ranked in rankings[r].candidates;
    var i :| 0 <= i < |rankings[r].candidates| && rankings[r].candidates[i] == ranked;
    var routes := RoutesOf(maps, target, rankings, 20);
    assert routes[r].candidates[i] == RecordOf(maps, target, ranked, []);
    assert RecordOf(maps, target, ranked, []) in routes[r].candidates;
  }

  lemma SerializedRoutesAgree(maps: SourceMaps, target: Target, rankings: seq<Ranking>)
    requires RankingsOk(maps, target, rankings)
    ensures IdentitiesAgree(RoutesOf(maps, target, rankings, 20))
  {
    hide RankingOk, InRankings, AtRoute, SamePayload, IdentityOf;
    var routes := RoutesOf(maps, target, rankings, 20);
    forall c, d | AtRoute(routes, c) && AtRoute(routes, d) && c.chunk == d.chunk
      ensures IdentityOf(c) == IdentityOf(d)
    {
      var a := RecordedAtRoute(maps, target, rankings, c);
      var b := RecordedAtRoute(maps, target, rankings, d);
      RecordIdentity(maps, target, a, b, [], []);
    }
  }

  lemma SerializedRoutesAreOk(maps: SourceMaps, target: Target, rankings: seq<Ranking>)
    requires RankingsOk(maps, target, rankings)
    ensures RoutesOk(RoutesOf(maps, target, rankings, 20), target.requiredDocuments, SetOf(RequiredChunks(target)))
  {
    SerializedRoutesAgree(maps, target, rankings);
    hide RankingOk, InRankings, SamePayload, IdentitiesAgree, RouteHeaderOk, CandidatesOk, RecordsOf;
    forall r | 0 <= r < |rankings|
      ensures RouteHeaderOk(RouteOf(maps, target, rankings[r], 20), target.requiredDocuments)
      ensures CandidatesOk(RouteOf(maps, target, rankings[r], 20).candidates, SetOf(RequiredChunks(target)))
    {
      RouteIsOk(maps, target, rankings[r]);
    }
  }

  // ---------------------------------------------------------------- fused and final lists

  lemma PayloadIsRanked(maps: SourceMaps, target: Target, rankings: seq<Ranking>, c: Ranked, f: Ranked)
    requires RankingsOk(maps, target, rankings) && InRankings(rankings, c) && SamePayload(c, f)
    ensures RankedOk(maps, f)
  {
    var r :| 0 <= r < |rankings| && c in rankings[r].candidates;
    assert RankingOk(maps, target, rankings[r]);
    var i :| 0 <= i < |rankings[r].candidates| && rankings[r].candidates[i] == c;
    assert RankedOk(maps, c);
  }

  lemma FusedRecordIsOk(maps: SourceMaps, target: Target, o: LadderObservation, i: nat)
    requires RankingsOk(maps, target, o.rankings) && FusedExactly(maps, o) && i < |o.fused|
    ensures var routes := RoutesOf(maps, target, o.rankings, 20);
      |o.fused| == |Fused(EntriesOf(routes))| &&
      FusedCandidateOk(FusedRecords(maps, target, o.fused, o.rankings)[i], i + 1, Fused(EntriesOf(routes))[i], routes,
                       SetOf(RequiredChunks(target)))
  {
    hide Fused, ObservedEntries, EntriesOf, ReportedByAll, MembershipsOf, ScoreOf, RankingOk, InRankings, SamePayload, ValidCandidate,
         RecordOf, RankedOk, RecordsOf, AtRoute, IdentityOf;
    var routes, f := RoutesOf(maps, target, o.rankings, 20), o.fused[i];
    assert ObservedEntries(maps, o.rankings) == EntriesOf(routes) by {
      SameEntries(maps, target, o.rankings, 20);
    }
    var memberships := ReportedByAll(maps, o.rankings, f.chunk);
    AllReportsAreMemberships(maps, o.rankings, f.chunk);
    assert HasPayload(o.rankings, f);
    var c :| InRankings(o.rankings, c) && SamePayload(c, f);
    PayloadIsRanked(maps, target, o.rankings, c, f);
    RecordIsValid(maps, target, f, memberships);
    RankedIsAtRoute(maps, target, o.rankings, c);
    RecordIdentity(maps, target, c, f, [], memberships);
    RecordFields(maps, target, f, memberships);
  }

  lemma RecordFields(maps: SourceMaps, target: Target, c: Ranked, memberships: seq<Membership>)
    ensures var r := RecordOf(maps, target, c, memberships);
      r.rank == c.rank && r.score == c.score && r.chunk == c.chunk && r.membership == memberships
  {
  }

  lemma SerializedFusionIsOk(maps: SourceMaps, target: Target, o: LadderObservation)
    requires RankingsOk(maps, target, o.rankings) && FusedExactly(maps, o)
    ensures FusedOk(RoutesOf(maps, target, o.rankings, 20), FusedRecords(maps, target, o.fused, o.rankings),
                    SetOf(RequiredChunks(target)))
  {
    hide FusedCandidateOk, Fused, EntriesOf, ScoreOf, RankingsOk, ObservedEntries, HasPayload, RecordOf, ReportedByAll;
    var routes := RoutesOf(maps, target, o.rankings, 20);
    assert |o.fused| == |Fused(EntriesOf(routes))| by {
      SerializedFusionLength(maps, target, o);
    }
    forall i | 0 <= i < |o.fused|
      ensures FusedCandidateOk(FusedRecords(maps, target, o.fused, o.rankings)[i], i + 1, Fused(EntriesOf(routes))[i], routes,
                               SetOf(RequiredChunks(target)))
    {
      FusedRecordIsOk(maps, target, o, i);
    }
  }

  lemma SerializedFusionLength(maps: SourceMaps, target: Target, o: LadderObservation)
    requires RankingsOk(maps, target, o.rankings) && FusedExactly(maps, o)
    ensures |o.fused| == |Fused(EntriesOf(RoutesOf(maps, target, o.rankings, 20)))|
  {
    hide Fused, EntriesOf, ObservedEntries, ScoreOf, RankingOk, HasPayload, RecordsOf;
    SameEntries(maps, target, o.rankings, 20);
  }

  lemma SerializedFinalIsOk(maps: SourceMaps, target: Target, o: LadderObservation, routes: seq<Route>)
    requires FusedOk(routes, FusedRecords(maps, target, o.fused, o.rankings), SetOf(RequiredChunks(target)))
    requires o.final == o.fused[..Smaller(3, |o.fused|)]
    ensures FinalOk(FusedRecords(maps, target, o.fused, o.rankings),
                    FusedRecords(maps, target, o.final, o.rankings), SetOf(RequiredChunks(target)))
  {
    hide Fused, EntriesOf, RecordOf, ReportedByAll, ValidCandidate, HasRoute, ScoreOf, MembershipsOf;
    var fused, final := FusedRecords(maps, target, o.fused, o.rankings), FusedRecords(maps, target, o.final, o.rankings);
    forall i | 0 <= i < |final|
      ensures ValidCandidate(final[i], i + 1, SetOf(RequiredChunks(target))) && final[i] == fused[i]
    {
      assert o.final[i] == o.fused[i];
      assert FusedCandidateOk(fused[i], i + 1, Fused(EntriesOf(routes))[i], routes, SetOf(RequiredChunks(target)));
    }
  }

  // ---------------------------------------------------------------- boundaries

  lemma {:induction false} SortedTargets(relevant: seq<Relevant>, requiredDocuments: seq<nat>)
    requires forall i :: 0 <= i < |relevant| ==> relevant[i].document in requiredDocuments
    requires forall i, k :: 0 <= i < k < |relevant| ==> relevant[i].chunk != relevant[k].chunk
    ensures var t := SortedBy(relevant, ByChunk());
      |t| == |relevant| && (forall i :: 0 <= i < |t| ==> t[i] in relevant && t[i].document in requiredDocuments) &&
      forall i, k :: 0 <= i < k < |t| ==> t[i].chunk != t[k].chunk
  {
    var t := SortedBy(relevant, ByChunk());
    SortedContents(relevant, ByChunk());
    SortedDistinct(relevant, t);
    forall i | 0 <= i < |t| ensures t[i] in relevant && t[i].document in requiredDocuments {
      assert t[i] in t;
    }
    forall i, k | 0 <= i < k < |t| ensures t[i].chunk != t[k].chunk {
      assert t[i] in relevant && t[k] in relevant && t[i] != t[k];
    }
  }

  lemma RequiredCount(target: Target)
    requires TargetIsFrozen(target)
    ensures |SetOf(RequiredChunks(target))| == |target.relevant|
  {
    DistinctCardinality(RequiredChunks(target));
    assert SetOf(RequiredChunks(target)) == Elements(RequiredChunks(target));
  }

  lemma SerializedBoundariesAreOk(maps: SourceMaps, target: Target, o: LadderObservation)
    requires TargetIsFrozen(target)
    ensures BoundariesOk(LadderOf(maps, target, o), target.requiredDocuments, SetOf(RequiredChunks(target)))
  {
    hide Observed, RankOfSource, SortedBy, RoutesOf, FusedRecords, ByChunk;
    SortedTargets(target.relevant, target.requiredDocuments);
    RequiredCount(target);
    var targets := SortedBy(target.relevant, ByChunk());
    forall i | 0 <= i < |targets| ensures targets[i].chunk in SetOf(RequiredChunks(target)) {
      var k :| 0 <= k < |target.relevant| && target.relevant[k] == targets[i];
      assert RequiredChunks(target)[k] == targets[i].chunk;
    }
  }

  // ---------------------------------------------------------------- completeness

  /** The check accepts what the producer serializes from any well-formed observation. */
  lemma SerializedCaseIsAccepted(maps: SourceMaps, target: Target, o: LadderObservation)
    requires WellFormed(maps, target, o)
    ensures Accepted(CaseOf(maps, target, o))
  {
    hide RankingsOk, FusedExactly, RoutesOk, FusedOk, FinalOk, BoundariesOk, Classify, RoutesOf, FusedRecords, SortedBy, BoundaryFor;
    SerializedRoutesAreOk(maps, target, o.rankings);
    SerializedFusionIsOk(maps, target, o);
    SerializedFinalIsOk(maps, target, o, RoutesOf(maps, target, o.rankings, 20));
    SerializedBoundariesAreOk(maps, target, o);
    RequiredCount(target);
    assert CaseOf(maps, target, o).requiredChunks == RequiredChunks(target);
  }

  // ---------------------------------------------------------------- serialization cannot fail

  lemma {:induction false} FoundRoute(routes: seq<Route>, backend: RouteBackend, document: nat)
    requires (backend, document) in RoutePairs(routes)
    ensures FindRoute(routes, backend, document).Some?
  {
    var r :| 0 <= r < |routes| && (routes[r].backend, routes[r].sourceDocument) == (backend, document);
    if r > 0 {
      assert routes[1..][r - 1] == routes[r];
      assert (backend, document) in RoutePairs(routes[1..]);
      FoundRoute(routes[1..], backend, document);
    }
  }

  lemma TargetsAreRouted(maps: SourceMaps, target: Target, o: LadderObservation, t: Relevant)
    requires WellFormed(maps, target, o) && t in target.relevant
    ensures TargetRouted(RoutesOf(maps, target, o.rankings, 20), t)
  {
    hide RankingsOk, FusedExactly, RoutesOf, IdentitiesAgree, EachRouteOk, FindRoute, RoutePairs;
    var routes := RoutesOf(maps, target, o.rankings, 20);
    SerializedRoutesAreOk(maps, target, o.rankings);
    FourRoutesCover(routes, target.requiredDocuments, SetOf(RequiredChunks(target)));
    assert (ElasticsearchBm25, t.document) in AllPairs(target.requiredDocuments);
    assert (MilvusDense, t.document) in AllPairs(target.requiredDocuments);
    FoundRoute(routes, ElasticsearchBm25, t.document);
    FoundRoute(routes, MilvusDense, t.document);
  }

  lemma FusedIsMapped(maps: SourceMaps, target: Target, o: LadderObservation, c: Ranked)
    requires WellFormed(maps, target, o) && (c in o.fused || c in o.final)
    ensures Mapped(maps, c)
  {
    hide RankingsOk, Fused, ObservedEntries, ScoreOf, InRankings, SamePayload, TargetIsFrozen;
    assert c in o.fused;
    var i :| 0 <= i < |o.fused| && o.fused[i] == c;
    assert HasPayload(o.rankings, o.fused[i]);
    var d :| InRankings(o.rankings, d) && SamePayload(d, c);
    PayloadIsRanked(maps, target, o.rankings, d, c);
  }

  lemma RankingIsMapped(maps: SourceMaps, target: Target, ranking: Ranking)
    requires RankingOk(maps, target, ranking)
    ensures RankingMapped(maps, ranking)
  {
    forall c | c in ranking.candidates ensures Mapped(maps, c) {
      var i :| 0 <= i < |ranking.candidates| && ranking.candidates[i] == c;
      assert RankedOk(maps, ranking.candidates[i]);
    }
  }

  lemma WellFormedIsSerializable(maps: SourceMaps, target: Target, o: LadderObservation)
    requires WellFormed(maps, target, o)
    ensures Serializable(maps, target, o)
  {
    hide RankingOk, RankingMapped, Mapped, FusedExactly, TargetRouted, RoutesOf;
    forall k | 0 <= k < |o.rankings| ensures RankingMapped(maps, o.rankings[k]) {
      RankingIsMapped(maps, target, o.rankings[k]);
    }
    forall c | c in o.fused || c in o.final ensures Mapped(maps, c) {
      FusedIsMapped(maps, target, o, c);
    }
    forall t | t in target.relevant ensures TargetRouted(RoutesOf(maps, target, o.rankings, 20), t) {
      TargetsAreRouted(maps, target, o, t);
    }
  }

  /** The producer: serialize, then classify. From a well-formed observation it never fails, and the check accepts the
      case. */
  method ProduceCase(maps: SourceMaps, target: Target, o: LadderObservation) returns (r: Result<Case, ()>)
    ensures r.Ok? <==> Serializable(maps, target, o)
    ensures r.Ok? ==> r.value == CaseOf(maps, target, o)
    ensures WellFormed(maps, target, o) ==> r.Ok? && Accepted(r.value)
  {
    hide Serializable, WellFormed, Accepted, LadderOf, Classify;
    if WellFormed(maps, target, o) {
      WellFormedIsSerializable(maps, target, o);
      SerializedCaseIsAccepted(maps, target, o);
    }
    var ladder := SerializeObservation(maps, target, o);
    if ladder.Raised? {
      return Raised(());
    }
    r := Ok(Case(target.requiredDocuments, RequiredChunks(target), ladder.value,
                 Classify(ladder.value, SetOf(target.requiredDocuments))));
    assert RequiredChunks(target) == CaseOf(maps, target, o).requiredChunks;
  }

  /** Producer and check together: a well-formed observation always ends in a verdict, the one its classification
      carries. */
  method ProduceAndAdjudicate(maps: SourceMaps, target: Target, o: LadderObservation)
    returns (r: Result<Cause, Option<Rejection>>)
    ensures WellFormed(maps, target, o) ==> r == Ok(CaseOf(maps, target, o).classification.primary)
  {
    hide WellFormed, Accepted, CaseOf;
    var produced := ProduceCase(maps, target, o);
    if produced.Raised? {
      return Raised(None);
    }
    var verdict := ValidateCase(produced.value);
    r := if verdict.Ok? then Ok(verdict.value) else Raised(Some(verdict.error));
  }
}
