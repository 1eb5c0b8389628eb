/** The frozen chunks matched to the runtime chunks, and scores taken through that matching. */
module ChunkRemap {
  import opened Basics
  import opened RankingMetrics

  /** Everything but the identifier and the document: pages, section path and text, the last two numbered. */
  datatype Payload = Payload(pageStart: int, pageEnd: int, section: nat, text: nat)

  datatype Chunk = Chunk(id: nat, document: nat, payload: Payload)

  datatype Key = Key(document: nat, payload: Payload)

  datatype RemapError = DocumentIdentityInvalid | IdentityMismatch | IdentityAmbiguous | CoverageMismatch

  datatype Remap = Remap(sourceToRuntime: map<nat, nat>, runtimeToSource: map<nat, nat>)

  /** A runtime chunk's key; `reverse` gives the source document of a runtime document. */
  function RuntimeKey(reverse: map<nat, nat>, c: Chunk): Option<Key> {
    if c.document in reverse then Some(Key(reverse[c.document], c.payload)) else None
  }

  function SourceKey(c: Chunk): Key {
    Key(c.document, c.payload)
  }

  /** The positions of the runtime chunks with this key, in order. */
  function Matches(reverse: map<nat, nat>, runtime: seq<Chunk>, key: Key): seq<nat> {
    if runtime == [] then []
    else
      var last := |runtime| - 1;
      Matches(reverse, runtime[..last], key) + if RuntimeKey(reverse, runtime[last]) == Some(key) then [last] else []
  }

  lemma {:induction false} MatchesContents(reverse: map<nat, nat>, runtime: seq<Chunk>, key: Key)
    ensures forall i: nat :: i in Matches(reverse, runtime, key) <==>
      i < |runtime| && RuntimeKey(reverse, runtime[i]) == Some(key)
  {
    hide RuntimeKey;
    if runtime != [] {
      MatchesContents(reverse, runtime[..|runtime| - 1], key);
    }
  }

  ghost predicate DocumentsKnown(reverse: map<nat, nat>, runtime: seq<Chunk>) {
    forall i :: 0 <= i < |runtime| ==> runtime[i].document in reverse
  }

  /** The only runtime chunk with the source chunk's key. */
  predicate MatchedOnce(reverse: map<nat, nat>, runtime: seq<Chunk>, source: Chunk) {
    |Matches(reverse, runtime, SourceKey(source))| == 1
  }

  function Matched(reverse: map<nat, nat>, runtime: seq<Chunk>, source: Chunk): (r: Chunk)
    requires MatchedOnce(reverse, runtime, source)
    ensures r in runtime && RuntimeKey(reverse, r) == Some(SourceKey(source))
  {
    MatchesContents(reverse, runtime, SourceKey(source));
    assert Matches(reverse, runtime, SourceKey(source))[0] in Matches(reverse, runtime, SourceKey(source));
    runtime[Matches(reverse, runtime, SourceKey(source))[0]]
  }

  function Ids(chunks: seq<Chunk>): seq<nat> {
    seq(|chunks|, i requires 0 <= i < |chunks| => chunks[i].id)
  }

  ghost predicate AllMatchedOnce(reverse: map<nat, nat>, frozen: seq<Chunk>, runtime: seq<Chunk>) {
    forall i :: 0 <= i < |frozen| ==> MatchedOnce(reverse, runtime, frozen[i])
  }

  /** The identifiers of the matches, source chunk by source chunk. */
  ghost function MatchedIds(reverse: map<nat, nat>, frozen: seq<Chunk>, runtime: seq<Chunk>): seq<nat>
    requires AllMatchedOnce(reverse, frozen, runtime)
  {
    seq(|frozen|, i requires 0 <= i < |frozen| => Matched(reverse, runtime, frozen[i]).id)
  }

  /** When the matching succeeds: known documents, one match per source chunk, distinct identifiers on both sides, equal
      counts. */
  ghost predicate Matchable(reverse: map<nat, nat>, frozen: seq<Chunk>, runtime: seq<Chunk>) {
    DocumentsKnown(reverse, runtime) && |frozen| == |runtime| && AllMatchedOnce(reverse, frozen, runtime) &&
    Distinct(Ids(frozen)) && Distinct(MatchedIds(reverse, frozen, runtime))
  }

  // ---------------------------------------------------------------- the two maps

  ghost predicate EntryOf(m: Remap, sources: seq<nat>, targets: seq<nat>, s: nat)
    requires s in m.sourceToRuntime
  {
    exists i :: 0 <= i < |sources| && i < |targets| && sources[i] == s && targets[i] == m.sourceToRuntime[s]
  }

  /** The maps after recording these pairs in order; a repeated source overwrites its entry, a repeated target is
      refused. */
  ghost predicate Recorded(m: Remap, sources: seq<nat>, targets: seq<nat>) {
    |sources| == |targets| && Distinct(targets) && m.runtimeToSource.Keys == Elements(targets) &&
    m.sourceToRuntime.Keys == Elements(sources) &&
    (forall i :: 0 <= i < |targets| ==> m.runtimeToSource[targets[i]] == sources[i]) &&
    forall s :: s in m.sourceToRuntime ==> EntryOf(m, sources, targets, s)
  }

  lemma RecordNext(m: Remap, sources: seq<nat>, targets: seq<nat>, s: nat, t: nat)
    requires Recorded(m, sources, targets) && t !in m.runtimeToSource
    ensures Recorded(Remap(m.sourceToRuntime[s := t], m.runtimeToSource[t := s]), sources + [s], targets + [t])
  {
    var later := Remap(m.sourceToRuntime[s := t], m.runtimeToSource[t := s]);
    assert Elements(sources + [s]) == Elements(sources) + {s};
    assert Elements(targets + [t]) == Elements(targets) + {t};
    assert t !in targets;
    forall q | q in later.sourceToRuntime ensures EntryOf(later, sources + [s], targets + [t], q) {
      if q != s {
        assert EntryOf(m, sources, targets, q);
        var i :| 0 <= i < |sources| && i < |targets| && sources[i] == q && targets[i] == m.sourceToRuntime[q];
        assert (sources + [s])[i] == q && (targets + [t])[i] == m.sourceToRuntime[q];
      } else {
        assert (sources + [s])[|sources|] == s && (targets + [t])[|targets|] == t;
      }
    }
  }

  /** Inverse of each other. */
  ghost predicate Inverse(m: Remap) {
    (forall s :: s in m.sourceToRuntime ==>
      m.sourceToRuntime[s] in m.runtimeToSource && m.runtimeToSource[m.sourceToRuntime[s]] == s) &&
    forall r :: r in m.runtimeToSource ==> m.runtimeToSource[r] in m.sourceToRuntime && m.sourceToRuntime[m.runtimeToSource[r]] == r
  }

  /** Without repeated sources the two maps are mutually inverse. */
  lemma RecordedIsInverse(m: Remap, sources: seq<nat>, targets: seq<nat>)
    requires Recorded(m, sources, targets) && Distinct(sources)
    ensures Inverse(m)
  {
    forall s | s in m.sourceToRuntime
      ensures m.sourceToRuntime[s] in m.runtimeToSource && m.runtimeToSource[m.sourceToRuntime[s]] == s
    {
      assert EntryOf(m, sources, targets, s);
      var i :| 0 <= i < |sources| && sources[i] == s && targets[i] == m.sourceToRuntime[s];
      assert targets[i] in Elements(targets);
    }
    forall r | r in m.runtimeToSource
      ensures m.runtimeToSource[r] in m.sourceToRuntime && m.sourceToRuntime[m.runtimeToSource[r]] == r
    {
      assert r in Elements(targets);
      var i :| 0 <= i < |targets| && targets[i] == r;
      assert sources[i] in Elements(sources);
      assert EntryOf(m, sources, targets, sources[i]);
    }
  }

  /** As many different matches as runtime chunks use every runtime chunk, and none of their identifiers is repeated. */
  lemma RuntimeIsCovered(reverse: map<nat, nat>, frozen: seq<Chunk>, runtime: seq<Chunk>)
    requires AllMatchedOnce(reverse, frozen, runtime) && Distinct(MatchedIds(reverse, frozen, runtime)) &&
      |frozen| == |runtime|
    ensures Elements(MatchedIds(reverse, frozen, runtime)) == Elements(Ids(runtime)) && Distinct(Ids(runtime))
  {
    hide MatchedOnce, Matched;
    var matched := MatchedIds(reverse, frozen, runtime);
    AtMostLength(Ids(runtime));
    forall r | r in matched ensures r in Elements(Ids(runtime)) {
      var i :| 0 <= i < |matched| && matched[i] == r;
      var c := Matched(reverse, runtime, frozen[i]);
      var k :| 0 <= k < |runtime| && runtime[k] == c;
      assert Ids(runtime)[k] == r;
    }
    Pigeonhole(matched, Elements(Ids(runtime)));
    DistinctCardinality(matched);
    FullSetIsDistinct(Ids(runtime));
  }

  /** The maps are total on both sides and mutually inverse. */
  lemma RemapIsBijection(m: Remap, reverse: map<nat, nat>, frozen: seq<Chunk>, runtime: seq<Chunk>)
    requires Matchable(reverse, frozen, runtime) && Recorded(m, Ids(frozen), MatchedIds(reverse, frozen, runtime))
    ensures Inverse(m) && m.sourceToRuntime.Keys == Elements(Ids(frozen)) &&
      m.runtimeToSource.Keys == Elements(Ids(runtime))
    ensures Distinct(Ids(runtime))
  {
    hide MatchedOnce, Inverse, MatchedIds;
    RecordedIsInverse(m, Ids(frozen), MatchedIds(reverse, frozen, runtime));
    RuntimeIsCovered(reverse, frozen, runtime);
  }

  lemma PairOfTarget(m: Remap, sources: seq<nat>, targets: seq<nat>, t: nat) returns (i: nat)
    requires Recorded(m, sources, targets) && t in m.runtimeToSource
    ensures i < |sources| == |targets| && targets[i] == t && sources[i] == m.runtimeToSource[t]
  {
    assert t in Elements(targets);
    i :| 0 <= i < |targets| && targets[i] == t;
  }

  lemma SameIdentifierSameChunk(chunks: seq<Chunk>, i: nat, k: nat)
    requires Distinct(Ids(chunks)) && i < |chunks| && k < |chunks| && chunks[i].id == chunks[k].id
    ensures i == k
  {
    assert Ids(chunks)[i] == Ids(chunks)[k];
  }

  /** Chunks mapped to each other agree on document, pages, section and text. */
  lemma RemapPreservesContent(m: Remap, reverse: map<nat, nat>, frozen: seq<Chunk>, runtime: seq<Chunk>, i: nat, k: nat)
    requires Matchable(reverse, frozen, runtime) && Recorded(m, Ids(frozen), MatchedIds(reverse, frozen, runtime))
    requires i < |frozen| && k < |runtime|
    requires runtime[k].id in m.runtimeToSource && m.runtimeToSource[runtime[k].id] == frozen[i].id
    ensures RuntimeKey(reverse, runtime[k]) == Some(SourceKey(frozen[i]))
  {
    hide MatchedOnce, RuntimeKey, SourceKey, Recorded, Distinct;
    RuntimeIsCovered(reverse, frozen, runtime);
    var j := PairOfTarget(m, Ids(frozen), MatchedIds(reverse, frozen, runtime), runtime[k].id);
    SameIdentifierSameChunk(frozen, i, j);
    var c := Matched(reverse, runtime, frozen[i]);
    var l :| 0 <= l < |runtime| && runtime[l] == c;
    SameIdentifierSameChunk(runtime, l, k);
  }

  // ---------------------------------------------------------------- the loops

  function Positions(byKey: map<Key, seq<nat>>, key: Key): seq<nat> {
    if key in byKey then byKey[key] else []
  }

  lemma OneMoreMatch(reverse: map<nat, nat>, before: seq<Chunk>, c: Chunk, key: Key)
    ensures Matches(reverse, before + [c], key) ==
      Matches(reverse, before, key) + if RuntimeKey(reverse, c) == Some(key) then [|before|] else []
  {
    assert (before + [c])[..|before|] == before;
  }

  ghost predicate Indexed(byKey: map<Key, seq<nat>>, reverse: map<nat, nat>, chunks: seq<Chunk>) {
    forall key :: Positions(byKey, key) == Matches(reverse, chunks, key)
  }

  lemma IndexOneMore(byKey: map<Key, seq<nat>>, reverse: map<nat, nat>, before: seq<Chunk>, c: Chunk)
    requires Indexed(byKey, reverse, before) && c.document in reverse
    ensures var own := Key(reverse[c.document], c.payload);
      Indexed(byKey[own := Positions(byKey, own) + [|before|]], reverse, before + [c])
  {
    hide Matches;
    var own := Key(reverse[c.document], c.payload);
    var later := byKey[own := Positions(byKey, own) + [|before|]];
    forall key ensures Positions(later, key) == Matches(reverse, before + [c], key) {
      OneMoreMatch(reverse, before, c, key);
      assert Positions(byKey, key) + [] == Positions(byKey, key);
    }
  }

  method IndexRuntime(reverse: map<nat, nat>, runtime: seq<Chunk>) returns (r: Option<map<Key, seq<nat>>>)
    ensures r.Some? <==> DocumentsKnown(reverse, runtime)
    ensures r.Some? ==> forall key :: Positions(r.value, key) == Matches(reverse, runtime, key)
  {
    var byKey: map<Key, seq<nat>> := map[];
    for i := 0 to |runtime|
      invariant DocumentsKnown(reverse, runtime[..i])
      invariant Indexed(byKey, reverse, runtime[..i])
    {
      hide Indexed;
      assert runtime[..i + 1] == runtime[..i] + [runtime[i]];
      if runtime[i].document !in reverse {
        return None;
      }
      IndexOneMore(byKey, reverse, runtime[..i], runtime[i]);
      var own := Key(reverse[runtime[i].document], runtime[i].payload);
      byKey := byKey[own := Positions(byKey, own) + [i]];
    }
    assert runtime[..|runtime|] == runtime;
    r := Some(byKey);
  }

  ghost function Firsts(reverse: map<nat, nat>, frozen: seq<Chunk>, runtime: seq<Chunk>, n: nat): seq<nat>
    requires n <= |frozen| && AllMatchedOnce(reverse, frozen[..n], runtime)
  {
    MatchedIds(reverse, frozen[..n], runtime)
  }

  lemma RecordChunk(m: Remap, reverse: map<nat, nat>, frozen: seq<Chunk>, runtime: seq<Chunk>, n: nat)
    requires n < |frozen| && AllMatchedOnce(reverse, frozen[..n], runtime) && MatchedOnce(reverse, runtime, frozen[n])
    requires Recorded(m, Ids(frozen[..n]), Firsts(reverse, frozen, runtime, n))
    requires Matched(reverse, runtime, frozen[n]).id !in m.runtimeToSource
    ensures AllMatchedOnce(reverse, frozen[..n + 1], runtime)
    ensures var t := Matched(reverse, runtime, frozen[n]).id;
      Recorded(Remap(m.sourceToRuntime[frozen[n].id := t], m.runtimeToSource[t := frozen[n].id]), Ids(frozen[..n + 1]),
               Firsts(reverse, frozen, runtime, n + 1))
  {
    hide MatchedOnce, Matched, Recorded;
    RecordNext(m, Ids(frozen[..n]), Firsts(reverse, frozen, runtime, n), frozen[n].id, Matched(reverse, runtime, frozen[n]).id);
    assert Ids(frozen[..n + 1]) == Ids(frozen[..n]) + [frozen[n].id];
    assert Firsts(reverse, frozen, runtime, n + 1) == Firsts(reverse, frozen, runtime, n) + [Matched(reverse, runtime, frozen[n]).id];
  }

  lemma MatchedTwice(m: Remap, reverse: map<nat, nat>, frozen: seq<Chunk>, runtime: seq<Chunk>, n: nat)
    requires n < |frozen| && AllMatchedOnce(reverse, frozen[..n], runtime) && MatchedOnce(reverse, runtime, frozen[n])
    requires Recorded(m, Ids(frozen[..n]), Firsts(reverse, frozen, runtime, n))
    requires Matched(reverse, runtime, frozen[n]).id in m.runtimeToSource
    ensures !Matchable(reverse, frozen, runtime)
  {
    hide MatchedOnce, Matched;
    var t := Matched(reverse, runtime, frozen[n]).id;
    assert t in Elements(Firsts(reverse, frozen, runtime, n));
    var i :| 0 <= i < n && Firsts(reverse, frozen, runtime, n)[i] == t;
    assert AllMatchedOnce(reverse, frozen, runtime) ==>
      MatchedIds(reverse, frozen, runtime)[i] == MatchedIds(reverse, frozen, runtime)[n];
  }

  /** Once the loop has ended, only repeated source identifiers or unequal counts stand in the way. */
  lemma RecordedMatchable(m: Remap, reverse: map<nat, nat>, frozen: seq<Chunk>, runtime: seq<Chunk>)
    requires AllMatchedOnce(reverse, frozen, runtime) && DocumentsKnown(reverse, runtime)
    requires Recorded(m, Ids(frozen), MatchedIds(reverse, frozen, runtime))
    ensures Matchable(reverse, frozen, runtime) <==> |m.sourceToRuntime| == |frozen| && |frozen| == |runtime|
  {
    hide MatchedOnce, Matched;
    assert |m.sourceToRuntime| == |m.sourceToRuntime.Keys|;
    if |m.sourceToRuntime| == |frozen| {
      FullSetIsDistinct(Ids(frozen));
    }
    if Distinct(Ids(frozen)) {
      DistinctCardinality(Ids(frozen));
    }
  }

  /** Succeeds exactly for matchable chunks, and then returns a bijection between the two sets of identifiers. */
  method RemapRuntimeChunks(frozen: seq<Chunk>, runtime: seq<Chunk>, reverse: map<nat, nat>)
    returns (r: Result<Remap, RemapError>)
    ensures r.Ok? <==> Matchable(reverse, frozen, runtime)
    ensures r.Ok? ==> Recorded(r.value, Ids(frozen), MatchedIds(reverse, frozen, runtime))
    ensures r.Ok? ==> Inverse(r.value) && r.value.sourceToRuntime.Keys == Elements(Ids(frozen))
    ensures r.Ok? ==> r.value.runtimeToSource.Keys == Elements(Ids(runtime))
  {
    hide Recorded, DocumentsKnown, Matches, Inverse, Elements, Ids, MatchedIds, Distinct;
    var byKey := IndexRuntime(reverse, runtime);
    if byKey.None? {
      return Raised(DocumentIdentityInvalid);
    }
    var m := Remap(map[], map[]);
    NothingRecorded(reverse, frozen, runtime);
    for i := 0 to |frozen|
      invariant AllMatchedOnce(reverse, frozen[..i], runtime)
      invariant Recorded(m, Ids(frozen[..i]), Firsts(reverse, frozen, runtime, i))
    {
      var positions := Positions(byKey.value, SourceKey(frozen[i]));
      if |positions| != 1 {
        assert !MatchedOnce(reverse, runtime, frozen[i]);
        return Raised(IdentityMismatch);
      }
      MatchesContents(reverse, runtime, SourceKey(frozen[i]));
      assert positions[0] in positions;
      var matched := runtime[positions[0]].id;
      if matched in m.runtimeToSource {
        MatchedTwice(m, reverse, frozen, runtime, i);
        return Raised(IdentityAmbiguous);
      }
      RecordChunk(m, reverse, frozen, runtime, i);
      m := Remap(m.sourceToRuntime[frozen[i].id := matched], m.runtimeToSource[matched := frozen[i].id]);
    }
    assert frozen[..|frozen|] == frozen;
    RecordedMatchable(m, reverse, frozen, runtime);
    if |m.sourceToRuntime| != |frozen| || |runtime| != |frozen| {
      return Raised(CoverageMismatch);
    }
    RemapIsBijection(m, reverse, frozen, runtime);
    r := Ok(m);
  }

  lemma NothingRecorded(reverse: map<nat, nat>, frozen: seq<Chunk>, runtime: seq<Chunk>)
    ensures AllMatchedOnce(reverse, frozen[..0], runtime)
    ensures Recorded(Remap(map[], map[]), Ids(frozen[..0]), Firsts(reverse, frozen, runtime, 0))
  {
  }

  // ---------------------------------------------------------------- scores through the matching

  /** A runtime ranking under its source identifiers; an unmapped chunk becomes 0, which no judgment uses. */
  function Renamed(m: Remap, chunks: seq<nat>): (r: seq<nat>)
    ensures |r| == |chunks|
  {
    seq(|chunks|, i requires 0 <= i < |chunks| => if chunks[i] in m.runtimeToSource then m.runtimeToSource[chunks[i]] else 0)
  }

  /** The gate's own recall and nDCG: computed over the renamed first `k` candidates. */
  function GateScore(judgments: seq<Judgment>, m: Remap, chunks: seq<nat>, k: nat,
                     discount: nat -> real): Option<(real, real)> {
    var sources := Renamed(m, Top(chunks, k));
    var relevant := |Relevant(judgments)|;
    if relevant == 0 then None
    else
      var ideal := IdealDcg(judgments, k, discount);
      var dcg := Discounted(GainsOf(RankedGrades(judgments, sources)), discount);
      Some((Hits(judgments, sources) as real / relevant as real, if ideal != 0.0 then dcg / ideal else 0.0))
  }

  /** The gate's scores are the formal metrics of the renamed ranking, for any candidates and any map. */
  lemma GateScoreIsRankingScore(judgments: seq<Judgment>, m: Remap, chunks: seq<nat>, k: nat, discount: nat -> real)
    requires k >= 1
    ensures var s, g := RankingScores(judgments, Renamed(m, chunks), k, discount), GateScore(judgments, m, chunks, k, discount);
      (s.Some? <==> g.Some?) && (s.Some? ==> g.value == (s.value.recall, s.value.ndcg))
  {
    hide Hits, Relevant, Discounted, IdealDcg;
    assert Renamed(m, Top(chunks, k)) == Top(Renamed(m, chunks), k);
  }

  // ---------------------------------------------------------------- unmapped candidates do no harm

  /** No judgment is about the empty identifier. */
  ghost predicate EmptyIsUnjudged(judgments: seq<Judgment>) {
    forall i :: 0 <= i < |judgments| ==> judgments[i].chunk != 0
  }

  lemma {:induction false} UnjudgedGrade(judgments: seq<Judgment>, chunk: nat)
    requires forall i :: 0 <= i < |judgments| ==> judgments[i].chunk != chunk
    ensures GradeOf(judgments, chunk) == 0 && chunk !in Relevant(judgments)
  {
    if judgments != [] {
      var front := judgments[..|judgments| - 1];
      assert forall i :: 0 <= i < |front| ==> front[i] == judgments[i];
      UnjudgedGrade(front, chunk);
    }
  }

  function JudgedIds(judgments: seq<Judgment>): seq<nat> {
    seq(|judgments|, i requires 0 <= i < |judgments| => judgments[i].chunk)
  }

  /** A number above all of these. */
  function Above(s: seq<nat>): (r: nat)
    ensures forall x :: x in s ==> x < r
  {
    if s == [] then 0
    else
      assert s == s[..|s| - 1] + [s[|s| - 1]];
      var rest := Above(s[..|s| - 1]);
      if s[|s| - 1] >= rest then s[|s| - 1] + 1 else rest
  }

  /** The renamed ranking with a new identifier of its own for every unmapped candidate. */
  function Separated(m: Remap, chunks: seq<nat>, base: nat): (r: seq<nat>)
    ensures |r| == |chunks|
  {
    seq(|chunks|, i requires 0 <= i < |chunks| => if chunks[i] in m.runtimeToSource then m.runtimeToSource[chunks[i]] else base + i)
  }

  lemma SeparatedIsDistinct(m: Remap, chunks: seq<nat>, base: nat)
    requires Inverse(m) && Distinct(chunks) && forall x :: x in Renamed(m, chunks) ==> x < base
    ensures Distinct(Separated(m, chunks, base))
  {
    var separated := Separated(m, chunks, base);
    forall i, k | 0 <= i < k < |separated| ensures separated[i] != separated[k] {
      assert Renamed(m, chunks)[i] in Renamed(m, chunks) && Renamed(m, chunks)[k] in Renamed(m, chunks);
      assert chunks[i] != chunks[k];
    }
  }

  /** Two rankings that agree rank by rank on grades and relevance. */
  ghost predicate SameJudged(judgments: seq<Judgment>, a: seq<nat>, b: seq<nat>) {
    |a| == |b| && forall i :: 0 <= i < |a| ==>
      GradeOf(judgments, a[i]) == GradeOf(judgments, b[i]) &&
      (a[i] in Relevant(judgments) <==> b[i] in Relevant(judgments))
  }

  lemma {:induction false} SameHits(judgments: seq<Judgment>, a: seq<nat>, b: seq<nat>)
    requires SameJudged(judgments, a, b)
    ensures Hits(judgments, a) == Hits(judgments, b)
  {
    hide Relevant, GradeOf;
    if a != [] {
      SameHits(judgments, a[..|a| - 1], b[..|b| - 1]);
    }
  }

  lemma SameScores(judgments: seq<Judgment>, a: seq<nat>, b: seq<nat>, k: nat, discount: nat -> real)
    requires SameJudged(judgments, a, b)
    ensures var s, t := RankingScores(judgments, a, k, discount), RankingScores(judgments, b, k, discount);
      (s.Some? <==> t.Some?) && (s.Some? ==> s.value.recall == t.value.recall && s.value.ndcg == t.value.ndcg)
  {
    hide Hits, Relevant, Discounted, IdealDcg, GradeOf, ReciprocalRank;
    assert SameJudged(judgments, Top(a, k), Top(b, k));
    SameHits(judgments, Top(a, k), Top(b, k));
    assert RankedGrades(judgments, Top(a, k)) == RankedGrades(judgments, Top(b, k));
  }

  lemma SeparatedIsSameJudged(judgments: seq<Judgment>, m: Remap, chunks: seq<nat>, base: nat)
    requires EmptyIsUnjudged(judgments) && forall x :: x in JudgedIds(judgments) ==> x < base
    ensures SameJudged(judgments, Renamed(m, chunks), Separated(m, chunks, base))
  {
    hide Relevant, GradeOf;
    var renamed, separated := Renamed(m, chunks), Separated(m, chunks, base);
    forall i | 0 <= i < |chunks|
      ensures GradeOf(judgments, renamed[i]) == GradeOf(judgments, separated[i])
      ensures renamed[i] in Relevant(judgments) <==> separated[i] in Relevant(judgments)
    {
      if chunks[i] !in m.runtimeToSource {
        UnjudgedGrade(judgments, 0);
        forall k | 0 <= k < |judgments| ensures judgments[k].chunk != base + i {
          assert JudgedIds(judgments)[k] in JudgedIds(judgments);
        }
        UnjudgedGrade(judgments, base + i);
      }
    }
  }

  /** So the gate's scores share the bounds of the formal metrics, even when candidates are unmapped. */
  lemma GateScoreIsBounded(judgments: seq<Judgment>, m: Remap, chunks: seq<nat>, k: nat, discount: nat -> real)
    requires DistinctJudgments(judgments) && EmptyIsUnjudged(judgments) && Discounting(discount) && k >= 1
    requires Inverse(m) && Distinct(chunks)
    ensures var g := GateScore(judgments, m, chunks, k, discount);
      g.Some? ==> 0.0 <= g.value.0 <= 1.0 && 0.0 <= g.value.1 <= 1.0
  {
    hide GateScore, RankingScores, Inverse, Discounting, SameJudged, Separated, Renamed, DistinctJudgments, EmptyIsUnjudged;
    var used := Renamed(m, chunks) + JudgedIds(judgments);
    var base := Above(used);
    assert forall x :: x in Renamed(m, chunks) || x in JudgedIds(judgments) ==> x in used;
    SeparatedIsDistinct(m, chunks, base);
    SeparatedIsSameJudged(judgments, m, chunks, base);
    SameScores(judgments, Renamed(m, chunks), Separated(m, chunks, base), k, discount);
    GateScoreIsRankingScore(judgments, m, chunks, k, discount);
    ScoresAreBounded(judgments, Separated(m, chunks, base), k, discount);
  }
}
