/** Reciprocal rank fusion over exact rationals, and the one order it determines. */
module RankFusion {
  import opened Basics
  import opened Sorting

  datatype RouteBackend = ElasticsearchBm25 | MilvusDense

  /** One returned candidate of one route. Identifiers are numbered from 1 in their sort order; 0 stands for a missing
      one. */
  datatype Entry = Entry(chunk: nat, rank: nat, backend: RouteBackend, document: nat)

  /** Where a fused candidate came from. */
  datatype Membership = Membership(backend: RouteBackend, document: nat, rank: nat)

  const RRF_K := 60

  function Weight(rank: nat): (w: real)
    ensures w > 0.0
  {
    1.0 / (RRF_K + rank) as real
  }

  function ScoreOf(entries: seq<Entry>, c: nat): real {
    if entries == [] then 0.0
    else
      var last := entries[|entries| - 1];
      ScoreOf(entries[..|entries| - 1], c) + if last.chunk == c then Weight(last.rank) else 0.0
  }

  /** The least rank at which any route returned the chunk. */
  function BestRank(entries: seq<Entry>, c: nat): Option<nat> {
    if entries == [] then None
    else
      var before := BestRank(entries[..|entries| - 1], c);
      var last := entries[|entries| - 1];
      if last.chunk != c then before
      else if before.None? || last.rank < before.value then Some(last.rank)
      else before
  }

  function MembershipsOf(entries: seq<Entry>, c: nat): seq<Membership> {
    if entries == [] then []
    else
      var last := entries[|entries| - 1];
      MembershipsOf(entries[..|entries| - 1], c) +
      if last.chunk == c then [Membership(last.backend, last.document, last.rank)] else []
  }

  predicate Returned(entries: seq<Entry>, c: nat) {
    exists i :: 0 <= i < |entries| && entries[i].chunk == c
  }

  /** The returned chunks in the order in which they were first met. */
  function FirstSeen(entries: seq<Entry>): seq<nat> {
    if entries == [] then []
    else
      var before := FirstSeen(entries[..|entries| - 1]);
      var chunk := entries[|entries| - 1].chunk;
      if chunk in before then before else before + [chunk]
  }

  /** Greater score, then better rank, then smaller identifier. */
  predicate Ahead(entries: seq<Entry>, a: nat, b: nat) {
    var s, t := ScoreOf(entries, a), ScoreOf(entries, b);
    var r, q := BestRank(entries, a), BestRank(entries, b);
    s > t || (s == t && (RankValue(r) < RankValue(q) || (RankValue(r) == RankValue(q) && a <= b)))
  }

  function RankValue(r: Option<nat>): nat {
    if r.Some? then r.value else 0
  }

  function FusionOrder(entries: seq<Entry>): (nat, nat) -> bool {
    (a: nat, b: nat) => Ahead(entries, a, b)
  }

  function Fused(entries: seq<Entry>): seq<nat> {
    SortedBy(FirstSeen(entries), FusionOrder(entries))
  }

  // ---------------------------------------------------------------- the order is total, strict and unique

  lemma {:induction false} FirstSeenContents(entries: seq<Entry>)
    ensures Distinct(FirstSeen(entries))
    ensures forall c :: c in FirstSeen(entries) <==> Returned(entries, c)
  {
    if entries != [] {
      var front, last := entries[..|entries| - 1], entries[|entries| - 1];
      FirstSeenContents(front);
      assert entries == front + [last];
      forall c ensures Returned(entries, c) <==> Returned(front, c) || c == last.chunk {
        ReturnedByMore(front, last, c);
      }
    }
  }

  lemma ReturnedByMore(front: seq<Entry>, last: Entry, c: nat)
    ensures Returned(front + [last], c) <==> Returned(front, c) || c == last.chunk
  {
    var all := front + [last];
    if Returned(front, c) {
      var i :| 0 <= i < |front| && front[i].chunk == c;
      assert all[i].chunk == c;
    }
    if c == last.chunk {
      assert all[|front|].chunk == c;
    }
  }

  lemma FusionOrderIsTotal(entries: seq<Entry>)
    ensures TotalPreorder(FusionOrder(entries))
  {
    hide ScoreOf, BestRank;
  }

  lemma FusionOrderIsAntisymmetric(entries: seq<Entry>, a: nat, b: nat)
    requires Ahead(entries, a, b) && Ahead(entries, b, a)
    ensures a == b
  {
  }

  /** A candidate list is a fusion of the entries: every returned chunk once, each strictly ahead of all later ones. */
  ghost predicate IsFusion(entries: seq<Entry>, s: seq<nat>) {
    Distinct(s) && (forall c :: c in s <==> Returned(entries, c)) &&
    forall i, j :: 0 <= i < j < |s| ==> Ahead(entries, s[i], s[j])
  }

  lemma FusedIsFusion(entries: seq<Entry>)
    ensures IsFusion(entries, Fused(entries))
  {
    hide Ahead, Returned;
    FirstSeenContents(entries);
    FusionOrderIsTotal(entries);
    SortedContents(FirstSeen(entries), FusionOrder(entries));
    SortedOrdered(FirstSeen(entries), FusionOrder(entries));
    SortedDistinct(FirstSeen(entries), Fused(entries));
    var s := Fused(entries);
    forall i, j | 0 <= i < j < |s| ensures Ahead(entries, s[i], s[j]) {
      assert FusionOrder(entries)(s[i], s[j]);
    }
  }

  /** There is only one fusion of the same entries. */
  lemma {:induction false} FusionIsUnique(entries: seq<Entry>, s: seq<nat>, t: seq<nat>)
    requires Distinct(s) && Distinct(t) && forall c :: c in s <==> c in t
    requires forall i, j :: 0 <= i < j < |s| ==> Ahead(entries, s[i], s[j])
    requires forall i, j :: 0 <= i < j < |t| ==> Ahead(entries, t[i], t[j])
    ensures s == t
  {
    hide Ahead;
    DistinctCardinality(s);
    DistinctCardinality(t);
    assert Elements(s) == Elements(t);
    if s != [] {
      assert s[0] in s && s[0] in t;
      assert t[0] in t && t[0] in s;
      var i :| 0 <= i < |t| && t[i] == s[0];
      var j :| 0 <= j < |s| && s[j] == t[0];
      if s[0] != t[0] {
        FusionOrderIsAntisymmetric(entries, s[0], t[0]);
        assert false;
      }
      forall c ensures c in s[1..] <==> c in t[1..] {
        TailContents(s, c);
        TailContents(t, c);
      }
      FusionIsUnique(entries, s[1..], t[1..]);
      assert s == [s[0]] + s[1..] && t == [t[0]] + t[1..];
    }
  }

  lemma TailContents(s: seq<nat>, c: nat)
    requires Distinct(s) && s != []
    ensures c in s[1..] <==> c in s && c != s[0]
  {
    assert s == [s[0]] + s[1..];
  }

  lemma OnlyFusion(entries: seq<Entry>, s: seq<nat>)
    requires IsFusion(entries, s)
    ensures s == Fused(entries)
  {
    hide Fused, Ahead, Returned;
    FusedIsFusion(entries);
    FusionIsUnique(entries, s, Fused(entries));
  }

  /** A fused chunk's score is positive, its memberships are its routes, and its best rank is the least among them. */
  lemma {:induction false} ScoredExactlyWhenReturned(entries: seq<Entry>, c: nat)
    ensures Returned(entries, c) <==> ScoreOf(entries, c) > 0.0
    ensures Returned(entries, c) <==> BestRank(entries, c).Some?
    ensures Returned(entries, c) <==> MembershipsOf(entries, c) != []
    ensures !Returned(entries, c) ==> ScoreOf(entries, c) == 0.0
    ensures forall m :: m in MembershipsOf(entries, c) ==> Entry(c, m.rank, m.backend, m.document) in entries
    ensures forall i :: 0 <= i < |entries| && entries[i].chunk == c ==>
      Membership(entries[i].backend, entries[i].document, entries[i].rank) in MembershipsOf(entries, c)
    ensures BestRank(entries, c).Some? ==>
      (forall m :: m in MembershipsOf(entries, c) ==> BestRank(entries, c).value <= m.rank) &&
      exists m :: m in MembershipsOf(entries, c) && BestRank(entries, c).value == m.rank
  {
    if entries != [] {
      var front, last := entries[..|entries| - 1], entries[|entries| - 1];
      ScoredExactlyWhenReturned(front, c);
      assert entries == front + [last];
      ReturnedByMore(front, last, c);
    }
  }
}
