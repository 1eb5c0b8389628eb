/** Evidence dealt out to the slots in rotation, from where the slots before left off, so that no chunk is used much
    more than another. */
module EvidenceRotation {
  import opened Basics

  /** What a slot's question type means for its evidence. */
  datatype Kind = NoEvidence | CrossDocument | SingleDocument

  /** A selected chunk: document and position among that document's chunks. */
  datatype Pick = Pick(document: nat, chunk: nat)

  const CROSS_TAKE := 2

  /** How many chunks a slot takes from a document. Slot `index` starts at document `index` modulo their number. */
  function TakeOf(kind: Kind, index: nat, documents: nat, singleTake: nat, d: nat): nat
    requires documents >= 1
  {
    match kind
    case NoEvidence => 0
    case CrossDocument => if d == index % documents || d == (index % documents + 1) % documents then CROSS_TAKE else 0
    case SingleDocument => if d == index % documents then singleTake else 0
  }

  /** The total taken from a document by the first `n` slots. */
  function TotalTaken(kinds: seq<Kind>, n: nat, documents: nat, singleTake: nat, d: nat): nat
    requires n <= |kinds| && documents >= 1
  {
    if n == 0 then 0 else TotalTaken(kinds, n - 1, documents, singleTake, d) + TakeOf(kinds[n - 1], n - 1, documents, singleTake, d)
  }

  function Uses(picks: seq<Pick>, p: Pick): nat {
    if picks == [] then 0 else Uses(picks[..|picks| - 1], p) + if picks[|picks| - 1] == p then 1 else 0
  }

  function AllPicks(slots: seq<seq<Pick>>): seq<Pick> {
    if slots == [] then [] else AllPicks(slots[..|slots| - 1]) + slots[|slots| - 1]
  }

  /** How often position `c` occurs among 0, 1, ..., total - 1 modulo `m`. */
  function Share(total: nat, m: nat, c: nat): nat
    requires m >= 1
  {
    total / m + if c < total % m then 1 else 0
  }

  lemma QuotientStep(total: nat, m: nat)
    requires m >= 1
    ensures total % m + 1 < m ==> (total + 1) / m == total / m && (total + 1) % m == total % m + 1
    ensures total % m + 1 == m ==> (total + 1) / m == total / m + 1 && (total + 1) % m == 0
  {
    var q, r := total / m, total % m;
    assert total == q * m + r && 0 <= r < m;
    if r + 1 < m {
      DivideUniquely(total + 1, m, q, r + 1);
    } else {
      assert total + 1 == (q + 1) * m;
      DivideUniquely(total + 1, m, q + 1, 0);
    }
  }

  lemma DivideUniquely(n: nat, m: nat, q: nat, r: nat)
    requires m >= 1 && n == q * m + r && r < m
    ensures n / m == q && n % m == r
  {
    var d := n / m;
    assert n == d * m + n % m;
    assert d < q ==> (d + 1) * m <= q * m;
    assert q < d ==> (q + 1) * m <= d * m;
  }

  lemma ShareStep(total: nat, m: nat, c: nat)
    requires m >= 1 && c < m
    ensures Share(total + 1, m, c) == Share(total, m, c) + if total % m == c then 1 else 0
  {
    QuotientStep(total, m);
  }

  /** Walking on from an offset taken modulo `m` is the same as taking the walked offset modulo `m`. */
  lemma {:induction false} WalkedOffset(offset: nat, m: nat, i: nat)
    requires m >= 1
    ensures (offset % m + i) % m == (offset + i) % m
    decreases i
  {
    if i > 0 {
      WalkedOffset(offset, m, i - 1);
      QuotientStep(offset % m + i - 1, m);
      QuotientStep(offset + i - 1, m);
    } else {
      DivideUniquely(offset % m, m, 0, offset % m);
    }
  }

  lemma {:induction false} UsesAppend(a: seq<Pick>, b: seq<Pick>, p: Pick)
    ensures Uses(a + b, p) == Uses(a, p) + Uses(b, p)
  {
    if b == [] {
      assert a + b == a;
    } else {
      UsesAppend(a, b[..|b| - 1], p);
      assert (a + b)[..|a + b| - 1] == a + b[..|b| - 1];
    }
  }

  /** `take` chunks of document `d`, in rotation from the offset. */
  function Dealt(d: nat, offset: nat, take: nat, m: nat): (r: seq<Pick>)
    requires m >= 1
    ensures |r| == take
  {
    seq(take, i requires 0 <= i < take => Pick(d, (offset % m + i) % m))
  }

  /** Dealing moves every chunk of the document from its share of the old offset to its share of the new one. */
  lemma {:induction false} DealtUses(d: nat, offset: nat, take: nat, m: nat, p: Pick)
    requires m >= 1 && p.chunk < m
    ensures p.document == d ==> Share(offset, m, p.chunk) + Uses(Dealt(d, offset, take, m), p) == Share(offset + take, m, p.chunk)
    ensures p.document != d ==> Uses(Dealt(d, offset, take, m), p) == 0
    decreases take
  {
    hide Share;
    if take > 0 {
      DealtUses(d, offset, take - 1, m, p);
      var all := Dealt(d, offset, take, m);
      assert all[..take - 1] == Dealt(d, offset, take - 1, m);
      WalkedOffset(offset, m, take - 1);
      ShareStep(offset + take - 1, m, p.chunk);
    }
  }

  /** A slot repeats a chunk of a document exactly when it takes more chunks than the document has. */
  lemma DealtRepeats(d: nat, offset: nat, take: nat, m: nat)
    requires m >= 1
    ensures Distinct(Dealt(d, offset, take, m)) <==> take <= m
  {
    var picks := Dealt(d, offset, take, m);
    if take > m {
      WalkedOffset(offset, m, 0);
      WalkedOffset(offset, m, m);
      AddOneTurn(offset, m);
      assert picks[0] == picks[m];
    } else {
      forall i, k | 0 <= i < k < |picks| ensures picks[i] != picks[k] {
        DifferentRemainders(offset % m, m, i, k);
      }
    }
  }

  lemma AddOneTurn(offset: nat, m: nat)
    requires m >= 1
    ensures (offset + m) % m == offset % m
  {
    var q, r := offset / m, offset % m;
    assert offset + m == (q + 1) * m + r;
    DivideUniquely(offset + m, m, q + 1, r);
  }

  lemma DifferentRemainders(start: nat, m: nat, i: nat, k: nat)
    requires start < m && i < k < m
    ensures (start + i) % m != (start + k) % m
  {
    if start + i < m {
      DivideUniquely(start + i, m, 0, start + i);
    } else {
      DivideUniquely(start + i, m, 1, start + i - m);
    }
    if start + k < m {
      DivideUniquely(start + k, m, 0, start + k);
    } else {
      DivideUniquely(start + k, m, 1, start + k - m);
    }
  }

  // ---------------------------------------------------------------- one slot

  ghost predicate EachHasChunks(counts: seq<nat>) {
    forall d :: 0 <= d < |counts| ==> counts[d] >= 1
  }

  /** What a slot receives when its documents have been dealt from these offsets before. */
  function Picked(kind: Kind, index: nat, counts: seq<nat>, singleTake: nat, offsets: seq<nat>): seq<Pick>
    requires |counts| >= 2 && |offsets| == |counts| && EachHasChunks(counts)
  {
    var first := index % |counts|;
    var second := (first + 1) % |counts|;
    match kind
    case NoEvidence => []
    case CrossDocument =>
      Dealt(first, offsets[first], CROSS_TAKE, counts[first]) + Dealt(second, offsets[second], CROSS_TAKE, counts[second])
    case SingleDocument => Dealt(first, offsets[first], singleTake, counts[first])
  }

  /** What a slot holds, place by place: nothing, two chunks of each of two neighbouring documents, or chunks of one
      document; in each document from where the slots before left off, and round again at its end. */
  lemma SlotHolds(kind: Kind, index: nat, counts: seq<nat>, singleTake: nat, offsets: seq<nat>, place: nat)
    requires |counts| >= 2 && |offsets| == |counts| && EachHasChunks(counts)
    ensures var picks, n := Picked(kind, index, counts, singleTake, offsets), |counts|;
      var d := if kind.CrossDocument? && place >= 2 then (index + 1) % n else index % n;
      |picks| == (match kind case NoEvidence => 0 case CrossDocument => 4 case SingleDocument => singleTake) &&
      (place < |picks| ==>
        picks[place] == Pick(d, (offsets[d] + if kind.CrossDocument? && place >= 2 then place - 2 else place) % counts[d]))
  {
    var n := |counts|;
    var first, second := index % n, (index % n + 1) % n;
    WalkedOffset(index, n, 1);
    WalkedOffset(offsets[first], counts[first], place);
    WalkedOffset(offsets[second], counts[second], if place >= 2 then place - 2 else 0);
  }

  /** A slot repeats a chunk exactly when it asks one of its documents for more chunks than that document has; the two
      documents of a cross-document slot never interfere. */
  lemma SlotRepeats(kind: Kind, index: nat, counts: seq<nat>, singleTake: nat, offsets: seq<nat>)
    requires |counts| >= 2 && |offsets| == |counts| && EachHasChunks(counts)
    ensures Distinct(Picked(kind, index, counts, singleTake, offsets)) <==>
      forall d :: 0 <= d < |counts| ==> TakeOf(kind, index, |counts|, singleTake, d) <= counts[d]
  {
    var first := index % |counts|;
    var second := (first + 1) % |counts|;
    NextDocument(first, |counts|);
    DealtRepeats(first, offsets[first], if kind.CrossDocument? then CROSS_TAKE else singleTake, counts[first]);
    DealtRepeats(second, offsets[second], CROSS_TAKE, counts[second]);
    if kind.CrossDocument? {
      DisjointDeals(Dealt(first, offsets[first], CROSS_TAKE, counts[first]),
                    Dealt(second, offsets[second], CROSS_TAKE, counts[second]), first, second);
    }
    assert TakeOf(kind, index, |counts|, singleTake, first) <= counts[first] &&
           TakeOf(kind, index, |counts|, singleTake, second) <= counts[second] ==>
           forall d :: 0 <= d < |counts| ==> TakeOf(kind, index, |counts|, singleTake, d) <= counts[d];
  }

  lemma DisjointDeals(a: seq<Pick>, b: seq<Pick>, first: nat, second: nat)
    requires first != second && (forall p :: p in a ==> p.document == first) &&
      (forall p :: p in b ==> p.document == second)
    ensures Distinct(a + b) <==> Distinct(a) && Distinct(b)
  {
    if Distinct(a + b) {
      assert forall i :: 0 <= i < |a| ==> a[i] == (a + b)[i];
      assert forall i :: 0 <= i < |b| ==> b[i] == (a + b)[|a| + i];
    }
    if Distinct(a) && Distinct(b) {
      forall i, k | 0 <= i < k < |a + b| ensures (a + b)[i] != (a + b)[k] {
        assert i < |a| <= k ==> a[i] in a && b[k - |a|] in b;
      }
    }
  }

  lemma NextDocument(first: nat, n: nat)
    requires n >= 2 && first < n
    ensures (first + 1) % n < n && (first + 1) % n != first
  {
    if first + 1 < n {
      DivideUniquely(first + 1, n, 0, first + 1);
    } else {
      DivideUniquely(first + 1, n, 1, 0);
    }
  }

  // ---------------------------------------------------------------- the slot loop

  /** The offsets that the first `n` slots leave behind. */
  function OffsetsAfter(kinds: seq<Kind>, n: nat, documents: nat, singleTake: nat): (r: seq<nat>)
    requires n <= |kinds| && documents >= 1
    ensures |r| == documents
  {
    seq(documents, d requires 0 <= d => TotalTaken(kinds, n, documents, singleTake, d))
  }

  /** Every chunk of every document has been used its share of that document's offset. */
  ghost predicate InRotation(picks: seq<Pick>, offsets: seq<nat>, counts: seq<nat>) {
    |offsets| == |counts| && forall d, c :: 0 <= d < |counts| && 0 <= c < counts[d] ==>
      UsedItsShare(picks, offsets[d], counts[d], d, c)
  }

  ghost predicate UsedItsShare(picks: seq<Pick>, offset: nat, count: nat, d: nat, c: nat) {
    count >= 1 && Uses(picks, Pick(d, c)) == Share(offset, count, c)
  }

  lemma DealKeepsRotation(picks: seq<Pick>, offsets: seq<nat>, counts: seq<nat>, d: nat, take: nat)
    requires InRotation(picks, offsets, counts) && d < |counts| && counts[d] >= 1
    ensures InRotation(picks + Dealt(d, offsets[d], take, counts[d]), offsets[d := offsets[d] + take], counts)
  {
    hide Share, Uses;
    var later := offsets[d := offsets[d] + take];
    forall e, c | 0 <= e < |counts| && 0 <= c < counts[e]
      ensures UsedItsShare(picks + Dealt(d, offsets[d], take, counts[d]), later[e], counts[e], e, c)
    {
      assert UsedItsShare(picks, offsets[e], counts[e], e, c);
      UsesAppend(picks, Dealt(d, offsets[d], take, counts[d]), Pick(e, c));
      if e == d {
        DealtUses(d, offsets[d], take, counts[d], Pick(e, c));
      } else {
        NotDealt(d, offsets[d], take, counts[d], Pick(e, c));
      }
    }
  }

  lemma {:induction false} NotDealt(d: nat, offset: nat, take: nat, m: nat, p: Pick)
    requires m >= 1 && p.document != d
    ensures Uses(Dealt(d, offset, take, m), p) == 0
  {
    if take > 0 {
      NotDealt(d, offset, take - 1, m, p);
      assert Dealt(d, offset, take, m)[..take - 1] == Dealt(d, offset, take - 1, m);
    }
  }

  lemma NothingUsed(counts: seq<nat>)
    requires forall d :: 0 <= d < |counts| ==> counts[d] >= 1
    ensures InRotation([], seq(|counts|, _ => 0), counts)
  {
    forall d | 0 <= d < |counts| ensures 0 / counts[d] == 0 && 0 % counts[d] == 0 {
      DivideUniquely(0, counts[d], 0, 0);
    }
  }

  /** Fails only with fewer than two documents. Otherwise every slot holds what its kind and the slots before it
      determine, each document's offset is the total taken from it, and each of its chunks was used its share of that
      total. */
  method AllocateEvidence(kinds: seq<Kind>, counts: seq<nat>, singleTake: nat)
    returns (r: Option<seq<seq<Pick>>>, offsets: seq<nat>)
    requires EachHasChunks(counts)
    ensures r.None? <==> |counts| < 2
    ensures r.Some? ==> |r.value| == |kinds| && forall i :: 0 <= i < |kinds| ==>
      r.value[i] == Picked(kinds[i], i, counts, singleTake, OffsetsAfter(kinds, i, |counts|, singleTake))
    ensures r.Some? ==> offsets == OffsetsAfter(kinds, |kinds|, |counts|, singleTake) && InRotation(AllPicks(r.value), offsets, counts)
  {
    hide InRotation, Picked, TakeOf;
    var n := |counts|;
    offsets := seq(n, _ => 0);
    if n < 2 {
      return None, offsets;
    }
    NothingUsed(counts);
    var slots: seq<seq<Pick>> := [];
    for index := 0 to |kinds|
      invariant |slots| == index && offsets == OffsetsAfter(kinds, index, n, singleTake) &&
        InRotation(AllPicks(slots), offsets, counts)
      invariant forall i :: 0 <= i < index ==>
        slots[i] == Picked(kinds[i], i, counts, singleTake, OffsetsAfter(kinds, i, n, singleTake))
    {
      var picks: seq<Pick>;
      picks, offsets := AllocateSlot(kinds[index], index, counts, singleTake, offsets, AllPicks(slots));
      assert (slots + [picks])[..index] == slots;
      slots := slots + [picks];
    }
    r := Some(slots);
  }

  method AllocateSlot(kind: Kind, index: nat, counts: seq<nat>, singleTake: nat, before: seq<nat>,
                      ghost used: seq<Pick>)
    returns (picks: seq<Pick>, offsets: seq<nat>)
    requires |counts| >= 2 && |before| == |counts| && EachHasChunks(counts) && InRotation(used, before, counts)
    ensures picks == Picked(kind, index, counts, singleTake, before)
    ensures |offsets| == |counts| && InRotation(used + picks, offsets, counts)
    ensures forall d :: 0 <= d < |counts| ==> offsets[d] == before[d] + TakeOf(kind, index, |counts|, singleTake, d)
  {
    hide InRotation, Dealt;
    var n := |counts|;
    offsets, picks := before, [];
    assert used + [] == used;
    match kind
    case NoEvidence =>
    case CrossDocument =>
      var first := index % n;
      var second := (first + 1) % n;
      NextDocument(first, n);
      DealKeepsRotation(used, offsets, counts, first, CROSS_TAKE);
      picks := Dealt(first, offsets[first], CROSS_TAKE, counts[first]);
      offsets := offsets[first := offsets[first] + CROSS_TAKE];
      DealKeepsRotation(used + picks, offsets, counts, second, CROSS_TAKE);
      assert used + picks + Dealt(second, offsets[second], CROSS_TAKE, counts[second]) ==
             used + (picks + Dealt(second, offsets[second], CROSS_TAKE, counts[second]));
      picks := picks + Dealt(second, offsets[second], CROSS_TAKE, counts[second]);
      offsets := offsets[second := offsets[second] + CROSS_TAKE];
    case SingleDocument =>
      var only := index % n;
      DealKeepsRotation(used, offsets, counts, only, singleTake);
      picks := Dealt(only, offsets[only], singleTake, counts[only]);
      offsets := offsets[only := offsets[only] + singleTake];
  }

  /** Within a document, any two chunks are used equally often up to one, whatever the mix of slots. */
  lemma ChunksAreBalanced(picks: seq<Pick>, offsets: seq<nat>, counts: seq<nat>, d: nat, b: nat, c: nat)
    requires InRotation(picks, offsets, counts) && d < |counts| && b < counts[d] && c < counts[d]
    ensures offsets[d] / counts[d] <= Uses(picks, Pick(d, c)) <= offsets[d] / counts[d] + 1
    ensures Uses(picks, Pick(d, c)) == offsets[d] / counts[d] + 1 <==> c < offsets[d] % counts[d]
    ensures Uses(picks, Pick(d, b)) - Uses(picks, Pick(d, c)) <= 1
  {
    assert UsedItsShare(picks, offsets[d], counts[d], d, b) && UsedItsShare(picks, offsets[d], counts[d], d, c);
  }
}
