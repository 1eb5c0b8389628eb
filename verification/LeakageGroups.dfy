/** Leakage grouping of evaluation candidates: matched pairs, and their connected components. */
module LeakageGroups {
  import opened Basics
  import opened Sorting
  import opened UnionFind

  datatype Split = Dev | Test | Acceptance

  /** What grouping reads of a candidate. Slot identifiers are numbered in their sort order. */
  datatype Slot = Slot(slotId: nat, chunks: set<nat>, documents: set<nat>, answerability: string, split: Split)

  datatype Reason = QuestionSemantic | AnswerTemplateSameDocument | QuestionSharedChunk | JointQuestionAnswer

  datatype Pair = Pair(left: nat, right: nat, reason: Reason)

  const QUESTION_SIMILARITY := 0.88
  const ANSWER_SIMILARITY := 0.92
  const SHARED_CHUNK_QUESTION := 0.82
  const JOINT_QUESTION := 0.76
  const JOINT_ANSWER := 0.88

  function MatchReason(left: Slot, right: Slot, question: real, answer: real): Option<Reason> {
    var sharedChunk, sharedDocument := left.chunks * right.chunks != {}, left.documents * right.documents != {};
    var sameAnswerability := left.answerability == right.answerability;
    if question >= QUESTION_SIMILARITY then Some(QuestionSemantic)
    else if sameAnswerability && sharedDocument && answer >= ANSWER_SIMILARITY then Some(AnswerTemplateSameDocument)
    else if sharedChunk && question >= SHARED_CHUNK_QUESTION then Some(QuestionSharedChunk)
    else if sameAnswerability && sharedChunk && question >= JOINT_QUESTION && answer >= JOINT_ANSWER then Some(JointQuestionAnswer)
    else None
  }

  /** Matching does not depend on which candidate comes first, and greater similarity or more sharing never
      unmatches. */
  lemma MatchingIsMonotone(left: Slot, right: Slot, question: real, answer: real, left': Slot, right': Slot,
                           question': real, answer': real)
    requires MatchReason(left, right, question, answer).Some? && question <= question' && answer <= answer'
    requires left.chunks <= left'.chunks && right.chunks <= right'.chunks
    requires left.documents <= left'.documents && right.documents <= right'.documents
    requires left.answerability == right.answerability ==> left'.answerability == right'.answerability
    ensures MatchReason(left', right', question', answer').Some? && MatchReason(right', left', question', answer').Some?
  {
    assert left.chunks * right.chunks <= left'.chunks * right'.chunks;
    assert left.documents * right.documents <= left'.documents * right'.documents;
    assert left'.chunks * right'.chunks == right'.chunks * left'.chunks;
    assert left'.documents * right'.documents == right'.documents * left'.documents;
  }

  ghost predicate Meet(a: set<nat>, b: set<nat>) {
    exists x :: x in a && x in b
  }

  /** Two answers follow one template when both candidates have the same answerability and share a document. */
  ghost predicate OneTemplate(left: Slot, right: Slot, answer: real) {
    answer >= 0.92 && left.answerability == right.answerability && Meet(left.documents, right.documents)
  }

  /** When two candidates match, and for which of the four reasons. */
  lemma MatchesExactly(left: Slot, right: Slot, question: real, answer: real)
    ensures var reason := MatchReason(left, right, question, answer);
      (reason == Some(QuestionSemantic) <==> question >= 0.88) &&
      (reason == Some(AnswerTemplateSameDocument) <==> question < 0.88 && OneTemplate(left, right, answer)) &&
      (reason == Some(QuestionSharedChunk) <==>
        0.82 <= question < 0.88 && Meet(left.chunks, right.chunks) && !OneTemplate(left, right, answer)) &&
      (reason == Some(JointQuestionAnswer) <==>
        0.76 <= question < 0.82 && answer >= 0.88 && left.answerability == right.answerability &&
        Meet(left.chunks, right.chunks) && !OneTemplate(left, right, answer))
  {
    MeetExactly(left.chunks, right.chunks);
    MeetExactly(left.documents, right.documents);
    hide Meet;
  }

  lemma MeetExactly(a: set<nat>, b: set<nat>)
    ensures Meet(a, b) <==> a * b != {}
  {
    if a * b != {} {
      var x :| x in a * b;
      assert x in a && x in b;
    }
    if x :| x in a && x in b {
      assert x in a * b;
    }
  }

  // ---------------------------------------------------------------- chains of matched pairs

  ghost predicate Adjacent(pairs: seq<Pair>, x: nat, y: nat) {
    exists k :: 0 <= k < |pairs| &&
      ((pairs[k].left == x && pairs[k].right == y) || (pairs[k].left == y && pairs[k].right == x))
  }

  ghost predicate IsChain(pairs: seq<Pair>, chain: seq<nat>, x: nat, y: nat) {
    chain != [] && chain[0] == x && chain[|chain| - 1] == y &&
    forall i :: 0 <= i < |chain| - 1 ==> Adjacent(pairs, chain[i], chain[i + 1])
  }

  /** Some chain of matched pairs connects the two candidates. */
  ghost predicate Linked(pairs: seq<Pair>, x: nat, y: nat) {
    exists chain :: IsChain(pairs, chain, x, y)
  }

  lemma LinkedToSelf(pairs: seq<Pair>, x: nat)
    ensures Linked(pairs, x, x)
  {
    assert IsChain(pairs, [x], x, x);
  }

  lemma LinkedByPair(pairs: seq<Pair>, x: nat, y: nat)
    requires Adjacent(pairs, x, y)
    ensures Linked(pairs, x, y) && Linked(pairs, y, x)
  {
    assert IsChain(pairs, [x, y], x, y);
    assert IsChain(pairs, [y, x], y, x);
  }

  lemma LinkedThrough(pairs: seq<Pair>, x: nat, y: nat, z: nat)
    requires Linked(pairs, x, y) && Linked(pairs, y, z)
    ensures Linked(pairs, x, z)
  {
    var first :| IsChain(pairs, first, x, y);
    var second :| IsChain(pairs, second, y, z);
    var whole := first + second[1..];
    forall i | 0 <= i < |whole| - 1 ensures Adjacent(pairs, whole[i], whole[i + 1]) {
      if i >= |first| - 1 {
        assert whole[i] == second[i - |first| + 1] && whole[i + 1] == second[i - |first| + 2];
      }
    }
    assert IsChain(pairs, whole, x, z);
  }

  lemma MorePairsKeepLinks(pairs: seq<Pair>, e: Pair, x: nat, y: nat)
    requires Linked(pairs, x, y)
    ensures Linked(pairs + [e], x, y)
  {
    var chain :| IsChain(pairs, chain, x, y);
    forall i | 0 <= i < |chain| - 1 ensures Adjacent(pairs + [e], chain[i], chain[i + 1]) {
      var k :| 0 <= k < |pairs| && ((pairs[k].left == chain[i] && pairs[k].right == chain[i + 1]) ||
                                    (pairs[k].left == chain[i + 1] && pairs[k].right == chain[i]));
      assert (pairs + [e])[k] == pairs[k];
    }
    assert IsChain(pairs + [e], chain, x, y);
  }

  // ---------------------------------------------------------------- roots against chains

  /** Matched candidates share a root, and only chained candidates do. */
  ghost predicate Represents(roots: seq<nat>, pairs: seq<Pair>) {
    (forall k :: 0 <= k < |pairs| ==>
       pairs[k].left < |roots| && pairs[k].right < |roots| && roots[pairs[k].left] == roots[pairs[k].right]) &&
    (forall x, y :: 0 <= x < |roots| && 0 <= y < |roots| && roots[x] == roots[y] ==> Linked(pairs, x, y))
  }

  lemma {:induction false} ChainSharesRoot(roots: seq<nat>, pairs: seq<Pair>, chain: seq<nat>, x: nat, y: nat)
    requires Represents(roots, pairs) && IsChain(pairs, chain, x, y) && x < |roots|
    ensures y < |roots| && roots[x] == roots[y]
    decreases |chain|
  {
    if |chain| > 1 {
      assert Adjacent(pairs, chain[0], chain[1]);
      assert IsChain(pairs, chain[1..], chain[1], y) by {
        forall i | 0 <= i < |chain| - 2 ensures Adjacent(pairs, chain[1..][i], chain[1..][i + 1]) {
          assert Adjacent(pairs, chain[i + 1], chain[i + 2]);
        }
      }
      ChainSharesRoot(roots, pairs, chain[1..], chain[1], y);
    }
  }

  /** Two candidates have one root exactly when a chain of matched pairs connects them. */
  lemma RootsAreComponents(roots: seq<nat>, pairs: seq<Pair>, x: nat, y: nat)
    requires Represents(roots, pairs) && x < |roots| && y < |roots|
    ensures roots[x] == roots[y] <==> Linked(pairs, x, y)
  {
    if Linked(pairs, x, y) {
      var chain :| IsChain(pairs, chain, x, y);
      ChainSharesRoot(roots, pairs, chain, x, y);
    }
  }

  ghost function Merged(roots: seq<nat>, left: nat, right: nat): seq<nat>
    requires left < |roots| && right < |roots|
  {
    seq(|roots|, x requires 0 <= x < |roots| => if roots[x] == roots[right] then roots[left] else roots[x])
  }

  lemma MergeKeepsRepresentation(roots: seq<nat>, pairs: seq<Pair>, e: Pair)
    requires Represents(roots, pairs) && e.left < |roots| && e.right < |roots|
    ensures Represents(Merged(roots, e.left, e.right), pairs + [e])
  {
    var after, more := Merged(roots, e.left, e.right), pairs + [e];
    forall x, y | 0 <= x < |roots| && 0 <= y < |roots| && after[x] == after[y] ensures Linked(more, x, y) {
      MergedAreLinked(roots, pairs, e, x, y);
    }
  }

  lemma MergedAreLinked(roots: seq<nat>, pairs: seq<Pair>, e: Pair, x: nat, y: nat)
    requires Represents(roots, pairs) && e.left < |roots| && e.right < |roots| && x < |roots| && y < |roots|
    requires Merged(roots, e.left, e.right)[x] == Merged(roots, e.left, e.right)[y]
    ensures Linked(pairs + [e], x, y)
  {
    var more := pairs + [e];
    if roots[x] == roots[y] {
      MorePairsKeepLinks(pairs, e, x, y);
    } else {
      assert more[|pairs|] == e;
      LinkedByPair(more, e.left, e.right);
      var a, b := if roots[x] == roots[e.right] then e.right else e.left, if roots[x] == roots[e.right] then e.left else e.right;
      MorePairsKeepLinks(pairs, e, x, a);
      MorePairsKeepLinks(pairs, e, b, y);
      LinkedThrough(more, x, a, b);
      LinkedThrough(more, x, b, y);
    }
  }

  // ---------------------------------------------------------------- groups

  ghost predicate Increasing(g: seq<nat>) {
    forall i, j :: 0 <= i < j < |g| ==> g[i] < g[j]
  }

  ghost predicate InSomeGroup(groups: seq<seq<nat>>, x: nat) {
    exists k :: 0 <= k < |groups| && x in groups[k]
  }

  /** Every index lies in exactly one group; groups are not empty and list their indices in order. */
  ghost predicate IsPartition(groups: seq<seq<nat>>, n: nat) {
    (forall g :: g in groups ==> g != [] && (forall x :: x in g ==> x < n) && Increasing(g)) &&
    (forall x :: 0 <= x < n ==> InSomeGroup(groups, x)) &&
    (forall k, l :: 0 <= k < l < |groups| ==> forall x :: x in groups[k] ==> x !in groups[l])
  }

  /** Each group is one connected component. */
  ghost predicate AreComponents(groups: seq<seq<nat>>, pairs: seq<Pair>) {
    forall k, x, y :: 0 <= k < |groups| && x in groups[k] ==> (y in groups[k] <==> Linked(pairs, x, y))
  }

  function SlotAt(rows: seq<Slot>, x: nat): nat {
    if x < |rows| then rows[x].slotId else 0
  }

  /** The least slot identifier of a group. */
  function MinSlot(rows: seq<Slot>, group: seq<nat>): nat {
    if group == [] then 0
    else if |group| == 1 then SlotAt(rows, group[0])
    else
      var rest := MinSlot(rows, group[1..]);
      if SlotAt(rows, group[0]) <= rest then SlotAt(rows, group[0]) else rest
  }

  /** It is the slot identifier of a member, and no member has a smaller one. */
  lemma {:induction false} MinSlotIsLeast(rows: seq<Slot>, group: seq<nat>)
    requires group != [] && forall i :: 0 <= i < |group| ==> group[i] < |rows|
    ensures exists i :: 0 <= i < |group| && rows[group[i]].slotId == MinSlot(rows, group)
    ensures forall i :: 0 <= i < |group| ==> MinSlot(rows, group) <= rows[group[i]].slotId
  {
    assert |group| == 1 ==> rows[group[0]].slotId == MinSlot(rows, group);
    if |group| > 1 {
      var rest := group[1..];
      MinSlotIsLeast(rows, rest);
      var i :| 0 <= i < |rest| && rows[rest[i]].slotId == MinSlot(rows, rest);
      assert rest[i] == group[i + 1] && rows[group[if MinSlot(rows, group) == MinSlot(rows, rest) then i + 1 else 0]].slotId ==
        MinSlot(rows, group);
      forall k | 0 <= k < |group| ensures MinSlot(rows, group) <= rows[group[k]].slotId {
        if k > 0 {
          assert group[k] == rest[k - 1];
        }
      }
    }
  }

  function FirstSlotOrder(rows: seq<Slot>): (seq<nat>, seq<nat>) -> bool {
    (g, h) => MinSlot(rows, g) <= MinSlot(rows, h)
  }

  lemma SlotOrderIsTotal(rows: seq<Slot>)
    ensures TotalPreorder(FirstSlotOrder(rows))
  {
  }

  /** The indices below `n` with root `r`, in order. */
  ghost function Members(roots: seq<nat>, r: nat, n: nat): seq<nat>
    requires n <= |roots|
  {
    if n == 0 then [] else Members(roots, r, n - 1) + if roots[n - 1] == r then [n - 1] else []
  }

  lemma {:induction false} MembersContents(roots: seq<nat>, r: nat, n: nat)
    requires n <= |roots|
    ensures forall x: nat :: x in Members(roots, r, n) ==> x < n && roots[x] == r
    ensures forall x: nat :: x < n && roots[x] == r ==> x in Members(roots, r, n)
    ensures Increasing(Members(roots, r, n))
  {
    if n > 0 {
      MembersContents(roots, r, n - 1);
      var before := Members(roots, r, n - 1);
      assert Members(roots, r, n) == before + if roots[n - 1] == r then [n - 1] else [];
      forall i, j | 0 <= i < j < |Members(roots, r, n)| ensures Members(roots, r, n)[i] < Members(roots, r, n)[j] {
        assert before[i] in before;
      }
    }
  }

  /** One bucket per root, in the order in which the roots were first met. */
  ghost predicate Bucketed(roots: seq<nat>, order: seq<nat>, components: map<nat, seq<nat>>, n: nat) {
    n <= |roots| && Distinct(order) && (forall r :: r in order <==> r in components) &&
    (forall r :: r in components ==> components[r] == Members(roots, r, n) && components[r] != []) &&
    forall x :: 0 <= x < n ==> roots[x] in components
  }

  lemma NoMembers(roots: seq<nat>, r: nat, n: nat)
    requires n <= |roots| && forall x: nat :: x < n ==> roots[x] != r
    ensures Members(roots, r, n) == []
  {
    MembersContents(roots, r, n);
    if Members(roots, r, n) != [] {
      assert Members(roots, r, n)[0] in Members(roots, r, n);
      assert false;
    }
  }

  lemma BucketStep(roots: seq<nat>, order: seq<nat>, components: map<nat, seq<nat>>, n: nat)
    requires Bucketed(roots, order, components, n) && n < |roots|
    ensures var r := roots[n];
      Bucketed(roots, if r in components then order else order + [r],
               components[r := (if r in components then components[r] else []) + [n]], n + 1)
  {
    hide Distinct;
    var r := roots[n];
    if r !in components {
      MoreDistinct(order, r);
    }
    var later := components[r := (if r in components then components[r] else []) + [n]];
    if r !in components {
      NoMembers(roots, r, n);
    }
    forall q | q in later ensures later[q] == Members(roots, q, n + 1) {
      assert Members(roots, q, n + 1) == Members(roots, q, n) + if r == q then [n] else [];
    }
  }

  lemma MoreDistinct(order: seq<nat>, r: nat)
    requires Distinct(order) && r !in order
    ensures Distinct(order + [r])
  {
  }

  /** The `k`-th group holds exactly the indices with the `k`-th root. */
  ghost predicate ByRoot(groups: seq<seq<nat>>, order: seq<nat>, roots: seq<nat>) {
    |groups| == |order| && Distinct(order) && (forall x :: 0 <= x < |roots| ==> roots[x] in order) &&
    forall k :: 0 <= k < |order| ==>
      groups[k] != [] && Increasing(groups[k]) && forall x: nat :: x in groups[k] <==>
        x < |roots| && roots[x] == order[k]
  }

  lemma BucketsAreByRoot(roots: seq<nat>, order: seq<nat>, components: map<nat, seq<nat>>)
    requires Bucketed(roots, order, components, |roots|)
    ensures ByRoot(seq(|order|, k requires 0 <= k < |order| => components[order[k]]), order, roots)
  {
    forall k | 0 <= k < |order|
      ensures components[order[k]] != [] && Increasing(components[order[k]])
      ensures forall x: nat :: x in components[order[k]] <==> x < |roots| && roots[x] == order[k]
    {
      assert order[k] in components;
      MembersContents(roots, order[k], |roots|);
    }
  }

  lemma ByRootPartitions(groups: seq<seq<nat>>, order: seq<nat>, roots: seq<nat>)
    requires ByRoot(groups, order, roots)
    ensures IsPartition(groups, |roots|)
  {
    forall x: nat | x < |roots| ensures InSomeGroup(groups, x) {
      var k :| 0 <= k < |order| && order[k] == roots[x];
      assert x in groups[k];
    }
  }

  /** Groups by root are the connected components. */
  lemma ByRootAreComponents(groups: seq<seq<nat>>, order: seq<nat>, roots: seq<nat>, pairs: seq<Pair>)
    requires ByRoot(groups, order, roots) && Represents(roots, pairs)
    ensures AreComponents(groups, pairs)
  {
    forall k, x: nat, y: nat | 0 <= k < |groups| && x in groups[k] ensures y in groups[k] <==> Linked(pairs, x, y) {
      if y < |roots| {
        RootsAreComponents(roots, pairs, x, y);
      } else if Linked(pairs, x, y) {
        var chain :| IsChain(pairs, chain, x, y);
        ChainSharesRoot(roots, pairs, chain, x, y);
      }
    }
  }

  /** Reordering the groups keeps a partition. */
  lemma ReorderedPartition(groups: seq<seq<nat>>, sorted: seq<seq<nat>>, n: nat)
    requires multiset(groups) == multiset(sorted) && IsPartition(groups, n)
    ensures IsPartition(sorted, n)
  {
    SameMembers(groups, sorted);
    forall x | 0 <= x < n ensures InSomeGroup(sorted, x) {
      assert InSomeGroup(groups, x);
      var k :| 0 <= k < |groups| && x in groups[k];
      assert groups[k] in sorted;
    }
    assert Distinct(groups) by {
      forall k, l | 0 <= k < l < |groups| ensures groups[k] != groups[l] {
        assert groups[k] in groups && groups[k][0] in groups[k];
      }
    }
    SortedDistinct(groups, sorted);
    forall k, l | 0 <= k < l < |sorted| ensures forall x :: x in sorted[k] ==> x !in sorted[l] {
      assert sorted[k] in groups && sorted[l] in groups;
    }
  }

  lemma ReorderedComponents(groups: seq<seq<nat>>, sorted: seq<seq<nat>>, pairs: seq<Pair>)
    requires multiset(groups) == multiset(sorted) && AreComponents(groups, pairs)
    ensures AreComponents(sorted, pairs)
  {
    SameMembers(groups, sorted);
    forall k, x, y | 0 <= k < |sorted| && x in sorted[k] ensures y in sorted[k] <==> Linked(pairs, x, y) {
      assert sorted[k] in groups;
    }
  }

  // ---------------------------------------------------------------- the grouping run

  datatype Grouping = Grouping(groups: seq<seq<nat>>, pairs: seq<Pair>, reasonCounts: multiset<Reason>)

  /** How often each reason was given. */
  function ReasonsOf(pairs: seq<Pair>): multiset<Reason> {
    if pairs == [] then multiset{} else ReasonsOf(pairs[..|pairs| - 1]) + multiset{pairs[|pairs| - 1].reason}
  }

  lemma OneMoreReason(pairs: seq<Pair>, e: Pair)
    ensures ReasonsOf(pairs + [e]) == ReasonsOf(pairs) + multiset{e.reason}
  {
    assert (pairs + [e])[..|pairs|] == pairs;
  }

  /** The pairs the two loops have looked at. */
  predicate Visited(left: nat, right: nat, i: nat, k: nat) {
    i < k && (i < left || (i == left && k < right))
  }

  function ReasonOf(rows: seq<Slot>, question: (nat, nat) -> real, answer: (nat, nat) -> real, i: nat,
                    k: nat): Option<Reason> {
    if i < |rows| && k < |rows| then MatchReason(rows[i], rows[k], question(i, k), answer(i, k)) else None
  }

  /** Exactly the visited pairs that match are recorded, once each, with their reason. */
  ghost predicate Recorded(rows: seq<Slot>, question: (nat, nat) -> real, answer: (nat, nat) -> real, pairs: seq<Pair>,
                           left: nat, right: nat) {
    (forall e :: e in pairs ==> e.left < |rows| && e.right < |rows| && Visited(left, right, e.left, e.right)) &&
    (forall e :: e in pairs ==> ReasonOf(rows, question, answer, e.left, e.right) == Some(e.reason)) &&
    (forall i: nat, k: nat :: Visited(left, right, i, k) && ReasonOf(rows, question, answer, i, k).Some? ==>
      Pair(i, k, ReasonOf(rows, question, answer, i, k).value) in pairs) &&
    Distinct(pairs)
  }

  lemma VisitNext(rows: seq<Slot>, question: (nat, nat) -> real, answer: (nat, nat) -> real, pairs: seq<Pair>,
                  left: nat, right: nat)
    requires left < right < |rows| && Recorded(rows, question, answer, pairs, left, right)
    ensures var reason := ReasonOf(rows, question, answer, left, right);
      Recorded(rows, question, answer, if reason.Some? then pairs + [Pair(left, right, reason.value)] else pairs, left, right + 1)
  {
    hide ReasonOf;
  }

  ghost function RootsOf(forest: Forest): (r: seq<nat>)
    requires forest.Valid()
    reads forest, forest.parent
    ensures |r| == forest.parent.Length && forall x :: 0 <= x < |r| ==> r[x] == forest.RootOf(x)
  {
    seq(forest.parent.Length, x requires 0 <= x < forest.parent.Length
        reads forest, forest.parent requires forest.Valid() => forest.RootOf(x))
  }

  /** Unites one matched pair and records it. */
  method Match(forest: Forest, ghost pairs: seq<Pair>, e: Pair)
    requires forest.Valid() && e.left < forest.parent.Length && e.right < forest.parent.Length
    requires Represents(RootsOf(forest), pairs)
    modifies forest, forest.parent
    ensures forest.Valid() && Represents(RootsOf(forest), pairs + [e])
  {
    ghost var roots := RootsOf(forest);
    forest.Union(e.left, e.right);
    MergeKeepsRepresentation(roots, pairs, e);
    assert RootsOf(forest) == Merged(roots, e.left, e.right);
  }

  method Bucket(forest: Forest) returns (order: seq<nat>, components: map<nat, seq<nat>>)
    requires forest.Valid()
    modifies forest.parent
    ensures Bucketed(old(RootsOf(forest)), order, components, forest.parent.Length)
  {
    hide Bucketed;
    ghost var roots := RootsOf(forest);
    components, order := map[], [];
    NothingBucketed(roots);
    for index := 0 to forest.parent.Length
      invariant forest.Valid() && RootsOf(forest) == roots
      invariant Bucketed(roots, order, components, index)
    {
      var r := forest.Find(index);
      assert RootsOf(forest) == roots;
      BucketStep(roots, order, components, index);
      if r in components {
        components := components[r := components[r] + [index]];
      } else {
        components := components[r := [] + [index]];
        order := order + [r];
      }
    }
  }

  lemma NothingBucketed(roots: seq<nat>)
    ensures Bucketed(roots, [], map[], 0)
  {
  }

  method Components(rows: seq<Slot>, forest: Forest, ghost pairs: seq<Pair>) returns (groups: seq<seq<nat>>)
    requires forest.Valid() && Represents(RootsOf(forest), pairs)
    modifies forest.parent
    ensures IsPartition(groups, forest.parent.Length) && AreComponents(groups, pairs)
    ensures Ordered(groups, FirstSlotOrder(rows))
  {
    hide Represents, IsPartition, AreComponents, ByRoot, Ordered, MinSlot, FirstSlotOrder;
    ghost var roots := RootsOf(forest);
    var order, components := Bucket(forest);
    BucketsAreByRoot(roots, order, components);
    ghost var unsorted := seq(|order|, k requires 0 <= k < |order| => components[order[k]]);
    ByRootPartitions(unsorted, order, roots);
    ByRootAreComponents(unsorted, order, roots, pairs);
    groups := SortedBy(seq(|order|, k requires 0 <= k < |order| => components[order[k]]), FirstSlotOrder(rows));
    SortedContents(unsorted, FirstSlotOrder(rows));
    SlotOrderIsTotal(rows);
    SortedOrdered(unsorted, FirstSlotOrder(rows));
    ReorderedPartition(unsorted, groups, |roots|);
    ReorderedComponents(unsorted, groups, pairs);
  }

  /** The inner loop: one candidate against all later ones. */
  method MatchRow(forest: Forest, rows: seq<Slot>, question: (nat, nat) -> real, answer: (nat, nat) -> real, left: nat,
                  before: seq<Pair>, countsBefore: multiset<Reason>)
    returns (pairs: seq<Pair>, reasonCounts: multiset<Reason>)
    requires forest.Valid() && forest.parent.Length == |rows| && left < |rows|
    requires Represents(RootsOf(forest), before) && countsBefore == ReasonsOf(before)
    requires Recorded(rows, question, answer, before, left, left + 1)
    modifies forest, forest.parent
    ensures forest.Valid() && Represents(RootsOf(forest), pairs) && reasonCounts == ReasonsOf(pairs)
    ensures Recorded(rows, question, answer, pairs, left + 1, left + 2)
  {
    hide ReasonOf, ReasonsOf, Represents, Recorded, Acyclic, RootsOf;
    pairs, reasonCounts := before, countsBefore;
    for right := left + 1 to |rows|
      invariant forest.Valid() && Represents(RootsOf(forest), pairs) && reasonCounts == ReasonsOf(pairs)
      invariant Recorded(rows, question, answer, pairs, left, right)
    {
      var reason := ReasonOf(rows, question, answer, left, right);
      VisitNext(rows, question, answer, pairs, left, right);
      if reason.Some? {
        Match(forest, pairs, Pair(left, right, reason.value));
        OneMoreReason(pairs, Pair(left, right, reason.value));
        reasonCounts := reasonCounts + multiset{reason.value};
        pairs := pairs + [Pair(left, right, reason.value)];
      }
    }
    RowDone(rows, question, answer, pairs, left);
  }

  method MatchPairs(rows: seq<Slot>, question: (nat, nat) -> real, answer: (nat, nat) -> real)
    returns (forest: Forest, pairs: seq<Pair>, reasonCounts: multiset<Reason>)
    ensures fresh(forest) && fresh(forest.parent) && forest.Valid() && forest.parent.Length == |rows|
    ensures Represents(RootsOf(forest), pairs) && reasonCounts == ReasonsOf(pairs)
    ensures Recorded(rows, question, answer, pairs, |rows|, |rows| + 1)
  {
    forest := new Forest(|rows|);
    pairs, reasonCounts := [], multiset{};
    SingletonsRepresent(RootsOf(forest));
    hide ReasonOf, Represents, Acyclic, RootsOf;
    for left := 0 to |rows|
      invariant forest.Valid() && fresh(forest) && fresh(forest.parent) && forest.parent.Length == |rows|
      invariant Represents(RootsOf(forest), pairs) && reasonCounts == ReasonsOf(pairs)
      invariant Recorded(rows, question, answer, pairs, left, left + 1)
    {
      pairs, reasonCounts := MatchRow(forest, rows, question, answer, left, pairs, reasonCounts);
    }
  }

  method GroupCandidates<V>(rows: seq<Slot>, questions: seq<V>, answers: seq<V>, cosine: (V, V) -> real)
    returns (r: Result<Grouping, ()>)
    ensures r.Raised? <==> |rows| != |questions| || |rows| != |answers|
    // A pair is recorded exactly when it matches, once, with the reason that applies first, and each reason is counted.
    ensures r.Ok? ==> forall i: nat, k: nat :: i < k < |rows| ==>
      var reason := MatchReason(rows[i], rows[k], cosine(questions[i], questions[k]), cosine(answers[i], answers[k]));
      if reason.Some? then Pair(i, k, reason.value) in r.value.pairs
      else forall e :: e in r.value.pairs ==> e.left != i || e.right != k
    ensures r.Ok? ==> Distinct(r.value.pairs) && forall e :: e in r.value.pairs ==> e.left < e.right < |rows|
    ensures r.Ok? ==> r.value.reasonCounts == ReasonsOf(r.value.pairs)
    // The groups are the connected components of the recorded pairs, ordered by their least slot.
    ensures r.Ok? ==> IsPartition(r.value.groups, |rows|) && AreComponents(r.value.groups, r.value.pairs)
    ensures r.Ok? ==> Ordered(r.value.groups, FirstSlotOrder(rows))
  {
    if |rows| != |questions| || |rows| != |answers| {
      return Raised(());
    }
    var question := (i: nat, k: nat) => if i < |questions| && k < |questions| then cosine(questions[i], questions[k]) else 0.0;
    var answer := (i: nat, k: nat) => if i < |answers| && k < |answers| then cosine(answers[i], answers[k]) else 0.0;
    var forest, pairs, reasonCounts := MatchPairs(rows, question, answer);
    hide MatchReason, Represents, AreComponents, IsPartition, Ordered;
    var groups := Components(rows, forest, pairs);
    r := Ok(Grouping(groups, pairs, reasonCounts));
    forall i: nat, k: nat | i < k < |rows|
      ensures var reason := MatchReason(rows[i], rows[k], cosine(questions[i], questions[k]), cosine(answers[i], answers[k]));
        if reason.Some? then Pair(i, k, reason.value) in pairs else forall e :: e in pairs ==> e.left != i || e.right != k
    {
      assert Visited(|rows|, |rows| + 1, i, k);
      assert ReasonOf(rows, question, answer, i, k) ==
             MatchReason(rows[i], rows[k], cosine(questions[i], questions[k]), cosine(answers[i], answers[k]));
    }
  }

  lemma SingletonsRepresent(roots: seq<nat>)
    requires forall x :: 0 <= x < |roots| ==> roots[x] == x
    ensures Represents(roots, [])
  {
    forall x: nat | x < |roots| ensures Linked([], x, x) {
      LinkedToSelf([], x);
    }
  }

  lemma RowDone(rows: seq<Slot>, question: (nat, nat) -> real, answer: (nat, nat) -> real, pairs: seq<Pair>, left: nat)
    requires Recorded(rows, question, answer, pairs, left, |rows|)
    ensures Recorded(rows, question, answer, pairs, left + 1, left + 2)
  {
    hide MatchReason;
  }
}
