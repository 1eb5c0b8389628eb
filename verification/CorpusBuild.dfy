/** Grouping, allocation and corpus validation together: the built corpus passes the leakage check. */
module CorpusBuild {
  import opened Basics
  import opened LeakageGroups
  import opened SplitAllocation
  import FC = FormalCorpus

  datatype BuildError = VectorCountMismatch | AllocationFailed(error: AllocationError)

  datatype Built = Built(grouping: Grouping, assignments: map<nat, Split>)

  /** Whether two candidates match for any of the reasons. */
  ghost predicate Similar<V>(rows: seq<Slot>, questions: seq<V>, answers: seq<V>, cosine: (V, V) -> real, i: nat, k: nat)
    requires |rows| == |questions| == |answers| && i < |rows| && k < |rows|
  {
    MatchReason(rows[i], rows[k], cosine(questions[i], questions[k]), cosine(answers[i], answers[k])).Some?
  }

  /** Groups the candidates and allocates the groups; no two matching candidates end in different splits. */
  method GroupAndAssign<V>(rows: seq<Slot>, questions: seq<V>, answers: seq<V>, cosine: (V, V) -> real)
    returns (r: Result<Built, BuildError>)
    ensures r == Raised(VectorCountMismatch) <==> |rows| != |questions| || |rows| != |answers|
    ensures r.Ok? ==> |rows| == 500 && r.value.assignments.Keys == Below(|rows|) && FillsTargets(r.value.assignments)
    ensures r.Ok? ==> Allocation(rows, r.value.grouping.groups) == Ok(r.value.assignments)
    ensures r.Ok? ==> IsPartition(r.value.grouping.groups, |rows|) && AreComponents(r.value.grouping.groups, r.value.grouping.pairs)
    ensures r.Ok? ==>
      forall i: nat, k: nat :: i < k < |rows| && Similar(rows, questions, answers, cosine, i, k) ==>
        r.value.assignments[i] == r.value.assignments[k]
  {
    hide IsPartition, AreComponents, Allocation, FillsTargets, MatchReason, Undivided, GroupsFit;
    var grouped := GroupCandidates(rows, questions, answers, cosine);
    if grouped.Raised? {
      return Raised(VectorCountMismatch);
    }
    var grouping := grouped.value;
    var placed := AssignGroupSplits(rows, grouping.groups);
    if placed.Raised? {
      return Raised(AllocationFailed(placed.error));
    }
    AllocationOutcome(rows, grouping.groups);
    forall i: nat, k: nat | i < k < |rows| && Similar(rows, questions, answers, cosine, i, k)
      ensures placed.value[i] == placed.value[k]
    {
      var e := Pair(i, k, MatchReason(rows[i], rows[k], cosine(questions[i], questions[k]), cosine(answers[i], answers[k])).value);
      PairIsLinked(grouping.pairs, e);
      NoPairCrossesSplits(rows, grouping.groups, grouping.pairs, i, k);
    }
    r := Ok(Built(grouping, placed.value));
  }

  lemma PairIsLinked(pairs: seq<Pair>, e: Pair)
    requires e in pairs
    ensures Linked(pairs, e.left, e.right)
  {
    var k :| 0 <= k < |pairs| && pairs[k] == e;
    assert Adjacent(pairs, e.left, e.right);
    LinkedByPair(pairs, e.left, e.right);
  }

  // ---------------------------------------------------------------- the corpus built from an allocation

  /** The slot identifiers a leakage group identifier is derived from; the digest is taken to be injective. */
  function GroupSlots(rows: seq<Slot>, group: seq<nat>): set<nat> {
    set x | x in group && x < |rows| :: rows[x].slotId
  }

  function SplitName(s: Split): FC.Split {
    match s case Dev => FC.Dev case Test => FC.Test case Acceptance => FC.Acceptance
  }

  ghost predicate Injective(digest: set<nat> -> nat) {
    forall a, b :: digest(a) == digest(b) ==> a == b
  }

  /** One item per candidate, with its group's identifier and its assigned split. */
  ghost predicate BuiltFrom(items: seq<FC.Item>, rows: seq<Slot>, groups: seq<seq<nat>>, assignments: map<nat, Split>,
                            digest: set<nat> -> nat) {
    |items| == |rows| && (forall x :: 0 <= x < |rows| ==> x in assignments && items[x].split == SplitName(assignments[x])) &&
    forall k, x :: 0 <= k < |groups| && x in groups[k] && x < |items| ==>
      items[x].leakageGroup == digest(GroupSlots(rows, groups[k]))
  }

  lemma SameSlotsSameGroup(rows: seq<Slot>, groups: seq<seq<nat>>, k: nat, l: nat, x: nat)
    requires IsPartition(groups, |rows|) && k < |groups| && l < |groups| && x in groups[k]
    requires forall i, j :: 0 <= i < j < |rows| ==> rows[i].slotId != rows[j].slotId
    requires GroupSlots(rows, groups[k]) == GroupSlots(rows, groups[l])
    ensures k == l
  {
    assert groups[k] in groups && groups[l] in groups;
    assert rows[x].slotId in GroupSlots(rows, groups[k]);
    var y :| y in groups[l] && y < |rows| && rows[y].slotId == rows[x].slotId;
    assert x == y;
  }

  lemma SameGroupSameSplit(items: seq<FC.Item>, rows: seq<Slot>, groups: seq<seq<nat>>, assignments: map<nat, Split>,
                           digest: set<nat> -> nat, i: nat, j: nat)
    requires IsPartition(groups, |rows|) && Undivided(assignments, groups) && Injective(digest)
    requires BuiltFrom(items, rows, groups, assignments, digest) && i < |items| && j < |items|
    requires forall x, y :: 0 <= x < y < |rows| ==> rows[x].slotId != rows[y].slotId
    requires items[i].leakageGroup == items[j].leakageGroup
    ensures items[i].split == items[j].split
  {
    hide GroupSlots, FC.ItemValid;
    assert InSomeGroup(groups, i) && InSomeGroup(groups, j);
    var k :| 0 <= k < |groups| && i in groups[k];
    var l :| 0 <= l < |groups| && j in groups[l];
    assert digest(GroupSlots(rows, groups[k])) == digest(GroupSlots(rows, groups[l]));
    SameSlotsSameGroup(rows, groups, k, l, i);
  }

  /** Items built from a successful allocation pass the corpus's leakage check. */
  lemma BuiltItemsDoNotLeak(items: seq<FC.Item>, rows: seq<Slot>, groups: seq<seq<nat>>, digest: set<nat> -> nat)
    requires IsPartition(groups, |rows|) && Allocation(rows, groups).Ok? && Injective(digest)
    requires BuiltFrom(items, rows, groups, Allocation(rows, groups).value, digest)
    requires forall x, y :: 0 <= x < y < |rows| ==> rows[x].slotId != rows[y].slotId
    ensures FC.NoLeak(items)
  {
    hide Allocation, FillsTargets, GroupsFit, GroupSlots, BuiltFrom, IsPartition, Undivided, Injective;
    AllocationOutcome(rows, groups);
    forall i, j | 0 <= i < |items| && 0 <= j < |items| && items[i].leakageGroup == items[j].leakageGroup
      ensures items[i].split == items[j].split
    {
      SameGroupSameSplit(items, rows, groups, Allocation(rows, groups).value, digest, i, j);
    }
  }
}
