/** Leakage groups allocated to three splits, filled exactly. */
module SplitAllocation {
  import opened Basics
  import opened Sorting
  import opened TableRows
  import opened LeakageGroups

  /** Free places per split. */
  datatype Remaining = Remaining(dev: nat, test: nat, acceptance: nat)

  const TARGETS := Remaining(300, 100, 100)

  const SPLITS: seq<Split> := [Dev, Test, Acceptance]

  function Left(r: Remaining, s: Split): nat {
    match s case Dev => r.dev case Test => r.test case Acceptance => r.acceptance
  }

  function Take(r: Remaining, s: Split, n: nat): Remaining
    requires n <= Left(r, s)
  {
    match s case Dev => r.(dev := r.dev - n) case Test => r.(test := r.test - n) case Acceptance => r.(acceptance := r.acceptance - n)
  }

  function Total(r: Remaining): nat {
    r.dev + r.test + r.acceptance
  }

  function Priority(s: Split): nat {
    match s case Dev => 2 case Test => 1 case Acceptance => 0
  }

  function SplitAt(rows: seq<Slot>, x: nat): Split {
    if x < |rows| then rows[x].split else Dev
  }

  /** How often each split occurs among the group's original slots. */
  function Originals(rows: seq<Slot>, group: seq<nat>): multiset<Split> {
    if group == [] then multiset{} else Originals(rows, group[..|group| - 1]) + multiset{SplitAt(rows, group[|group| - 1])}
  }

  /** A split's rank for a whole group: original members, then the free fraction, then the fixed priority. */
  predicate Beats(a: Split, b: Split, originals: multiset<Split>, r: Remaining) {
    originals[a] > originals[b] ||
    (originals[a] == originals[b] &&
     (Left(r, a) as real / Left(TARGETS, a) as real > Left(r, b) as real / Left(TARGETS, b) as real ||
      (Left(r, a) as real / Left(TARGETS, a) as real == Left(r, b) as real / Left(TARGETS, b) as real && Priority(a) > Priority(b))))
  }

  /** A split's rank for a displaced singleton. */
  predicate Roomier(a: Split, b: Split, r: Remaining) {
    Left(r, a) > Left(r, b) || (Left(r, a) == Left(r, b) && Priority(a) > Priority(b))
  }

  /** The first maximal element, as `max` returns it. */
  function Best(candidates: seq<Split>, better: (Split, Split) -> bool): Option<Split> {
    if candidates == [] then None
    else
      var rest := Best(candidates[..|candidates| - 1], better);
      var last := candidates[|candidates| - 1];
      if rest.None? || better(last, rest.value) then Some(last) else rest
  }

  function Eligible(r: Remaining, size: nat): seq<Split> {
    (if r.dev >= size then [Dev] else []) + (if r.test >= size then [Test] else []) +
      (if r.acceptance >= size then [Acceptance] else [])
  }

  function GroupOrder(originals: multiset<Split>, r: Remaining): (Split, Split) -> bool {
    (a, b) => Beats(a, b, originals, r)
  }

  function GroupChoice(rows: seq<Slot>, group: seq<nat>, r: Remaining): Option<Split> {
    Best(Eligible(r, |group|), GroupOrder(Originals(rows, group), r))
  }

  function RoomOrder(r: Remaining): (Split, Split) -> bool {
    (a, b) => Roomier(a, b, r)
  }

  function SingletonChoice(original: Split, r: Remaining): Split {
    if Left(r, original) > 0 then original
    else
      var best := Best(SPLITS, RoomOrder(r));
      if best.Some? then best.value else Dev
  }

  ghost predicate StrictWeakOrder(better: (Split, Split) -> bool) {
    (forall a, b :: better(a, b) ==> !better(b, a)) && (forall a, b, c :: !better(a, b) && !better(b, c) ==> !better(a, c))
  }

  lemma NotBetterThrough(better: (Split, Split) -> bool, a: Split, b: Split, c: Split)
    requires StrictWeakOrder(better) && !better(a, b)
    ensures better(c, b) ==> !better(a, c)
  {
  }

  lemma BestOfFront(front: seq<Split>, last: Split, better: (Split, Split) -> bool)
    ensures Best(front + [last], better) ==
      if Best(front, better).None? || better(last, Best(front, better).value) then Some(last) else Best(front, better)
  {
    assert (front + [last])[..|front|] == front;
  }

  lemma {:induction false} BestIsChosen(candidates: seq<Split>, better: (Split, Split) -> bool)
    requires StrictWeakOrder(better)
    ensures Best(candidates, better).Some? <==> candidates != []
    ensures Best(candidates, better).Some? ==> Best(candidates, better).value in candidates
    ensures Best(candidates, better).Some? ==> forall s :: s in candidates ==>
      !better(s, Best(candidates, better).value)
  {
    if candidates != [] {
      hide StrictWeakOrder, Best;
      var front, last := candidates[..|candidates| - 1], candidates[|candidates| - 1];
      assert candidates == front + [last];
      BestIsChosen(front, better);
      BestOfFront(front, last, better);
      IrreflexiveOrder(better, last);
      var rest := Best(front, better);
      if rest.Some? && better(last, rest.value) {
        forall s | s in front ensures !better(s, last) {
          NotBetterThrough(better, s, rest.value, last);
        }
      }
    }
  }

  lemma IrreflexiveOrder(better: (Split, Split) -> bool, a: Split)
    requires StrictWeakOrder(better)
    ensures !better(a, a)
  {
  }

  lemma GroupOrderIsStrict(originals: multiset<Split>, r: Remaining)
    ensures StrictWeakOrder(GroupOrder(originals, r))
  {
  }

  lemma RoomOrderIsStrict(r: Remaining)
    ensures StrictWeakOrder(RoomOrder(r))
  {
  }

  lemma EligibleHaveRoom(r: Remaining, size: nat)
    ensures forall s :: s in Eligible(r, size) <==> Left(r, s) >= size
    ensures Eligible(r, size) == [] <==> forall s :: Left(r, s) < size
  {
    assert Left(r, Dev) == r.dev && Left(r, Test) == r.test && Left(r, Acceptance) == r.acceptance;
    assert Eligible(r, size) != [] ==> Eligible(r, size)[0] in Eligible(r, size);
  }

  /** A group goes to a split with room for all of it that no other such split beats; none is found only when none has
      room. */
  lemma GroupChoiceIsBest(rows: seq<Slot>, group: seq<nat>, r: Remaining)
    ensures GroupChoice(rows, group, r).None? <==> forall s :: Left(r, s) < |group|
    ensures var c := GroupChoice(rows, group, r);
      c.Some? ==> Left(r, c.value) >= |group| && forall s :: Left(r, s) >= |group| ==>
        !Beats(s, c.value, Originals(rows, group), r)
  {
    hide Best, Eligible, Beats, StrictWeakOrder, Originals;
    var order := GroupOrder(Originals(rows, group), r);
    GroupOrderIsStrict(Originals(rows, group), r);
    EligibleHaveRoom(r, |group|);
    BestIsChosen(Eligible(r, |group|), order);
    var c := GroupChoice(rows, group, r);
    if c.Some? {
      forall s | Left(r, s) >= |group| ensures !Beats(s, c.value, Originals(rows, group), r) {
        assert !order(s, c.value);
      }
    }
  }

  lemma AllSplits()
    ensures |SPLITS| == 3 && forall s: Split :: s in SPLITS
  {
    assert SPLITS[0] == Dev && SPLITS[1] == Test && SPLITS[2] == Acceptance;
    forall s: Split ensures s in SPLITS {
      match s case Dev => case Test => case Acceptance =>
    }
  }

  /** A singleton keeps its split while there is room, and otherwise finds room exactly when there is any. */
  lemma SingletonChoiceHasRoom(original: Split, r: Remaining)
    ensures Left(r, SingletonChoice(original, r)) > 0 <==> Total(r) > 0
    ensures Left(r, original) > 0 ==> SingletonChoice(original, r) == original
    ensures Left(r, original) == 0 ==> forall s :: !Roomier(s, SingletonChoice(original, r), r)
  {
    hide Best, StrictWeakOrder;
    AllSplits();
    RoomOrderIsStrict(r);
    BestIsChosen(SPLITS, RoomOrder(r));
    if Left(r, original) == 0 {
      var best := SingletonChoice(original, r);
      forall s ensures !Roomier(s, best, r) {
        assert !RoomOrder(r)(s, best);
      }
      assert !Roomier(Dev, best, r) && !Roomier(Test, best, r) && !Roomier(Acceptance, best, r);
    }
  }

  // ---------------------------------------------------------------- the choice, spelled out

  /** The group's members whose slots lie in a split. */
  ghost function MembersIn(rows: seq<Slot>, group: seq<nat>, s: Split): set<nat> {
    set i | 0 <= i < |group| && SplitAt(rows, group[i]) == s
  }

  lemma {:induction false} OriginalsCount(rows: seq<Slot>, group: seq<nat>, s: Split)
    ensures Originals(rows, group)[s] == |MembersIn(rows, group, s)|
  {
    if group != [] {
      var last := |group| - 1;
      OriginalsCount(rows, group[..last], s);
      assert MembersIn(rows, group, s) ==
        MembersIn(rows, group[..last], s) + if SplitAt(rows, group[last]) == s then {last} else {};
    } else {
      assert MembersIn(rows, group, s) == {};
    }
  }

  /** Dev before test before acceptance. */
  predicate ComesBefore(a: Split, b: Split) {
    (a.Dev? && !b.Dev?) || (a.Test? && b.Acceptance?)
  }

  /** A split's free places in three-hundredths of its size, which is 300, 100 and 100. */
  function FreeShare(r: Remaining, s: Split): nat {
    match s case Dev => r.dev case Test => 3 * r.test case Acceptance => 3 * r.acceptance
  }

  lemma SharesCompare(r: Remaining, a: Split, b: Split)
    ensures FreeShare(r, a) > FreeShare(r, b) <==>
      Left(r, a) as real / Left(TARGETS, a) as real > Left(r, b) as real / Left(TARGETS, b) as real
    ensures FreeShare(r, a) == FreeShare(r, b) <==>
      Left(r, a) as real / Left(TARGETS, a) as real == Left(r, b) as real / Left(TARGETS, b) as real
  {
  }

  /** The split that holds the most original members of the group is chosen, if it has room for the whole group; among equals the
      one with the greater free share, and then dev before test before acceptance. */
  lemma GroupChoiceExactly(rows: seq<Slot>, group: seq<nat>, r: Remaining, c: Split)
    ensures GroupChoice(rows, group, r) == Some(c) <==>
      Left(r, c) >= |group| && forall s :: s != c && Left(r, s) >= |group| ==>
        |MembersIn(rows, group, c)| > |MembersIn(rows, group, s)| ||
        (|MembersIn(rows, group, c)| == |MembersIn(rows, group, s)| &&
         (FreeShare(r, c) > FreeShare(r, s) || (FreeShare(r, c) == FreeShare(r, s) && ComesBefore(c, s))))
  {
    hide Best, Eligible, StrictWeakOrder, Originals, MembersIn, GroupChoice, FreeShare, Left;
    GroupChoiceIsBest(rows, group, r);
    forall s ensures Originals(rows, group)[s] == |MembersIn(rows, group, s)| {
      OriginalsCount(rows, group, s);
    }
    forall a, b
      ensures Beats(a, b, Originals(rows, group), r) <==>
        |MembersIn(rows, group, a)| > |MembersIn(rows, group, b)| ||
        (|MembersIn(rows, group, a)| == |MembersIn(rows, group, b)| &&
         (FreeShare(r, a) > FreeShare(r, b) || (FreeShare(r, a) == FreeShare(r, b) && ComesBefore(a, b))))
    {
      SharesCompare(r, a, b);
    }
  }

  /** A singleton whose own split is full goes where most places are free, dev before test before acceptance. */
  lemma SingletonChoiceExactly(original: Split, r: Remaining, c: Split)
    ensures SingletonChoice(original, r) == c <==>
      if Left(r, original) > 0 then c == original
      else forall s :: s != c ==> Left(r, c) > Left(r, s) || (Left(r, c) == Left(r, s) && ComesBefore(c, s))
  {
    hide SingletonChoice, Roomier, Left;
    SingletonChoiceHasRoom(original, r);
    var best := SingletonChoice(original, r);
    forall s | s != c ensures Roomier(c, s, r) <==> Left(r, c) > Left(r, s) || (Left(r, c) == Left(r, s) && ComesBefore(c, s)) {
      OneIsRoomier(c, s, r);
    }
    if best != c {
      OneIsRoomier(best, c, r);
    } else {
      forall s | s != c ensures Roomier(c, s, r) <==> !Roomier(s, c, r) {
        OneIsRoomier(c, s, r);
      }
    }
  }

  lemma OneIsRoomier(a: Split, b: Split, r: Remaining)
    requires a != b
    ensures Roomier(a, b, r) <==> !Roomier(b, a, r)
    ensures Roomier(a, b, r) <==> Left(r, a) > Left(r, b) || (Left(r, a) == Left(r, b) && ComesBefore(a, b))
  {
  }

  // ---------------------------------------------------------------- the order in which groups are placed

  function LargestFirst(rows: seq<Slot>): (seq<nat>, seq<nat>) -> bool {
    (g, h) => |g| > |h| || (|g| == |h| && MinSlot(rows, g) <= MinSlot(rows, h))
  }

  predicate IsMulti(g: seq<nat>) {
    |g| > 1
  }

  predicate IsSingle(g: seq<nat>) {
    |g| == 1
  }

  function MultiGroups(rows: seq<Slot>, groups: seq<seq<nat>>): seq<seq<nat>> {
    SortedBy(Where(groups, IsMulti), LargestFirst(rows))
  }

  function SingletonGroups(rows: seq<Slot>, groups: seq<seq<nat>>): seq<seq<nat>> {
    SortedBy(Where(groups, IsSingle), FirstSlotOrder(rows))
  }

  lemma NoEmptyGroups(groups: seq<seq<nat>>, n: nat)
    requires IsPartition(groups, n)
    ensures forall g :: g in groups ==> g != []
  {
  }

  lemma LargestFirstIsTotal(rows: seq<Slot>)
    ensures TotalPreorder(LargestFirst(rows))
  {
    hide MinSlot;
  }

  /** Together they are the groups again, in placing order. */
  lemma PlacingOrder(rows: seq<Slot>, groups: seq<seq<nat>>, n: nat)
    requires IsPartition(groups, n)
    ensures IsPartition(MultiGroups(rows, groups) + SingletonGroups(rows, groups), n)
    ensures forall g :: g in MultiGroups(rows, groups) ==> |g| > 1
    ensures forall g :: g in SingletonGroups(rows, groups) ==> |g| == 1
    ensures forall g :: g in groups <==> g in MultiGroups(rows, groups) + SingletonGroups(rows, groups)
    ensures Ordered(MultiGroups(rows, groups), LargestFirst(rows)) &&
      Ordered(SingletonGroups(rows, groups), FirstSlotOrder(rows))
    // Larger groups come first, and among equals the one with the least slot.
    ensures forall i, k :: 0 <= i < k < |MultiGroups(rows, groups)| ==>
      var g, h := MultiGroups(rows, groups)[i], MultiGroups(rows, groups)[k];
      |g| > |h| || (|g| == |h| && MinSlot(rows, g) <= MinSlot(rows, h))
  {
    hide IsPartition, Ordered, MinSlot, Where, SortedBy, FirstSlotOrder;
    assert forall g :: g in groups ==> IsMulti(g) != IsSingle(g) by { NoEmptyGroups(groups, n); }
    WhereSplits(groups, IsMulti, IsSingle);
    WhereSelects(groups, IsMulti);
    WhereSelects(groups, IsSingle);
    SortedContents(Where(groups, IsMulti), LargestFirst(rows));
    SortedContents(Where(groups, IsSingle), FirstSlotOrder(rows));
    SlotOrderIsTotal(rows);
    LargestFirstIsTotal(rows);
    SortedOrdered(Where(groups, IsMulti), LargestFirst(rows));
    SortedOrdered(Where(groups, IsSingle), FirstSlotOrder(rows));
    ReorderedPartition(groups, MultiGroups(rows, groups) + SingletonGroups(rows, groups), n);
  }

  datatype Progress = Progress(assignments: map<nat, Split>, remaining: Remaining)

  function WithGroup(assignments: map<nat, Split>, group: seq<nat>, s: Split): map<nat, Split> {
    assignments + map x | x in group :: s
  }

  function GroupStep(rows: seq<Slot>, group: seq<nat>, p: Progress): Option<Progress> {
    var choice := GroupChoice(rows, group, p.remaining);
    if choice.None? || Left(p.remaining, choice.value) < |group| then None
    else Some(Progress(WithGroup(p.assignments, group, choice.value), Take(p.remaining, choice.value, |group|)))
  }

  function SingletonStep(rows: seq<Slot>, index: nat, p: Progress): Option<Progress> {
    var choice := SingletonChoice(SplitAt(rows, index), p.remaining);
    if Left(p.remaining, choice) == 0 then None
    else Some(Progress(p.assignments[index := choice], Take(p.remaining, choice, 1)))
  }

  function Step(rows: seq<Slot>, group: seq<nat>, p: Progress): Option<Progress> {
    if |group| == 1 then SingletonStep(rows, group[0], p) else GroupStep(rows, group, p)
  }

  /** The progress once all these groups are placed in order, unless one of them finds no place. */
  function After(rows: seq<Slot>, groups: seq<seq<nat>>, p: Progress): Option<Progress> {
    if groups == [] then Some(p)
    else
      var next := Step(rows, groups[0], p);
      if next.None? then None else After(rows, groups[1..], next.value)
  }

  const START := Progress(map[], TARGETS)

  /** Whether every group of several candidates finds a split with room for all of it. */
  predicate GroupsFit(rows: seq<Slot>, groups: seq<seq<nat>>) {
    After(rows, MultiGroups(rows, groups), START).Some?
  }

  datatype AllocationError = NotCovering | NoEligibleSplit | CannotComplete | NotFilled

  function SumSizes(groups: seq<seq<nat>>): nat {
    if groups == [] then 0 else SumSizes(groups[..|groups| - 1]) + |groups[|groups| - 1]|
  }

  /** The whole allocation, as its loops carry it out. */
  function Allocation(rows: seq<Slot>, groups: seq<seq<nat>>): Result<map<nat, Split>, AllocationError> {
    if |rows| != SumSizes(groups) then Raised(NotCovering)
    else
      var placed := After(rows, MultiGroups(rows, groups), START);
      if placed.None? then Raised(NoEligibleSplit)
      else
        var done := After(rows, SingletonGroups(rows, groups), placed.value);
        if done.None? then Raised(CannotComplete)
        else if Total(done.value.remaining) > 0 then Raised(NotFilled)
        else Ok(done.value.assignments)
  }

  // ---------------------------------------------------------------- what has been placed

  ghost function InSplit(assignments: map<nat, Split>, s: Split): set<nat> {
    set x | x in assignments && assignments[x] == s
  }

  ghost predicate Undivided(assignments: map<nat, Split>, groups: seq<seq<nat>>) {
    forall k, x, y :: 0 <= k < |groups| && x in groups[k] && y in groups[k] && x in assignments && y in assignments ==>
      assignments[x] == assignments[y]
  }

  /** Exactly the placed groups are assigned, undivided, and each used place is accounted for. */
  ghost predicate Placed(assignments: map<nat, Split>, r: Remaining, done: seq<seq<nat>>) {
    (forall x :: x in assignments <==> InSomeGroup(done, x)) && Undivided(assignments, done) &&
    forall s :: |InSplit(assignments, s)| + Left(r, s) == Left(TARGETS, s)
  }

  ghost predicate Unassigned(assignments: map<nat, Split>, group: seq<nat>) {
    forall x :: x in group ==> x !in assignments
  }

  lemma IncreasingCardinality(g: seq<nat>)
    requires Increasing(g)
    ensures |Elements(g)| == |g|
  {
    assert Distinct(g);
    DistinctCardinality(g);
  }

  lemma MoreGroups(done: seq<seq<nat>>, group: seq<nat>, x: nat)
    ensures InSomeGroup(done + [group], x) <==> InSomeGroup(done, x) || x in group
  {
    var more := done + [group];
    if InSomeGroup(done, x) {
      var k :| 0 <= k < |done| && x in done[k];
      assert x in more[k];
    }
    if x in group {
      assert x in more[|done|];
    }
  }

  lemma PlaceGroup(assignments: map<nat, Split>, r: Remaining, done: seq<seq<nat>>, group: seq<nat>, s: Split)
    requires Placed(assignments, r, done) && Increasing(group) && |group| <= Left(r, s) &&
      Unassigned(assignments, group)
    ensures Placed(WithGroup(assignments, group, s), Take(r, s, |group|), done + [group])
  {
    hide InSomeGroup, Undivided, InSplit;
    var after, more := WithGroup(assignments, group, s), done + [group];
    forall x: nat ensures x in after <==> InSomeGroup(more, x) {
      MoreGroups(done, group, x);
    }
    IncreasingCardinality(group);
    forall t ensures |InSplit(after, t)| + Left(Take(r, s, |group|), t) == Left(TARGETS, t) {
      SplitGrows(assignments, group, s, t);
    }
    PlacedUndivided(assignments, done, group, s);
  }

  lemma SplitGrows(assignments: map<nat, Split>, group: seq<nat>, s: Split, t: Split)
    requires Unassigned(assignments, group)
    ensures |InSplit(WithGroup(assignments, group, s), t)| == |InSplit(assignments, t)| + if t == s then |Elements(group)| else 0
  {
    var before, after := InSplit(assignments, t), InSplit(WithGroup(assignments, group, s), t);
    if t == s {
      assert after == before + Elements(group) && before !! Elements(group);
    } else {
      assert after == before;
    }
  }

  lemma PlacedUndivided(assignments: map<nat, Split>, done: seq<seq<nat>>, group: seq<nat>, s: Split)
    requires Undivided(assignments, done) && Unassigned(assignments, group)
    requires forall x :: x in assignments <==> InSomeGroup(done, x)
    ensures Undivided(WithGroup(assignments, group, s), done + [group])
  {
    var after, more := WithGroup(assignments, group, s), done + [group];
    forall k, x, y | 0 <= k < |more| && x in more[k] && y in more[k] && x in after && y in after
      ensures after[x] == after[y]
    {
      if k < |done| {
        assert InSomeGroup(done, x) && InSomeGroup(done, y);
      }
    }
  }

  lemma SplitsCoverAssignments(assignments: map<nat, Split>)
    ensures |assignments.Keys| == |InSplit(assignments, Dev)| + |InSplit(assignments, Test)| + |InSplit(assignments, Acceptance)|
  {
    var d, t, a := InSplit(assignments, Dev), InSplit(assignments, Test), InSplit(assignments, Acceptance);
    assert assignments.Keys == d + t + a;
    assert |d + t| == |d| + |t|;
    assert |(d + t) + a| == |d + t| + |a|;
  }

  /** As many candidates are assigned as places are used. */
  lemma AssignedCount(assignments: map<nat, Split>, r: Remaining, done: seq<seq<nat>>)
    requires Placed(assignments, r, done)
    ensures |assignments.Keys| + Total(r) == Total(TARGETS)
  {
    hide InSomeGroup, Undivided, InSplit;
    SplitsCoverAssignments(assignments);
    assert |InSplit(assignments, Dev)| + Left(r, Dev) == Left(TARGETS, Dev);
    assert |InSplit(assignments, Test)| + Left(r, Test) == Left(TARGETS, Test);
    assert |InSplit(assignments, Acceptance)| + Left(r, Acceptance) == Left(TARGETS, Acceptance);
  }

  lemma NextIsApart(all: seq<seq<nat>>, k: nat, n: nat)
    requires IsPartition(all, n) && k < |all|
    ensures forall x :: x in all[k] ==> !InSomeGroup(all[..k], x)
    ensures all[k] != [] && Increasing(all[k]) && all[k][0] < n && all[..k] + [all[k]] == all[..k + 1]
  {
    assert all[k] in all && all[k][0] in all[k];
  }

  lemma NextIsUnassigned(assignments: map<nat, Split>, r: Remaining, all: seq<seq<nat>>, k: nat, n: nat)
    requires IsPartition(all, n) && k < |all| && Placed(assignments, r, all[..k])
    ensures Unassigned(assignments, all[k]) && all[..k] + [all[k]] == all[..k + 1]
    ensures all[k] != [] && Increasing(all[k]) && all[k][0] < n
  {
    NextIsApart(all, k, n);
  }

  lemma StepKeepsPlaced(rows: seq<Slot>, group: seq<nat>, p: Progress, done: seq<seq<nat>>)
    requires Placed(p.assignments, p.remaining, done) && group != [] && Increasing(group) &&
      Unassigned(p.assignments, group)
    ensures var next := Step(rows, group, p);
      next.Some? ==> Placed(next.value.assignments, next.value.remaining, done + [group])
  {
    hide GroupChoice, SingletonChoice, Placed;
    if |group| == 1 {
      var choice := SingletonChoice(SplitAt(rows, group[0]), p.remaining);
      if Left(p.remaining, choice) > 0 {
        assert WithGroup(p.assignments, group, choice) == p.assignments[group[0] := choice];
        PlaceGroup(p.assignments, p.remaining, done, group, choice);
      }
    } else {
      var choice := GroupChoice(rows, group, p.remaining);
      if choice.Some? && Left(p.remaining, choice.value) >= |group| {
        PlaceGroup(p.assignments, p.remaining, done, group, choice.value);
      }
    }
  }

  lemma {:induction false} AfterKeepsPlaced(rows: seq<Slot>, all: seq<seq<nat>>, i: nat, j: nat, p: Progress, n: nat)
    requires IsPartition(all, n) && i <= j <= |all| && Placed(p.assignments, p.remaining, all[..i])
    ensures var after := After(rows, all[i..j], p);
      after.Some? ==> Placed(after.value.assignments, after.value.remaining, all[..j])
    decreases j - i
  {
    hide Step, Placed, IsPartition;
    if i < j {
      NextIsUnassigned(p.assignments, p.remaining, all, i, n);
      StepKeepsPlaced(rows, all[i], p, all[..i]);
      assert all[i..j][0] == all[i] && all[i..j][1..] == all[i + 1..j];
      var next := Step(rows, all[i], p);
      if next.Some? {
        AfterKeepsPlaced(rows, all, i + 1, j, next.value, n);
      }
    }
  }

  /** A singleton fails only when every place is taken. */
  lemma {:induction false} SingletonsFailWhenFull(rows: seq<Slot>, all: seq<seq<nat>>, i: nat, p: Progress, n: nat)
    requires IsPartition(all, n) && i <= |all| && Placed(p.assignments, p.remaining, all[..i])
    requires forall k :: i <= k < |all| ==> |all[k]| == 1
    ensures After(rows, all[i..], p).None? ==> n > Total(TARGETS)
    decreases |all| - i
  {
    hide Placed, IsPartition;
    if i < |all| {
      NextIsUnassigned(p.assignments, p.remaining, all, i, n);
      SingletonChoiceHasRoom(SplitAt(rows, all[i][0]), p.remaining);
      assert all[i..][0] == all[i] && all[i..][1..] == all[i + 1..];
      var next := Step(rows, all[i], p);
      if next.Some? {
        StepKeepsPlaced(rows, all[i], p, all[..i]);
        SingletonsFailWhenFull(rows, all, i + 1, next.value, n);
      } else {
        AssignedCount(p.assignments, p.remaining, all[..i]);
        AssignedBelow(p, all, i, n);
        BoundedSet(p.assignments.Keys + {all[i][0]}, n);
      }
    }
  }

  lemma AssignedBelow(p: Progress, all: seq<seq<nat>>, i: nat, n: nat)
    requires IsPartition(all, n) && i <= |all| && Placed(p.assignments, p.remaining, all[..i])
    ensures forall x :: x in p.assignments ==> x < n
    ensures i == |all| ==> p.assignments.Keys == Below(n)
  {
    forall x | x in p.assignments ensures x < n {
      var k :| 0 <= k < i && x in all[..i][k];
      assert all[k] in all && x in all[k];
    }
    if i == |all| {
      assert all[..i] == all;
    }
  }

  lemma BoundedSet(s: set<nat>, n: nat)
    requires forall x :: x in s ==> x < n
    ensures |s| <= n
  {
    SubsetCardinality(s, Below(n));
  }

  ghost function MembersOf(groups: seq<seq<nat>>): set<nat> {
    if groups == [] then {} else MembersOf(groups[..|groups| - 1]) + Elements(groups[|groups| - 1])
  }

  lemma {:induction false} MembersAreGrouped(groups: seq<seq<nat>>)
    ensures forall x: nat :: x in MembersOf(groups) <==> InSomeGroup(groups, x)
  {
    if groups != [] {
      var front, last := groups[..|groups| - 1], groups[|groups| - 1];
      MembersAreGrouped(front);
      assert groups == front + [last];
      forall x: nat ensures x in MembersOf(groups) <==> InSomeGroup(groups, x) {
        MoreGroups(front, last, x);
      }
    }
  }

  /** The sizes of the groups of a partition add up to the number of candidates. */
  lemma {:induction false} PrefixSizes(groups: seq<seq<nat>>, k: nat, n: nat)
    requires IsPartition(groups, n) && k <= |groups|
    ensures |MembersOf(groups[..k])| == SumSizes(groups[..k])
  {
    hide IsPartition, InSomeGroup, Increasing;
    if k > 0 {
      var front, last := groups[..k - 1], groups[k - 1];
      PrefixSizes(groups, k - 1, n);
      NextIsApart(groups, k - 1, n);
      IncreasingCardinality(last);
      assert groups[..k] == front + [last] && groups[..k][..k - 1] == front;
      MembersAreGrouped(front);
      DisjointSum(MembersOf(front), Elements(last));
    }
  }

  lemma DisjointSum(a: set<nat>, b: set<nat>)
    requires forall x :: x in b ==> x !in a
    ensures |a + b| == |a| + |b|
  {
    assert a !! b;
  }

  lemma PartitionSizes(groups: seq<seq<nat>>, n: nat)
    requires IsPartition(groups, n)
    ensures SumSizes(groups) == n
  {
    PrefixSizes(groups, |groups|, n);
    assert groups[..|groups|] == groups;
    MembersAreGrouped(groups);
    forall x: nat ensures x in MembersOf(groups) <==> x in Below(n) {
      if InSomeGroup(groups, x) {
        var k :| 0 <= k < |groups| && x in groups[k];
        assert groups[k] in groups;
      }
    }
    assert MembersOf(groups) == Below(n);
  }

  // ---------------------------------------------------------------- what the allocation guarantees

  ghost predicate FillsTargets(assignments: map<nat, Split>) {
    forall s :: |InSplit(assignments, s)| == Left(TARGETS, s)
  }

  lemma StartPlaced()
    ensures Placed(START.assignments, START.remaining, [])
  {
    forall s ensures InSplit(map[], s) == {} {
    }
  }

  lemma SubsetUndivided(assignments: map<nat, Split>, all: seq<seq<nat>>, groups: seq<seq<nat>>)
    requires Undivided(assignments, all) && forall g :: g in groups ==> g in all
    ensures Undivided(assignments, groups)
  {
    forall k, x, y | 0 <= k < |groups| && x in groups[k] && y in groups[k] && x in assignments && y in assignments
      ensures assignments[x] == assignments[y]
    {
      assert groups[k] in groups;
      var l :| 0 <= l < |all| && all[l] == groups[k];
    }
  }

  lemma FullMeansFilled(assignments: map<nat, Split>, r: Remaining, done: seq<seq<nat>>)
    requires Placed(assignments, r, done) && Total(r) == 0
    ensures FillsTargets(assignments)
  {
    hide InSomeGroup, Undivided, InSplit;
    forall s ensures Left(r, s) == 0 {
    }
  }

  ghost predicate Complete(p: Progress, groups: seq<seq<nat>>, n: nat) {
    p.assignments.Keys == Below(n) && n + Total(p.remaining) == 500 &&
    Undivided(p.assignments, groups) && (Total(p.remaining) == 0 ==> FillsTargets(p.assignments))
  }

  lemma PlacedIsUndivided(assignments: map<nat, Split>, r: Remaining, done: seq<seq<nat>>)
    requires Placed(assignments, r, done)
    ensures Undivided(assignments, done)
  {
  }

  lemma CompletedAllocation(all: seq<seq<nat>>, groups: seq<seq<nat>>, p: Progress, n: nat)
    requires IsPartition(all, n) && Placed(p.assignments, p.remaining, all)
    requires forall g :: g in groups ==> g in all
    ensures Complete(p, groups, n)
  {
    hide IsPartition, Undivided, InSomeGroup, InSplit, Placed, FillsTargets;
    assert all[..|all|] == all;
    PlacedIsUndivided(p.assignments, p.remaining, all);
    AssignedBelow(p, all, |all|, n);
    AssignedCount(p.assignments, p.remaining, all);
    SubsetUndivided(p.assignments, all, groups);
    assert |p.assignments.Keys| == n;
    if Total(p.remaining) == 0 {
      FullMeansFilled(p.assignments, p.remaining, all);
    }
  }

  /** Once the larger groups are placed, the singletons fail only for more than 500 candidates, and otherwise
      complete. */
  lemma SingletonPhase(rows: seq<Slot>, groups: seq<seq<nat>>)
    requires IsPartition(groups, |rows|) && GroupsFit(rows, groups)
    ensures var placed := After(rows, MultiGroups(rows, groups), START).value;
      var done := After(rows, SingletonGroups(rows, groups), placed);
      if done.None? then |rows| > 500 else Complete(done.value, groups, |rows|)
  {
    var n := |rows|;
    var multi, single := MultiGroups(rows, groups), SingletonGroups(rows, groups);
    var all, m := multi + single, |multi|;
    hide Placed, IsPartition, Complete, MultiGroups, SingletonGroups, Step, After, Ordered;
    PlacingOrder(rows, groups, n);
    assert all[0..m] == multi && all[m..] == single && all[m..|all|] == single && all[..m] == multi &&
      all[..|all|] == all;
    StartPlaced();
    assert all[..0] == [];
    AfterKeepsPlaced(rows, all, 0, m, START, n);
    var placed := After(rows, multi, START).value;
    SingletonsFailWhenFull(rows, all, m, placed, n);
    AfterKeepsPlaced(rows, all, m, |all|, placed, n);
    var done := After(rows, single, placed);
    if done.Some? {
      CompletedAllocation(all, groups, done.value, n);
    }
  }

  /** For a partition of the candidates: it returns exactly for 500 candidates whose larger groups all fit, the
      singletons can then never fail, and the result assigns everyone, fills every split exactly and divides no
      group. */
  lemma AllocationOutcome(rows: seq<Slot>, groups: seq<seq<nat>>)
    requires IsPartition(groups, |rows|)
    ensures Allocation(rows, groups).Ok? <==> |rows| == 500 && GroupsFit(rows, groups)
    ensures Allocation(rows, groups) == Raised(NoEligibleSplit) <==> !GroupsFit(rows, groups)
    ensures Allocation(rows, groups) == Raised(CannotComplete) <==> GroupsFit(rows, groups) && |rows| > 500
    ensures Allocation(rows, groups) == Raised(NotFilled) <==> GroupsFit(rows, groups) && |rows| < 500
    ensures Allocation(rows, groups) != Raised(NotCovering)
    ensures Allocation(rows, groups).Ok? ==> var a := Allocation(rows, groups).value;
      a.Keys == Below(|rows|) && FillsTargets(a) && Undivided(a, groups)
  {
    hide IsPartition, SumSizes, MultiGroups, SingletonGroups, After, FillsTargets, Undivided, InSplit, Below;
    PartitionSizes(groups, |rows|);
    if GroupsFit(rows, groups) {
      SingletonPhase(rows, groups);
    }
  }

  // ---------------------------------------------------------------- enough singletons always suffice

  lemma {:induction false} SumOfSorted(s: seq<seq<nat>>, x: seq<nat>, leq: (seq<nat>, seq<nat>) -> bool)
    ensures SumSizes(Inserted(s, x, leq)) == SumSizes(s) + |x|
  {
    if s != [] && leq(s[0], x) {
      SumOfSorted(s[1..], x, leq);
      SumFromFront(s);
      SumFromFront([s[0]] + Inserted(s[1..], x, leq));
    } else {
      SumFromFront([x] + s);
    }
  }

  lemma {:induction false} SumFromFront(s: seq<seq<nat>>)
    ensures s != [] ==> SumSizes(s) == |s[0]| + SumSizes(s[1..])
  {
    if |s| > 1 {
      SumFromFront(s[..|s| - 1]);
      assert s[1..][..|s| - 2] == s[..|s| - 1][1..];
    }
  }

  lemma {:induction false} SortedSum(s: seq<seq<nat>>, leq: (seq<nat>, seq<nat>) -> bool)
    ensures SumSizes(SortedBy(s, leq)) == SumSizes(s)
  {
    if s != [] {
      SortedSum(s[..|s| - 1], leq);
      SumOfSorted(SortedBy(s[..|s| - 1], leq), s[|s| - 1], leq);
    }
  }

  lemma SumAppended(s: seq<seq<nat>>, x: seq<nat>)
    ensures SumSizes(s + [x]) == SumSizes(s) + |x|
  {
    assert (s + [x])[..|s|] == s;
  }

  lemma {:induction false} SelectedSum(groups: seq<seq<nat>>)
    requires forall g :: g in groups ==> g != []
    ensures SumSizes(groups) == SumSizes(Where(groups, IsMulti)) + |Where(groups, IsSingle)|
  {
    if groups != [] {
      var front, last := groups[..|groups| - 1], groups[|groups| - 1];
      assert groups == front + [last] && last in groups;
      assert forall g :: g in front ==> g in groups;
      SelectedSum(front);
      assert last != [];
      var multi := Where(front, IsMulti);
      if IsMulti(last) {
        assert Where(groups, IsMulti) == multi + [last] && Where(groups, IsSingle) == Where(front, IsSingle);
      } else {
        assert Where(groups, IsMulti) == multi && Where(groups, IsSingle) == Where(front, IsSingle) + [last];
      }
      SumAppended(multi, last);
    }
  }

  /** Placing groups in order cannot get stuck while the free places hold them all and twice the largest size, less
      two. */
  lemma {:induction false} RoomLeft(rows: seq<Slot>, groups: seq<seq<nat>>, p: Progress, largest: nat, singles: nat)
    requires forall g :: g in groups ==> 1 < |g| <= largest
    requires Total(p.remaining) == SumSizes(groups) + singles && singles >= 2 * (largest - 1)
    ensures After(rows, groups, p).Some?
    decreases |groups|
  {
    if groups != [] {
      assert groups[0] in groups;
      SumFromFront(groups);
      GroupChoiceIsBest(rows, groups[0], p.remaining);
      assert Left(p.remaining, Dev) >= |groups[0]| || Left(p.remaining, Test) >= |groups[0]| ||
        Left(p.remaining, Acceptance) >= |groups[0]|;
      RoomLeft(rows, groups[1..], Step(rows, groups[0], p).value, largest, singles);
    }
  }

  /** 500 candidates with at least 2 * (largest group - 1) singletons are always allocated. */
  lemma EnoughSingletons(rows: seq<Slot>, groups: seq<seq<nat>>, largest: nat)
    requires IsPartition(groups, |rows|) && |rows| == 500 && largest >= 1
    requires forall g :: g in groups ==> |g| <= largest
    requires |Where(groups, IsSingle)| >= 2 * (largest - 1)
    ensures Allocation(rows, groups).Ok?
  {
    hide Step, Where, After;
    PartitionSizes(groups, |rows|);
    SelectedSum(groups);
    SortedSum(Where(groups, IsMulti), LargestFirst(rows));
    WhereSelects(groups, IsMulti);
    SortedContents(Where(groups, IsMulti), LargestFirst(rows));
    RoomLeft(rows, MultiGroups(rows, groups), START, largest, |Where(groups, IsSingle)|);
    AllocationOutcome(rows, groups);
  }

  // ---------------------------------------------------------------- slots that need no change keep their splits

  ghost predicate KeepsSplits(rows: seq<Slot>, assignments: map<nat, Split>) {
    forall x :: x in assignments ==> assignments[x] == SplitAt(rows, x)
  }

  ghost function SlotsIn(rows: seq<Slot>, s: Split): set<nat> {
    set x | 0 <= x < |rows| && rows[x].split == s
  }

  /** No group mixes splits, and each split has as many slots as it has places. */
  ghost predicate AlreadySplit(rows: seq<Slot>, groups: seq<seq<nat>>) {
    (forall g, x, y :: g in groups && x in g && y in g ==> SplitAt(rows, x) == SplitAt(rows, y)) &&
    forall s :: |SlotsIn(rows, s)| == Left(TARGETS, s)
  }

  /** A group that is still to be placed finds room in its own split. */
  lemma OwnSplitHasRoom(rows: seq<Slot>, group: seq<nat>, p: Progress, done: seq<seq<nat>>, s: Split)
    requires Placed(p.assignments, p.remaining, done) && KeepsSplits(rows, p.assignments)
    requires Increasing(group) && Unassigned(p.assignments, group) && |SlotsIn(rows, s)| == Left(TARGETS, s)
    requires (forall x :: x in group ==> x < |rows| && rows[x].split == s) && forall x :: x in p.assignments ==> x < |rows|
    ensures |group| <= Left(p.remaining, s)
  {
    IncreasingCardinality(group);
    DisjointSum(InSplit(p.assignments, s), Elements(group));
    SubsetCardinality(InSplit(p.assignments, s) + Elements(group), SlotsIn(rows, s));
  }

  lemma OwnSplitIsChosen(rows: seq<Slot>, group: seq<nat>, r: Remaining, s: Split)
    requires group != [] && |group| <= Left(r, s) && forall x :: x in group ==> SplitAt(rows, x) == s
    ensures |group| > 1 ==> GroupChoice(rows, group, r) == Some(s)
    ensures SingletonChoice(SplitAt(rows, group[0]), r) == s
  {
    assert 0 in MembersIn(rows, group, s);
    forall t | t != s ensures MembersIn(rows, group, t) == {} {
      assert forall i :: 0 <= i < |group| ==> group[i] in group;
    }
    GroupChoiceExactly(rows, group, r, s);
    assert group[0] in group;
  }

  lemma {:induction false} PlacesOwnSplits(rows: seq<Slot>, all: seq<seq<nat>>, i: nat, j: nat, p: Progress)
    requires IsPartition(all, |rows|) && i <= j <= |all| && AlreadySplit(rows, all)
    requires Placed(p.assignments, p.remaining, all[..i]) && KeepsSplits(rows, p.assignments)
    ensures var after := After(rows, all[i..j], p);
      after.Some? && Placed(after.value.assignments, after.value.remaining, all[..j]) &&
      KeepsSplits(rows, after.value.assignments)
    decreases j - i
  {
    hide Placed, GroupChoice, SingletonChoice;
    if i < j {
      var group := all[i];
      NextIsUnassigned(p.assignments, p.remaining, all, i, |rows|);
      AssignedBelow(p, all, i, |rows|);
      var s := SplitAt(rows, group[0]);
      assert group in all && group[0] in group;
      OwnSplitHasRoom(rows, group, p, all[..i], s);
      OwnSplitIsChosen(rows, group, p.remaining, s);
      StepKeepsPlaced(rows, group, p, all[..i]);
      assert all[i..j][0] == group && all[i..j][1..] == all[i + 1..j];
      PlacesOwnSplits(rows, all, i + 1, j, Step(rows, group, p).value);
    }
  }

  /** When every group lies within one original split and the splits have their sizes already, the allocation returns exactly the
      original splits. */
  lemma OriginalSplitsAreKept(rows: seq<Slot>, groups: seq<seq<nat>>)
    requires IsPartition(groups, |rows|) && AlreadySplit(rows, groups)
    ensures Allocation(rows, groups) == Ok(map x | 0 <= x < |rows| :: rows[x].split)
  {
    hide IsPartition, After, Step, AlreadySplit, Placed, KeepsSplits, Ordered, MultiGroups, SingletonGroups;
    PartitionSizes(groups, |rows|);
    var multi, single := MultiGroups(rows, groups), SingletonGroups(rows, groups);
    var all, m := multi + single, |multi|;
    PlacingOrder(rows, groups, |rows|);
    SameAlreadySplit(rows, groups, all);
    assert all[0..m] == multi && all[m..|all|] == single && all[..m] == multi && all[..|all|] == all && all[..0] == [];
    StartPlaced();
    NothingMoved(rows);
    PlacesOwnSplits(rows, all, 0, m, START);
    var placed := After(rows, multi, START).value;
    PlacesOwnSplits(rows, all, m, |all|, placed);
    var done := After(rows, single, placed).value;
    AssignedBelow(done, all, |all|, |rows|);
    OriginalSplitsAreFull(rows, groups, done, all);
    SameSplits(rows, done.assignments);
  }

  lemma NothingMoved(rows: seq<Slot>)
    ensures KeepsSplits(rows, map[])
  {
  }

  lemma SameAlreadySplit(rows: seq<Slot>, groups: seq<seq<nat>>, all: seq<seq<nat>>)
    requires AlreadySplit(rows, groups) && forall g :: g in all ==> g in groups
    ensures AlreadySplit(rows, all)
  {
  }

  lemma OriginalSplitsAreFull(rows: seq<Slot>, groups: seq<seq<nat>>, p: Progress, all: seq<seq<nat>>)
    requires AlreadySplit(rows, groups) && Placed(p.assignments, p.remaining, all)
    requires KeepsSplits(rows, p.assignments) && p.assignments.Keys == Below(|rows|)
    ensures Total(p.remaining) == 0
  {
    hide KeepsSplits, InSplit, SlotsIn, Undivided, InSomeGroup, SplitAt, Below;
    AssignedAreSlots(rows, p.assignments, Dev);
    AssignedAreSlots(rows, p.assignments, Test);
    AssignedAreSlots(rows, p.assignments, Acceptance);
  }

  lemma AssignedAreSlots(rows: seq<Slot>, assignments: map<nat, Split>, s: Split)
    requires KeepsSplits(rows, assignments) && assignments.Keys == Below(|rows|)
    ensures InSplit(assignments, s) == SlotsIn(rows, s)
  {
    hide Below;
    assert forall x: nat :: x in assignments.Keys <==> x < |rows|;
  }

  lemma SameSplits(rows: seq<Slot>, assignments: map<nat, Split>)
    requires KeepsSplits(rows, assignments) && assignments.Keys == Below(|rows|)
    ensures assignments == map x | 0 <= x < |rows| :: rows[x].split
  {
  }

  // ---------------------------------------------------------------- no leak across splits

  /** Candidates that any chain of matched pairs connects end in the same split, so the reported number of divided
      groups, a constant zero, is right. */
  lemma NoPairCrossesSplits(rows: seq<Slot>, groups: seq<seq<nat>>, pairs: seq<Pair>, x: nat, y: nat)
    requires IsPartition(groups, |rows|) && AreComponents(groups, pairs) && Allocation(rows, groups).Ok?
    requires x < |rows| && Linked(pairs, x, y)
    ensures var assignments := Allocation(rows, groups).value;
      x in assignments && y in assignments && assignments[x] == assignments[y]
  {
    AllocationOutcome(rows, groups);
    hide Allocation, SumSizes, FillsTargets, Linked;
    assert InSomeGroup(groups, x);
    var k :| 0 <= k < |groups| && x in groups[k];
    assert groups[k] in groups && y in groups[k];
  }

  /** The number of groups whose members lie in more than one split. */
  ghost function DividedGroups(assignments: map<nat, Split>, groups: seq<seq<nat>>): set<nat> {
    set k | 0 <= k < |groups| && !Undivided(assignments, [groups[k]])
  }

  lemma NoDividedGroup(rows: seq<Slot>, groups: seq<seq<nat>>)
    requires IsPartition(groups, |rows|) && Allocation(rows, groups).Ok?
    ensures |DividedGroups(Allocation(rows, groups).value, groups)| == 0
  {
    AllocationOutcome(rows, groups);
    hide Allocation, IsPartition;
    forall k | 0 <= k < |groups| ensures Undivided(Allocation(rows, groups).value, [groups[k]]) {
      SubsetUndivided(Allocation(rows, groups).value, groups, [groups[k]]);
    }
    assert DividedGroups(Allocation(rows, groups).value, groups) == {};
  }

  // ---------------------------------------------------------------- the loops

  lemma WithOneMore(assignments: map<nat, Split>, front: seq<nat>, x: nat, s: Split)
    ensures WithGroup(assignments, front + [x], s) == WithGroup(assignments, front, s)[x := s]
  {
  }

  method AssignAll(assignments: map<nat, Split>, group: seq<nat>, s: Split) returns (after: map<nat, Split>)
    ensures after == WithGroup(assignments, group, s)
  {
    after := assignments;
    for i := 0 to |group|
      invariant after == WithGroup(assignments, group[..i], s)
    {
      hide WithGroup;
      assert group[..i + 1] == group[..i] + [group[i]];
      WithOneMore(assignments, group[..i], group[i], s);
      after := after[group[i] := s];
    }
    assert group[..|group|] == group;
  }

  method PlaceInOrder(rows: seq<Slot>, groups: seq<seq<nat>>, start: Progress) returns (r: Option<Progress>)
    ensures r == After(rows, groups, start)
  {
    var p := start;
    for i := 0 to |groups|
      invariant After(rows, groups[i..], p) == After(rows, groups, start)
    {
      assert groups[i..][0] == groups[i] && groups[i..][1..] == groups[i + 1..];
      var group := groups[i];
      if |group| == 1 {
        var chosen := SingletonChoice(SplitAt(rows, group[0]), p.remaining);
        if Left(p.remaining, chosen) == 0 {
          return None;
        }
        p := Progress(p.assignments[group[0] := chosen], Take(p.remaining, chosen, 1));
      } else {
        var chosen := GroupChoice(rows, group, p.remaining);
        GroupChoiceIsBest(rows, group, p.remaining);
        if chosen.None? {
          return None;
        }
        var assignments := AssignAll(p.assignments, group, chosen.value);
        p := Progress(assignments, Take(p.remaining, chosen.value, |group|));
      }
    }
    r := Some(p);
  }

  method AssignGroupSplits(rows: seq<Slot>, groups: seq<seq<nat>>) returns (r: Result<map<nat, Split>, AllocationError>)
    ensures r == Allocation(rows, groups)
  {
    if |rows| != SumSizes(groups) {
      return Raised(NotCovering);
    }
    var placed := PlaceInOrder(rows, MultiGroups(rows, groups), START);
    if placed.None? {
      return Raised(NoEligibleSplit);
    }
    var done := PlaceInOrder(rows, SingletonGroups(rows, groups), placed.value);
    if done.None? {
      return Raised(CannotComplete);
    }
    r := if Total(done.value.remaining) > 0 then Raised(NotFilled) else Ok(done.value.assignments);
  }
}
