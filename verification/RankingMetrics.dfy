/** Recall, precision, reciprocal rank and nDCG of one ranking against graded judgments. */
module RankingMetrics {
  import opened Basics
  import opened Sorting

  // Any positive, strictly decreasing discount stands for 1 / log2(rank + 1).

  datatype Judgment = Judgment(chunk: nat, grade: nat)

  ghost predicate DistinctJudgments(judgments: seq<Judgment>) {
    forall i, k :: 0 <= i < k < |judgments| ==> judgments[i].chunk != judgments[k].chunk
  }

  /** The judged grade of a chunk; an unjudged one counts as zero. */
  function GradeOf(judgments: seq<Judgment>, chunk: nat): nat {
    if judgments == [] then 0
    else if judgments[|judgments| - 1].chunk == chunk then judgments[|judgments| - 1].grade
    else GradeOf(judgments[..|judgments| - 1], chunk)
  }

  function Gain(grade: nat): nat {
    Power2(grade) - 1
  }

  ghost predicate Discounting(discount: nat -> real) {
    (forall r :: discount(r) > 0.0) && forall r, s :: r < s ==> discount(r) > discount(s)
  }

  /** The discounted sum; the element at position `i` has rank `i + 1`. */
  function Discounted(gains: seq<nat>, discount: nat -> real): real {
    if gains == [] then 0.0
    else Discounted(gains[..|gains| - 1], discount) + gains[|gains| - 1] as real * discount(|gains|)
  }

  function Sum(s: seq<nat>): nat {
    if s == [] then 0 else Sum(s[..|s| - 1]) + s[|s| - 1]
  }

  lemma {:induction false} JudgedGrade(judgments: seq<Judgment>, i: nat)
    requires DistinctJudgments(judgments) && i < |judgments|
    ensures GradeOf(judgments, judgments[i].chunk) == judgments[i].grade
  {
    var n := |judgments| - 1;
    if i < n {
      JudgedGrade(judgments[..n], i);
    }
  }

  lemma {:induction false} UnjudgedGrade(judgments: seq<Judgment>, chunk: nat)
    requires forall i :: 0 <= i < |judgments| ==> judgments[i].chunk != chunk
    ensures GradeOf(judgments, chunk) == 0
  {
    if judgments != [] {
      UnjudgedGrade(judgments[..|judgments| - 1], chunk);
    }
  }

  /** The gains of the four grades, and how they go on. */
  lemma GainsOfGrades(grade: nat)
    ensures Gain(0) == 0 && Gain(1) == 1 && Gain(2) == 3 && Gain(3) == 7
    ensures Gain(grade + 1) == 2 * Gain(grade) + 1
  {
    assert Power2(0) == 1 && Power2(1) == 2 && Power2(2) == 4;
  }

  /** Each gain counts by the discount of its own rank, and nothing else counts. */
  lemma {:induction false} EachGainIsDiscounted(gains: seq<nat>, i: nat, discount: nat -> real)
    requires i < |gains|
    ensures Discounted(gains, discount) == Discounted(gains[i := 0], discount) + gains[i] as real * discount(i + 1)
  {
    var n := |gains| - 1;
    if i < n {
      EachGainIsDiscounted(gains[..n], i, discount);
      assert gains[i := 0][..n] == gains[..n][i := 0];
    } else {
      assert gains[i := 0][..n] == gains[..n];
    }
  }

  lemma {:induction false} NoGainsNoSum(gains: seq<nat>, discount: nat -> real)
    requires forall i :: 0 <= i < |gains| ==> gains[i] == 0
    ensures Discounted(gains, discount) == 0.0
  {
    if gains != [] {
      NoGainsNoSum(gains[..|gains| - 1], discount);
    }
  }

  // ---------------------------------------------------------------- dominated prefixes give dominated discounted sums

  predicate LeadsAt(a: seq<nat>, b: seq<nat>, n: nat) {
    n <= |a| && n <= |b| && Sum(a[..n]) <= Sum(b[..n])
  }

  ghost predicate Dominated(a: seq<nat>, b: seq<nat>) {
    |a| == |b| && forall n: nat :: n <= |a| ==> LeadsAt(a, b, n)
  }

  lemma LeadsInFront(a: seq<nat>, b: seq<nat>, n: nat)
    requires LeadsAt(a, b, n) && n < |a| == |b|
    ensures LeadsAt(a[..|a| - 1], b[..|b| - 1], n)
  {
    assert a[..|a| - 1][..n] == a[..n] && b[..|b| - 1][..n] == b[..n];
  }

  lemma DominatedFront(a: seq<nat>, b: seq<nat>)
    requires Dominated(a, b) && a != []
    ensures Dominated(a[..|a| - 1], b[..|b| - 1])
    ensures Sum(a) == Sum(a[..|a| - 1]) + a[|a| - 1] && Sum(b) == Sum(b[..|b| - 1]) + b[|b| - 1] && Sum(a) <= Sum(b)
  {
    WholeLeads(a, b);
    hide LeadsAt;
    var front, other := a[..|a| - 1], b[..|b| - 1];
    forall n: nat | n <= |front| ensures LeadsAt(front, other, n) {
      LeadsInFront(a, b, n);
    }
  }

  lemma WholeLeads(a: seq<nat>, b: seq<nat>)
    requires Dominated(a, b)
    ensures Sum(a) <= Sum(b)
  {
    assert LeadsAt(a, b, |a|) && a[..|a|] == a && b[..|b|] == b;
  }

  /** One step of summation by parts, on plain numbers. */
  lemma PartsStep(gap: real, lead: real, x: real, y: real, here: real, before: real)
    requires gap >= lead * before && lead >= 0.0 && lead + y - x >= 0.0 && 0.0 < here < before
    ensures gap + (y * here - x * here) >= (lead + y - x) * here >= 0.0
    ensures gap + (y * here - x * here) == 0.0 ==> gap == 0.0 && x == y
  {
    assert lead * before - lead * here == lead * (before - here) >= 0.0;
    assert (lead + y - x) * here == lead * here + (y * here - x * here);
    if gap + (y * here - x * here) == 0.0 {
      var rest := lead + y - x;
      assert rest * here == 0.0;
      assert rest == 0.0;
      assert lead * (before - here) == 0.0;
      assert lead == 0.0;
    }
  }

  /** Summation by parts: a lead in every prefix is worth at least its size at the last, smallest, discount. */
  lemma {:induction false} LeadCounts(a: seq<nat>, b: seq<nat>, discount: nat -> real)
    requires Discounting(discount) && Dominated(a, b)
    ensures Sum(a) <= Sum(b)
    ensures Discounted(b, discount) - Discounted(a, discount) >= (Sum(b) - Sum(a)) as real * discount(|a|) >= 0.0
  {
    hide Dominated, Sum;
    if a == [] || b == [] {
      Empty(a, b);
    } else {
      var n := |a|;
      DominatedFront(a, b);
      SameLength(a, b);
      LeadCounts(a[..n - 1], b[..n - 1], discount);
      PartsStep(Discounted(b[..n - 1], discount) - Discounted(a[..n - 1], discount),
                (Sum(b[..n - 1]) - Sum(a[..n - 1])) as real, a[n - 1] as real, b[n - 1] as real, discount(n), discount(n - 1));
    }
  }

  lemma Empty(a: seq<nat>, b: seq<nat>)
    requires Dominated(a, b) && (a == [] || b == [])
    ensures a == b == [] && Sum(a) == Sum(b) == 0
  {
  }

  lemma SameLength(a: seq<nat>, b: seq<nat>)
    requires Dominated(a, b)
    ensures |a| == |b|
  {
  }

  /** Equal discounted sums under domination leave no lead anywhere: the sequences are the same. */
  lemma {:induction false} NoLeadMeansEqual(a: seq<nat>, b: seq<nat>, discount: nat -> real)
    requires Discounting(discount) && Dominated(a, b) && Discounted(a, discount) == Discounted(b, discount)
    ensures a == b
  {
    hide Dominated, Sum;
    SameLength(a, b);
    if a != [] {
      var n := |a|;
      DominatedFront(a, b);
      var front, other := a[..n - 1], b[..n - 1];
      LeadCounts(front, other, discount);
      PartsStep(Discounted(other, discount) - Discounted(front, discount), (Sum(other) - Sum(front)) as real,
                a[n - 1] as real, b[n - 1] as real, discount(n), discount(n - 1));
      NoLeadMeansEqual(front, other, discount);
      assert a == front + [a[n - 1]] && b == other + [b[n - 1]];
    }
  }

  // ---------------------------------------------------------------- any choice of judged chunks is dominated by the best grades

  function Descending(): (nat, nat) -> bool {
    (a: nat, b: nat) => a >= b
  }

  function GradesOf(judgments: seq<Judgment>): (r: seq<nat>)
    ensures |r| == |judgments|
  {
    seq(|judgments|, i requires 0 <= i < |judgments| => judgments[i].grade)
  }

  function GainsOf(grades: seq<nat>): (r: seq<nat>)
    ensures |r| == |grades|
  {
    seq(|grades|, i requires 0 <= i < |grades| => Gain(grades[i]))
  }

  lemma {:induction false} SumAppend(a: seq<nat>, b: seq<nat>)
    ensures Sum(a + b) == Sum(a) + Sum(b)
  {
    if b == [] {
      assert a + b == a;
    } else {
      SumAppend(a, b[..|b| - 1]);
      assert (a + b)[..|a + b| - 1] == a + b[..|b| - 1];
    }
  }

  lemma SumOfOne(x: nat)
    ensures Sum([x]) == x
  {
    assert [x][..0] == [];
  }

  lemma SumAround(front: seq<nat>, x: nat, back: seq<nat>)
    ensures Sum(front + [x] + back) == x + Sum(front + back)
  {
    SumAppend(front + [x], back);
    SumAppend(front, [x]);
    SumAppend(front, back);
    SumOfOne(x);
  }

  lemma Without(a: seq<nat>, i: nat) returns (rest: seq<nat>)
    requires i < |a|
    ensures Sum(a) == a[i] + Sum(rest) && multiset(rest) == multiset(a) - multiset{a[i]} && |rest| == |a| - 1
  {
    hide Sum;
    var front, back := a[..i], a[i + 1..];
    rest := front + back;
    assert a == front + [a[i]] + back;
    SumAround(front, a[i], back);
  }

  ghost predicate IsDescending(s: seq<nat>) {
    forall i, j :: 0 <= i < j < |s| ==> s[i] >= s[j]
  }

  lemma SubMultisetIsShorter(s: seq<nat>, chosen: seq<nat>)
    requires multiset(chosen) <= multiset(s)
    ensures |chosen| <= |s|
  {
    assert multiset(s) == multiset(chosen) + (multiset(s) - multiset(chosen));
    assert |multiset(s)| == |s| && |multiset(chosen)| == |chosen|;
  }

  lemma HeadAndTail(s: seq<nat>)
    requires s != []
    ensures multiset(s) == multiset{s[0]} + multiset(s[1..])
  {
    assert s == [s[0]] + s[1..];
  }

  lemma SelectionFromTail(s: seq<nat>, chosen: multiset<nat>)
    requires s != [] && chosen <= multiset(s)
    ensures s[0] !in chosen ==> chosen <= multiset(s[1..])
    ensures chosen - multiset{s[0]} <= multiset(s[1..])
  {
    HeadAndTail(s);
  }

  /** No selection of `n` elements of a descending sequence adds up to more than its first `n`. */
  lemma {:induction false} TopIsGreatest(s: seq<nat>, chosen: seq<nat>)
    requires IsDescending(s) && multiset(chosen) <= multiset(s)
    ensures |chosen| <= |s| && Sum(chosen) <= Sum(s[..|chosen|])
    decreases |s|
  {
    SubMultisetIsShorter(s, chosen);
    if chosen == [] {
      assert s[..0] == [];
    } else {
      hide Sum;
      var tail := s[1..];
      SelectionFromTail(s, multiset(chosen));
      if s[0] in chosen {
        var i :| 0 <= i < |chosen| && chosen[i] == s[0];
        var rest := Without(chosen, i);
        TopIsGreatest(tail, rest);
        FirstOfTop(s, |chosen|);
      } else {
        assert s[0] !in multiset(chosen);
        TopIsGreatest(tail, chosen);
        ShiftedTop(s, |chosen|);
      }
    }
  }

  lemma FirstOfTop(s: seq<nat>, n: nat)
    requires 1 <= n <= |s|
    ensures Sum(s[..n]) == s[0] + Sum(s[1..][..n - 1])
  {
    assert s[..n] == [s[0]] + s[1..][..n - 1];
    SumAppend([s[0]], s[1..][..n - 1]);
    SumOfOne(s[0]);
  }

  lemma ShiftedTop(s: seq<nat>, n: nat)
    requires IsDescending(s) && 1 <= n < |s|
    ensures Sum(s[1..][..n]) <= Sum(s[..n])
  {
    hide Sum;
    var middle := s[1..n];
    assert s[1..][..n] == middle + [s[n]];
    assert s[..n] == [s[0]] + middle;
    SumAppend(middle, [s[n]]);
    SumAppend([s[0]], middle);
    SumOfOne(s[0]);
    SumOfOne(s[n]);
  }

  // ---------------------------------------------------------------- the ranking's own gains

  /** The grades of the ranked chunks, in rank order. */
  function RankedGrades(judgments: seq<Judgment>, chunks: seq<nat>): (r: seq<nat>)
    ensures |r| == |chunks|
  {
    seq(|chunks|, i requires 0 <= i < |chunks| => GradeOf(judgments, chunks[i]))
  }

  lemma GainsAppend(a: seq<nat>, b: seq<nat>)
    ensures GainsOf(a + b) == GainsOf(a) + GainsOf(b)
  {
  }

  lemma {:induction false} UnjudgedGain(chunks: seq<nat>)
    ensures Sum(GainsOf(RankedGrades([], chunks))) == 0
  {
    if chunks != [] {
      UnjudgedGain(chunks[..|chunks| - 1]);
      var gains := GainsOf(RankedGrades([], chunks));
      assert gains[..|gains| - 1] == GainsOf(RankedGrades([], chunks[..|chunks| - 1]));
    }
  }

  lemma SameGradesWithout(judgments: seq<Judgment>, chunks: seq<nat>)
    requires judgments != [] && judgments[|judgments| - 1].chunk !in chunks
    ensures RankedGrades(judgments, chunks) == RankedGrades(judgments[..|judgments| - 1], chunks)
  {
    forall i | 0 <= i < |chunks| ensures chunks[i] != judgments[|judgments| - 1].chunk {
    }
  }

  lemma GainsWithout(judgments: seq<Judgment>, chunks: seq<nat>, i: nat) returns (rest: seq<nat>)
    requires Distinct(chunks) && i < |chunks|
    ensures Distinct(rest) && |rest| == |chunks| - 1 && chunks[i] !in rest
    ensures Sum(GainsOf(RankedGrades(judgments, chunks))) ==
      Gain(GradeOf(judgments, chunks[i])) + Sum(GainsOf(RankedGrades(judgments, rest)))
  {
    hide Sum, GradeOf;
    var front, back := chunks[..i], chunks[i + 1..];
    rest := front + back;
    var a, x, b := GainsOf(RankedGrades(judgments, front)), Gain(GradeOf(judgments, chunks[i])),
        GainsOf(RankedGrades(judgments, back));
    assert GainsOf(RankedGrades(judgments, chunks)) == a + [x] + b;
    assert GainsOf(RankedGrades(judgments, rest)) == a + b;
    SumAround(a, x, b);
  }

  /** The judged chunks of a ranking without repetitions select their grades from the judgments, each at most once. */
  lemma {:induction false} SelectedGrades(judgments: seq<Judgment>, chunks: seq<nat>) returns (chosen: seq<nat>)
    requires DistinctJudgments(judgments) && Distinct(chunks)
    ensures |chosen| <= |chunks| && multiset(chosen) <= multiset(GradesOf(judgments))
    ensures Sum(GainsOf(chosen)) == Sum(GainsOf(RankedGrades(judgments, chunks)))
    decreases |judgments|
  {
    if judgments == [] {
      UnjudgedGain(chunks);
      chosen := [];
    } else {
      hide Sum;
      var front, last := judgments[..|judgments| - 1], judgments[|judgments| - 1];
      assert GradesOf(judgments) == GradesOf(front) + [last.grade];
      if last.chunk in chunks {
        var i :| 0 <= i < |chunks| && chunks[i] == last.chunk;
        var rest := GainsWithout(judgments, chunks, i);
        SameGradesWithout(judgments, rest);
        var fewer := SelectedGrades(front, rest);
        chosen := fewer + [last.grade];
        GainsAppend(fewer, [last.grade]);
        SumAppend(GainsOf(fewer), [Gain(last.grade)]);
        SumOfOne(Gain(last.grade));
        assert GainsOf([last.grade]) == [Gain(last.grade)];
      } else {
        SameGradesWithout(judgments, chunks);
        chosen := SelectedGrades(front, chunks);
      }
    }
  }

  // ---------------------------------------------------------------- the ideal ranking

  function Shorter(a: nat, b: nat): nat {
    if a <= b then a else b
  }

  function Prefix(s: seq<nat>, k: nat): (r: seq<nat>)
    ensures |r| == Shorter(k, |s|)
  {
    s[..Shorter(k, |s|)]
  }

  function SortedGrades(judgments: seq<Judgment>): seq<nat> {
    SortedBy(GradesOf(judgments), Descending())
  }

  function IdealGrades(judgments: seq<Judgment>, k: nat): seq<nat> {
    Prefix(SortedGrades(judgments), k)
  }

  lemma RemoveFromBoth(a: multiset<nat>, b: multiset<nat>, x: nat)
    requires a + multiset{x} <= b + multiset{x}
    ensures a <= b
  {
    forall y ensures a[y] <= b[y] {
      assert (a + multiset{x})[y] <= (b + multiset{x})[y];
    }
  }

  lemma AroundMultiset(front: seq<nat>, x: nat, back: seq<nat>)
    ensures multiset(front + [x] + back) == multiset(front + back) + multiset{x}
  {
  }

  lemma GainsAround(front: seq<nat>, x: nat, back: seq<nat>)
    ensures multiset(GainsOf(front + [x] + back)) == multiset(GainsOf(front + back)) + multiset{Gain(x)}
  {
    hide Gain;
    assert GainsOf(front + [x] + back) == GainsOf(front) + [Gain(x)] + GainsOf(back);
    assert GainsOf(front + back) == GainsOf(front) + GainsOf(back);
    AroundMultiset(GainsOf(front), Gain(x), GainsOf(back));
  }

  lemma {:induction false} SubGains(chosen: seq<nat>, all: seq<nat>)
    requires multiset(chosen) <= multiset(all)
    ensures multiset(GainsOf(chosen)) <= multiset(GainsOf(all))
    decreases |chosen|
  {
    if chosen != [] {
      hide Gain, GainsOf;
      var front, x := chosen[..|chosen| - 1], chosen[|chosen| - 1];
      assert chosen == front + [x] + [] && front + [] == front;
      assert x in multiset(all);
      var i :| 0 <= i < |all| && all[i] == x;
      var before, after := all[..i], all[i + 1..];
      assert all == before + [x] + after;
      AroundMultiset(before, x, after);
      AroundMultiset(front, x, []);
      RemoveFromBoth(multiset(front), multiset(before + after), x);
      SubGains(front, before + after);
      GainsAround(front, x, []);
      GainsAround(before, x, after);
    }
  }

  lemma SortedGradesDescend(judgments: seq<Judgment>)
    ensures IsDescending(GainsOf(SortedGrades(judgments)))
    ensures multiset(SortedGrades(judgments)) == multiset(GradesOf(judgments)) &&
      |SortedGrades(judgments)| == |judgments|
  {
    var grades := GradesOf(judgments);
    SortedContents(grades, Descending());
    SortedOrdered(grades, Descending());
    var sorted := SortedGrades(judgments);
    forall i, j | 0 <= i < j < |sorted| ensures Gain(sorted[i]) >= Gain(sorted[j]) {
      assert Descending()(sorted[i], sorted[j]);
      Power2Grows(sorted[j], sorted[i]);
    }
  }

  lemma {:induction false} PrefixSumsGrow(s: seq<nat>, m: nat, n: nat)
    requires m <= n <= |s|
    ensures Sum(s[..m]) <= Sum(s[..n])
  {
    if m < n {
      PrefixSumsGrow(s, m, n - 1);
      assert s[..n][..n - 1] == s[..n - 1];
    }
  }

  /** No ranking of distinct chunks gains more than the ideal ranking of the same length. */
  lemma GainAtMostIdeal(judgments: seq<Judgment>, chunks: seq<nat>)
    requires DistinctJudgments(judgments) && Distinct(chunks)
    ensures Sum(GainsOf(RankedGrades(judgments, chunks))) <= Sum(GainsOf(IdealGrades(judgments, |chunks|)))
  {
    hide Sum, SortedGrades;
    var chosen := SelectedGrades(judgments, chunks);
    SortedGradesDescend(judgments);
    var sorted := SortedGrades(judgments);
    SubGains(chosen, sorted);
    TopIsGreatest(GainsOf(sorted), GainsOf(chosen));
    var n := Shorter(|chunks|, |sorted|);
    PrefixSumsGrow(GainsOf(sorted), |chosen|, n);
    assert GainsOf(sorted)[..n] == GainsOf(IdealGrades(judgments, |chunks|));
  }

  // ---------------------------------------------------------------- nDCG

  /** The first `k` ranked chunks. */
  function Top(chunks: seq<nat>, k: nat): seq<nat> {
    Prefix(chunks, k)
  }

  function Dcg(judgments: seq<Judgment>, chunks: seq<nat>, k: nat, discount: nat -> real): real {
    Discounted(GainsOf(RankedGrades(judgments, Top(chunks, k))), discount)
  }

  function IdealDcg(judgments: seq<Judgment>, k: nat, discount: nat -> real): real {
    Discounted(GainsOf(IdealGrades(judgments, k)), discount)
  }

  function Ndcg(judgments: seq<Judgment>, chunks: seq<nat>, k: nat, discount: nat -> real): real {
    var ideal := IdealDcg(judgments, k, discount);
    if ideal == 0.0 then 0.0 else Dcg(judgments, chunks, k, discount) / ideal
  }

  /** Zeros in place of the missing ranks up to `k`. */
  function Padded(s: seq<nat>, k: nat): (r: seq<nat>)
    requires |s| <= k
    ensures |r| == k
  {
    s + seq(k - |s|, i => 0)
  }

  lemma {:induction false} PaddingAddsNothing(s: seq<nat>, k: nat, discount: nat -> real)
    requires |s| <= k
    ensures Discounted(Padded(s, k), discount) == Discounted(s, discount) && Sum(Padded(s, k)) == Sum(s)
  {
    if k == |s| {
      assert Padded(s, k) == s;
    } else {
      PaddingAddsNothing(s, k - 1, discount);
      assert Padded(s, k)[..k - 1] == Padded(s, k - 1);
    }
  }

  lemma PrefixOfPadded(s: seq<nat>, k: nat, n: nat, discount: nat -> real)
    requires |s| <= k && n <= k
    ensures Sum(Padded(s, k)[..n]) == Sum(Prefix(s, n))
  {
    if n <= |s| {
      assert Padded(s, k)[..n] == Prefix(s, n);
    } else {
      assert Padded(s, k)[..n] == Padded(s, n) && Prefix(s, n) == s;
      PaddingAddsNothing(s, n, discount);
    }
  }

  /** Rank by rank, the ranking's padded gains never run ahead of the ideal ones. */
  lemma RankingIsDominated(judgments: seq<Judgment>, chunks: seq<nat>, k: nat, discount: nat -> real)
    requires DistinctJudgments(judgments) && Distinct(chunks)
    ensures Dominated(Padded(GainsOf(RankedGrades(judgments, Top(chunks, k))), k), Padded(GainsOf(IdealGrades(judgments, k)), k))
  {
    hide Sum, GradeOf, Gain, SortedGrades;
    var own, best := GainsOf(RankedGrades(judgments, Top(chunks, k))), GainsOf(IdealGrades(judgments, k));
    forall n: nat | n <= k ensures LeadsAt(Padded(own, k), Padded(best, k), n) {
      PrefixOfPadded(own, k, n, discount);
      PrefixOfPadded(best, k, n, discount);
      var front := Top(chunks, n);
      assert Prefix(own, n) == GainsOf(RankedGrades(judgments, front));
      GainAtMostIdeal(judgments, front);
      IdealPrefix(judgments, k, n, |front|);
    }
  }

  lemma IdealPrefix(judgments: seq<Judgment>, k: nat, n: nat, m: nat)
    requires m <= n <= k
    ensures Sum(GainsOf(IdealGrades(judgments, m))) <= Sum(Prefix(GainsOf(IdealGrades(judgments, k)), n))
  {
    hide SortedGrades, Gain, Sum;
    var all := GainsOf(SortedGrades(judgments));
    PrefixSumsGrow(all, Shorter(m, |all|), Shorter(n, |all|));
    assert all[..Shorter(m, |all|)] == GainsOf(IdealGrades(judgments, m));
    assert all[..Shorter(n, |all|)] == Prefix(GainsOf(IdealGrades(judgments, k)), n);
  }

  lemma {:induction false} DiscountedIsPositive(s: seq<nat>, discount: nat -> real)
    requires Discounting(discount)
    ensures Discounted(s, discount) >= 0.0
  {
    if s != [] {
      DiscountedIsPositive(s[..|s| - 1], discount);
    }
  }

  /** 0 <= DCG <= ideal DCG, so nDCG lies in [0, 1], for every ranking of distinct chunks. */
  lemma NdcgIsBounded(judgments: seq<Judgment>, chunks: seq<nat>, k: nat, discount: nat -> real)
    requires DistinctJudgments(judgments) && Distinct(chunks) && Discounting(discount)
    ensures 0.0 <= Dcg(judgments, chunks, k, discount) <= IdealDcg(judgments, k, discount)
    ensures 0.0 <= Ndcg(judgments, chunks, k, discount) <= 1.0
  {
    hide Discounted, GainsOf, RankedGrades, IdealGrades, Dominated, Padded, Discounting, Top;
    var own, best := GainsOf(RankedGrades(judgments, Top(chunks, k))), GainsOf(IdealGrades(judgments, k));
    TopIsShort(judgments, chunks, k);
    RankingIsDominated(judgments, chunks, k, discount);
    LeadCounts(Padded(own, k), Padded(best, k), discount);
    PaddingAddsNothing(own, k, discount);
    PaddingAddsNothing(best, k, discount);
    DiscountedIsPositive(own, discount);
    QuotientInUnit(Dcg(judgments, chunks, k, discount), IdealDcg(judgments, k, discount));
  }

  lemma TopIsShort(judgments: seq<Judgment>, chunks: seq<nat>, k: nat)
    ensures |GainsOf(RankedGrades(judgments, Top(chunks, k)))| <= k && |GainsOf(IdealGrades(judgments, k))| <= k
  {
  }

  lemma QuotientInUnit(x: real, y: real)
    requires 0.0 <= x <= y
    ensures y != 0.0 ==> 0.0 <= x / y <= 1.0 && (x / y == 1.0 <==> x == y)
  {
  }

  lemma GainIsInjective(a: nat, b: nat)
    requires Gain(a) == Gain(b)
    ensures a == b
  {
    if a < b {
      Power2Grows(a + 1, b);
    } else if b < a {
      Power2Grows(b + 1, a);
    }
  }

  /** With anything to find, nDCG is 1 exactly when the zero-padded grades are the ideal ones at every rank. */
  lemma NdcgIsOneForIdealGrades(judgments: seq<Judgment>, chunks: seq<nat>, k: nat, discount: nat -> real)
    requires DistinctJudgments(judgments) && Distinct(chunks) && Discounting(discount) &&
      IdealDcg(judgments, k, discount) > 0.0
    ensures Ndcg(judgments, chunks, k, discount) == 1.0 <==>
      Padded(RankedGrades(judgments, Top(chunks, k)), k) == Padded(IdealGrades(judgments, k), k)
  {
    hide Discounted, Dominated, Discounting, GradeOf, SortedGrades, Gain;
    var own, best := RankedGrades(judgments, Top(chunks, k)), IdealGrades(judgments, k);
    NdcgIsBounded(judgments, chunks, k, discount);
    QuotientInUnit(Dcg(judgments, chunks, k, discount), IdealDcg(judgments, k, discount));
    PaddingAddsNothing(GainsOf(own), k, discount);
    PaddingAddsNothing(GainsOf(best), k, discount);
    PaddedGains(own, k);
    PaddedGains(best, k);
    if Ndcg(judgments, chunks, k, discount) == 1.0 {
      RankingIsDominated(judgments, chunks, k, discount);
      NoLeadMeansEqual(Padded(GainsOf(own), k), Padded(GainsOf(best), k), discount);
      SameGrades(Padded(own, k), Padded(best, k));
    }
  }

  lemma PaddedGains(s: seq<nat>, k: nat)
    requires |s| <= k
    ensures Padded(GainsOf(s), k) == GainsOf(Padded(s, k))
  {
    assert Gain(0) == 0;
  }

  lemma SameGrades(a: seq<nat>, b: seq<nat>)
    requires GainsOf(a) == GainsOf(b)
    ensures a == b
  {
    hide Gain;
    assert |a| == |GainsOf(a)| == |b|;
    forall i | 0 <= i < |a| ensures a[i] == b[i] {
      assert GainsOf(a)[i] == GainsOf(b)[i];
      GainIsInjective(a[i], b[i]);
    }
  }

  // ---------------------------------------------------------------- the other scores of one ranking

  /** Chunks judged 2 or better. */
  function Relevant(judgments: seq<Judgment>): set<nat> {
    set i | 0 <= i < |judgments| && judgments[i].grade >= 2 :: judgments[i].chunk
  }

  function Hits(judgments: seq<Judgment>, chunks: seq<nat>): nat {
    if chunks == [] then 0
    else Hits(judgments, chunks[..|chunks| - 1]) + if chunks[|chunks| - 1] in Relevant(judgments) then 1 else 0
  }

  /** The inverse of the first relevant rank, or zero. */
  function ReciprocalRank(judgments: seq<Judgment>, chunks: seq<nat>): real {
    if chunks == [] then 0.0
    else
      var before := ReciprocalRank(judgments, chunks[..|chunks| - 1]);
      if before != 0.0 then before
      else if chunks[|chunks| - 1] in Relevant(judgments) then 1.0 / |chunks| as real
      else 0.0
  }

  /** Relevant chunks are those graded 2 or better. */
  lemma RelevantMeansTwo(judgments: seq<Judgment>, chunk: nat)
    requires DistinctJudgments(judgments)
    ensures chunk in Relevant(judgments) <==> GradeOf(judgments, chunk) >= 2
  {
    if i :| 0 <= i < |judgments| && judgments[i].chunk == chunk {
      JudgedGrade(judgments, i);
    } else {
      UnjudgedGrade(judgments, chunk);
    }
  }

  ghost predicate FirstAtLeastTwo(judgments: seq<Judgment>, chunks: seq<nat>, i: nat) {
    i < |chunks| && GradeOf(judgments, chunks[i]) >= 2 && forall j :: 0 <= j < i ==> GradeOf(judgments, chunks[j]) < 2
  }

  /** The first chunk graded 2 or better, at rank r, makes the reciprocal rank 1/r; without one it is zero. */
  lemma {:induction false} ReciprocalOfFirst(judgments: seq<Judgment>, chunks: seq<nat>)
    requires DistinctJudgments(judgments)
    ensures forall i: nat :: FirstAtLeastTwo(judgments, chunks, i) ==>
      ReciprocalRank(judgments, chunks) == 1.0 / (i + 1) as real
    ensures (forall i :: 0 <= i < |chunks| ==> GradeOf(judgments, chunks[i]) < 2) ==> ReciprocalRank(judgments, chunks) == 0.0
  {
    if chunks != [] {
      hide Relevant, GradeOf;
      var n := |chunks| - 1;
      ReciprocalOfFirst(judgments, chunks[..n]);
      RelevantMeansTwo(judgments, chunks[n]);
      forall i: nat | FirstAtLeastTwo(judgments, chunks, i)
        ensures ReciprocalRank(judgments, chunks) == 1.0 / (i + 1) as real
      {
        if i < n {
          assert FirstAtLeastTwo(judgments, chunks[..n], i);
        }
      }
    }
  }

  datatype Scores = Scores(recall: real, precision: real, reciprocalRank: real, ndcg: real)

  /** No scores when nothing is relevant or `k` is zero: both divide. */
  function RankingScores(judgments: seq<Judgment>, chunks: seq<nat>, k: nat, discount: nat -> real): Option<Scores> {
    var hits, relevant := Hits(judgments, Top(chunks, k)), |Relevant(judgments)|;
    if relevant == 0 || k == 0 then None
    else Some(Scores(hits as real / relevant as real, hits as real / k as real, ReciprocalRank(judgments, Top(chunks, k)),
                     Ndcg(judgments, chunks, k, discount)))
  }

  /** The positions among the first `k` whose chunk is graded 2 or better. */
  ghost function HitsAt(judgments: seq<Judgment>, chunks: seq<nat>, k: nat): set<nat> {
    set i | 0 <= i < |chunks| && i < k && GradeOf(judgments, chunks[i]) >= 2
  }

  lemma {:induction false} HitsAreCounted(judgments: seq<Judgment>, chunks: seq<nat>)
    requires DistinctJudgments(judgments)
    ensures Hits(judgments, chunks) == |HitsAt(judgments, chunks, |chunks|)|
  {
    if chunks == [] {
      assert HitsAt(judgments, chunks, 0) == {};
    } else {
      hide GradeOf, Relevant;
      var n := |chunks| - 1;
      HitsAreCounted(judgments, chunks[..n]);
      RelevantMeansTwo(judgments, chunks[n]);
      if chunks[n] in Relevant(judgments) {
        assert HitsAt(judgments, chunks, n + 1) == HitsAt(judgments, chunks[..n], n) + {n};
      } else {
        assert HitsAt(judgments, chunks, n + 1) == HitsAt(judgments, chunks[..n], n);
      }
    }
  }

  /** The four scores of one ranking: hits over relevant chunks, hits over k, the inverse rank of the first hit, and the
      discounted gains of the first `k` ranks over those of the best grades. */
  lemma ScoresExactly(judgments: seq<Judgment>, chunks: seq<nat>, k: nat, discount: nat -> real)
    requires DistinctJudgments(judgments)
    ensures var s, top := RankingScores(judgments, chunks, k, discount), if k <= |chunks| then chunks[..k] else chunks;
      (s.Some? <==> Relevant(judgments) != {} && k > 0) &&
      (s.Some? ==>
        s.value.recall == |HitsAt(judgments, chunks, k)| as real / |Relevant(judgments)| as real &&
        s.value.precision == |HitsAt(judgments, chunks, k)| as real / k as real &&
        (forall i: nat :: i < k && FirstAtLeastTwo(judgments, chunks, i) ==> s.value.reciprocalRank == 1.0 / (i + 1) as real) &&
        (HitsAt(judgments, chunks, k) == {} ==> s.value.reciprocalRank == 0.0) &&
        var ideal := Discounted(GainsOf(IdealGrades(judgments, k)), discount);
        s.value.ndcg == if ideal == 0.0 then 0.0 else Discounted(GainsOf(RankedGrades(judgments, top)), discount) / ideal)
  {
    var top := if k <= |chunks| then chunks[..k] else chunks;
    assert Top(chunks, k) == top;
    HitsAreCounted(judgments, top);
    ReciprocalOfFirst(judgments, top);
    hide GradeOf, Relevant, Hits, ReciprocalRank, Discounted, GainsOf, RankedGrades, IdealGrades;
    assert HitsAt(judgments, top, |top|) == HitsAt(judgments, chunks, k);
    forall i: nat | i < k && FirstAtLeastTwo(judgments, chunks, i) ensures FirstAtLeastTwo(judgments, top, i) {
    }
    if HitsAt(judgments, chunks, k) == {} {
      forall i | 0 <= i < |top| ensures GradeOf(judgments, top[i]) < 2 {
        assert i !in HitsAt(judgments, chunks, k);
      }
    }
  }

  lemma OneMoreHit(seen: set<nat>, last: nat, relevant: set<nat>)
    requires last !in seen
    ensures |(seen + {last}) * relevant| == |seen * relevant| + if last in relevant then 1 else 0
  {
    if last in relevant {
      assert (seen + {last}) * relevant == seen * relevant + {last};
    } else {
      assert (seen + {last}) * relevant == seen * relevant;
    }
  }

  lemma {:induction false} HitsAreRelevantChunks(judgments: seq<Judgment>, chunks: seq<nat>)
    requires Distinct(chunks)
    ensures Hits(judgments, chunks) == |Elements(chunks) * Relevant(judgments)| <= |chunks|
  {
    hide Relevant;
    if chunks != [] {
      var front, last := chunks[..|chunks| - 1], chunks[|chunks| - 1];
      HitsAreRelevantChunks(judgments, front);
      assert Elements(chunks) == Elements(front) + {last};
      OneMoreHit(Elements(front), last, Relevant(judgments));
    } else {
      assert Elements(chunks) * Relevant(judgments) == {};
    }
  }

  lemma {:induction false} ReciprocalRankOfHits(judgments: seq<Judgment>, chunks: seq<nat>)
    ensures 0.0 <= ReciprocalRank(judgments, chunks) <= 1.0
    ensures ReciprocalRank(judgments, chunks) > 0.0 <==> Hits(judgments, chunks) > 0
  {
    if chunks != [] {
      ReciprocalRankOfHits(judgments, chunks[..|chunks| - 1]);
      assert 0.0 < 1.0 / |chunks| as real <= 1.0;
    }
  }

  /** Every score lies in [0, 1]; recall is 1 exactly when every relevant chunk is among the first `k`, and recall,
      precision and reciprocal rank are positive together. */
  lemma ScoresAreBounded(judgments: seq<Judgment>, chunks: seq<nat>, k: nat, discount: nat -> real)
    requires DistinctJudgments(judgments) && Distinct(chunks) && Discounting(discount)
    ensures var s := RankingScores(judgments, chunks, k, discount); s.Some? ==>
      0.0 <= s.value.recall <= 1.0 && 0.0 <= s.value.precision <= 1.0 && 0.0 <= s.value.reciprocalRank <= 1.0 &&
      0.0 <= s.value.ndcg <= 1.0 && (s.value.recall == 1.0 <==> Relevant(judgments) <= Elements(Top(chunks, k))) &&
      (s.value.recall > 0.0 <==> s.value.reciprocalRank > 0.0) && (s.value.recall > 0.0 <==> s.value.precision > 0.0)
  {
    hide Ndcg, Hits, ReciprocalRank, Relevant, Discounting;
    var top, relevant := Top(chunks, k), Relevant(judgments);
    HitsAreRelevantChunks(judgments, top);
    ReciprocalRankOfHits(judgments, top);
    NdcgIsBounded(judgments, chunks, k, discount);
    SubsetCardinality(Elements(top) * relevant, relevant);
    if |relevant| > 0 && k > 0 {
      var hits := Hits(judgments, top);
      QuotientInUnit(hits as real, |relevant| as real);
      QuotientInUnit(hits as real, k as real);
      PositiveQuotient(hits as real, |relevant| as real);
      PositiveQuotient(hits as real, k as real);
      assert hits == |relevant| <==> relevant <= Elements(top) by {
        if relevant <= Elements(top) {
          assert Elements(top) * relevant == relevant;
        }
      }
    }
  }

  lemma PositiveQuotient(x: real, y: real)
    requires x >= 0.0 && y > 0.0
    ensures x / y > 0.0 <==> x > 0.0
  {
  }
}
