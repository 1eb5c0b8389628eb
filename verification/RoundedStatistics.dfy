/** Six-decimal rounding, means and interpolated percentiles, over exact reals: how close, and what order and bounds
    they keep. */
module RoundedStatistics {
  import opened Sorting

  // ---------------------------------------------------------------- rounding to six decimals

  const MICROS := 1000000.0

  /** To the nearest integer, ties to the even one. */
  function RoundHalfEven(y: real): int {
    var n := y.Floor;
    var f := y - n as real;
    if f < 0.5 then n else if f > 0.5 then n + 1 else if n % 2 == 0 then n else n + 1
  }

  function Round6(x: real): real {
    RoundHalfEven(x * MICROS) as real / MICROS
  }

  const HALF_MICRO := 0.0000005
  const TOLERANCE := 0.000002

  predicate Close(a: real, b: real) {
    -TOLERANCE <= a - b <= TOLERANCE
  }

  /** The nearest integer, or of two equally near ones the even one. */
  lemma NearestOrEven(y: real, n: int)
    ensures RoundHalfEven(y) == n <==>
      if y == n as real - 0.5 || y == n as real + 0.5 then n % 2 == 0 else n as real - 0.5 < y < n as real + 0.5
  {
    var k := y.Floor;
    assert k as real <= y < k as real + 1.0;
    if y == n as real - 0.5 {
      assert k == n - 1;
    } else if y == n as real + 0.5 {
      assert k == n;
    } else if n as real - 0.5 < y < n as real + 0.5 {
      assert k == n || k == n - 1;
    } else {
      assert y < n as real - 0.5 || y > n as real + 0.5;
      assert k < n - 1 || k == n - 1 || k == n || k > n;
    }
  }

  lemma Round6IsNear(x: real)
    ensures -HALF_MICRO <= Round6(x) - x <= HALF_MICRO
  {
    var y := x * MICROS;
    var n := RoundHalfEven(y) as real;
    assert -0.5 <= n - y <= 0.5;
    assert Round6(x) - x == (n - y) / MICROS;
  }

  lemma Round6KeepsBounds(x: real, low: int, high: int)
    requires low as real <= x <= high as real
    ensures low as real <= Round6(x) <= high as real
  {
    var y := x * MICROS;
    var l, h := low * 1000000, high * 1000000;
    assert l as real == low as real * MICROS && h as real == high as real * MICROS;
    assert l as real <= y <= h as real;
    assert l <= y.Floor <= h;
    assert y.Floor == h ==> y == h as real;
    assert l <= RoundHalfEven(y) <= h;
    Quotients(l as real, RoundHalfEven(y) as real, h as real);
  }

  lemma Quotients(a: real, b: real, c: real)
    requires a <= b <= c
    ensures a / MICROS <= b / MICROS <= c / MICROS
  {
  }

  /** Rounding is idempotent, and exact on sums and differences of rounded numbers. */
  lemma Round6OfRounded(x: real, y: real)
    ensures Round6(Round6(x)) == Round6(x)
    ensures Round6(Round6(x) - Round6(y)) == Round6(x) - Round6(y)
  {
    var a, b := RoundHalfEven(x * MICROS), RoundHalfEven(y * MICROS);
    assert Round6(x) * MICROS == a as real;
    assert (Round6(x) - Round6(y)) * MICROS == (a - b) as real;
    assert ((a - b) as real).Floor == a - b && (a as real).Floor == a;
  }

  /** A rounded difference is off from the difference of the rounded numbers by at most 1.5e-6, inside the tolerance. */
  lemma RoundedDifferenceIsClose(x: real, y: real)
    ensures -3.0 * HALF_MICRO <= Round6(x - y) - (Round6(x) - Round6(y)) <= 3.0 * HALF_MICRO
    ensures Close(Round6(x - y), Round6(x) - Round6(y))
  {
    Round6IsNear(x);
    Round6IsNear(y);
    Round6IsNear(x - y);
  }

  // ---------------------------------------------------------------- means and percentiles

  function Total(values: seq<real>): real {
    if values == [] then 0.0 else Total(values[..|values| - 1]) + values[|values| - 1]
  }

  function Mean(values: seq<real>): real
    requires values != []
  {
    Total(values) / |values| as real
  }

  /** Totals of runs of values add up. */
  lemma {:induction false} TotalsAdd(a: seq<real>, b: seq<real>)
    ensures Total(a + b) == Total(a) + Total(b)
    ensures |b| == 1 ==> Total(b) == b[0]
  {
    if b == [] {
      assert a + b == a;
    } else {
      TotalsAdd(a, b[..|b| - 1]);
      assert (a + b)[..|a + b| - 1] == a + b[..|b| - 1];
    }
  }

  lemma MeanExactly(values: seq<real>)
    requires values != []
    ensures Mean(values) * |values| as real == Total(values)
  {
  }

  ghost predicate AllIn(values: seq<real>, low: real, high: real) {
    forall v :: v in values ==> low <= v <= high
  }

  lemma {:induction false} MeanInUnit(values: seq<real>)
    requires AllIn(values, 0.0, 1.0)
    ensures 0.0 <= Total(values) <= |values| as real
    ensures values != [] ==> 0.0 <= Mean(values) <= 1.0
  {
    if values != [] {
      var front := values[..|values| - 1];
      assert values == front + [values[|values| - 1]];
      forall v | v in front ensures 0.0 <= v <= 1.0 {
        assert v in values;
      }
      MeanInUnit(front);
      assert values[|values| - 1] in values;
      UnitQuotient(Total(values), |values| as real);
    }
  }

  lemma UnitQuotient(x: real, y: real)
    requires 0.0 <= x <= y && y > 0.0
    ensures 0.0 <= x / y <= 1.0
  {
  }

  function Increasing(): (real, real) -> bool {
    (a: real, b: real) => a <= b
  }

  function Share(x: real, f: real): real {
    x * f
  }

  lemma ShareGrows(x: real, f: real, g: real)
    requires x >= 0.0 && 0.0 <= f <= g <= 1.0
    ensures 0.0 <= Share(x, f) <= Share(x, g) <= x
  {
    assert x * f <= x * g;
  }

  /** Linear interpolation between the two order statistics around position (n - 1) * p. */
  function Interpolated(ordered: seq<real>, position: real): real
    requires ordered != [] && 0.0 <= position <= (|ordered| - 1) as real
  {
    var lower := position.Floor;
    if position == lower as real then ordered[lower]
    else ordered[lower] + Share(ordered[lower + 1] - ordered[lower], position - lower as real)
  }

  function SortedReals(values: seq<real>): (r: seq<real>)
    ensures |r| == |values|
  {
    SortedContents(values, Increasing());
    SortedBy(values, Increasing())
  }

  function PositionAt(n: nat, p: real): (r: real)
    requires 0.0 <= p <= 1.0
    ensures 0.0 <= r <= n as real
  {
    ShareGrows(n as real, p, p);
    Share(n as real, p)
  }

  function Percentile(values: seq<real>, p: real): real
    requires values != [] && 0.0 <= p <= 1.0
  {
    Interpolated(SortedReals(values), PositionAt(|values| - 1, p))
  }

  ghost predicate Ascending(s: seq<real>) {
    forall i, j :: 0 <= i < j < |s| ==> s[i] <= s[j]
  }

  lemma SortedValues(values: seq<real>)
    ensures Ascending(SortedReals(values))
    ensures forall v :: v in SortedReals(values) ==> v in values
  {
    SortedContents(values, Increasing());
    SortedOrdered(values, Increasing());
    var s := SortedReals(values);
    forall i, j | 0 <= i < j < |s| ensures s[i] <= s[j] {
      assert Increasing()(s[i], s[j]);
    }
  }

  /** At position i + f of the sorted values, counted from zero, the percentile is f of the way from the i-th value to
      the next one. */
  lemma PercentileIsInterpolated(values: seq<real>, p: real, i: nat, f: real)
    requires values != [] && 0.0 <= p <= 1.0 && 0.0 <= f < 1.0 && (|values| - 1) as real * p == i as real + f
    ensures i < |values| && Ascending(SortedReals(values)) && multiset(SortedReals(values)) == multiset(values)
    ensures f == 0.0 ==> Percentile(values, p) == SortedReals(values)[i]
    ensures f > 0.0 ==> i + 1 < |values|
    ensures f > 0.0 ==> Percentile(values, p) == Weighted(SortedReals(values)[i], SortedReals(values)[i + 1], f)
  {
    hide PositionAt, SortedReals, Interpolated, Weighted, Ascending;
    PositionIsProduct(|values| - 1, p);
    SortedValues(values);
    SortedMultiset(values);
    InterpolatedAt(SortedReals(values), i, f);
    assert PositionAt(|values| - 1, p) == i as real + f;
  }

  lemma PositionIsProduct(n: nat, p: real)
    requires 0.0 <= p <= 1.0
    ensures PositionAt(n, p) == n as real * p
  {
  }

  lemma SortedMultiset(values: seq<real>)
    ensures multiset(SortedReals(values)) == multiset(values)
  {
    SortedContents(values, Increasing());
  }

  lemma InterpolatedAt(s: seq<real>, i: nat, f: real)
    requires s != [] && 0.0 <= f < 1.0 && i as real + f <= (|s| - 1) as real
    ensures f == 0.0 ==> Interpolated(s, i as real + f) == s[i]
    ensures f > 0.0 ==> i + 1 < |s|
    ensures f > 0.0 ==> Interpolated(s, i as real + f) == Weighted(s[i], s[i + 1], f)
  {
    assert (i as real + f).Floor == i;
    if f > 0.0 {
      Weighing(s[i], s[i + 1], f);
    }
  }

  /** `f` of the way from `a` to `b`. */
  ghost function Weighted(a: real, b: real, f: real): real {
    (1.0 - f) * a + f * b
  }

  lemma Weighing(a: real, b: real, f: real)
    ensures a + Share(b - a, f) == Weighted(a, b, f)
  {
  }

  /** An interpolated value lies between the order statistics on either side of it. */
  lemma InterpolatedBetween(s: seq<real>, position: real)
    requires Ascending(s) && s != [] && 0.0 <= position <= (|s| - 1) as real
    ensures s[position.Floor] <= Interpolated(s, position)
    ensures position.Floor + 1 < |s| ==> Interpolated(s, position) <= s[position.Floor + 1]
    ensures Interpolated(s, position) <= s[|s| - 1]
  {
    hide Share;
    var lower := position.Floor;
    if position != lower as real {
      ShareGrows(s[lower + 1] - s[lower], position - lower as real, position - lower as real);
    }
  }

  /** A later position never gives a smaller value. */
  lemma InterpolationIsMonotone(s: seq<real>, x: real, y: real)
    requires Ascending(s) && s != [] && 0.0 <= x <= y <= (|s| - 1) as real
    ensures Interpolated(s, x) <= Interpolated(s, y)
  {
    hide Share;
    InterpolatedBetween(s, x);
    InterpolatedBetween(s, y);
    if x.Floor == y.Floor {
      var lower := x.Floor;
      if lower + 1 < |s| {
        ShareGrows(s[lower + 1] - s[lower], x - lower as real, y - lower as real);
      }
    } else {
      assert s[x.Floor + 1] <= s[y.Floor];
    }
  }

  lemma Scaled(n: nat, p: real, q: real)
    requires 0.0 <= p <= q <= 1.0
    ensures PositionAt(n, p) <= PositionAt(n, q)
  {
    ShareGrows(n as real, p, q);
  }

  /** Percentiles stay between the least and greatest value, and a higher one is never smaller. */
  lemma PercentilesAreOrdered(values: seq<real>, p: real, q: real, low: real, high: real)
    requires values != [] && 0.0 <= p <= q <= 1.0 && AllIn(values, low, high)
    ensures low <= Percentile(values, p) <= Percentile(values, q) <= high
  {
    hide SortedReals, Interpolated, PositionAt;
    var s, n := SortedReals(values), |values| - 1;
    SortedValues(values);
    Scaled(n, p, q);
    InterpolatedBetween(s, PositionAt(n, p));
    InterpolatedBetween(s, PositionAt(n, q));
    InterpolationIsMonotone(s, PositionAt(n, p), PositionAt(n, q));
    assert s[PositionAt(n, p).Floor] in s && s[|s| - 1] in s;
  }
}
