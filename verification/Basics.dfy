/** Shared result types, and the facts about finite sets, sequences and maps that several modules need: cardinalities,
    pigeonholes, overlays and powers of two. */
module Basics {

  datatype Option<+T> = None | Some(value: T)

  /** The outcome of a call that may raise. */
  datatype Result<+T, +E> = Ok(value: T) | Raised(error: E)

  ghost predicate Distinct<T>(s: seq<T>) {
    forall i, j :: 0 <= i < j < |s| ==> s[i] != s[j]
  }

  ghost function Elements<T>(s: seq<T>): set<T> {
    set x | x in s
  }

  lemma {:induction false} DistinctCardinality<T>(s: seq<T>)
    requires Distinct(s)
    ensures |Elements(s)| == |s|
  {
    if s == [] {
      assert Elements(s) == {};
    } else {
      var last := |s| - 1;
      DistinctCardinality(s[..last]);
      assert Elements(s) == Elements(s[..last]) + {s[last]};
    }
  }

  lemma SubsetCardinality<T>(a: set<T>, b: set<T>)
    requires a <= b
    ensures |a| <= |b|
    ensures |a| == |b| ==> a == b
  {
    assert b == a + (b - a);
  }

  /** Pigeonhole: distinct values inside a set no larger than their number fill it. */
  lemma Pigeonhole<T>(s: seq<T>, b: set<T>)
    requires Distinct(s)
    requires forall x :: x in s ==> x in b
    requires |b| <= |s|
    ensures b == Elements(s)
  {
    DistinctCardinality(s);
    SubsetCardinality(Elements(s), b);
  }

  /** Writing all of `b` over `a` leaves just `b` exactly when nothing else was there. */
  lemma OverlayAll<K, V>(a: map<K, V>, b: map<K, V>)
    ensures |a + b| == |b| ==> a + b == b
    ensures a.Keys <= b.Keys ==> a + b == b
  {
    SubsetCardinality(b.Keys, (a + b).Keys);
    assert |b| == |b.Keys| && |a + b| == |(a + b).Keys|;
  }

  /** The numbers below `n`. */
  ghost function Below(n: nat): (r: set<nat>)
    ensures |r| == n && forall x: nat :: x in r <==> x < n
  {
    if n == 0 then {} else Below(n - 1) + {n - 1}
  }

  function Power2(n: nat): (r: nat)
    ensures r >= 1
  {
    if n == 0 then 1 else 2 * Power2(n - 1)
  }

  lemma {:induction false} Power2Grows(m: nat, n: nat)
    requires m <= n
    ensures Power2(m) <= Power2(n)
  {
    if m < n {
      Power2Grows(m, n - 1);
    }
  }

  lemma {:induction false} AtMostLength<T>(s: seq<T>)
    ensures |Elements(s)| <= |s|
  {
    if s == [] {
      assert Elements(s) == {};
    } else {
      AtMostLength(s[..|s| - 1]);
      assert Elements(s) == Elements(s[..|s| - 1]) + {s[|s| - 1]};
    }
  }

  /** As many different values as positions mean that none repeats. */
  lemma {:induction false} FullSetIsDistinct<T>(s: seq<T>)
    requires |Elements(s)| == |s|
    ensures Distinct(s)
  {
    if s != [] {
      var front, last := s[..|s| - 1], s[|s| - 1];
      assert Elements(s) == Elements(front) + {last};
      AtMostLength(front);
      assert last in front ==> Elements(s) == Elements(front);
      FullSetIsDistinct(front);
    }
  }
}
