/** A stable sort by a total preorder, as the source's `sorted` is used: it keeps the elements, puts them in order, and
    depends on nothing but the comparisons. */
module Sorting {
  import opened Basics

  ghost predicate TotalPreorder<T(!new)>(leq: (T, T) -> bool) {
    (forall x, y :: leq(x, y) || leq(y, x)) && (forall x, y, z :: leq(x, y) && leq(y, z) ==> leq(x, z))
  }

  ghost predicate Ordered<T>(s: seq<T>, leq: (T, T) -> bool) {
    forall i, j :: 0 <= i < j < |s| ==> leq(s[i], s[j])
  }

  /** After every element that may stand before `x`. */
  function Inserted<T>(s: seq<T>, x: T, leq: (T, T) -> bool): seq<T> {
    if s == [] then [x]
    else if leq(s[0], x) then [s[0]] + Inserted(s[1..], x, leq)
    else [x] + s
  }

  function SortedBy<T>(s: seq<T>, leq: (T, T) -> bool): seq<T> {
    if s == [] then [] else Inserted(SortedBy(s[..|s| - 1], leq), s[|s| - 1], leq)
  }

  lemma {:induction false} InsertedContents<T>(s: seq<T>, x: T, leq: (T, T) -> bool)
    ensures multiset(Inserted(s, x, leq)) == multiset(s) + multiset{x}
  {
    if s != [] {
      assert s == [s[0]] + s[1..];
      if leq(s[0], x) {
        InsertedContents(s[1..], x, leq);
      }
    }
  }

  lemma {:induction false} InsertedOrdered<T(!new)>(s: seq<T>, x: T, leq: (T, T) -> bool)
    requires TotalPreorder(leq) && Ordered(s, leq)
    ensures Ordered(Inserted(s, x, leq), leq)
  {
    if s != [] {
      var tail := s[1..];
      if leq(s[0], x) {
        InsertedOrdered(tail, x, leq);
        InsertedContents(tail, x, leq);
        var all := Inserted(tail, x, leq);
        forall i | 0 <= i < |all| ensures leq(s[0], all[i]) {
          assert all[i] in multiset(all);
          if all[i] != x {
            assert all[i] in multiset(tail);
          }
        }
      } else {
        assert forall i :: 0 <= i < |s| ==> leq(s[0], s[i]) by {
          assert leq(s[0], s[0]);
        }
      }
    }
  }

  lemma {:induction false} SortedContents<T>(s: seq<T>, leq: (T, T) -> bool)
    ensures multiset(SortedBy(s, leq)) == multiset(s)
    ensures |SortedBy(s, leq)| == |s| && forall x :: x in SortedBy(s, leq) <==> x in s
  {
    if s != [] {
      var last := |s| - 1;
      SortedContents(s[..last], leq);
      InsertedContents(SortedBy(s[..last], leq), s[last], leq);
      assert s == s[..last] + [s[last]];
    }
    SameMembers(SortedBy(s, leq), s);
  }

  lemma SameMembers<T>(a: seq<T>, b: seq<T>)
    requires multiset(a) == multiset(b)
    ensures |a| == |b| && forall x :: x in a <==> x in b
  {
    assert |multiset(a)| == |a| && |multiset(b)| == |b|;
    forall x ensures x in a <==> x in b {
      assert x in a <==> x in multiset(a);
      assert x in b <==> x in multiset(b);
    }
  }

  lemma {:induction false} SortedOrdered<T(!new)>(s: seq<T>, leq: (T, T) -> bool)
    requires TotalPreorder(leq)
    ensures Ordered(SortedBy(s, leq), leq)
  {
    if s != [] {
      SortedOrdered(s[..|s| - 1], leq);
      InsertedOrdered(SortedBy(s[..|s| - 1], leq), s[|s| - 1], leq);
    }
  }

  lemma {:induction false} DistinctMultiplicity<T>(s: seq<T>)
    ensures Distinct(s) <==> forall x :: x in multiset(s) ==> multiset(s)[x] == 1
  {
    if s != [] {
      var last := |s| - 1;
      var front := s[..last];
      DistinctMultiplicity(front);
      assert s == front + [s[last]];
      assert multiset(s) == multiset(front) + multiset{s[last]};
      if Distinct(s) {
        assert s[last] !in front;
        assert s[last] !in multiset(front);
      } else if Distinct(front) {
        assert exists i :: 0 <= i < last && s[i] == s[last];
        assert s[last] in front;
        assert multiset(s)[s[last]] == 2;
      } else {
        var x :| x in multiset(front) && multiset(front)[x] != 1;
        assert multiset(s)[x] != 1;
      }
    }
  }

  lemma SortedDistinct<T>(a: seq<T>, b: seq<T>)
    requires multiset(a) == multiset(b) && Distinct(a)
    ensures Distinct(b)
  {
    DistinctMultiplicity(a);
    DistinctMultiplicity(b);
  }

  /** Only the comparisons of the elements themselves matter. */
  lemma {:induction false} InsertedAgrees<T>(s: seq<T>, x: T, leq: (T, T) -> bool, other: (T, T) -> bool)
    requires forall y :: y in s ==> leq(y, x) == other(y, x)
    ensures Inserted(s, x, leq) == Inserted(s, x, other)
  {
    if s != [] {
      assert s[0] in s;
      InsertedAgrees(s[1..], x, leq, other);
    }
  }

  lemma SortedMember<T>(s: seq<T>, leq: (T, T) -> bool, y: T)
    requires y in SortedBy(s, leq)
    ensures y in s
  {
    hide SortedBy;
    SortedContents(s, leq);
    assert y in multiset(SortedBy(s, leq));
    assert y in multiset(s);
  }

  lemma {:induction false} SortedAgrees<T>(s: seq<T>, leq: (T, T) -> bool, other: (T, T) -> bool)
    requires forall x, y :: x in s && y in s ==> leq(x, y) == other(x, y)
    ensures SortedBy(s, leq) == SortedBy(s, other)
  {
    if s != [] {
      var front, last := s[..|s| - 1], s[|s| - 1];
      assert s == front + [last];
      SortedAgrees(front, leq, other);
      forall y | y in SortedBy(front, leq) ensures leq(y, last) == other(y, last) {
        SortedMember(front, leq, y);
        assert y in s && last in s;
      }
      InsertedAgrees(SortedBy(front, leq), last, leq, other);
    }
  }
}
