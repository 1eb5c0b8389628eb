/** Rows selected by a test, and `GROUP BY` with row counts: what the groups tell about the rows they were made from,
    for every test on the key. */
module TableRows {
  import opened Basics

  function Where<T>(s: seq<T>, p: T -> bool): seq<T> {
    if s == [] then []
    else Where(s[..|s| - 1], p) + if p(s[|s| - 1]) then [s[|s| - 1]] else []
  }

  ghost function Positions<T>(s: seq<T>, p: T -> bool): set<nat> {
    set k | 0 <= k < |s| && p(s[k])
  }

  lemma {:induction false} WhereSelects<T>(s: seq<T>, p: T -> bool)
    ensures |Where(s, p)| == |Positions(s, p)|
    ensures forall x :: x in Where(s, p) ==> x in s && p(x)
    ensures forall x :: x in s && p(x) ==> x in Where(s, p)
  {
    if s != [] {
      var last := |s| - 1;
      WhereSelects(s[..last], p);
      assert s == s[..last] + [s[last]];
      assert Positions(s, p) == Positions(s[..last], p) + if p(s[last]) then {last} else {};
    }
  }

  /** `GROUP BY` over the keys, with each group's row count. */
  function Grouped<K(==)>(keys: seq<K>): seq<(K, nat)> {
    if keys == [] then [] else Counted(Grouped(keys[..|keys| - 1]), keys[|keys| - 1])
  }

  function Counted<K(==)>(groups: seq<(K, nat)>, key: K): seq<(K, nat)> {
    if groups == [] then [(key, 1)]
    else if groups[0].0 == key then [(key, groups[0].1 + 1)] + groups[1..]
    else [groups[0]] + Counted(groups[1..], key)
  }

  function SumRows<K>(groups: seq<(K, nat)>, p: K -> bool): nat {
    if groups == [] then 0 else (if p(groups[0].0) then groups[0].1 else 0) + SumRows(groups[1..], p)
  }

  function GroupKeys<K(==)>(groups: seq<(K, nat)>): set<K> {
    set g | g in groups :: g.0
  }

  ghost predicate NoEmptyGroup<K>(groups: seq<(K, nat)>) {
    forall g :: g in groups ==> g.1 > 0
  }

  lemma {:induction false} CountedKeys<K>(groups: seq<(K, nat)>, key: K)
    requires NoEmptyGroup(groups)
    ensures GroupKeys(Counted(groups, key)) == GroupKeys(groups) + {key} && NoEmptyGroup(Counted(groups, key))
  {
    if groups != [] {
      CountedKeys(groups[1..], key);
      assert groups == [groups[0]] + groups[1..];
      assert GroupKeys(groups) == {groups[0].0} + GroupKeys(groups[1..]);
      if groups[0].0 == key {
        assert GroupKeys(Counted(groups, key)) == {key} + GroupKeys(groups[1..]);
      } else {
        assert GroupKeys(Counted(groups, key)) == {groups[0].0} + GroupKeys(Counted(groups[1..], key));
      }
    } else {
      assert Counted(groups, key) == [(key, 1)];
      assert GroupKeys([(key, 1)]) == {key} by {
        assert (key, 1) in [(key, 1)];
      }
    }
  }

  lemma {:induction false} CountedSum<K>(groups: seq<(K, nat)>, key: K, p: K -> bool)
    ensures SumRows(Counted(groups, key), p) == SumRows(groups, p) + if p(key) then 1 else 0
  {
    if groups != [] {
      CountedSum(groups[1..], key, p);
      var all := Counted(groups, key);
      if groups[0].0 == key {
        assert all[0].0 == key && all[1..] == groups[1..];
      } else {
        assert all[0] == groups[0] && all[1..] == Counted(groups[1..], key);
      }
    }
  }

  /** Grouping loses no row and invents none: the groups a test picks add up to the rows it picks, and every key has
      one. */
  lemma {:induction false} GroupingCounts<K>(keys: seq<K>, p: K -> bool)
    ensures SumRows(Grouped(keys), p) == |Where(keys, p)|
    ensures GroupKeys(Grouped(keys)) == Elements(keys) && NoEmptyGroup(Grouped(keys))
  {
    if keys != [] {
      var last := |keys| - 1;
      GroupingCounts(keys[..last], p);
      CountedSum(Grouped(keys[..last]), keys[last], p);
      CountedKeys(Grouped(keys[..last]), keys[last]);
      assert Elements(keys) == Elements(keys[..last]) + {keys[last]};
    }
  }

  lemma {:induction false} WhereKeepsDistinct<T>(s: seq<T>, p: T -> bool)
    requires Distinct(s)
    ensures Distinct(Where(s, p))
  {
    if s != [] {
      var last := |s| - 1;
      WhereKeepsDistinct(s[..last], p);
      WhereSelects(s[..last], p);
    }
  }

  lemma {:induction false} SameWhere<T>(s: seq<T>, p: T -> bool, q: T -> bool)
    requires forall x :: x in s ==> p(x) == q(x)
    ensures Where(s, p) == Where(s, q)
  {
    if s != [] {
      SameWhere(s[..|s| - 1], p, q);
    }
  }

  function Mapped<T, K>(s: seq<T>, f: T -> K): (r: seq<K>)
    ensures |r| == |s| && forall i :: 0 <= i < |s| ==> r[i] == f(s[i])
  {
    seq(|s|, i requires 0 <= i < |s| => f(s[i]))
  }

  function Everything<K>(k: K): bool {
    true
  }

  lemma {:induction false} WhereEverything<T>(s: seq<T>)
    ensures Where(s, Everything) == s
  {
    if s != [] {
      WhereEverything(s[..|s| - 1]);
    }
  }

  /** What the groups of the mapped rows tell about the rows themselves. */
  lemma GroupsTellRows<T, K>(s: seq<T>, f: T -> K, p: K -> bool)
    ensures SumRows(Grouped(Mapped(s, f)), Everything) == |s|
    ensures SumRows(Grouped(Mapped(s, f)), p) == 0 <==> forall x :: x in s ==> !p(f(x))
    ensures forall k :: k in GroupKeys(Grouped(Mapped(s, f))) <==> exists x :: x in s && f(x) == k
  {
    var keys := Mapped(s, f);
    GroupingCounts(keys, Everything);
    WhereEverything(keys);
    GroupingCounts(keys, p);
    WhereSelects(keys, p);
    hide Where, Grouped, SumRows;
    forall x | x in s ensures f(x) in keys {
      var i :| 0 <= i < |s| && s[i] == x;
      assert keys[i] == f(x);
    }
    if |Where(keys, p)| == 0 {
      forall x | x in s ensures !p(f(x)) {
        assert f(x) !in Where(keys, p);
      }
    } else {
      var k := Where(keys, p)[0];
      assert k in Where(keys, p);
      var i :| 0 <= i < |keys| && keys[i] == k;
      assert s[i] in s && p(f(s[i]));
    }
    forall k ensures k in GroupKeys(Grouped(keys)) <==> exists x :: x in s && f(x) == k {
      if k in GroupKeys(Grouped(keys)) {
        assert k in keys;
        var i :| 0 <= i < |keys| && keys[i] == k;
        assert s[i] in s && f(s[i]) == k;
      }
    }
  }

  /** Two complementary tests split the rows between them. */
  lemma {:induction false} WhereSplits<T>(s: seq<T>, p: T -> bool, q: T -> bool)
    requires forall x :: x in s ==> p(x) != q(x)
    ensures multiset(Where(s, p) + Where(s, q)) == multiset(s)
  {
    if s != [] {
      var last := |s| - 1;
      WhereSplits(s[..last], p, q);
      assert s == s[..last] + [s[last]];
    }
  }
}
