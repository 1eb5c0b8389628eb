/** The parent array behind leakage grouping: path halving, no ranks, roots in no index order. */
module UnionFind {

  /** A measure that drops along every parent link shows that the links end in roots. */
  ghost predicate Acyclic(p: seq<nat>, m: seq<nat>) {
    |p| == |m| && forall i :: 0 <= i < |p| ==> p[i] < |p| && (p[i] != i ==> m[p[i]] < m[i])
  }

  ghost function Root(p: seq<nat>, m: seq<nat>, i: nat): (r: nat)
    requires Acyclic(p, m) && i < |p|
    ensures r < |p| && p[r] == r && m[r] <= m[i]
    decreases m[i]
  {
    if p[i] == i then i else Root(p, m, p[i])
  }

  /** Pointing one element at its grandparent moves no root. */
  lemma {:induction false} HalvingKeepsRoots(p: seq<nat>, m: seq<nat>, i: nat, x: nat)
    requires Acyclic(p, m) && i < |p| && x < |p|
    ensures Acyclic(p[i := p[p[i]]], m) && Root(p[i := p[p[i]]], m, x) == Root(p, m, x)
    decreases m[x]
  {
    var q := p[i := p[p[i]]];
    assert Acyclic(q, m);
    if q[x] != x {
      HalvingKeepsRoots(p, m, i, q[x]);
      assert Root(q, m, x) == Root(q, m, q[x]) == Root(p, m, q[x]);
      if x == i {
        assert Root(p, m, i) == Root(p, m, p[i]) == Root(p, m, p[p[i]]);
      }
    }
  }

  /** The measure once the tree of `right` hangs below `left`. */
  ghost function Raised(p: seq<nat>, m: seq<nat>, left: nat, right: nat): (r: seq<nat>)
    requires Acyclic(p, m) && left < |p| && right < |p|
    ensures |r| == |m|
  {
    seq(|m|, x requires 0 <= x < |m| => if Root(p, m, x) == right then m[x] + m[left] + 1 else m[x])
  }

  lemma LinkStaysAcyclic(p: seq<nat>, m: seq<nat>, left: nat, right: nat)
    requires Acyclic(p, m) && left < |p| && right < |p| && p[left] == left && p[right] == right && left != right
    ensures Acyclic(p[right := left], Raised(p, m, left, right))
  {
    var q, n := p[right := left], Raised(p, m, left, right);
    forall i | 0 <= i < |q| ensures q[i] < |q| && (q[i] != i ==> n[q[i]] < n[i]) {
      if i != right && p[i] != i {
        assert Root(p, m, i) == Root(p, m, p[i]);
      }
    }
  }

  /** Linking two roots merges exactly their two trees. */
  lemma {:induction false} LinkMergesRoots(p: seq<nat>, m: seq<nat>, left: nat, right: nat, x: nat)
    requires Acyclic(p, m) && left < |p| && right < |p| && p[left] == left && p[right] == right && left != right &&
      x < |p|
    ensures Acyclic(p[right := left], Raised(p, m, left, right))
    ensures Root(p[right := left], Raised(p, m, left, right), x) == if Root(p, m, x) == right then left else Root(p, m, x)
    decreases m[x]
  {
    LinkStaysAcyclic(p, m, left, right);
    if x != right && p[x] != x {
      LinkMergesRoots(p, m, left, right, p[x]);
    } else if x == right {
      var q, n := p[right := left], Raised(p, m, left, right);
      assert q[right] == left && q[left] == left;
      assert Root(q, n, left) == left;
    }
  }

  class Forest {
    const parent: array<nat>
    ghost var measure: seq<nat>

    ghost predicate Valid()
      reads this, parent
    {
      Acyclic(parent[..], measure)
    }

    ghost function RootOf(i: nat): nat
      requires Valid() && i < parent.Length
      reads this, parent
    {
      Root(parent[..], measure, i)
    }

    /** Every element starts as its own root. */
    constructor (n: nat)
      ensures Valid() && fresh(parent) && parent.Length == n
      ensures forall i :: 0 <= i < n ==> RootOf(i) == i
    {
      parent := new nat[n](i => i);
      measure := seq(n, i => 0);
      new;
      assert forall i :: 0 <= i < n ==> parent[..][i] == i;
    }

    method Find(index: nat) returns (root: nat)
      requires Valid() && index < parent.Length
      modifies parent
      ensures Valid() && root == old(RootOf(index))
      ensures parent[root] == root && root < parent.Length
      ensures forall x :: 0 <= x < parent.Length ==> RootOf(x) == old(RootOf(x))
    {
      var i: nat := index;
      while parent[i] != i
        invariant i < parent.Length && Valid() && measure == old(measure)
        invariant forall x :: 0 <= x < parent.Length ==> RootOf(x) == old(RootOf(x))
        invariant RootOf(i) == old(RootOf(index))
        decreases measure[i]
      {
        ghost var p: seq<nat> := parent[..];
        forall x | 0 <= x < parent.Length
          ensures Acyclic(p[i := p[p[i]]], measure) && Root(p[i := p[p[i]]], measure, x) == Root(p, measure, x)
        {
          HalvingKeepsRoots(p, measure, i, x);
        }
        parent[i] := parent[parent[i]];
        assert parent[..] == p[i := p[p[i]]];
        i := parent[i];
      }
      root := i;
    }

    /** Everything under the right root moves under the left one; nothing else moves. */
    method Union(left: nat, right: nat)
      requires Valid() && left < parent.Length && right < parent.Length
      modifies this, parent
      ensures Valid()
      ensures forall x :: 0 <= x < parent.Length ==>
        RootOf(x) == if old(RootOf(x)) == old(RootOf(right)) then old(RootOf(left)) else old(RootOf(x))
    {
      var leftRoot := Find(left);
      var rightRoot := Find(right);
      if leftRoot != rightRoot {
        ghost var p: seq<nat>, m := parent[..], measure;
        forall x | 0 <= x < parent.Length
          ensures Acyclic(p[rightRoot := leftRoot], Raised(p, m, leftRoot, rightRoot))
          ensures Root(p[rightRoot := leftRoot], Raised(p, m, leftRoot, rightRoot), x) ==
                  if Root(p, m, x) == rightRoot then leftRoot else Root(p, m, x)
        {
          LinkMergesRoots(p, m, leftRoot, rightRoot, x);
        }
        parent[rightRoot] := leftRoot;
        measure := Raised(p, m, leftRoot, rightRoot);
        assert parent[..] == p[rightRoot := leftRoot];
      }
    }
  }
}
