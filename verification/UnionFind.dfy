/** A disjoint-set forest whose roots are always the least index of their component. */
module UnionFind {

  /** Every parent is at most its child, so following parents ends. */
  ghost predicate Forest(parent: seq<int>) {
    forall i :: 0 <= i < |parent| ==> 0 <= parent[i] <= i
  }

  ghost function Root(parent: seq<int>, i: int): (r: int)
    requires Forest(parent) && 0 <= i < |parent|
    ensures 0 <= r <= i && parent[r] == r
    decreases i
  {
    if parent[i] == i then i else Root(parent, parent[i])
  }

  ghost function Roots(parent: seq<int>): (roots: seq<int>)
    requires Forest(parent)
    ensures |roots| == |parent|
  {
    seq(|parent|, i requires 0 <= i < |parent| => Root(parent, i))
  }

  /** Pairs of indices joined so far, all below n. */
  ghost predicate Pairs(n: nat, edges: seq<(int, int)>) {
    forall t :: 0 <= t < |edges| ==> 0 <= edges[t].0 < n && 0 <= edges[t].1 < n
  }

  /** f gives the two ends of every pair one label. */
  ghost predicate Respects(f: seq<int>, edges: seq<(int, int)>) {
    forall t :: 0 <= t < |edges| ==>
      0 <= edges[t].0 < |f| && 0 <= edges[t].1 < |f| && f[edges[t].0] == f[edges[t].1]
  }

  /**
   * `names` calls each index's component, in the least equivalence holding every pair, by
   * the component's least index. Least: whatever labelling gives joined indices one label
   * gives every index the label of its component's least index.
   */
  ghost predicate LeastLabels(n: nat, edges: seq<(int, int)>, names: seq<int>) {
    && |names| == n
    && (forall i :: 0 <= i < n ==> 0 <= names[i] <= i && names[names[i]] == names[i])
    && Respects(names, edges)
    && (forall f: seq<int>, i :: |f| == n && Respects(f, edges) && 0 <= i < n ==> f[names[i]] == f[i])
  }

  /** There is only one such labelling. */
  lemma LeastLabelsUnique(n: nat, edges: seq<(int, int)>, a: seq<int>, b: seq<int>)
    requires LeastLabels(n, edges, a) && LeastLabels(n, edges, b)
    ensures a == b
  {
    forall i | 0 <= i < n ensures a[i] == b[i] {
      assert a[b[i]] == a[i] && b[a[i]] == b[i];
    }
  }

  /** A label is the least index of its component. */
  lemma LabelIsLeast(n: nat, edges: seq<(int, int)>, names: seq<int>, i: int, j: int)
    requires LeastLabels(n, edges, names) && 0 <= i < n && 0 <= j < n && names[i] == names[j]
    ensures names[i] <= j
  {
  }

  /** The labels after joining the components of a and b: the larger root takes the smaller's name. */
  ghost function Relabelled(names: seq<int>, a: int, b: int): seq<int>
    requires 0 <= a < |names| && 0 <= b < |names|
  {
    var lo, hi := if names[a] < names[b] then names[a] else names[b], if names[a] < names[b] then names[b] else names[a];
    seq(|names|, i requires 0 <= i < |names| => if names[i] == hi then lo else names[i])
  }

  lemma RelabelledLeast(n: nat, edges: seq<(int, int)>, names: seq<int>, a: int, b: int)
    requires LeastLabels(n, edges, names) && 0 <= a < n && 0 <= b < n
    ensures LeastLabels(n, edges + [(a, b)], Relabelled(names, a, b))
  {
    var edges', names' := edges + [(a, b)], Relabelled(names, a, b);
    assert Respects(names', edges') by {
      forall t | 0 <= t < |edges'| ensures names'[edges'[t].0] == names'[edges'[t].1] {
        if t < |edges| {
          assert edges'[t] == edges[t];
        }
      }
    }
    forall f: seq<int>, i | |f| == n && Respects(f, edges') && 0 <= i < n ensures f[names'[i]] == f[i] {
      assert Respects(f, edges) by {
        forall t | 0 <= t < |edges|
          ensures 0 <= edges[t].0 < |f| && 0 <= edges[t].1 < |f| && f[edges[t].0] == f[edges[t].1]
        {
          assert edges'[t] == edges[t];
        }
      }
      assert edges'[|edges|] == (a, b);
      assert f[names[i]] == f[i] && f[names[a]] == f[a] && f[names[b]] == f[b];
    }
  }

  lemma IdentityLeast(n: nat)
    ensures LeastLabels(n, [], seq(n, i => i))
  {
  }

  /** Pointing an index at its root moves nothing to another component. */
  lemma {:induction false} CompressKeepsRoot(parent: seq<int>, i: int, j: int)
    requires Forest(parent) && 0 <= i < |parent| && 0 <= j < |parent|
    ensures Forest(parent[i := Root(parent, i)])
    ensures Root(parent[i := Root(parent, i)], j) == Root(parent, j)
    decreases j
  {
    var parent' := parent[i := Root(parent, i)];
    if parent[j] != j {
      CompressKeepsRoot(parent, i, parent[j]);
      if j == i {
        var r := Root(parent, i);
        assert parent'[r] == r;
      }
    }
  }

  lemma {:induction false} LinkRelabels(parent: seq<int>, lo: int, hi: int, j: int)
    requires Forest(parent) && 0 <= lo <= hi < |parent| && parent[lo] == lo && parent[hi] == hi && 0 <= j < |parent|
    ensures Forest(parent[hi := lo])
    ensures Root(parent[hi := lo], j) == if Root(parent, j) == hi then lo else Root(parent, j)
    decreases j
  {
    if parent[j] != j {
      LinkRelabels(parent, lo, hi, parent[j]);
    }
  }

  class Sets {
    const parent: array<int>
    /** Every pair joined so far. */
    ghost var joined: seq<(int, int)>

    /** Every index has a root. */
    ghost predicate Rooted()
      reads parent
    {
      Forest(parent[..])
    }

    /** And the roots name the components generated by exactly the pairs joined. */
    ghost predicate Valid()
      reads this, parent
    {
      && Rooted()
      && Pairs(parent.Length, joined)
      && LeastLabels(parent.Length, joined, Roots(parent[..]))
    }

    constructor (n: nat)
      ensures Valid() && fresh(parent) && parent.Length == n && joined == []
    {
      parent := new int[n](i => i);
      joined := [];
      new;
      IdentityLeast(n);
      assert Roots(parent[..]) == seq(n, i => i);
    }

    /** The least index of i's component. Paths are compressed, but no component changes. */
    method Find(i: int) returns (r: int)
      requires Rooted() && 0 <= i < parent.Length
      modifies parent
      ensures Rooted() && Roots(parent[..]) == old(Roots(parent[..]))
      ensures r == Roots(parent[..])[i] && parent[i] == r
      decreases i
    {
      ghost var before := parent[..];
      if parent[i] != i {
        r := Find(parent[i]);
        ghost var mid := parent[..];
        assert r == Root(before, before[i]) == Root(before, i) == Roots(mid)[i] == Root(mid, i);
        parent[i] := r;
        assert parent[..] == mid[i := r];
        forall j | 0 <= j < parent.Length ensures Forest(parent[..]) && Root(parent[..], j) == Root(mid, j) {
          CompressKeepsRoot(mid, i, j);
        }
        assert Roots(parent[..]) == Roots(mid);
      }
      r := parent[i];
    }

    /** Joins the components of a and b. */
    method Union(a: int, b: int)
      requires Valid() && 0 <= a < parent.Length && 0 <= b < parent.Length
      modifies this, parent
      ensures Valid() && joined == old(joined) + [(a, b)]
      ensures Roots(parent[..]) == Relabelled(old(Roots(parent[..])), a, b)
    {
      var ra := Find(a);
      var rb := Find(b);
      ghost var mid := parent[..];
      ghost var labels := Roots(mid);
      var lo, hi := if ra < rb then ra else rb, if ra < rb then rb else ra;
      assert Root(mid, a) == ra && Root(mid, b) == rb;
      parent[hi] := lo;
      assert parent[..] == mid[hi := lo];
      forall j | 0 <= j < parent.Length
        ensures Forest(parent[..]) && Root(parent[..], j) == if Root(mid, j) == hi then lo else Root(mid, j)
      {
        LinkRelabels(mid, lo, hi, j);
      }
      LinkRelabels(mid, lo, hi, a);
      assert Roots(parent[..]) == Relabelled(labels, a, b);
      RelabelledLeast(parent.Length, joined, labels, a, b);
      joined := joined + [(a, b)];
    }
  }
}
