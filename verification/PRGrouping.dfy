/** groupByPullRequest: the components of "share an undisputed pull request". */
module PRGrouping {
  import opened Events
  import opened Clusters
  import opened Ordering
  import opened UnionFind
  import opened PRGroups

  /** The pairs joined for one pull request: its first holder with each of the next n - 1. */
  ghost function HolderEdges(hs: seq<int>, n: nat): seq<(int, int)>
    requires n <= |hs|
  {
    if n <= 1 then [] else HolderEdges(hs, n - 1) + [(hs[0], hs[n - 1])]
  }

  /** The pairs joined for each of some pull requests, in turn. */
  ghost function PREdges(rs: seq<ClusterResult>, prs: seq<string>): seq<(int, int)> {
    if prs == [] then []
    else
      var hs := Holders(rs, prs[|prs| - 1], |rs|);
      PREdges(rs, prs[..|prs| - 1]) + HolderEdges(hs, |hs|)
  }

  /** The pull requests two or more clusters hold, ascending. */
  ghost predicate SharedPRs(rs: seq<ClusterResult>, shared: seq<string>) {
    Ascending(shared) && forall pr :: pr in shared <==> |Holders(rs, pr, |rs|)| >= 2
  }

  lemma RespectsConcat(f: seq<int>, a: seq<(int, int)>, b: seq<(int, int)>)
    ensures Respects(f, a + b) <==> Respects(f, a) && Respects(f, b)
  {
    if Respects(f, a + b) {
      forall t | 0 <= t < |a|
        ensures 0 <= a[t].0 < |f| && 0 <= a[t].1 < |f| && f[a[t].0] == f[a[t].1]
      {
        assert (a + b)[t] == a[t];
      }
      forall t | 0 <= t < |b|
        ensures 0 <= b[t].0 < |f| && 0 <= b[t].1 < |f| && f[b[t].0] == f[b[t].1]
      {
        assert (a + b)[|a| + t] == b[t];
      }
    }
  }

  lemma {:induction false} HolderEdgesRespected(f: seq<int>, hs: seq<int>, n: nat)
    requires n <= |hs| && (forall t :: 0 <= t < |hs| ==> 0 <= hs[t] < |f|)
    ensures Respects(f, HolderEdges(hs, n)) <==> forall t :: 0 <= t < n ==> f[hs[t]] == f[hs[0]]
  {
    if n > 1 {
      HolderEdgesRespected(f, hs, n - 1);
      var last := [(hs[0], hs[n - 1])];
      RespectsConcat(f, HolderEdges(hs, n - 1), last);
      assert last[0] == (hs[0], hs[n - 1]);
    }
  }

  /** f labels every holder of pr alike. */
  ghost predicate HoldersAlike(rs: seq<ClusterResult>, f: seq<int>, pr: string) {
    |f| == |rs| && forall i, j :: Shares(rs, i, j, pr) ==> f[i] == f[j]
  }

  lemma HoldersAlikeExactly(rs: seq<ClusterResult>, f: seq<int>, pr: string)
    requires |f| == |rs|
    ensures var hs := Holders(rs, pr, |rs|);
            HoldersAlike(rs, f, pr) <==> Respects(f, HolderEdges(hs, |hs|))
  {
    var hs := Holders(rs, pr, |rs|);
    HoldersExactly(rs, pr, |rs|);
    HolderEdgesRespected(f, hs, |hs|);
    if HoldersAlike(rs, f, pr) {
      forall t | 0 <= t < |hs| ensures f[hs[t]] == f[hs[0]] {
        assert Shares(rs, hs[t], hs[0], pr);
      }
    }
    if forall t :: 0 <= t < |hs| ==> f[hs[t]] == f[hs[0]] {
      forall i, j | Shares(rs, i, j, pr) ensures f[i] == f[j] {
        assert i in hs && j in hs;
      }
    }
  }

  lemma {:induction false} PREdgesRespected(rs: seq<ClusterResult>, f: seq<int>, prs: seq<string>)
    requires |f| == |rs|
    ensures Respects(f, PREdges(rs, prs)) <==> forall pr :: pr in prs ==> HoldersAlike(rs, f, pr)
  {
    if prs != [] {
      var n := |prs| - 1;
      var hs := Holders(rs, prs[n], |rs|);
      PREdgesRespected(rs, f, prs[..n]);
      RespectsConcat(f, PREdges(rs, prs[..n]), HolderEdges(hs, |hs|));
      HoldersAlikeExactly(rs, f, prs[n]);
      assert prs == prs[..n] + [prs[n]];
    }
  }

  /** Joining each shared pull request's holders to its first groups exactly the clusters that share one. */
  lemma EdgesGiveGroups(rs: seq<ClusterResult>, shared: seq<string>, group: seq<int>)
    requires SharedPRs(rs, shared) && LeastLabels(|rs|, PREdges(rs, shared), group)
    ensures GroupLabels(rs, group)
  {
    forall f: seq<int> | |f| == |rs| ensures KeepsTogether(rs, f) <==> Respects(f, PREdges(rs, shared)) {
      PREdgesRespected(rs, f, shared);
      if Respects(f, PREdges(rs, shared)) {
        forall i, j, pr | Shares(rs, i, j, pr) ensures f[i] == f[j] {
          HoldersExactly(rs, pr, |rs|);
          if i != j {
            assert pr in shared;
            assert HoldersAlike(rs, f, pr);
          }
        }
      }
    }
  }

  method JoinHolders(sets: Sets, hs: seq<int>)
    requires sets.Valid() && hs != [] && (forall t :: 0 <= t < |hs| ==> 0 <= hs[t] < sets.parent.Length)
    modifies sets, sets.parent
    ensures sets.Valid() && sets.joined == old(sets.joined) + HolderEdges(hs, |hs|)
  {
    for t := 1 to |hs|
      invariant sets.Valid() && sets.joined == old(sets.joined) + HolderEdges(hs, t)
    {
      sets.Union(hs[0], hs[t]);
    }
  }

  lemma PREdgesMore(rs: seq<ClusterResult>, prs: seq<string>, pr: string)
    ensures PREdges(rs, prs + [pr]) == PREdges(rs, prs) + HolderEdges(Holders(rs, pr, |rs|), |Holders(rs, pr, |rs|)|)
  {
    assert (prs + [pr])[..|prs|] == prs;
  }

  /** Some of the names before the t-th, in order, and then the t-th. */
  lemma StillAscending(some: seq<string>, prs: seq<string>, t: nat)
    requires Ascending(some) && Ascending(prs) && t < |prs| && forall pr :: pr in some ==> pr in prs[..t]
    ensures Ascending(some + [prs[t]])
  {
    forall u | 0 <= u < |some| ensures Before(some[u], prs[t]) {
      assert some[u] in prs[..t];
    }
  }

  /** Joins the holders of every pull request two or more clusters hold, in order. */
  method JoinShared(rs: seq<ClusterResult>, holders: map<string, seq<int>>) returns (sets: Sets, shared: seq<string>)
    requires forall pr :: Recorded(holders, pr) == Holders(rs, pr, |rs|)
    ensures fresh(sets) && fresh(sets.parent) && sets.Valid() && sets.parent.Length == |rs|
    ensures SharedPRs(rs, shared) && sets.joined == PREdges(rs, shared)
  {
    sets := new Sets(|rs|);
    shared := [];
    var prs := Sorted(holders.Keys);
    for t := 0 to |prs|
      invariant fresh(sets) && fresh(sets.parent) && sets.Valid() && sets.parent.Length == |rs|
      invariant Ascending(shared) && sets.joined == PREdges(rs, shared)
      invariant forall pr :: pr in shared <==> pr in prs[..t] && |Recorded(holders, pr)| >= 2
    {
      var pr := prs[t];
      assert prs[..t + 1] == prs[..t] + [pr];
      var hs := holders[pr];
      assert hs == Recorded(holders, pr) == Holders(rs, pr, |rs|);
      if |hs| >= 2 {
        HoldersExactly(rs, pr, |rs|);
        PREdgesMore(rs, shared, pr);
        StillAscending(shared, prs, t);
        shared := shared + [pr];
        JoinHolders(sets, hs);
      }
    }
    assert prs[..|prs|] == prs;
    SharedAll(rs, holders, prs, shared);
  }

  lemma SharedAll(rs: seq<ClusterResult>, holders: map<string, seq<int>>, prs: seq<string>, shared: seq<string>)
    requires forall pr :: Recorded(holders, pr) == Holders(rs, pr, |rs|)
    requires forall pr :: pr in prs <==> pr in holders
    requires Ascending(shared) && forall pr :: pr in shared <==> pr in prs && |Recorded(holders, pr)| >= 2
    ensures SharedPRs(rs, shared)
  {
    forall pr ensures pr in shared <==> |Holders(rs, pr, |rs|)| >= 2 {
      assert Recorded(holders, pr) == Holders(rs, pr, |rs|);
    }
  }

  /** The earliest clusters of the groups below n, ascending. */
  ghost function RootList(group: seq<int>, n: nat): seq<int>
    requires n <= |group|
  {
    if n == 0 then [] else if group[n - 1] == n - 1 then RootList(group, n - 1) + [n - 1] else RootList(group, n - 1)
  }

  /** byRoot files each of the first n clusters under its group's earliest. */
  ghost predicate Filed(byRoot: map<int, seq<int>>, group: seq<int>, n: nat)
    requires n <= |group|
  {
    && (forall r :: r in byRoot <==> GroupOf(group, r, n) != [])
    && (forall r :: r in byRoot ==> byRoot[r] == GroupOf(group, r, n))
  }

  function FileUnder(byRoot: map<int, seq<int>>, root: int, i: int): map<int, seq<int>> {
    byRoot[root := (if root in byRoot then byRoot[root] else []) + [i]]
  }

  lemma FileUnderFiles(byRoot: map<int, seq<int>>, group: seq<int>, i: nat)
    requires i < |group| && Filed(byRoot, group, i)
    ensures Filed(FileUnder(byRoot, group[i], i), group, i + 1)
  {
  }

  lemma {:induction false} NoneBefore(group: seq<int>, r: nat, n: nat)
    requires n <= r && n <= |group| && Rooted(group)
    ensures GroupOf(group, r, n) == []
  {
    if n > 0 { NoneBefore(group, r, n - 1); }
  }

  /** A cluster is the first filed under its root exactly when it is the root. */
  lemma FirstIsRoot(byRoot: map<int, seq<int>>, group: seq<int>, i: nat)
    requires i < |group| && Filed(byRoot, group, i)
    requires Rooted(group)
    ensures group[i] !in byRoot <==> group[i] == i
  {
    GroupOfExactly(group, group[i], i);
    if group[i] < i {
      assert group[i] in GroupOf(group, group[i], i);
    } else {
      NoneBefore(group, i, i);
    }
  }

  lemma FileStep(byRoot: map<int, seq<int>>, group: seq<int>, i: nat)
    requires i < |group| && Filed(byRoot, group, i) && Rooted(group)
    ensures Filed(FileUnder(byRoot, group[i], i), group, i + 1)
    ensures RootList(group, i + 1) == if group[i] !in byRoot then RootList(group, i) + [group[i]] else RootList(group, i)
  {
    FirstIsRoot(byRoot, group, i);
    FileUnderFiles(byRoot, group, i);
  }

  /** Every cluster filed under its group's earliest, and those earliest in order. */
  method FileByRoot(rs: seq<ClusterResult>, sets: Sets) returns (byRoot: map<int, seq<int>>, roots: seq<int>)
    requires sets.Rooted() && sets.parent.Length == |rs|
    modifies sets.parent
    ensures sets.Rooted() && Roots(sets.parent[..]) == old(Roots(sets.parent[..]))
    ensures roots == RootList(Roots(sets.parent[..]), |rs|)
    ensures Filed(byRoot, Roots(sets.parent[..]), |rs|)
  {
    ghost var group := Roots(sets.parent[..]);
    byRoot, roots := map[], [];
    for i := 0 to |rs|
      invariant sets.Rooted() && Roots(sets.parent[..]) == group
      invariant roots == RootList(group, i)
      invariant Filed(byRoot, group, i)
    {
      var root := sets.Find(i);
      FileStep(byRoot, group, i);
      if root !in byRoot {
        roots := roots + [root];
      }
      byRoot := FileUnder(byRoot, root, i);
    }
  }

  /** Each shared pull request filed under the root of its holders' group. */
  method FileShared(rs: seq<ClusterResult>, sets: Sets, holders: map<string, seq<int>>, shared: seq<string>)
    returns (prs: map<int, seq<string>>)
    requires sets.Rooted() && sets.parent.Length == |rs|
    requires forall pr :: Recorded(holders, pr) == Holders(rs, pr, |rs|)
    requires forall t :: 0 <= t < |shared| ==> |Holders(rs, shared[t], |rs|)| >= 2
    modifies sets.parent
    ensures sets.Rooted() && Roots(sets.parent[..]) == old(Roots(sets.parent[..]))
    ensures SharedFiled(rs, Roots(sets.parent[..]), shared, prs)
  {
    ghost var group := Roots(sets.parent[..]);
    prs := map[];
    for t := 0 to |shared|
      invariant sets.Rooted() && Roots(sets.parent[..]) == group
      invariant SharedFiled(rs, group, shared[..t], prs)
    {
      HoldersExactly(rs, shared[t], |rs|);
      var hs := Recorded(holders, shared[t]);
      assert hs == Holders(rs, shared[t], |rs|);
      var root := sets.Find(hs[0]);
      SharedFiledStep(rs, group, shared, t, prs);
      prs := prs[root := (if root in prs then prs[root] else []) + [shared[t]]];
    }
    assert shared[..|shared|] == shared;
  }

  /** prs files each shared pull request under its holders' group. */
  ghost predicate SharedFiled(rs: seq<ClusterResult>, group: seq<int>, shared: seq<string>, prs: map<int, seq<string>>)
    requires |group| == |rs|
    requires forall t :: 0 <= t < |shared| ==> |Holders(rs, shared[t], |rs|)| >= 1
  {
    forall r :: (if r in prs then prs[r] else []) == SharedIn(rs, group, shared, r)
  }

  lemma SharedFiledStep(rs: seq<ClusterResult>, group: seq<int>, shared: seq<string>, t: nat, prs: map<int, seq<string>>)
    requires |group| == |rs| && t < |shared|
    requires forall u :: 0 <= u < |shared| ==> |Holders(rs, shared[u], |rs|)| >= 2
    requires SharedFiled(rs, group, shared[..t], prs)
    ensures var hs := Holders(rs, shared[t], |rs|);
            && 0 <= hs[0] < |rs|
            && var root := group[hs[0]];
               SharedFiled(rs, group, shared[..t + 1], prs[root := (if root in prs then prs[root] else []) + [shared[t]]])
  {
    SharedStep(rs, group, shared, t);
  }

  lemma SharedStep(rs: seq<ClusterResult>, group: seq<int>, shared: seq<string>, t: nat)
    requires |group| == |rs| && t < |shared|
    requires forall u :: 0 <= u < |shared| ==> |Holders(rs, shared[u], |rs|)| >= 2
    ensures var hs := Holders(rs, shared[t], |rs|);
            && 0 <= hs[0] < |rs|
            && forall r :: SharedIn(rs, group, shared[..t + 1], r) ==
                 SharedIn(rs, group, shared[..t], r) + if group[hs[0]] == r then [shared[t]] else []
  {
    HoldersExactly(rs, shared[t], |rs|);
    assert shared[..t + 1][..t] == shared[..t] && shared[..t + 1][t] == shared[t];
  }

  /** Those of some clusters whose group has two or more. */
  ghost function Leading(group: seq<int>, roots: seq<int>): seq<int> {
    if roots == [] then []
    else
      var before, r := Leading(group, roots[..|roots| - 1]), roots[|roots| - 1];
      if |GroupOf(group, r, |group|)| > 1 then before + [r] else before
  }

  lemma {:induction false} NotARoot(group: seq<int>, r: nat, n: nat)
    requires n <= |group| && r < |group| && group[r] != r && Rooted(group)
    ensures GroupOf(group, r, n) == []
  {
    if n > 0 { NotARoot(group, r, n - 1); }
  }

  lemma LeadingMore(group: seq<int>, roots: seq<int>, r: int)
    ensures Leading(group, roots + [r]) == if |GroupOf(group, r, |group|)| > 1 then Leading(group, roots) + [r] else Leading(group, roots)
  {
    assert (roots + [r])[..|roots + [r]| - 1] == roots;
  }

  lemma {:induction false} LeadersAreRoots(group: seq<int>, n: nat)
    requires n <= |group| && Rooted(group)
    ensures Leading(group, RootList(group, n)) == Leaders(group, n)
  {
    if n > 0 {
      LeadersAreRoots(group, n - 1);
      if group[n - 1] == n - 1 {
        LeadingMore(group, RootList(group, n - 1), n - 1);
      } else {
        NotARoot(group, n - 1, |group|);
      }
    }
  }

  lemma {:induction false} NoLeaders(group: seq<int>, n: nat)
    requires n <= |group| && (forall i :: 0 <= i < |group| ==> group[i] == i)
    ensures Leaders(group, n) == []
  {
    if n > 0 {
      NoLeaders(group, n - 1);
      AloneInGroup(group, n - 1, |group|);
    }
  }

  /** With no shared pull request, every cluster is on its own. */
  lemma NoShareNoGroup(rs: seq<ClusterResult>, group: seq<int>)
    requires GroupLabels(rs, group) && SharedPRs(rs, [])
    ensures Leaders(group, |rs|) == []
  {
    var id := seq(|rs|, i => i);
    assert KeepsTogether(rs, id) by {
      forall i, j, pr | Shares(rs, i, j, pr) ensures id[i] == id[j] {
        HoldersExactly(rs, pr, |rs|);
        assert pr !in [];
      }
    }
    forall i | 0 <= i < |rs| ensures group[i] == i {
      assert id[group[i]] == id[i];
    }
    NoLeaders(group, |rs|);
  }

  lemma {:induction false} AloneInGroup(group: seq<int>, r: nat, n: nat)
    requires n <= |group| && (forall i :: 0 <= i < |group| ==> group[i] == i)
    ensures GroupOf(group, r, n) == if r < n then [r] else []
  {
    if n > 0 { AloneInGroup(group, r, n - 1); }
  }

  /** groups are those of the one labelling by connected clusters, with the pull requests two or more clusters hold. */
  ghost predicate GroupsOf(rs: seq<ClusterResult>, groups: seq<PRGroup>) {
    exists group, shared :: Groups(rs, group, shared, groups)
  }

  ghost predicate Groups(rs: seq<ClusterResult>, group: seq<int>, shared: seq<string>, groups: seq<PRGroup>) {
    GroupLabels(rs, group) && SharedPRs(rs, shared) && groups == GroupsLed(rs, group, shared, Leaders(group, |rs|))
  }

  /** Only one list of groups is. */
  lemma GroupsUnique(rs: seq<ClusterResult>, a: seq<PRGroup>, b: seq<PRGroup>)
    requires GroupsOf(rs, a) && GroupsOf(rs, b)
    ensures a == b
  {
    var g, s :| Groups(rs, g, s, a);
    var h, t :| Groups(rs, h, t, b);
    GroupLabelsUnique(rs, g, h);
    SharedUnique(rs, s, t);
  }

  lemma SharedUnique(rs: seq<ClusterResult>, s: seq<string>, t: seq<string>)
    requires SharedPRs(rs, s) && SharedPRs(rs, t)
    ensures s == t
  {
    AscendingUnique(s, t);
  }

  /**
   * Every group of two or more clusters connected by shared, undisputed pull requests, by
   * earliest cluster, with the pull requests they share.
   */
  method GroupByPullRequest(rs: seq<ClusterResult>)
    returns (groups: seq<PRGroup>, ghost group: seq<int>, ghost shared: seq<string>)
    ensures GroupLabels(rs, group) && SharedPRs(rs, shared)
    ensures groups == GroupsLed(rs, group, shared, Leaders(group, |rs|))
    ensures GroupsOf(rs, groups)
  {
    var holders := UndisputedPRHolders(rs);
    var sets, prs := JoinShared(rs, holders);
    shared := prs;
    group := Roots(sets.parent[..]);
    EdgesGiveGroups(rs, shared, group);
    if |prs| == 0 {
      NoShareNoGroup(rs, group);
      assert Groups(rs, group, shared, []);
      return [], group, shared;
    }
    var byRoot, roots := FileByRoot(rs, sets);
    var prsOf := FileShared(rs, sets, holders, prs);
    groups := CollectGroups(rs, byRoot, roots, prsOf, group, shared);
    assert Groups(rs, group, shared, groups);
  }

  method CollectGroups(rs: seq<ClusterResult>, byRoot: map<int, seq<int>>, roots: seq<int>, prsOf: map<int, seq<string>>,
                       ghost group: seq<int>, ghost shared: seq<string>)
    returns (groups: seq<PRGroup>)
    requires |group| == |rs| && Rooted(group) && roots == RootList(group, |rs|) && Filed(byRoot, group, |rs|)
    requires forall t :: 0 <= t < |shared| ==> |Holders(rs, shared[t], |rs|)| >= 1
    requires SharedFiled(rs, group, shared, prsOf)
    ensures groups == GroupsLed(rs, group, shared, Leaders(group, |rs|))
  {
    groups := [];
    for t := 0 to |roots|
      invariant groups == GroupsLed(rs, group, shared, Leading(group, roots[..t]))
    {
      assert roots[..t + 1][..t] == roots[..t];
      var r := roots[t];
      if r in byRoot && |byRoot[r]| > 1 {
        groups := groups + [PRGroup(byRoot[r], if r in prsOf then prsOf[r] else [])];
      }
    }
    assert roots[..|roots|] == roots;
    LeadersAreRoots(group, |rs|);
  }
}
