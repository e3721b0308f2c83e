/** joinByPullRequest: one cluster for each group sharing a pull request, unless two stored narratives are in it. */
module PRJoin {
  import opened Events
  import opened Clusters
  import opened PRGroups
  import opened PRGrouping

  /** Some positions of rs. */
  ghost predicate Within(rs: seq<ClusterResult>, idxs: seq<int>) {
    forall t :: 0 <= t < |idxs| ==> 0 <= idxs[t] < |rs|
  }

  /** The stored narratives extended by the clusters at idxs. */
  function NarrativesIn(rs: seq<ClusterResult>, idxs: seq<int>): set<int>
    requires Within(rs, idxs)
  {
    set t | 0 <= t < |idxs| && rs[idxs[t]].kind == Extends :: rs[idxs[t]].narrativeID
  }

  /** The first of idxs that extends a narrative, or -1. */
  function FirstExtend(rs: seq<ClusterResult>, idxs: seq<int>): int
    requires Within(rs, idxs)
  {
    if idxs == [] then -1
    else
      var n := |idxs| - 1;
      var before := FirstExtend(rs, idxs[..n]);
      if before >= 0 then before else if rs[idxs[n]].kind == Extends then idxs[n] else -1
  }

  /** The cluster the others of a group join: its first extend, or its earliest. */
  function TargetOf(rs: seq<ClusterResult>, idxs: seq<int>): (target: int)
    requires Within(rs, idxs) && idxs != []
    ensures target in idxs && 0 <= target < |rs|
  {
    FirstExtendExactly(rs, idxs);
    if FirstExtend(rs, idxs) >= 0 then FirstExtend(rs, idxs) else idxs[0]
  }

  /** The clusters at idxs extend at most one stored narrative, and there is more than one. */
  predicate Joins(rs: seq<ClusterResult>, idxs: seq<int>)
    requires Within(rs, idxs)
  {
    |idxs| > 1 && |NarrativesIn(rs, idxs)| <= 1
  }

  /** rs[target] after taking in the first n of idxs other than itself. */
  function TakeGroup(rs: seq<ClusterResult>, idxs: seq<int>, target: int, n: nat): ClusterResult
    requires Within(rs, idxs) && n <= |idxs| && 0 <= target < |rs|
  {
    if n == 0 then rs[target]
    else
      var into, i := TakeGroup(rs, idxs, target, n - 1), idxs[n - 1];
      if i == target then into else Absorb(into, rs[i].events, rs[i].context, By(rs[i]))
  }

  lemma {:induction false} FirstExtendExactly(rs: seq<ClusterResult>, idxs: seq<int>)
    requires Within(rs, idxs)
    ensures var f := FirstExtend(rs, idxs);
            && (f >= 0 ==> f in idxs && f < |rs| && rs[f].kind == Extends)
            && (f < 0 ==> f == -1 && forall t :: 0 <= t < |idxs| ==> rs[idxs[t]].kind == New)
  {
    if idxs != [] {
      FirstExtendExactly(rs, idxs[..|idxs| - 1]);
      assert idxs == idxs[..|idxs| - 1] + [idxs[|idxs| - 1]];
    }
  }

  /** The clusters of i's group. */
  function Group(rs: seq<ClusterResult>, group: seq<int>, i: int): (idxs: seq<int>)
    requires |group| == |rs| && 0 <= i < |rs|
    ensures Within(rs, idxs)
  {
    GroupOfExactly(group, group[i], |rs|);
    GroupOf(group, group[i], |rs|)
  }

  /** The cluster whose place i's work ends in: its group's earliest if the group joins, else its own. */
  function Owner(rs: seq<ClusterResult>, group: seq<int>, i: int): int
    requires |group| == |rs| && 0 <= i < |rs|
  {
    if Joins(rs, Group(rs, group, i)) then group[i] else i
  }

  /** What stands in cluster i's place. */
  function JoinAt(rs: seq<ClusterResult>, group: seq<int>, i: int): ClusterResult
    requires |group| == |rs| && 0 <= i < |rs|
  {
    var idxs := Group(rs, group, i);
    if Joins(rs, idxs) then
      TakeGroup(rs, idxs, TargetOf(rs, idxs), |idxs|)
    else rs[i]
  }

  /** The clusters below n that keep a place. */
  function Survivors(rs: seq<ClusterResult>, group: seq<int>, n: nat): seq<int>
    requires |group| == |rs| && n <= |rs|
  {
    if n == 0 then []
    else if Owner(rs, group, n - 1) == n - 1 then Survivors(rs, group, n - 1) + [n - 1]
    else Survivors(rs, group, n - 1)
  }

  /** The first n clusters after the join. */
  function JoinedUpTo(rs: seq<ClusterResult>, group: seq<int>, n: nat): seq<ClusterResult>
    requires |group| == |rs| && n <= |rs|
  {
    if n == 0 then []
    else if Owner(rs, group, n - 1) == n - 1 then JoinedUpTo(rs, group, n - 1) + [JoinAt(rs, group, n - 1)]
    else JoinedUpTo(rs, group, n - 1)
  }

  /** One group left apart because it extends two stored narratives. */
  datatype Conflict = Conflict(pullRequests: seq<string>, clusters: seq<Label>)

  function Labels(rs: seq<ClusterResult>, idxs: seq<int>): seq<Label>
    requires Within(rs, idxs)
  {
    seq(|idxs|, t requires 0 <= t < |idxs| => LabelOf(rs[idxs[t]]))
  }

  ghost predicate AllWithin(rs: seq<ClusterResult>, groups: seq<PRGroup>) {
    forall t :: 0 <= t < |groups| ==> Within(rs, groups[t].indices)
  }

  function Conflicts(rs: seq<ClusterResult>, groups: seq<PRGroup>): seq<Conflict>
    requires AllWithin(rs, groups)
  {
    if groups == [] then []
    else
      var g := groups[|groups| - 1];
      var before := Conflicts(rs, groups[..|groups| - 1]);
      if |NarrativesIn(rs, g.indices)| > 1 then before + [Conflict(g.pullRequests, Labels(rs, g.indices))] else before
  }

  lemma {:induction false} RootFirst(group: seq<int>, r: nat, n: nat)
    requires n <= |group| && Rooted(group)
    ensures GroupOf(group, r, n) != [] ==> r < n && GroupOf(group, r, n)[0] == r && group[r] == r
  {
    if n > 0 {
      RootFirst(group, r, n - 1);
      if group[n - 1] == r && r < n - 1 {
        GroupOfExactly(group, r, n - 1);
        assert r in GroupOf(group, r, n - 1);
      }
    }
  }

  /** The cluster the rest of a group would join, and the stored narratives it would hold. */
  method PickTarget(rs: seq<ClusterResult>, idxs: seq<int>) returns (target: int, narratives: set<int>)
    requires Within(rs, idxs) && idxs != []
    ensures target == TargetOf(rs, idxs) && narratives == NarrativesIn(rs, idxs)
  {
    target := idxs[0];
    narratives := {};
    for t := 0 to |idxs|
      invariant narratives == NarrativesIn(rs, idxs[..t])
      invariant FirstExtend(rs, idxs[..t]) == (if narratives == {} then -1 else target)
      invariant narratives == {} ==> target == idxs[0]
    {
      NarrativesMore(rs, idxs, t);
      assert idxs[..t + 1][..t] == idxs[..t];
      FirstExtendExactly(rs, idxs[..t]);
      if rs[idxs[t]].kind == Extends {
        if narratives == {} {
          target := idxs[t];
        }
        narratives := narratives + {rs[idxs[t]].narrativeID};
      }
    }
    assert idxs[..|idxs|] == idxs;
    FirstExtendExactly(rs, idxs);
  }

  /** The target with every other cluster of its group taken in, and how many that was. */
  method TakeAll(rs: seq<ClusterResult>, idxs: seq<int>, target: int) returns (into: ClusterResult, taken: nat)
    requires Within(rs, idxs) && target in idxs && (forall t, u :: 0 <= t < u < |idxs| ==> idxs[t] < idxs[u])
    ensures into == TakeGroup(rs, idxs, target, |idxs|) && taken == |idxs| - 1
  {
    into := rs[target];
    taken := 0;
    ghost var p :| 0 <= p < |idxs| && idxs[p] == target;
    for t := 0 to |idxs|
      invariant into == TakeGroup(rs, idxs, target, t)
      invariant taken == if t <= p then t else t - 1
    {
      var i := idxs[t];
      if i != target {
        into := AbsorbInto(into, rs[i].events, rs[i].context, By(rs[i]));
        taken := taken + 1;
      }
    }
  }

  lemma NarrativesMore(rs: seq<ClusterResult>, idxs: seq<int>, t: nat)
    requires Within(rs, idxs) && t < |idxs|
    ensures NarrativesIn(rs, idxs[..t + 1]) ==
            NarrativesIn(rs, idxs[..t]) + if rs[idxs[t]].kind == Extends then {rs[idxs[t]].narrativeID} else {}
  {
    var next := idxs[..t + 1];
    forall id | id in NarrativesIn(rs, idxs[..t]) + (if rs[idxs[t]].kind == Extends then {rs[idxs[t]].narrativeID} else {})
      ensures id in NarrativesIn(rs, next)
    {
      var u :| 0 <= u <= t && rs[idxs[u]].kind == Extends && rs[idxs[u]].narrativeID == id;
      assert next[u] == idxs[u];
    }
    forall id | id in NarrativesIn(rs, next)
      ensures id in NarrativesIn(rs, idxs[..t]) + if rs[idxs[t]].kind == Extends then {rs[idxs[t]].narrativeID} else {}
    {
      var u :| 0 <= u < |next| && rs[next[u]].kind == Extends && rs[next[u]].narrativeID == id;
      if u < t { assert idxs[..t][u] == next[u]; }
    }
  }

  /** The clusters that lose their place to a group whose earliest cluster is one of `roots`. */
  ghost function AbsorbedBy(group: seq<int>, roots: set<int>): set<int> {
    set i | 0 <= i < |group| && group[i] in roots && group[i] != i
  }

  /** The joins made so far: what stands at each joined group's earliest cluster, and what lost its place. */
  ghost predicate JoinedSoFar(rs: seq<ClusterResult>, group: seq<int>, joined: map<int, ClusterResult>, absorbed: set<int>)
    requires |group| == |rs|
  {
    && (forall r :: r in joined ==> 0 <= r < |rs| && group[r] == r && Joins(rs, Group(rs, group, r)) && joined[r] == JoinAt(rs, group, r))
    && absorbed == AbsorbedBy(group, joined.Keys)
  }

  /** All but the first of the first n. */
  function Rest(idxs: seq<int>, n: nat): set<int>
    requires n <= |idxs|
  {
    set t | 0 < t < n :: idxs[t]
  }

  lemma AbsorbedMore(group: seq<int>, roots: set<int>, idxs: seq<int>)
    requires Rooted(group)
    requires idxs != [] && idxs == GroupOf(group, idxs[0], |group|) && idxs[0] !in roots
    ensures AbsorbedBy(group, roots + {idxs[0]}) == AbsorbedBy(group, roots) + Rest(idxs, |idxs|)
    ensures AbsorbedBy(group, roots) !! Rest(idxs, |idxs|)
  {
    GroupOfExactly(group, idxs[0], |group|);
    RootFirst(group, idxs[0], |group|);
    var more := Rest(idxs, |idxs|);
    forall i | i in AbsorbedBy(group, roots + {idxs[0]}) && group[i] !in roots ensures i in more {
      assert i in idxs;
      var t :| 0 <= t < |idxs| && idxs[t] == i;
      assert t != 0;
    }
    forall i | i in more ensures i in AbsorbedBy(group, roots + {idxs[0]}) && i !in AbsorbedBy(group, roots) {
      var t :| 0 < t < |idxs| && idxs[t] == i;
      assert idxs[0] < idxs[t];
    }
  }

  lemma RestMore(idxs: seq<int>, n: nat)
    requires 0 < n < |idxs| && (forall t, u :: 0 <= t < u < |idxs| ==> idxs[t] < idxs[u])
    ensures Rest(idxs, n + 1) == Rest(idxs, n) + {idxs[n]} && idxs[n] !in Rest(idxs, n)
    ensures idxs[n] in Rest(idxs, |idxs|)
  {
  }

  /** Marks every cluster of a group but its first. */
  method MarkRest(absorbed: set<int>, idxs: seq<int>) returns (marked: set<int>)
    requires idxs != [] && (forall t, u :: 0 <= t < u < |idxs| ==> idxs[t] < idxs[u])
    requires absorbed !! Rest(idxs, |idxs|)
    ensures marked == absorbed + Rest(idxs, |idxs|)
    ensures |marked| == |absorbed| + |idxs| - 1
  {
    marked := absorbed;
    for t := 1 to |idxs|
      invariant marked == absorbed + Rest(idxs, t)
      invariant |marked| == |absorbed| + t - 1
    {
      RestMore(idxs, t);
      marked := marked + {idxs[t]};
    }
  }

  /** joined holds a cluster for the groups of `leaders` that join, and only those. */
  ghost predicate JoinedThose(rs: seq<ClusterResult>, group: seq<int>, joined: map<int, ClusterResult>, leaders: seq<int>)
    requires |group| == |rs|
  {
    forall r :: r in joined <==> r in leaders && 0 <= r < |rs| && Joins(rs, Group(rs, group, r))
  }

  lemma LeaderGroup(rs: seq<ClusterResult>, group: seq<int>, r: nat)
    requires |group| == |rs| && Rooted(group) && r < |rs| && GroupOf(group, r, |rs|) != []
    ensures group[r] == r && Group(rs, group, r) == GroupOf(group, r, |rs|) && Group(rs, group, r)[0] == r
    ensures Within(rs, GroupOf(group, r, |rs|))
    ensures var idxs := Group(rs, group, r); forall t, u :: 0 <= t < u < |idxs| ==> idxs[t] < idxs[u]
  {
    RootFirst(group, r, |rs|);
    GroupOfExactly(group, r, |rs|);
  }

  lemma JoinedSoFarMore(rs: seq<ClusterResult>, group: seq<int>, joined: map<int, ClusterResult>, absorbed: set<int>,
                        idxs: seq<int>, more: set<int>)
    requires |group| == |rs| && Rooted(group) && |idxs| > 1 && 0 <= idxs[0] < |rs| && idxs == GroupOf(group, idxs[0], |rs|)
    requires JoinedSoFar(rs, group, joined, absorbed) && idxs[0] !in joined && Joins(rs, Group(rs, group, idxs[0]))
    requires more == Rest(idxs, |idxs|)
    ensures JoinedSoFar(rs, group, joined[idxs[0] := JoinAt(rs, group, idxs[0])], absorbed + more)
    ensures absorbed !! more
  {
    LeaderGroup(rs, group, idxs[0]);
    AbsorbedMore(group, joined.Keys, idxs);
    assert joined[idxs[0] := JoinAt(rs, group, idxs[0])].Keys == joined.Keys + {idxs[0]};
  }

  /** A group that joins: one cluster at its earliest's place, the others' places given up. */
  method FoldGroup(rs: seq<ClusterResult>, idxs: seq<int>, target: int, joined: map<int, ClusterResult>, absorbed: set<int>,
                   ghost group: seq<int>)
    returns (joined': map<int, ClusterResult>, absorbed': set<int>, joins: nat)
    requires |group| == |rs| && Rooted(group) && |idxs| > 1 && 0 <= idxs[0] < |rs| && idxs == GroupOf(group, idxs[0], |rs|)
    requires JoinedSoFar(rs, group, joined, absorbed) && idxs[0] !in joined && Joins(rs, Group(rs, group, idxs[0]))
    requires Within(rs, idxs) && target == TargetOf(rs, idxs)
    ensures JoinedSoFar(rs, group, joined', absorbed')
    ensures joined'.Keys == joined.Keys + {idxs[0]}
    ensures |absorbed'| == |absorbed| + joins
  {
    LeaderGroup(rs, group, idxs[0]);
    var into, taken := TakeAll(rs, idxs, target);
    assert into == JoinAt(rs, group, idxs[0]);
    JoinedSoFarMore(rs, group, joined, absorbed, idxs, Rest(idxs, |idxs|));
    joined' := joined[idxs[0] := into];
    absorbed' := MarkRest(absorbed, idxs);
    joins := taken;
  }

  method FoldGroups(rs: seq<ClusterResult>, groups: seq<PRGroup>, ghost group: seq<int>)
    returns (joined: map<int, ClusterResult>, absorbed: set<int>, joins: nat, conflicts: seq<Conflict>)
    requires |group| == |rs| && Rooted(group) && |groups| == |Leaders(group, |rs|)|
    requires forall t :: 0 <= t < |groups| ==> groups[t].indices == GroupOf(group, Leaders(group, |rs|)[t], |rs|)
    ensures AllWithin(rs, groups) && conflicts == Conflicts(rs, groups)
    ensures JoinedSoFar(rs, group, joined, absorbed) && JoinedThose(rs, group, joined, Leaders(group, |rs|))
    ensures joins == |absorbed|
  {
    ghost var leaders := Leaders(group, |rs|);
    LeadersExactly(group, |rs|);
    forall t | 0 <= t < |groups| ensures Within(rs, groups[t].indices) {
      LeaderGroup(rs, group, leaders[t]);
    }
    joined, absorbed, joins, conflicts := map[], {}, 0, [];
    assert AbsorbedBy(group, {}) == {};
    for t := 0 to |groups|
      invariant JoinedSoFar(rs, group, joined, absorbed) && JoinedThose(rs, group, joined, leaders[..t])
      invariant joins == |absorbed|
      invariant conflicts == Conflicts(rs, groups[..t])
    {
      assert groups[..t + 1][..t] == groups[..t];
      var g := groups[t];
      LeaderGroup(rs, group, leaders[t]);
      ghost var was := joined;
      var target, narratives := PickTarget(rs, g.indices);
      if |narratives| > 1 {
        conflicts := conflicts + [Conflict(g.pullRequests, Labels(rs, g.indices))];
      } else {
        var more;
        joined, absorbed, more := FoldGroup(rs, g.indices, target, joined, absorbed, group);
        joins := joins + more;
      }
      JoinedThoseMore(rs, group, was, joined, leaders, t);
    }
    assert groups[..|groups|] == groups && leaders[..|leaders|] == leaders;
  }

  lemma JoinedThoseMore(rs: seq<ClusterResult>, group: seq<int>, was: map<int, ClusterResult>, joined: map<int, ClusterResult>,
                        leaders: seq<int>, t: nat)
    requires |group| == |rs| && t < |leaders| && 0 <= leaders[t] < |rs| && JoinedThose(rs, group, was, leaders[..t])
    requires joined.Keys == if Joins(rs, Group(rs, group, leaders[t])) then was.Keys + {leaders[t]} else was.Keys
    ensures JoinedThose(rs, group, joined, leaders[..t + 1])
  {
    assert leaders[..t + 1] == leaders[..t] + [leaders[t]];
  }

  /** A cluster keeps its place unless its group joined without it as the earliest. */
  lemma PlacesKept(rs: seq<ClusterResult>, group: seq<int>, joined: map<int, ClusterResult>, absorbed: set<int>, i: nat)
    requires |group| == |rs| && Rooted(group) && i < |rs|
    requires JoinedSoFar(rs, group, joined, absorbed) && JoinedThose(rs, group, joined, Leaders(group, |rs|))
    ensures i in absorbed <==> Owner(rs, group, i) != i
    ensures i !in absorbed ==> JoinAt(rs, group, i) == if i in joined then joined[i] else rs[i]
  {
    LeadersExactly(group, |rs|);
    var r := group[i];
    GroupOfExactly(group, r, |rs|);
    assert i in GroupOf(group, r, |rs|);
    LeaderGroup(rs, group, r);
    assert Group(rs, group, i) == Group(rs, group, r);
    assert |Group(rs, group, i)| > 1 ==> r in Leaders(group, |rs|);
  }

  lemma JoinedOneMore(rs: seq<ClusterResult>, group: seq<int>, joined: map<int, ClusterResult>, absorbed: set<int>, i: nat)
    requires |group| == |rs| && Rooted(group) && i < |rs|
    requires JoinedSoFar(rs, group, joined, absorbed) && JoinedThose(rs, group, joined, Leaders(group, |rs|))
    ensures JoinedUpTo(rs, group, i + 1) ==
            if i in absorbed then JoinedUpTo(rs, group, i)
            else JoinedUpTo(rs, group, i) + [if i in joined then joined[i] else rs[i]]
  {
    PlacesKept(rs, group, joined, absorbed, i);
  }

  ghost function Below(s: set<int>, n: int): set<int> {
    set j | j in s && j < n
  }

  lemma BelowMore(s: set<int>, n: int)
    ensures Below(s, n + 1) == (if n in s then Below(s, n) + {n} else Below(s, n)) && n !in Below(s, n)
  {
  }

  lemma EmitStep(rs: seq<ClusterResult>, group: seq<int>, joined: map<int, ClusterResult>, absorbed: set<int>, i: nat)
    requires |group| == |rs| && Rooted(group) && i < |rs|
    requires JoinedSoFar(rs, group, joined, absorbed) && JoinedThose(rs, group, joined, Leaders(group, |rs|))
    ensures JoinedUpTo(rs, group, i + 1) ==
            if i in absorbed then JoinedUpTo(rs, group, i)
            else JoinedUpTo(rs, group, i) + [if i in joined then joined[i] else rs[i]]
    ensures |Below(absorbed, i + 1)| == |Below(absorbed, i)| + if i in absorbed then 1 else 0
  {
    JoinedOneMore(rs, group, joined, absorbed, i);
    BelowMore(absorbed, i);
  }

  lemma AllBelow(rs: seq<ClusterResult>, group: seq<int>, joined: map<int, ClusterResult>, absorbed: set<int>)
    requires |group| == |rs| && Rooted(group) && JoinedSoFar(rs, group, joined, absorbed)
    ensures Below(absorbed, 0) == {} && Below(absorbed, |rs|) == absorbed
  {
  }

  method EmitJoined(rs: seq<ClusterResult>, joined: map<int, ClusterResult>, absorbed: set<int>, ghost group: seq<int>)
    returns (out: seq<ClusterResult>)
    requires |group| == |rs| && Rooted(group)
    requires JoinedSoFar(rs, group, joined, absorbed) && JoinedThose(rs, group, joined, Leaders(group, |rs|))
    ensures out == JoinedUpTo(rs, group, |rs|)
    ensures |out| + |absorbed| == |rs|
  {
    out := [];
    AllBelow(rs, group, joined, absorbed);
    for i := 0 to |rs|
      invariant out == JoinedUpTo(rs, group, i)
      invariant |out| + |Below(absorbed, i)| == i
    {
      EmitStep(rs, group, joined, absorbed, i);
      if i !in absorbed {
        out := out + [if i in joined then joined[i] else rs[i]];
      }
    }
  }

  /** out is rs with the groups of the one labelling by connected clusters joined. */
  ghost predicate JoinOf(rs: seq<ClusterResult>, out: seq<ClusterResult>) {
    exists group :: JoinBy(rs, group, out)
  }

  ghost predicate JoinBy(rs: seq<ClusterResult>, group: seq<int>, out: seq<ClusterResult>) {
    GroupLabels(rs, group) && out == JoinedUpTo(rs, group, |rs|)
  }

  /**
   * The clusters with every group sharing a pull request joined into one, at its earliest
   * cluster's place, except the groups extending two stored narratives, which are reported.
   */
  method JoinByPullRequest(rs: seq<ClusterResult>)
    returns (out: seq<ClusterResult>, joins: nat, conflicts: seq<Conflict>, ghost group: seq<int>, ghost shared: seq<string>)
    ensures GroupLabels(rs, group) && SharedPRs(rs, shared)
    ensures out == JoinedUpTo(rs, group, |rs|)
    ensures |out| + joins == |rs| && JoinOf(rs, out)
    ensures var groups := GroupsLed(rs, group, shared, Leaders(group, |rs|));
            AllWithin(rs, groups) && conflicts == Conflicts(rs, groups)
  {
    var groups;
    groups, group, shared := GroupByPullRequest(rs);
    var joined, absorbed;
    joined, absorbed, joins, conflicts := FoldGroups(rs, groups, group);
    out := EmitJoined(rs, joined, absorbed, group);
    assert JoinBy(rs, group, out);
  }
}
