/** What the pull-request join keeps, and when joining again changes nothing. */
module PRJoinFacts {
  import opened Events
  import opened Clusters
  import opened Regrouping
  import opened PRGroups
  import opened PRGrouping
  import opened Ordering
  import PRJoin

  /** The clusters whose work ends in cluster i's place. */
  ghost function OwnedBy(rs: seq<ClusterResult>, group: seq<int>, i: int): set<int>
    requires |group| == |rs|
  {
    set j | 0 <= j < |rs| && PRJoin.Owner(rs, group, j) == i
  }

  ghost function JoinParts(rs: seq<ClusterResult>, group: seq<int>): seq<set<int>>
    requires |group| == |rs|
  {
    var kept := PRJoin.Survivors(rs, group, |rs|);
    seq(|kept|, p requires 0 <= p < |kept| => OwnedBy(rs, group, kept[p]))
  }

  lemma {:induction false} SurvivorsExactly(rs: seq<ClusterResult>, group: seq<int>, n: nat)
    requires |group| == |rs| && n <= |rs|
    ensures var kept := PRJoin.Survivors(rs, group, n);
            && (forall p :: 0 <= p < |kept| ==> 0 <= kept[p] < n && PRJoin.Owner(rs, group, kept[p]) == kept[p])
            && (forall p, q :: 0 <= p < q < |kept| ==> kept[p] < kept[q])
            && (forall i :: 0 <= i < n && PRJoin.Owner(rs, group, i) == i ==> i in kept)
  {
    if n > 0 { SurvivorsExactly(rs, group, n - 1); }
  }

  lemma {:induction false} SurvivorsJoined(rs: seq<ClusterResult>, group: seq<int>, n: nat)
    requires |group| == |rs| && n <= |rs|
    ensures |PRJoin.JoinedUpTo(rs, group, n)| == |PRJoin.Survivors(rs, group, n)|
    ensures forall p :: 0 <= p < |PRJoin.Survivors(rs, group, n)| ==>
              && 0 <= PRJoin.Survivors(rs, group, n)[p] < |rs|
              && PRJoin.JoinedUpTo(rs, group, n)[p] == PRJoin.JoinAt(rs, group, PRJoin.Survivors(rs, group, n)[p])
  {
    if n > 0 { SurvivorsJoined(rs, group, n - 1); }
  }

  /** Clusters of one group have one group. */
  lemma SameGroup(rs: seq<ClusterResult>, group: seq<int>, i: int)
    requires |group| == |rs| && Rooted(group) && 0 <= i < |rs|
    ensures PRJoin.Group(rs, group, i) == PRJoin.Group(rs, group, group[i])
    ensures PRJoin.Group(rs, group, i) == GroupOf(group, group[i], |rs|)
    ensures forall j :: 0 <= j < |rs| ==> (j in PRJoin.Group(rs, group, i) <==> group[j] == group[i])
  {
    GroupOfExactly(group, group[i], |rs|);
  }

  /** An owner owns itself. */
  lemma OwnerOwns(rs: seq<ClusterResult>, group: seq<int>, i: int)
    requires |group| == |rs| && Rooted(group) && 0 <= i < |rs|
    ensures var o := PRJoin.Owner(rs, group, i); 0 <= o < |rs| && PRJoin.Owner(rs, group, o) == o && group[o] == group[i]
  {
    SameGroup(rs, group, i);
  }

  lemma JoinPartition(rs: seq<ClusterResult>, group: seq<int>)
    requires |group| == |rs| && Rooted(group)
    ensures Partition(|rs|, JoinParts(rs, group))
  {
    var kept, parts := PRJoin.Survivors(rs, group, |rs|), JoinParts(rs, group);
    SurvivorsExactly(rs, group, |rs|);
    forall i | 0 <= i < |rs| ensures Covered(parts, i) {
      OwnerOwns(rs, group, i);
      var p :| 0 <= p < |kept| && kept[p] == PRJoin.Owner(rs, group, i);
      assert i in parts[p];
    }
  }

  ghost function TakenSoFar(idxs: seq<int>, target: int, n: nat): set<int>
    requires n <= |idxs|
  {
    if n == 0 then {target} else TakenSoFar(idxs, target, n - 1) + {idxs[n - 1]}
  }

  /** Taking a group in keeps every member, context event and confidence of every cluster of it. */
  lemma {:induction false} TakeGroupMerges(rs: seq<ClusterResult>, idxs: seq<int>, target: int, n: nat)
    requires AllWellFormed(rs) && PRJoin.Within(rs, idxs) && n <= |idxs| && 0 <= target < |rs|
    requires forall t :: 0 <= t < |idxs| ==> rs[idxs[t]].kind == New || rs[target].ExtendsID(rs[idxs[t]].narrativeID)
    ensures var r := PRJoin.TakeGroup(rs, idxs, target, n);
            && MergedFrom(r, rs, TakenSoFar(idxs, target, n)) && WellFormed(r)
            && r.kind == rs[target].kind && r.narrativeID == rs[target].narrativeID
            && r.title == rs[target].title && r.summary == rs[target].summary && r.confidence == rs[target].confidence
  {
    if n == 0 {
      MergedFromOne(rs, target);
    } else {
      TakeGroupMerges(rs, idxs, target, n - 1);
      var i := idxs[n - 1];
      var into, part := PRJoin.TakeGroup(rs, idxs, target, n - 1), TakenSoFar(idxs, target, n - 1);
      assert TakenSoFar(idxs, target, n) == part + {i};
      if i == target {
        TargetTaken(idxs, target, n - 1);
        assert part + {i} == part;
      } else {
        assert WellFormed(rs[i]);
        MergedFromMore(into, rs, part, i);
      }
    }
  }

  lemma {:induction false} TargetTaken(idxs: seq<int>, target: int, n: nat)
    requires n <= |idxs|
    ensures target in TakenSoFar(idxs, target, n)
    ensures forall i :: i in TakenSoFar(idxs, target, n) <==> i == target || i in idxs[..n]
  {
    if n > 0 {
      TargetTaken(idxs, target, n - 1);
      assert idxs[..n] == idxs[..n - 1] + [idxs[n - 1]];
    }
  }

  /** A group that joins has one stored narrative at most, and its target extends it. */
  lemma TargetExtends(rs: seq<ClusterResult>, idxs: seq<int>)
    requires PRJoin.Within(rs, idxs) && PRJoin.Joins(rs, idxs)
    ensures var target := PRJoin.TargetOf(rs, idxs);
            forall t :: 0 <= t < |idxs| ==> rs[idxs[t]].kind == New || rs[target].ExtendsID(rs[idxs[t]].narrativeID)
  {
    PRJoin.FirstExtendExactly(rs, idxs);
    var target, ids := PRJoin.TargetOf(rs, idxs), PRJoin.NarrativesIn(rs, idxs);
    forall t | 0 <= t < |idxs| && rs[idxs[t]].kind == Extends ensures rs[target].ExtendsID(rs[idxs[t]].narrativeID) {
      var u :| 0 <= u < |idxs| && idxs[u] == target;
      var a, b := rs[idxs[t]].narrativeID, rs[idxs[u]].narrativeID;
      assert a in ids && b in ids;
      assert |ids - {a}| == |ids| - 1;
      assert ids - {a} == {};
    }
  }

  /** No cluster of the list before t extends a stored narrative. */
  ghost predicate NoExtendBefore(rs: seq<ClusterResult>, idxs: seq<int>, t: int)
    requires PRJoin.Within(rs, idxs) && 0 <= t <= |idxs|
  {
    forall u :: 0 <= u < t ==> rs[idxs[u]].kind == New
  }

  lemma {:induction false} FirstExtendIsFirst(rs: seq<ClusterResult>, idxs: seq<int>)
    requires PRJoin.Within(rs, idxs)
    ensures PRJoin.FirstExtend(rs, idxs) >= 0 ==>
              exists t :: 0 <= t < |idxs| && idxs[t] == PRJoin.FirstExtend(rs, idxs) && NoExtendBefore(rs, idxs, t)
  {
    if idxs != [] {
      var n := |idxs| - 1;
      FirstExtendIsFirst(rs, idxs[..n]);
      PRJoin.FirstExtendExactly(rs, idxs[..n]);
      if PRJoin.FirstExtend(rs, idxs[..n]) >= 0 {
        var t :| 0 <= t < n && idxs[..n][t] == PRJoin.FirstExtend(rs, idxs[..n]) && NoExtendBefore(rs, idxs[..n], t);
        assert NoExtendBefore(rs, idxs, t) by {
          forall u | 0 <= u < t ensures rs[idxs[u]].kind == New { assert idxs[u] == idxs[..n][u]; }
        }
      } else if rs[idxs[n]].kind == Extends {
        assert NoExtendBefore(rs, idxs, n) by {
          forall u | 0 <= u < n ensures rs[idxs[u]].kind == New { assert idxs[u] == idxs[..n][u]; }
        }
      }
    }
  }

  /** A joined group keeps the words of its first extend, or, when all its clusters are new, of its earliest. */
  lemma JoinKeepsWords(rs: seq<ClusterResult>, group: seq<int>, i: int) returns (t: nat)
    requires AllWellFormed(rs) && |group| == |rs| && Rooted(group) && 0 <= i < |rs|
    requires PRJoin.Joins(rs, PRJoin.Group(rs, group, i))
    ensures var idxs, r := PRJoin.Group(rs, group, i), PRJoin.JoinAt(rs, group, i);
            && t < |idxs| && NoExtendBefore(rs, idxs, t) && (rs[idxs[t]].kind == New ==> t == 0 && NoExtendBefore(rs, idxs, |idxs|))
            && r.kind == rs[idxs[t]].kind && r.narrativeID == rs[idxs[t]].narrativeID
            && r.title == rs[idxs[t]].title && r.summary == rs[idxs[t]].summary && r.confidence == rs[idxs[t]].confidence
  {
    var idxs := PRJoin.Group(rs, group, i);
    PRJoin.FirstExtendExactly(rs, idxs);
    FirstExtendIsFirst(rs, idxs);
    TargetExtends(rs, idxs);
    TakeGroupMerges(rs, idxs, PRJoin.TargetOf(rs, idxs), |idxs|);
    t := 0;
    if PRJoin.FirstExtend(rs, idxs) >= 0 {
      t :| 0 <= t < |idxs| && idxs[t] == PRJoin.FirstExtend(rs, idxs) && NoExtendBefore(rs, idxs, t);
    }
  }

  lemma JoinedAt(rs: seq<ClusterResult>, group: seq<int>, i: int)
    requires AllWellFormed(rs) && |group| == |rs| && Rooted(group) && 0 <= i < |rs| && PRJoin.Owner(rs, group, i) == i
    ensures MergedFrom(PRJoin.JoinAt(rs, group, i), rs, OwnedBy(rs, group, i)) && WellFormed(PRJoin.JoinAt(rs, group, i))
  {
    var idxs := PRJoin.Group(rs, group, i);
    SameGroup(rs, group, i);
    if PRJoin.Joins(rs, idxs) {
      var target := PRJoin.TargetOf(rs, idxs);
      TargetExtends(rs, idxs);
      TakeGroupMerges(rs, idxs, target, |idxs|);
      TargetTaken(idxs, target, |idxs|);
      assert idxs[..|idxs|] == idxs;
      OwnedByGroup(rs, group, i);
      assert OwnedBy(rs, group, i) == TakenSoFar(idxs, target, |idxs|);
    } else {
      MergedFromOne(rs, i);
      OwnedAlone(rs, group, i);
    }
  }

  lemma OwnedByGroup(rs: seq<ClusterResult>, group: seq<int>, i: int)
    requires |group| == |rs| && Rooted(group) && 0 <= i < |rs| && PRJoin.Owner(rs, group, i) == i
    requires PRJoin.Joins(rs, PRJoin.Group(rs, group, i))
    ensures forall j :: j in OwnedBy(rs, group, i) <==> j in PRJoin.Group(rs, group, i)
  {
    forall j | 0 <= j < |rs| ensures PRJoin.Owner(rs, group, j) == i <==> group[j] == group[i] {
      OwnerOwns(rs, group, j);
      SameGroup(rs, group, j);
      SameGroup(rs, group, i);
    }
    SameGroup(rs, group, i);
  }

  lemma OwnedAlone(rs: seq<ClusterResult>, group: seq<int>, i: int)
    requires |group| == |rs| && Rooted(group) && 0 <= i < |rs|
    requires !PRJoin.Joins(rs, PRJoin.Group(rs, group, i))
    ensures OwnedBy(rs, group, i) == {i}
  {
    forall j | 0 <= j < |rs| && PRJoin.Owner(rs, group, j) == i ensures j == i {
      OwnerOwns(rs, group, j);
      SameGroup(rs, group, j);
      SameGroup(rs, group, i);
    }
  }

  /**
   * The join is a regrouping: every member stays a member and every context event stays
   * context unless its cluster now holds it, at the confidence it had, and no cluster of the
   * result holds the work of two stored narratives.
   */
  lemma JoinRegroups(rs: seq<ClusterResult>, group: seq<int>)
    requires AllWellFormed(rs) && |group| == |rs| && Rooted(group)
    ensures Regrouped(rs, PRJoin.JoinedUpTo(rs, group, |rs|), JoinParts(rs, group))
    ensures AllWellFormed(PRJoin.JoinedUpTo(rs, group, |rs|))
  {
    var kept, out, parts := PRJoin.Survivors(rs, group, |rs|), PRJoin.JoinedUpTo(rs, group, |rs|), JoinParts(rs, group);
    SurvivorsExactly(rs, group, |rs|);
    SurvivorsJoined(rs, group, |rs|);
    JoinPartition(rs, group);
    forall p | 0 <= p < |out| ensures MergedFrom(out[p], rs, parts[p]) && WellFormed(out[p]) {
      JoinedAt(rs, group, kept[p]);
    }
  }

  /** The work of clusters i and j ends in one cluster. */
  ghost predicate Together(rs: seq<ClusterResult>, group: seq<int>, i: int, j: int)
    requires |group| == |rs|
  {
    exists p :: 0 <= p < |JoinParts(rs, group)| && i in JoinParts(rs, group)[p] && j in JoinParts(rs, group)[p]
  }

  /** Clusters are joined exactly when a chain of shared pull requests connects them and their group extends at most one narrative. */
  lemma JoinedTogetherExactly(rs: seq<ClusterResult>, group: seq<int>, i: nat, j: nat)
    requires |group| == |rs| && Rooted(group) && i < |rs| && j < |rs|
    ensures Together(rs, group, i, j) <==> i == j || (group[i] == group[j] && |PRJoin.NarrativesIn(rs, PRJoin.Group(rs, group, i))| <= 1)
  {
    SameGroup(rs, group, i);
    SameGroup(rs, group, j);
    OwnerOwns(rs, group, i);
    OwnerOwns(rs, group, j);
    SurvivorsExactly(rs, group, |rs|);
    var kept, parts := PRJoin.Survivors(rs, group, |rs|), JoinParts(rs, group);
    var p :| 0 <= p < |kept| && kept[p] == PRJoin.Owner(rs, group, i);
    assert i in parts[p];
    if PRJoin.Owner(rs, group, i) == PRJoin.Owner(rs, group, j) {
      assert j in parts[p];
    }
    if i != j && group[i] == group[j] {
      assert i in PRJoin.Group(rs, group, i) && j in PRJoin.Group(rs, group, i);
      MoreThanOne(PRJoin.Group(rs, group, i), i, j);
    }
  }

  lemma MoreThanOne(s: seq<int>, i: int, j: int)
    requires i in s && j in s && i != j
    ensures |s| > 1
  {
  }

  // The groups left apart.

  /** Cluster r is the earliest of a group extending two stored narratives or more. */
  ghost predicate LeftApart(rs: seq<ClusterResult>, group: seq<int>, r: int)
    requires |group| == |rs|
  {
    0 <= r < |rs| && group[r] == r && |PRJoin.NarrativesIn(rs, PRJoin.Group(rs, group, r))| > 1
  }

  /** Two clusters of the group share the pull request. */
  ghost predicate SharedInGroup(rs: seq<ClusterResult>, group: seq<int>, r: int, pr: string)
    requires |group| == |rs|
  {
    exists i, j :: i != j && Shares(rs, i, j, pr) && group[i] == r
  }

  /** c names the clusters of the group, in order, and the pull requests they share, each once. */
  ghost predicate NamesGroup(rs: seq<ClusterResult>, group: seq<int>, r: int, c: PRJoin.Conflict)
    requires |group| == |rs| && 0 <= r < |rs|
  {
    && c.clusters == PRJoin.Labels(rs, PRJoin.Group(rs, group, r))
    && Ascending(c.pullRequests) && (forall pr :: pr in c.pullRequests <==> SharedInGroup(rs, group, r, pr))
  }

  /** The conflicts name the groups left apart and no other, each once, by earliest cluster. */
  ghost predicate ConflictsName(rs: seq<ClusterResult>, group: seq<int>, conflicts: seq<PRJoin.Conflict>, leaders: seq<int>)
    requires |group| == |rs|
  {
    && |leaders| == |conflicts|
    && (forall t, u :: 0 <= t < u < |leaders| ==> leaders[t] < leaders[u])
    && (forall t :: 0 <= t < |leaders| ==> LeftApart(rs, group, leaders[t]) && NamesGroup(rs, group, leaders[t], conflicts[t]))
    && (forall r :: LeftApart(rs, group, r) ==> r in leaders)
  }

  lemma {:induction false} SharedInExactly(rs: seq<ClusterResult>, group: seq<int>, shared: seq<string>, r: int)
    requires |group| == |rs| && Ascending(shared)
    requires forall t :: 0 <= t < |shared| ==> |Holders(rs, shared[t], |rs|)| >= 1
    ensures Ascending(SharedIn(rs, group, shared, r))
    ensures forall pr :: pr in SharedIn(rs, group, shared, r) <==> pr in shared && SharedAt(rs, group, r, pr)
  {
    if shared != [] {
      var n := |shared| - 1;
      SharedInExactly(rs, group, shared[..n], r);
      HoldersExactly(rs, shared[n], |rs|);
      assert shared == shared[..n] + [shared[n]];
      var before := SharedIn(rs, group, shared[..n], r);
      forall t | 0 <= t < |before| ensures Before(before[t], shared[n]) {
        assert before[t] in shared[..n];
      }
    }
  }

  /** The first holder of pr is in the group. */
  ghost predicate SharedAt(rs: seq<ClusterResult>, group: seq<int>, r: int, pr: string)
    requires |group| == |rs|
  {
    var hs := Holders(rs, pr, |rs|);
    hs != [] && 0 <= hs[0] < |rs| && group[hs[0]] == r
  }

  lemma SharedAtExactly(rs: seq<ClusterResult>, group: seq<int>, r: int, pr: string)
    requires GroupLabels(rs, group)
    ensures |Holders(rs, pr, |rs|)| >= 2 && SharedAt(rs, group, r, pr) <==> SharedInGroup(rs, group, r, pr)
  {
    var hs := Holders(rs, pr, |rs|);
    HoldersExactly(rs, pr, |rs|);
    if |hs| >= 2 && SharedAt(rs, group, r, pr) {
      assert hs[0] < hs[1] && Shares(rs, hs[0], hs[1], pr);
    }
    if SharedInGroup(rs, group, r, pr) {
      var i, j :| i != j && Shares(rs, i, j, pr) && group[i] == r;
      assert i in hs && j in hs;
      MoreThanOne(hs, i, j);
      assert Shares(rs, hs[0], i, pr);
    }
  }

  /** What is reported of a group left apart names it. */
  lemma ConflictNames(rs: seq<ClusterResult>, group: seq<int>, shared: seq<string>, r: int)
    requires GroupLabels(rs, group) && SharedPRs(rs, shared) && 0 <= r < |rs| && group[r] == r
    ensures forall t :: 0 <= t < |shared| ==> |Holders(rs, shared[t], |rs|)| >= 1
    ensures PRJoin.Group(rs, group, r) == GroupOf(group, r, |rs|)
    ensures NamesGroup(rs, group, r, PRJoin.Conflict(SharedIn(rs, group, shared, r), PRJoin.Labels(rs, PRJoin.Group(rs, group, r))))
  {
    assert forall t :: 0 <= t < |shared| ==> shared[t] in shared;
    SharedInExactly(rs, group, shared, r);
    forall pr ensures pr in SharedIn(rs, group, shared, r) <==> SharedInGroup(rs, group, r, pr) {
      SharedAtExactly(rs, group, r, pr);
    }
  }

  /** Of the groups led by `some`, the conflicts name those left apart, in order. */
  ghost predicate NamesAmong(
    rs: seq<ClusterResult>, group: seq<int>, some: seq<int>, conflicts: seq<PRJoin.Conflict>, leaders: seq<int>)
    requires |group| == |rs|
  {
    && |leaders| == |conflicts| && (forall t :: 0 <= t < |leaders| ==> leaders[t] in some)
    && (forall t, u :: 0 <= t < u < |leaders| ==> leaders[t] < leaders[u])
    && (forall t :: 0 <= t < |leaders| ==> LeftApart(rs, group, leaders[t]) && NamesGroup(rs, group, leaders[t], conflicts[t]))
    && (forall r :: r in some && LeftApart(rs, group, r) ==> r in leaders)
  }

  lemma NamesOneMore(
    rs: seq<ClusterResult>, group: seq<int>, some: seq<int>, conflicts: seq<PRJoin.Conflict>, leaders: seq<int>, r: int, c: PRJoin.Conflict)
    requires |group| == |rs| && NamesAmong(rs, group, some, conflicts, leaders) && forall x :: x in some ==> x < r
    ensures !LeftApart(rs, group, r) ==> NamesAmong(rs, group, some + [r], conflicts, leaders)
    ensures LeftApart(rs, group, r) && NamesGroup(rs, group, r, c) ==> NamesAmong(rs, group, some + [r], conflicts + [c], leaders + [r])
  {
  }

  lemma ConflictsMore(rs: seq<ClusterResult>, groups: seq<PRGroup>, n: nat)
    requires PRJoin.AllWithin(rs, groups) && n < |groups|
    ensures var g := groups[n];
            PRJoin.Conflicts(rs, groups[..n + 1]) == PRJoin.Conflicts(rs, groups[..n]) +
              if |PRJoin.NarrativesIn(rs, g.indices)| > 1 then [PRJoin.Conflict(g.pullRequests, PRJoin.Labels(rs, g.indices))] else []
  {
    assert groups[..n + 1][..n] == groups[..n];
  }

  /** The next leader comes after the ones before it, and what would be reported of its group names it. */
  lemma NextLeader(rs: seq<ClusterResult>, group: seq<int>, shared: seq<string>, n: nat)
    requires GroupLabels(rs, group) && SharedPRs(rs, shared) && n < |Leaders(group, |rs|)|
    requires forall t :: 0 <= t < |shared| ==> |Holders(rs, shared[t], |rs|)| >= 1
    ensures var all := Leaders(group, |rs|);
            var r, g := all[n], GroupsLed(rs, group, shared, all)[n];
            && (forall x :: x in all[..n] ==> x < r)
            && 0 <= r < |rs| && group[r] == r && g.indices == PRJoin.Group(rs, group, r)
            && NamesGroup(rs, group, r, PRJoin.Conflict(g.pullRequests, PRJoin.Labels(rs, PRJoin.Group(rs, group, r))))
  {
    LeadersExactly(group, |rs|);
    var all := Leaders(group, |rs|);
    PRJoin.LeaderGroup(rs, group, all[n]);
    ConflictNames(rs, group, shared, all[n]);
  }

  lemma {:induction false} ConflictsUpTo(rs: seq<ClusterResult>, group: seq<int>, shared: seq<string>, n: nat) returns (leaders: seq<int>)
    requires GroupLabels(rs, group) && SharedPRs(rs, shared) && n <= |Leaders(group, |rs|)|
    requires forall t :: 0 <= t < |shared| ==> |Holders(rs, shared[t], |rs|)| >= 1
    requires PRJoin.AllWithin(rs, GroupsLed(rs, group, shared, Leaders(group, |rs|)))
    ensures var all := Leaders(group, |rs|);
            NamesAmong(rs, group, all[..n], PRJoin.Conflicts(rs, GroupsLed(rs, group, shared, all)[..n]), leaders)
  {
    leaders := [];
    if n > 0 {
      var all := Leaders(group, |rs|);
      var led := GroupsLed(rs, group, shared, all);
      leaders := ConflictsUpTo(rs, group, shared, n - 1);
      NextLeader(rs, group, shared, n - 1);
      ConflictsMore(rs, led, n - 1);
      assert all[..n] == all[..n - 1] + [all[n - 1]];
      var conflicts := PRJoin.Conflicts(rs, led[..n - 1]);
      NamesOneMore(rs, group, all[..n - 1], conflicts, leaders, all[n - 1],
                   PRJoin.Conflict(led[n - 1].pullRequests, PRJoin.Labels(rs, led[n - 1].indices)));
      assert conflicts + [] == conflicts;
      if LeftApart(rs, group, all[n - 1]) {
        leaders := leaders + [all[n - 1]];
      }
    }
  }

  /** The conflicts reported are exactly the groups left apart. */
  lemma ConflictsExactly(rs: seq<ClusterResult>, group: seq<int>, shared: seq<string>) returns (leaders: seq<int>)
    requires GroupLabels(rs, group) && SharedPRs(rs, shared)
    requires forall t :: 0 <= t < |shared| ==> |Holders(rs, shared[t], |rs|)| >= 1
    requires PRJoin.AllWithin(rs, GroupsLed(rs, group, shared, Leaders(group, |rs|)))
    ensures ConflictsName(rs, group, PRJoin.Conflicts(rs, GroupsLed(rs, group, shared, Leaders(group, |rs|))), leaders)
  {
    var all := Leaders(group, |rs|);
    var led := GroupsLed(rs, group, shared, all);
    leaders := ConflictsUpTo(rs, group, shared, |all|);
    assert all[..|all|] == all && led[..|led|] == led;
    LeadersExactly(group, |rs|);
    forall r | LeftApart(rs, group, r) ensures r in all {
      PRJoin.LeaderGroup(rs, group, r) by { AloneIn(group, r); }
      TwoNarratives(rs, PRJoin.Group(rs, group, r));
    }
  }

  lemma AloneIn(group: seq<int>, r: nat)
    requires r < |group| && group[r] == r
    ensures GroupOf(group, r, |group|) != []
  {
    GroupOfExactly(group, r, |group|);
  }

  lemma TwoNarratives(rs: seq<ClusterResult>, idxs: seq<int>)
    requires PRJoin.Within(rs, idxs) && |PRJoin.NarrativesIn(rs, idxs)| > 1
    ensures |idxs| > 1
  {
    if |idxs| <= 1 {
      var ids := PRJoin.NarrativesIn(rs, idxs);
      assert ids <= if idxs == [] then {} else {rs[idxs[0]].narrativeID};
      OneElement(ids, if idxs == [] then {} else {rs[idxs[0]].narrativeID});
    }
  }

  lemma OneElement(a: set<int>, b: set<int>)
    requires a <= b
    ensures |a| <= |b|
  {
    assert b == a + (b - a);
  }
}
