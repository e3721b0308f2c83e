/** Which clusters of a pass share a pull request: the groups the join works on. */
module PRGroups {
  import opened Events
  import opened Clusters
  import opened Ordering
  import opened UnionFind

  /** How many of the first n clusters hold k as a member. */
  function Claims(rs: seq<ClusterResult>, k: EventKey, n: nat): nat
    requires n <= |rs|
  {
    if n == 0 then 0 else Claims(rs, k, n - 1) + if rs[n - 1].Holds(k) then 1 else 0
  }

  /** Cluster i holds pull request pr through a member no other cluster claims. */
  predicate HoldsPR(rs: seq<ClusterResult>, i: int, pr: string)
    requires 0 <= i < |rs|
  {
    pr != "" && exists e :: e in rs[i].events && e.pr == pr && Claims(rs, e.key, |rs|) == 1
  }

  /** The first n clusters holding pr so, ascending. */
  function Holders(rs: seq<ClusterResult>, pr: string, n: nat): seq<int>
    requires n <= |rs|
  {
    if n == 0 then []
    else if HoldsPR(rs, n - 1, pr) then Holders(rs, pr, n - 1) + [n - 1]
    else Holders(rs, pr, n - 1)
  }

  /** Two clusters hold one pull request. */
  ghost predicate Shares(rs: seq<ClusterResult>, i: int, j: int, pr: string) {
    0 <= i < |rs| && 0 <= j < |rs| && HoldsPR(rs, i, pr) && HoldsPR(rs, j, pr)
  }

  /** f gives clusters sharing a pull request one label. */
  ghost predicate KeepsTogether(rs: seq<ClusterResult>, f: seq<int>) {
    |f| == |rs| && forall i, j, pr :: Shares(rs, i, j, pr) ==> f[i] == f[j]
  }

  /** Each label is a label of itself, and no later than what it labels. */
  ghost predicate Rooted(group: seq<int>) {
    forall i :: 0 <= i < |group| ==> 0 <= group[i] <= i && group[group[i]] == group[i]
  }

  /**
   * `group[i]` is the earliest cluster connected to i by shared pull requests: the labels of
   * the least equivalence putting any two clusters that share one together.
   */
  ghost predicate GroupLabels(rs: seq<ClusterResult>, group: seq<int>) {
    && KeepsTogether(rs, group)
    && Rooted(group)
    && (forall f: seq<int>, i :: KeepsTogether(rs, f) && 0 <= i < |rs| ==> f[group[i]] == f[i])
  }

  lemma GroupLabelsUnique(rs: seq<ClusterResult>, a: seq<int>, b: seq<int>)
    requires GroupLabels(rs, a) && GroupLabels(rs, b)
    ensures a == b
  {
    forall i | 0 <= i < |rs| ensures a[i] == b[i] {
      assert a[b[i]] == a[i] && b[a[i]] == b[i];
    }
  }

  /** The clusters below n in the group of root r, ascending. */
  function GroupOf(group: seq<int>, r: int, n: nat): seq<int>
    requires n <= |group|
  {
    if n == 0 then [] else if group[n - 1] == r then GroupOf(group, r, n - 1) + [n - 1] else GroupOf(group, r, n - 1)
  }

  /** One set of clusters connected by shared pull requests, and the pull requests they share. */
  datatype PRGroup = PRGroup(indices: seq<int>, pullRequests: seq<string>)

  /** Those of `shared` whose holders are in the group of root r. */
  function SharedIn(rs: seq<ClusterResult>, group: seq<int>, shared: seq<string>, r: int): seq<string>
    requires |group| == |rs|
    requires forall t :: 0 <= t < |shared| ==> |Holders(rs, shared[t], |rs|)| >= 1
  {
    if shared == [] then []
    else
      var n := |shared| - 1;
      var before := SharedIn(rs, group, shared[..n], r);
      HoldersExactly(rs, shared[n], |rs|);
      if group[Holders(rs, shared[n], |rs|)[0]] == r then before + [shared[n]] else before
  }

  /** The clusters below n that are the earliest of a group of two or more, ascending. */
  function Leaders(group: seq<int>, n: nat): seq<int>
    requires n <= |group|
  {
    if n == 0 then []
    else if |GroupOf(group, n - 1, |group|)| > 1 then Leaders(group, n - 1) + [n - 1]
    else Leaders(group, n - 1)
  }

  /** The groups led by some clusters. */
  function GroupsLed(rs: seq<ClusterResult>, group: seq<int>, shared: seq<string>, leaders: seq<int>): seq<PRGroup>
    requires |group| == |rs|
    requires forall t :: 0 <= t < |shared| ==> |Holders(rs, shared[t], |rs|)| >= 1
  {
    seq(|leaders|, t requires 0 <= t < |leaders| =>
      PRGroup(GroupOf(group, leaders[t], |rs|), SharedIn(rs, group, shared, leaders[t])))
  }

  lemma {:induction false} LeadersExactly(group: seq<int>, n: nat)
    requires n <= |group|
    ensures forall t :: 0 <= t < |Leaders(group, n)| ==>
              0 <= Leaders(group, n)[t] < n && |GroupOf(group, Leaders(group, n)[t], |group|)| > 1
    ensures forall t, u :: 0 <= t < u < |Leaders(group, n)| ==> Leaders(group, n)[t] < Leaders(group, n)[u]
    ensures forall r :: 0 <= r < n && |GroupOf(group, r, |group|)| > 1 ==> r in Leaders(group, n)
  {
    if n > 0 { LeadersExactly(group, n - 1); }
  }

  lemma {:induction false} HoldersExactly(rs: seq<ClusterResult>, pr: string, n: nat)
    requires n <= |rs|
    ensures forall t :: 0 <= t < |Holders(rs, pr, n)| ==> 0 <= Holders(rs, pr, n)[t] < n && HoldsPR(rs, Holders(rs, pr, n)[t], pr)
    ensures forall t, u :: 0 <= t < u < |Holders(rs, pr, n)| ==> Holders(rs, pr, n)[t] < Holders(rs, pr, n)[u]
    ensures forall i :: 0 <= i < n && HoldsPR(rs, i, pr) ==> i in Holders(rs, pr, n)
  {
    if n > 0 { HoldersExactly(rs, pr, n - 1); }
  }

  lemma {:induction false} GroupOfExactly(group: seq<int>, r: int, n: nat)
    requires n <= |group|
    ensures forall t :: 0 <= t < |GroupOf(group, r, n)| ==> 0 <= GroupOf(group, r, n)[t] < n && group[GroupOf(group, r, n)[t]] == r
    ensures forall t, u :: 0 <= t < u < |GroupOf(group, r, n)| ==> GroupOf(group, r, n)[t] < GroupOf(group, r, n)[u]
    ensures forall i :: 0 <= i < n && group[i] == r ==> i in GroupOf(group, r, n)
  {
    if n > 0 { GroupOfExactly(group, r, n - 1); }
  }

  method CountClaims(rs: seq<ClusterResult>) returns (claims: map<EventKey, nat>)
    ensures forall k :: (if k in claims then claims[k] else 0) == Claims(rs, k, |rs|)
  {
    claims := map[];
    for i := 0 to |rs|
      invariant forall k :: (if k in claims then claims[k] else 0) == Claims(rs, k, i)
    {
      ghost var before := claims;
      var seen: set<EventKey> := {};
      for t := 0 to |rs[i].events|
        invariant seen == Keys(rs[i].events[..t])
        invariant forall k :: (if k in claims then claims[k] else 0) ==
                    (if k in before then before[k] else 0) + if k in seen then 1 else 0
      {
        var k := rs[i].events[t].key;
        assert rs[i].events[..t + 1] == rs[i].events[..t] + [rs[i].events[t]];
        KeysConcat(rs[i].events[..t], [rs[i].events[t]]);
        if k !in seen {
          seen := seen + {k};
          claims := claims[k := (if k in claims then claims[k] else 0) + 1];
        }
      }
      assert rs[i].events[..|rs[i].events|] == rs[i].events;
    }
  }

  /** The holders of pr a map records: none when it has no entry. */
  function Recorded(holders: map<string, seq<int>>, pr: string): seq<int> {
    if pr in holders then holders[pr] else []
  }

  /** Event e carries pr and one cluster claims it. */
  predicate Carries(rs: seq<ClusterResult>, e: Event, pr: string) {
    pr != "" && e.pr == pr && Claims(rs, e.key, |rs|) == 1
  }

  /** One of the first t members of cluster i carries pr so. */
  predicate CarriedBy(rs: seq<ClusterResult>, i: int, t: nat, pr: string)
    requires 0 <= i < |rs| && t <= |rs[i].events|
  {
    t > 0 && (CarriedBy(rs, i, t - 1, pr) || Carries(rs, rs[i].events[t - 1], pr))
  }

  lemma {:induction false} CarriedByExactly(rs: seq<ClusterResult>, i: int, t: nat, pr: string)
    requires 0 <= i < |rs| && t <= |rs[i].events|
    ensures CarriedBy(rs, i, t, pr) <==> exists u :: 0 <= u < t && Carries(rs, rs[i].events[u], pr)
  {
    if t > 0 { CarriedByExactly(rs, i, t - 1, pr); }
  }

  lemma CarriedByAll(rs: seq<ClusterResult>, i: int, pr: string)
    requires 0 <= i < |rs|
    ensures CarriedBy(rs, i, |rs[i].events|, pr) == HoldsPR(rs, i, pr)
  {
    CarriedByExactly(rs, i, |rs[i].events|, pr);
    if HoldsPR(rs, i, pr) {
      var e :| e in rs[i].events && e.pr == pr && Claims(rs, e.key, |rs|) == 1;
      var u :| 0 <= u < |rs[i].events| && rs[i].events[u] == e;
      assert Carries(rs, rs[i].events[u], pr);
    }
  }

  function OnlyIf(c: bool, i: int): seq<int> {
    if c then [i] else []
  }

  method AddHolder(rs: seq<ClusterResult>, claims: map<EventKey, nat>, before: map<string, seq<int>>, i: nat)
    returns (holders: map<string, seq<int>>)
    requires i < |rs|
    requires forall k :: (if k in claims then claims[k] else 0) == Claims(rs, k, |rs|)
    requires forall pr :: i !in Recorded(before, pr)
    ensures forall pr :: Recorded(holders, pr) == Recorded(before, pr) + OnlyIf(HoldsPR(rs, i, pr), i)
  {
    holders := before;
    for t := 0 to |rs[i].events|
      invariant forall pr :: Recorded(holders, pr) == Recorded(before, pr) + OnlyIf(CarriedBy(rs, i, t, pr), i)
    {
      var e := rs[i].events[t];
      if e.pr != "" && e.key in claims && claims[e.key] == 1 {
        var hs := Recorded(holders, e.pr);
        assert hs == Recorded(before, e.pr) + OnlyIf(CarriedBy(rs, i, t, e.pr), i);
        if hs == [] || hs[|hs| - 1] != i {
          assert !CarriedBy(rs, i, t, e.pr);
          holders := holders[e.pr := hs + [i]];
        } else {
          assert CarriedBy(rs, i, t, e.pr) by {
            assert Recorded(before, e.pr) == [] || Recorded(before, e.pr)[|Recorded(before, e.pr)| - 1] in Recorded(before, e.pr);
          }
        }
      }
    }
    forall pr { CarriedByAll(rs, i, pr); }
  }

  method UndisputedPRHolders(rs: seq<ClusterResult>) returns (holders: map<string, seq<int>>)
    ensures forall pr :: Recorded(holders, pr) == Holders(rs, pr, |rs|)
  {
    var claims := CountClaims(rs);
    holders := map[];
    for i := 0 to |rs|
      invariant forall pr :: Recorded(holders, pr) == Holders(rs, pr, i)
    {
      forall pr ensures i !in Recorded(holders, pr) {
        HoldersExactly(rs, pr, i);
      }
      holders := AddHolder(rs, claims, holders, i);
    }
  }
}
