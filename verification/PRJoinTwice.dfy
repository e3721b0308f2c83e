/** When joining the joined clusters again changes nothing, as a condition on the clusters joined first. */
module PRJoinTwice {
  import opened Events
  import opened Clusters
  import opened Regrouping
  import opened PRGroups
  import PRJoin
  import opened PRJoinFacts

  // What a cluster will hold once the groups are joined, read off the clusters as they are.

  /** Where each cluster's work ends up. */
  ghost function Owners(rs: seq<ClusterResult>, group: seq<int>): (owner: seq<int>)
    requires |group| == |rs|
    ensures |owner| == |rs|
  {
    seq(|rs|, i requires 0 <= i < |rs| => PRJoin.Owner(rs, group, i))
  }

  /** One identity names one event. */
  ghost predicate KeyedOnce(rs: seq<ClusterResult>) {
    forall i, j, e, f :: 0 <= i < |rs| && 0 <= j < |rs| && e in rs[i].events && f in rs[j].events && e.key == f.key ==> e == f
  }

  /** Every cluster claiming k ends up in o. */
  ghost predicate ClaimedWithin(rs: seq<ClusterResult>, owner: seq<int>, k: EventKey, o: int)
    requires |owner| == |rs|
  {
    forall j :: 0 <= j < |rs| && rs[j].Holds(k) ==> owner[j] == o
  }

  /** Cluster j has an event of pr, all of whose claimants end up where j does. */
  ghost predicate Brings(rs: seq<ClusterResult>, owner: seq<int>, j: int, pr: string)
    requires |owner| == |rs|
  {
    0 <= j < |rs| && exists e :: e in rs[j].events && e.pr == pr && ClaimedWithin(rs, owner, e.key, owner[j])
  }

  /** The cluster i's work ends in will hold pr. */
  ghost predicate HoldsAfter(rs: seq<ClusterResult>, owner: seq<int>, i: int, pr: string)
    requires |owner| == |rs| && 0 <= i < |rs|
  {
    pr != "" && exists j :: 0 <= j < |rs| && owner[j] == owner[i] && Brings(rs, owner, j, pr)
  }

  ghost predicate SharesAfter(rs: seq<ClusterResult>, owner: seq<int>, i: int, j: int, pr: string)
    requires |owner| == |rs|
  {
    0 <= i < |rs| && 0 <= j < |rs| && HoldsAfter(rs, owner, i, pr) && HoldsAfter(rs, owner, j, pr)
  }

  /** f gives one label to clusters that end up together, and to those that will share a pull request. */
  ghost predicate KeepsAfter(rs: seq<ClusterResult>, owner: seq<int>, f: seq<int>)
    requires |owner| == |rs|
  {
    && |f| == |rs|
    && (forall i, j :: 0 <= i < |rs| && 0 <= j < |rs| && owner[i] == owner[j] ==> f[i] == f[j])
    && (forall i, j, pr :: SharesAfter(rs, owner, i, j, pr) ==> f[i] == f[j])
  }

  /** The labels of the least equivalence doing so. */
  ghost predicate AfterLabels(rs: seq<ClusterResult>, owner: seq<int>, g: seq<int>)
    requires |owner| == |rs|
  {
    && KeepsAfter(rs, owner, g)
    && Rooted(g)
    && (forall f: seq<int>, i :: KeepsAfter(rs, owner, f) && 0 <= i < |rs| ==> f[g[i]] == f[i])
  }

  /** Every class of clusters that end in more than one place extends two stored narratives or more. */
  ghost predicate NothingLeft(rs: seq<ClusterResult>, owner: seq<int>, g: seq<int>)
    requires |owner| == |g| == |rs|
  {
    forall i, j :: 0 <= i < |rs| && 0 <= j < |rs| && g[i] == g[j] && owner[i] != owner[j] ==>
      |PRJoin.NarrativesIn(rs, PRJoin.Group(rs, g, i))| > 1
  }

  // The joined clusters, and which of the first clusters each is made of.

  ghost function InPlace(place: seq<int>, p: int): set<int> {
    set i | 0 <= i < |place| && place[i] == p
  }

  /** out is rs with cluster i's work in place[i]; kept[p] is the first of those in place p. */
  ghost predicate Folds(rs: seq<ClusterResult>, out: seq<ClusterResult>, owner: seq<int>, place: seq<int>, kept: seq<int>) {
    && |owner| == |place| == |rs| && |kept| == |out|
    && (forall i :: 0 <= i < |rs| ==> 0 <= place[i] < |out| && owner[i] == kept[place[i]] <= i)
    && (forall p :: 0 <= p < |out| ==> 0 <= kept[p] < |rs| && place[kept[p]] == p)
    && (forall p, q :: 0 <= p < q < |out| ==> kept[p] < kept[q])
    && (forall p :: 0 <= p < |out| ==> MergedFrom(out[p], rs, InPlace(place, p)))
  }

  /** Where cluster i's work ends up among the joined clusters. */
  lemma PlaceOf(rs: seq<ClusterResult>, group: seq<int>, i: nat) returns (p: nat)
    requires |group| == |rs| && Rooted(group) && i < |rs|
    ensures p < |PRJoin.Survivors(rs, group, |rs|)| && PRJoin.Survivors(rs, group, |rs|)[p] == PRJoin.Owner(rs, group, i) <= i
  {
    SurvivorsExactly(rs, group, |rs|);
    OwnerOwns(rs, group, i);
    p :| 0 <= p < |PRJoin.Survivors(rs, group, |rs|)| && PRJoin.Survivors(rs, group, |rs|)[p] == PRJoin.Owner(rs, group, i);
  }

  lemma {:induction false} PlacesUpTo(rs: seq<ClusterResult>, group: seq<int>, n: nat) returns (place: seq<int>)
    requires |group| == |rs| && Rooted(group) && n <= |rs|
    ensures |place| == n
    ensures var kept := PRJoin.Survivors(rs, group, |rs|);
            forall i :: 0 <= i < n ==> 0 <= place[i] < |kept| && kept[place[i]] == PRJoin.Owner(rs, group, i) <= i
  {
    place := [];
    if n > 0 {
      var before := PlacesUpTo(rs, group, n - 1);
      var p := PlaceOf(rs, group, n - 1);
      place := before + [p];
    }
  }

  lemma PartInPlace(rs: seq<ClusterResult>, group: seq<int>, place: seq<int>, p: nat)
    requires |group| == |rs| == |place| && Rooted(group) && p < |PRJoin.Survivors(rs, group, |rs|)|
    requires var kept := PRJoin.Survivors(rs, group, |rs|);
             forall i :: 0 <= i < |rs| ==> 0 <= place[i] < |kept| && kept[place[i]] == PRJoin.Owner(rs, group, i)
    ensures JoinParts(rs, group)[p] == InPlace(place, p)
  {
    var kept := PRJoin.Survivors(rs, group, |rs|);
    SurvivorsExactly(rs, group, |rs|);
    forall i | 0 <= i < |rs| ensures place[i] == p <==> PRJoin.Owner(rs, group, i) == kept[p] {
    }
  }

  lemma JoinFolds(rs: seq<ClusterResult>, group: seq<int>) returns (place: seq<int>, kept: seq<int>)
    requires AllWellFormed(rs) && |group| == |rs| && Rooted(group)
    ensures Folds(rs, PRJoin.JoinedUpTo(rs, group, |rs|), Owners(rs, group), place, kept)
  {
    kept := PRJoin.Survivors(rs, group, |rs|);
    place := PlacesUpTo(rs, group, |rs|);
    SurvivorsExactly(rs, group, |rs|);
    SurvivorsJoined(rs, group, |rs|);
    JoinRegroups(rs, group);
    var out := PRJoin.JoinedUpTo(rs, group, |rs|);
    forall p | 0 <= p < |out| ensures place[kept[p]] == p && MergedFrom(out[p], rs, InPlace(place, p)) {
      PartInPlace(rs, group, place, p);
      assert PRJoin.Owner(rs, group, kept[p]) == kept[p];
    }
  }

  // What a joined cluster holds.

  lemma {:induction false} ClaimsSole(rs: seq<ClusterResult>, k: EventKey, n: nat, i: nat)
    requires n <= |rs| && i < |rs| && rs[i].Holds(k) && SoleClaim(rs, k)
    ensures Claims(rs, k, n) == if i < n then 1 else 0
  {
    if n > 0 { ClaimsSole(rs, k, n - 1, i); }
  }

  lemma {:induction false} ClaimsSome(rs: seq<ClusterResult>, k: EventKey, n: nat, i: nat)
    requires i < n <= |rs| && rs[i].Holds(k)
    ensures Claims(rs, k, n) >= 1
  {
    if i < n - 1 { ClaimsSome(rs, k, n - 1, i); }
  }

  lemma {:induction false} ClaimsTwo(rs: seq<ClusterResult>, k: EventKey, n: nat, i: nat, j: nat)
    requires i < j < n <= |rs| && rs[i].Holds(k) && rs[j].Holds(k)
    ensures Claims(rs, k, n) >= 2
  {
    if j < n - 1 {
      ClaimsTwo(rs, k, n - 1, i, j);
    } else {
      ClaimsSome(rs, k, n - 1, i);
    }
  }

  /** An event a cluster holds has one claim exactly when no other cluster holds it. */
  lemma ClaimsOne(rs: seq<ClusterResult>, k: EventKey, i: nat)
    requires i < |rs| && rs[i].Holds(k)
    ensures Claims(rs, k, |rs|) == 1 <==> SoleClaim(rs, k)
  {
    if SoleClaim(rs, k) {
      ClaimsSole(rs, k, |rs|, i);
    } else {
      var a, b :| 0 <= a < |rs| && 0 <= b < |rs| && rs[a].Holds(k) && rs[b].Holds(k) && a != b;
      ClaimsTwo(rs, k, |rs|, if a < b then a else b, if a < b then b else a);
    }
  }

  /** A joined cluster holds an event exactly when some cluster in its place does. */
  lemma HeldInPlace(
    rs: seq<ClusterResult>, out: seq<ClusterResult>, owner: seq<int>, place: seq<int>, kept: seq<int>, p: nat, k: EventKey)
    requires Folds(rs, out, owner, place, kept) && p < |out|
    ensures out[p].Holds(k) <==> exists i :: 0 <= i < |rs| && place[i] == p && rs[i].Holds(k)
  {
    assert Keys(out[p].events) == PartMembers(rs, InPlace(place, p));
    if i :| 0 <= i < |rs| && place[i] == p && rs[i].Holds(k) {
      assert i in InPlace(place, p);
    }
  }

  /** One joined cluster claims an event exactly when all its claimants end up in one place. */
  lemma SoleAfter(
    rs: seq<ClusterResult>, out: seq<ClusterResult>, owner: seq<int>, place: seq<int>, kept: seq<int>, p: nat, k: EventKey)
    requires Folds(rs, out, owner, place, kept) && p < |out| && out[p].Holds(k)
    ensures SoleClaim(out, k) <==> ClaimedWithin(rs, owner, k, kept[p])
  {
    forall q | 0 <= q < |out| ensures out[q].Holds(k) <==> exists i :: 0 <= i < |rs| && place[i] == q && rs[i].Holds(k) {
      HeldInPlace(rs, out, owner, place, kept, q, k);
    }
    if SoleClaim(out, k) {
      forall j | 0 <= j < |rs| && rs[j].Holds(k) ensures owner[j] == kept[p] {
        assert out[place[j]].Holds(k);
      }
    }
    if ClaimedWithin(rs, owner, k, kept[p]) {
      forall q | 0 <= q < |out| && out[q].Holds(k) ensures q == p {
        var j :| 0 <= j < |rs| && place[j] == q && rs[j].Holds(k);
        assert owner[j] == kept[p];
      }
    }
  }

  /** An event of a cluster is in the joined cluster its work is in. */
  lemma TakenAlong(
    rs: seq<ClusterResult>, out: seq<ClusterResult>, owner: seq<int>, place: seq<int>, kept: seq<int>, j: nat, e: Event)
    requires Folds(rs, out, owner, place, kept) && KeyedOnce(rs) && j < |rs| && e in rs[j].events
    ensures e in out[place[j]].events && out[place[j]].Holds(e.key)
  {
    var p := place[j];
    InKeys(e, rs[j].events);
    HeldInPlace(rs, out, owner, place, kept, p, e.key);
    var e' :| e' in out[p].events && e'.key == e.key;
    assert StatedIn(out[p], e', rs, InPlace(place, p));
    var i :| 0 <= i < |rs| && e' in rs[i].events;
    assert e' == e;
  }

  lemma HoldsForward(
    rs: seq<ClusterResult>, out: seq<ClusterResult>, owner: seq<int>, place: seq<int>, kept: seq<int>, p: nat, pr: string)
    requires Folds(rs, out, owner, place, kept) && KeyedOnce(rs) && p < |out| && HoldsAfter(rs, owner, kept[p], pr)
    ensures HoldsPR(out, p, pr)
  {
    var j :| 0 <= j < |rs| && owner[j] == owner[kept[p]] && Brings(rs, owner, j, pr);
    var e :| e in rs[j].events && e.pr == pr && ClaimedWithin(rs, owner, e.key, owner[j]);
    assert place[j] == p;
    TakenAlong(rs, out, owner, place, kept, j, e);
    SoleAfter(rs, out, owner, place, kept, p, e.key);
    ClaimsOne(out, e.key, p);
  }

  lemma HoldsBack(
    rs: seq<ClusterResult>, out: seq<ClusterResult>, owner: seq<int>, place: seq<int>, kept: seq<int>, p: nat, pr: string)
    requires Folds(rs, out, owner, place, kept) && p < |out| && HoldsPR(out, p, pr)
    ensures HoldsAfter(rs, owner, kept[p], pr)
  {
    var e :| e in out[p].events && e.pr == pr && Claims(out, e.key, |out|) == 1;
    InKeys(e, out[p].events);
    assert StatedIn(out[p], e, rs, InPlace(place, p));
    var j :| j in InPlace(place, p) && 0 <= j < |rs| && e in rs[j].events;
    ClaimsOne(out, e.key, p);
    SoleAfter(rs, out, owner, place, kept, p, e.key);
    assert Brings(rs, owner, j, pr);
  }

  /** A joined cluster holds a pull request exactly when the clusters it is made of bring an event of it no other place claims. */
  lemma HeldAfter(
    rs: seq<ClusterResult>, out: seq<ClusterResult>, owner: seq<int>, place: seq<int>, kept: seq<int>, i: nat, pr: string)
    requires Folds(rs, out, owner, place, kept) && KeyedOnce(rs) && i < |rs|
    ensures HoldsPR(out, place[i], pr) <==> HoldsAfter(rs, owner, i, pr)
  {
    var p := place[i];
    assert owner[i] == owner[kept[p]];
    assert HoldsAfter(rs, owner, i, pr) <==> HoldsAfter(rs, owner, kept[p], pr);
    if HoldsAfter(rs, owner, i, pr) { HoldsForward(rs, out, owner, place, kept, p, pr); }
    if HoldsPR(out, p, pr) { HoldsBack(rs, out, owner, place, kept, p, pr); }
  }

  // The second join's groups are the classes of the first clusters.

  /** A labelling of the joined clusters read as one of the first clusters, and back. */
  ghost function Lifted(place: seq<int>, f: seq<int>): (r: seq<int>)
    ensures |r| == |place|
  {
    seq(|place|, i requires 0 <= i < |place| => if 0 <= place[i] < |f| then f[place[i]] else -1)
  }

  ghost function Lowered(kept: seq<int>, f: seq<int>): (r: seq<int>)
    ensures |r| == |kept|
  {
    seq(|kept|, p requires 0 <= p < |kept| => if 0 <= kept[p] < |f| then f[kept[p]] else -1)
  }

  lemma LiftedKeeps(
    rs: seq<ClusterResult>, out: seq<ClusterResult>, owner: seq<int>, place: seq<int>, kept: seq<int>, f: seq<int>)
    requires Folds(rs, out, owner, place, kept) && KeyedOnce(rs) && KeepsTogether(out, f)
    ensures KeepsAfter(rs, owner, Lifted(place, f))
  {
    var h := Lifted(place, f);
    forall i, j | 0 <= i < |rs| && 0 <= j < |rs| && owner[i] == owner[j] ensures h[i] == h[j] {
      assert place[i] == place[j];
    }
    forall i, j, pr | SharesAfter(rs, owner, i, j, pr) ensures h[i] == h[j] {
      HeldAfter(rs, out, owner, place, kept, i, pr);
      HeldAfter(rs, out, owner, place, kept, j, pr);
      assert Shares(out, place[i], place[j], pr);
    }
  }

  lemma LoweredKeeps(
    rs: seq<ClusterResult>, out: seq<ClusterResult>, owner: seq<int>, place: seq<int>, kept: seq<int>, f: seq<int>)
    requires Folds(rs, out, owner, place, kept) && KeyedOnce(rs) && KeepsAfter(rs, owner, f)
    ensures KeepsTogether(out, Lowered(kept, f))
  {
    var h := Lowered(kept, f);
    forall p, q, pr | Shares(out, p, q, pr) ensures h[p] == h[q] {
      HeldAfter(rs, out, owner, place, kept, kept[p], pr);
      HeldAfter(rs, out, owner, place, kept, kept[q], pr);
      assert SharesAfter(rs, owner, kept[p], kept[q], pr);
    }
  }

  /** Two clusters are of one class exactly when the second join groups the places their work is in. */
  lemma ClassesAreGroups(
    rs: seq<ClusterResult>, out: seq<ClusterResult>, owner: seq<int>, place: seq<int>, kept: seq<int>,
    g: seq<int>, group': seq<int>, i: nat, j: nat)
    requires Folds(rs, out, owner, place, kept) && KeyedOnce(rs) && AfterLabels(rs, owner, g) && GroupLabels(out, group')
    requires i < |rs| && j < |rs|
    ensures g[i] == g[j] <==> group'[place[i]] == group'[place[j]]
  {
    var up, down := Lifted(place, group'), Lowered(kept, g);
    LiftedKeeps(rs, out, owner, place, kept, group');
    LoweredKeeps(rs, out, owner, place, kept, g);
    assert up[g[i]] == up[i] && up[g[j]] == up[j];
    assert down[group'[place[i]]] == down[place[i]] && down[group'[place[j]]] == down[place[j]];
    assert owner[i] == owner[kept[place[i]]] && owner[j] == owner[kept[place[j]]];
    assert down[place[i]] == g[i] && down[place[j]] == g[j];
  }

  /** Such classes exist: the groups of the second join, read off the first clusters. */
  lemma AfterLabelsExist(
    rs: seq<ClusterResult>, out: seq<ClusterResult>, owner: seq<int>, place: seq<int>, kept: seq<int>, group': seq<int>)
    returns (g: seq<int>)
    requires Folds(rs, out, owner, place, kept) && KeyedOnce(rs) && GroupLabels(out, group')
    ensures AfterLabels(rs, owner, g)
  {
    var first := seq(|out|, p requires 0 <= p < |out| => kept[group'[p]]);
    g := Lifted(place, first);
    forall p, q, pr | Shares(out, p, q, pr) ensures first[p] == first[q] {
      assert group'[p] == group'[q];
    }
    LiftedKeeps(rs, out, owner, place, kept, first);
    forall i | 0 <= i < |rs| ensures 0 <= g[i] <= i && g[g[i]] == g[i] {
      assert group'[place[i]] <= place[i];
      assert kept[group'[place[i]]] <= kept[place[i]];
      assert place[g[i]] == group'[place[i]];
    }
    forall f: seq<int>, i | KeepsAfter(rs, owner, f) && 0 <= i < |rs| ensures f[g[i]] == f[i] {
      LoweredKeeps(rs, out, owner, place, kept, f);
      var down := Lowered(kept, f);
      assert down[group'[place[i]]] == down[place[i]];
      assert owner[i] == owner[kept[place[i]]];
    }
  }

  // The second join.

  lemma NarrativeOf(rs: seq<ClusterResult>, g: seq<int>, i: nat, id: int) returns (j: nat)
    requires |g| == |rs| && i < |rs| && id in PRJoin.NarrativesIn(rs, PRJoin.Group(rs, g, i))
    ensures j < |rs| && g[j] == g[i] && rs[j].ExtendsID(id)
  {
    var a := PRJoin.Group(rs, g, i);
    GroupOfExactly(g, g[i], |rs|);
    var t :| 0 <= t < |a| && rs[a[t]].kind == Extends && rs[a[t]].narrativeID == id;
    j := a[t];
  }

  lemma InNarratives(rs: seq<ClusterResult>, g: seq<int>, i: nat, j: nat, id: int)
    requires |g| == |rs| && i < |rs| && j < |rs| && g[j] == g[i] && rs[j].ExtendsID(id)
    ensures id in PRJoin.NarrativesIn(rs, PRJoin.Group(rs, g, i))
  {
    var a := PRJoin.Group(rs, g, i);
    GroupOfExactly(g, g[i], |rs|);
    var t :| 0 <= t < |a| && a[t] == j;
  }

  /** A joined cluster extends exactly what the clusters in its place extend. */
  lemma ExtendsInPlace(
    rs: seq<ClusterResult>, out: seq<ClusterResult>, owner: seq<int>, place: seq<int>, kept: seq<int>, p: nat, id: int)
    requires Folds(rs, out, owner, place, kept) && p < |out|
    ensures out[p].ExtendsID(id) <==> exists j :: 0 <= j < |rs| && place[j] == p && rs[j].ExtendsID(id)
  {
    assert MergedFrom(out[p], rs, InPlace(place, p));
    if j :| 0 <= j < |rs| && place[j] == p && rs[j].ExtendsID(id) {
      assert j in InPlace(place, p);
    }
  }

  /** The narratives of a class are those of the group its work is in. */
  lemma SameNarratives(
    rs: seq<ClusterResult>, out: seq<ClusterResult>, owner: seq<int>, place: seq<int>, kept: seq<int>,
    g: seq<int>, group': seq<int>, i: nat)
    requires Folds(rs, out, owner, place, kept) && |g| == |rs| && |group'| == |out| && i < |rs|
    requires forall j :: 0 <= j < |rs| ==> (g[i] == g[j] <==> group'[place[i]] == group'[place[j]])
    ensures PRJoin.NarrativesIn(rs, PRJoin.Group(rs, g, i)) == PRJoin.NarrativesIn(out, PRJoin.Group(out, group', place[i]))
  {
    var a, b := PRJoin.NarrativesIn(rs, PRJoin.Group(rs, g, i)), PRJoin.NarrativesIn(out, PRJoin.Group(out, group', place[i]));
    forall id | id in a ensures id in b {
      var j := NarrativeOf(rs, g, i, id);
      ExtendsInPlace(rs, out, owner, place, kept, place[j], id);
      InNarratives(out, group', place[i], place[j], id);
    }
    forall id | id in b ensures id in a {
      var q := NarrativeOf(out, group', place[i], id);
      ExtendsInPlace(rs, out, owner, place, kept, q, id);
      var j :| 0 <= j < |rs| && place[j] == q && rs[j].ExtendsID(id);
      InNarratives(rs, g, i, j, id);
    }
  }

  /** A group of two or more has another cluster in it. */
  lemma AnotherInGroup(rs: seq<ClusterResult>, group: seq<int>, p: nat) returns (q: nat)
    requires |group| == |rs| && p < |rs| && |PRJoin.Group(rs, group, p)| > 1
    ensures q < |rs| && q != p && group[q] == group[p]
  {
    var idxs := PRJoin.Group(rs, group, p);
    GroupOfExactly(group, group[p], |rs|);
    assert idxs[0] < idxs[1];
    q := if idxs[0] == p then idxs[1] else idxs[0];
  }

  lemma TwoInGroup(rs: seq<ClusterResult>, group: seq<int>, p: nat, q: nat)
    requires |group| == |rs| && p < |rs| && q < |rs| && p != q && group[p] == group[q]
    ensures |PRJoin.Group(rs, group, p)| > 1
  {
    GroupOfExactly(group, group[p], |rs|);
    MoreThanOne(PRJoin.Group(rs, group, p), p, q);
  }

  ghost predicate NoneJoins(rs: seq<ClusterResult>, group: seq<int>)
    requires |group| == |rs|
  {
    forall p :: 0 <= p < |rs| ==> !PRJoin.Joins(rs, PRJoin.Group(rs, group, p))
  }

  lemma {:induction false} NothingJoined(rs: seq<ClusterResult>, group: seq<int>, n: nat)
    requires |group| == |rs| && n <= |rs| && NoneJoins(rs, group)
    ensures PRJoin.JoinedUpTo(rs, group, n) == rs[..n]
  {
    if n > 0 {
      NothingJoined(rs, group, n - 1);
      assert rs[..n] == rs[..n - 1] + [rs[n - 1]];
    }
  }

  lemma {:induction false} AscendingAtLeast(s: seq<int>, p: nat)
    requires p < |s| && 0 <= s[0] && forall a, b :: 0 <= a < b < |s| ==> s[a] < s[b]
    ensures s[p] >= p
  {
    if p > 0 { AscendingAtLeast(s, p - 1); }
  }

  lemma {:induction false} AscendingAtMost(s: seq<int>, p: nat)
    requires p < |s| && s[|s| - 1] < |s| && forall a, b :: 0 <= a < b < |s| ==> s[a] < s[b]
    ensures s[p] <= p
    decreases |s| - p
  {
    if p < |s| - 1 { AscendingAtMost(s, p + 1); }
  }

  /** A cluster that gives up its place makes the list shorter. */
  lemma OneGivenUp(rs: seq<ClusterResult>, group: seq<int>, i: nat)
    requires |group| == |rs| && i < |rs| && PRJoin.Owner(rs, group, i) != i
    ensures |PRJoin.JoinedUpTo(rs, group, |rs|)| != |rs|
  {
    var kept := PRJoin.Survivors(rs, group, |rs|);
    SurvivorsExactly(rs, group, |rs|);
    SurvivorsJoined(rs, group, |rs|);
    if |kept| == |rs| {
      AscendingAtLeast(kept, i);
      AscendingAtMost(kept, i);
    }
  }

  /** A join changes nothing exactly when no group joins. */
  lemma UnchangedExactly(rs: seq<ClusterResult>, group: seq<int>)
    requires |group| == |rs| && Rooted(group)
    ensures PRJoin.JoinedUpTo(rs, group, |rs|) == rs <==> NoneJoins(rs, group)
  {
    if NoneJoins(rs, group) {
      NothingJoined(rs, group, |rs|);
      assert rs[..|rs|] == rs;
    } else {
      var p :| 0 <= p < |rs| && PRJoin.Joins(rs, PRJoin.Group(rs, group, p));
      var q := AnotherInGroup(rs, group, p);
      var i := if group[p] == p then q else p;
      SameGroup(rs, group, p);
      SameGroup(rs, group, i);
      OneGivenUp(rs, group, i);
    }
  }

  lemma NothingLeftMeansNoneJoins(
    rs: seq<ClusterResult>, out: seq<ClusterResult>, owner: seq<int>, place: seq<int>, kept: seq<int>,
    g: seq<int>, group': seq<int>)
    requires Folds(rs, out, owner, place, kept) && |g| == |rs| && |group'| == |out| && NothingLeft(rs, owner, g)
    requires forall i, j :: 0 <= i < |rs| && 0 <= j < |rs| ==> (g[i] == g[j] <==> group'[place[i]] == group'[place[j]])
    ensures NoneJoins(out, group')
  {
    forall p | 0 <= p < |out| ensures !PRJoin.Joins(out, PRJoin.Group(out, group', p)) {
      if |PRJoin.Group(out, group', p)| > 1 {
        var q := AnotherInGroup(out, group', p);
        var i, j := kept[p], kept[q];
        SameNarratives(rs, out, owner, place, kept, g, group', i);
        assert g[i] == g[j] && owner[i] != owner[j];
      }
    }
  }

  lemma NoneJoinsMeansNothingLeft(
    rs: seq<ClusterResult>, out: seq<ClusterResult>, owner: seq<int>, place: seq<int>, kept: seq<int>,
    g: seq<int>, group': seq<int>)
    requires Folds(rs, out, owner, place, kept) && |g| == |rs| && |group'| == |out| && NoneJoins(out, group')
    requires forall i, j :: 0 <= i < |rs| && 0 <= j < |rs| ==> (g[i] == g[j] <==> group'[place[i]] == group'[place[j]])
    ensures NothingLeft(rs, owner, g)
  {
    forall i, j | 0 <= i < |rs| && 0 <= j < |rs| && g[i] == g[j] && owner[i] != owner[j]
      ensures |PRJoin.NarrativesIn(rs, PRJoin.Group(rs, g, i))| > 1
    {
      SameNarratives(rs, out, owner, place, kept, g, group', i);
      assert place[i] != place[j];
      TwoInGroup(out, group', place[i], place[j]);
      assert !PRJoin.Joins(out, PRJoin.Group(out, group', place[i]));
    }
  }

  /**
   * Joining the joined clusters again changes nothing exactly when every class of clusters
   * that will share a pull request, but ends in more than one place, extends two stored
   * narratives or more.
   */
  lemma JoinTwiceExactly(rs: seq<ClusterResult>, group: seq<int>, g: seq<int>, group': seq<int>)
    requires AllWellFormed(rs) && KeyedOnce(rs) && GroupLabels(rs, group) && AfterLabels(rs, Owners(rs, group), g)
    requires GroupLabels(PRJoin.JoinedUpTo(rs, group, |rs|), group')
    ensures var out := PRJoin.JoinedUpTo(rs, group, |rs|);
            PRJoin.JoinedUpTo(out, group', |out|) == out <==> NothingLeft(rs, Owners(rs, group), g)
  {
    var out, owner := PRJoin.JoinedUpTo(rs, group, |rs|), Owners(rs, group);
    var place, kept := JoinFolds(rs, group);
    forall i, j | 0 <= i < |rs| && 0 <= j < |rs| ensures g[i] == g[j] <==> group'[place[i]] == group'[place[j]] {
      ClassesAreGroups(rs, out, owner, place, kept, g, group', i, j);
    }
    UnchangedExactly(out, group');
    if NothingLeft(rs, owner, g) { NothingLeftMeansNoneJoins(rs, out, owner, place, kept, g, group'); }
    if NoneJoins(out, group') { NoneJoinsMeansNothingLeft(rs, out, owner, place, kept, g, group'); }
  }

  // With no event claimed twice.

  ghost predicate NoDispute(rs: seq<ClusterResult>) {
    forall k :: SoleClaim(rs, k)
  }

  lemma NoDisputeKeyedOnce(rs: seq<ClusterResult>)
    requires AllWellFormed(rs) && NoDispute(rs)
    ensures KeyedOnce(rs)
  {
    forall i, j, e, f | 0 <= i < |rs| && 0 <= j < |rs| && e in rs[i].events && f in rs[j].events && e.key == f.key
      ensures e == f
    {
      InKeys(e, rs[i].events);
      InKeys(f, rs[j].events);
      assert SoleClaim(rs, e.key) && WellFormed(rs[i]);
      SameKeySameEvent(rs[i].events, e, f);
    }
  }

  /** With no dispute a cluster brings the pull requests it holds. */
  lemma BringsHeld(rs: seq<ClusterResult>, owner: seq<int>, i: nat, pr: string)
    requires |owner| == |rs| && NoDispute(rs) && i < |rs| && pr != ""
    ensures Brings(rs, owner, i, pr) <==> HoldsPR(rs, i, pr)
  {
    forall e | e in rs[i].events ensures Claims(rs, e.key, |rs|) == 1 && ClaimedWithin(rs, owner, e.key, owner[i]) {
      InKeys(e, rs[i].events);
      assert SoleClaim(rs, e.key);
      ClaimsOne(rs, e.key, i);
    }
  }

  lemma GroupKeepsAfter(rs: seq<ClusterResult>, group: seq<int>)
    requires GroupLabels(rs, group) && NoDispute(rs)
    ensures KeepsAfter(rs, Owners(rs, group), group)
  {
    var owner := Owners(rs, group);
    forall i, j | 0 <= i < |rs| && 0 <= j < |rs| && owner[i] == owner[j] ensures group[i] == group[j] {
      OwnerOwns(rs, group, i);
      OwnerOwns(rs, group, j);
    }
    forall i, j, pr | SharesAfter(rs, owner, i, j, pr) ensures group[i] == group[j] {
      var a :| 0 <= a < |rs| && owner[a] == owner[i] && Brings(rs, owner, a, pr);
      var b :| 0 <= b < |rs| && owner[b] == owner[j] && Brings(rs, owner, b, pr);
      BringsHeld(rs, owner, a, pr);
      BringsHeld(rs, owner, b, pr);
      assert Shares(rs, a, b, pr);
    }
  }

  lemma ClassKeepsTogether(rs: seq<ClusterResult>, owner: seq<int>, g: seq<int>)
    requires |owner| == |rs| && NoDispute(rs) && KeepsAfter(rs, owner, g)
    ensures KeepsTogether(rs, g)
  {
    forall i, j, pr | Shares(rs, i, j, pr) ensures g[i] == g[j] {
      BringsHeld(rs, owner, i, pr);
      BringsHeld(rs, owner, j, pr);
      assert SharesAfter(rs, owner, i, j, pr);
    }
  }

  /** With no dispute the classes are the groups. */
  lemma NoDisputeClasses(rs: seq<ClusterResult>, group: seq<int>, g: seq<int>)
    requires GroupLabels(rs, group) && NoDispute(rs) && AfterLabels(rs, Owners(rs, group), g)
    ensures g == group
  {
    GroupKeepsAfter(rs, group);
    ClassKeepsTogether(rs, Owners(rs, group), g);
    forall i | 0 <= i < |rs| ensures g[i] == group[i] {
      assert group[g[i]] == group[i] && g[group[i]] == g[i];
    }
  }

  lemma GroupsNothingLeft(rs: seq<ClusterResult>, group: seq<int>)
    requires |group| == |rs| && Rooted(group)
    ensures NothingLeft(rs, Owners(rs, group), group)
  {
    forall i, j | 0 <= i < |rs| && 0 <= j < |rs| && group[i] == group[j] && PRJoin.Owner(rs, group, i) != PRJoin.Owner(rs, group, j)
      ensures |PRJoin.NarrativesIn(rs, PRJoin.Group(rs, group, i))| > 1
    {
      SameGroup(rs, group, i);
      SameGroup(rs, group, j);
      TwoInGroup(rs, group, i, j);
    }
  }

  /** The classes exist. */
  lemma ClassesExist(rs: seq<ClusterResult>, group: seq<int>, group': seq<int>) returns (g: seq<int>)
    requires AllWellFormed(rs) && KeyedOnce(rs) && GroupLabels(rs, group)
    requires GroupLabels(PRJoin.JoinedUpTo(rs, group, |rs|), group')
    ensures AfterLabels(rs, Owners(rs, group), g)
  {
    var place, kept := JoinFolds(rs, group);
    g := AfterLabelsExist(rs, PRJoin.JoinedUpTo(rs, group, |rs|), Owners(rs, group), place, kept, group');
  }

  /** When no event has two claimants, joining the joined clusters again changes nothing. */
  lemma JoinTwice(rs: seq<ClusterResult>, group: seq<int>, group': seq<int>)
    requires AllWellFormed(rs) && GroupLabels(rs, group) && NoDispute(rs)
    requires GroupLabels(PRJoin.JoinedUpTo(rs, group, |rs|), group')
    ensures var out := PRJoin.JoinedUpTo(rs, group, |rs|); PRJoin.JoinedUpTo(out, group', |out|) == out
  {
    NoDisputeKeyedOnce(rs);
    var g := ClassesExist(rs, group, group');
    NoDisputeClasses(rs, group, g);
    GroupsNothingLeft(rs, group);
    JoinTwiceExactly(rs, group, g, group');
  }
}
