/** What the dispute pass guarantees: one home for every disputed event, everything else untouched. */
module DisputeFacts {
  import opened Events
  import opened Clusters
  import opened Regrouping
  import opened Disputes
  import opened Oracle

  lemma {:induction false} WithoutKeeps(evts: seq<Event>, k: EventKey)
    ensures forall e :: e in Without(evts, k) <==> e in evts && e.key != k
  {
    if evts != [] {
      WithoutKeeps(evts[..|evts| - 1], k);
      assert evts == evts[..|evts| - 1] + [evts[|evts| - 1]];
    }
  }

  lemma {:induction false} WithoutUnique(evts: seq<Event>, k: EventKey)
    requires UniqueKeys(evts)
    ensures UniqueKeys(Without(evts, k))
  {
    if evts != [] {
      var n := |evts| - 1;
      var before := Without(evts[..n], k);
      WithoutUnique(evts[..n], k);
      WithoutKeeps(evts[..n], k);
      forall i | 0 <= i < |before| ensures before[i].key != evts[n].key {
        assert before[i] in before;
        var j :| 0 <= j < n && evts[..n][j] == before[i];
      }
    }
  }

  lemma WithoutExactly(evts: seq<Event>, k: EventKey)
    requires UniqueKeys(evts)
    ensures Keys(Without(evts, k)) == Keys(evts) - {k}
    ensures forall e :: e in Without(evts, k) ==> e in evts
    ensures UniqueKeys(Without(evts, k))
  {
    WithoutKeeps(evts, k);
    WithoutUnique(evts, k);
    forall j | j in Keys(evts) - {k} ensures j in Keys(Without(evts, k)) {
      var e :| e in evts && e.key == j;
      assert e in Without(evts, k);
    }
  }

  /** A claimant that loses an event holds it as background, and nothing else about it changes. */
  lemma LoserExactly(r: ClusterResult, d: Dispute)
    requires WellFormed(r) && r.Holds(d.event.key)
    ensures var l := Loser(r, d);
            && WellFormed(l) && l.kind == r.kind && l.narrativeID == r.narrativeID
            && Keys(l.events) == Keys(r.events) - {d.event.key}
            && Keys(l.context) == Keys(r.context) + {d.event.key}
            && (forall e :: e in l.events ==> e in r.events)
            && (forall e :: e in l.context ==> e in r.context || e == d.event)
            && (forall k :: l.Holds(k) ==> l.ConfidenceOf(k) == r.ConfidenceOf(k))
  {
    WithoutExactly(r.events, d.event.key);
    KeysConcat(r.context, [d.event]);
    forall i | 0 <= i < |r.context| ensures r.context[i].key != d.event.key {
      InKeys(r.context[i], r.context);
    }
  }

  /** ds is the disputes among `order`: each contested event once, with all its claimants. */
  ghost predicate DisputesAmong(rs: seq<ClusterResult>, order: seq<Event>, ds: seq<Dispute>) {
    && (forall d :: 0 <= d < |ds| ==> ds[d].event in order && ds[d].claimants == Claimants(rs, ds[d].event.key, |rs|) && |ds[d].claimants| > 1)
    && (forall d, c :: 0 <= d < c < |ds| ==> ds[d].event.key != ds[c].event.key)
    && (forall e :: e in order && |Claimants(rs, e.key, |rs|)| > 1 ==> DisputedIn(ds, e.key))
  }

  lemma OneMoreDisputed(rs: seq<ClusterResult>, order: seq<Event>, ds: seq<Dispute>, e: Event)
    requires DisputesAmong(rs, order, ds) && forall x :: x in order ==> x.key != e.key
    ensures var c := Claimants(rs, e.key, |rs|);
            DisputesAmong(rs, order + [e], if |c| > 1 then ds + [Dispute(e, c)] else ds)
  {
    var c := Claimants(rs, e.key, |rs|);
    var more := if |c| > 1 then ds + [Dispute(e, c)] else ds;
    forall x | x in order + [e] && |Claimants(rs, x.key, |rs|)| > 1 ensures DisputedIn(more, x.key) {
      if x in order {
        var d :| 0 <= d < |ds| && ds[d].event.key == x.key;
        assert more[d].event.key == x.key;
      } else {
        assert more[|ds|].event.key == x.key;
      }
    }
  }

  lemma DisputedMore(rs: seq<ClusterResult>, order: seq<Event>, e: Event)
    ensures var c := Claimants(rs, e.key, |rs|);
            Disputed(rs, order + [e]) == if |c| > 1 then Disputed(rs, order) + [Dispute(e, c)] else Disputed(rs, order)
  {
    assert (order + [e])[..|order + [e]| - 1] == order;
  }

  /** DisputesOf, read off any prefix of the order of appearance. */
  lemma {:induction false} DisputedExactly(rs: seq<ClusterResult>, order: seq<Event>)
    requires UniqueKeys(order)
    ensures DisputesAmong(rs, order, Disputed(rs, order))
  {
    if order != [] {
      var init, e := order[..|order| - 1], order[|order| - 1];
      assert order == init + [e];
      DisputedExactly(rs, init);
      DisputedMore(rs, init, e);
      OneMoreDisputed(rs, init, Disputed(rs, init), e);
    }
  }

  ghost predicate DisputedIn(ds: seq<Dispute>, k: EventKey) {
    exists d :: 0 <= d < |ds| && ds[d].event.key == k
  }

  lemma {:induction false} AllMembersExactly(rs: seq<ClusterResult>, n: nat)
    requires n <= |rs|
    ensures forall i, e :: 0 <= i < n && e in rs[i].events ==> e in AllMembers(rs[..n])
    ensures forall e :: e in AllMembers(rs[..n]) ==> exists i :: 0 <= i < n && e in rs[i].events
  {
    if n > 0 {
      AllMembersExactly(rs, n - 1);
      assert rs[..n][..n - 1] == rs[..n - 1] && rs[..n][n - 1] == rs[n - 1];
    }
  }

  /**
   * The disputes of a pass are exactly the events two or more clusters hold as a member, each
   * once, with every cluster that holds it.
   */
  lemma DisputesExactly(rs: seq<ClusterResult>)
    ensures var ds := DisputesOf(rs);
            && (forall d :: 0 <= d < |ds| ==> ds[d].claimants == Claimants(rs, ds[d].event.key, |rs|) && |ds[d].claimants| > 1)
            && (forall d, c :: 0 <= d < c < |ds| ==> ds[d].event.key != ds[c].event.key)
            && (forall k :: DisputedIn(ds, k) <==> !SoleClaim(rs, k))
            && (forall d :: 0 <= d < |ds| ==> exists i :: 0 <= i < |rs| && ds[d].event in rs[i].events)
  {
    var all, ds := AllMembers(rs), DisputesOf(rs);
    assert rs[..|rs|] == rs;
    AllMembersExactly(rs, |rs|);
    UnseenExactly({}, all);
    DisputedExactly(rs, Unseen({}, all));
    forall k ensures DisputedIn(ds, k) <==> !SoleClaim(rs, k) {
      ContestedExactly(rs, ds, k);
    }
    forall d | 0 <= d < |ds| ensures exists i :: 0 <= i < |rs| && ds[d].event in rs[i].events {
      assert ds[d].event in all;
    }
  }

  lemma ContestedExactly(rs: seq<ClusterResult>, ds: seq<Dispute>, k: EventKey)
    requires DisputesAmong(rs, Unseen({}, AllMembers(rs)), ds)
    ensures DisputedIn(ds, k) <==> !SoleClaim(rs, k)
  {
    ClaimantsExactly(rs, k, |rs|);
    if !SoleClaim(rs, k) {
      var i, j :| 0 <= i < |rs| && 0 <= j < |rs| && rs[i].Holds(k) && rs[j].Holds(k) && i != j;
      MemberAppears(rs, i, k);
      ManyClaimants(rs, k, i, j);
    }
    if DisputedIn(ds, k) {
      var d :| 0 <= d < |ds| && ds[d].event.key == k;
      var a, b := ds[d].claimants[0], ds[d].claimants[1];
      assert a in ds[d].claimants && b in ds[d].claimants && a < b;
    }
  }

  /** An event some cluster holds appears in the order of appearance. */
  lemma MemberAppears(rs: seq<ClusterResult>, i: nat, k: EventKey)
    requires i < |rs| && rs[i].Holds(k)
    ensures exists e :: e in Unseen({}, AllMembers(rs)) && e.key == k
  {
    assert rs[..|rs|] == rs;
    AllMembersExactly(rs, |rs|);
    UnseenExactly({}, AllMembers(rs));
    var e :| e in rs[i].events && e.key == k;
    InKeys(e, AllMembers(rs));
    assert k in Keys(Unseen({}, AllMembers(rs)));
  }

  lemma ManyClaimants(rs: seq<ClusterResult>, k: EventKey, i: int, j: int)
    requires 0 <= i < |rs| && 0 <= j < |rs| && rs[i].Holds(k) && rs[j].Holds(k) && i != j
    ensures |Claimants(rs, k, |rs|)| > 1
  {
    ClaimantsExactly(rs, k, |rs|);
    var c := Claimants(rs, k, |rs|);
    assert i in c && j in c;
  }

  /** Cluster pos lost event k to another claimant by one of the first m answers. */
  ghost predicate Lost(ds: seq<Dispute>, vs: seq<Verdict>, m: nat, pos: int, k: EventKey)
    requires m <= |ds| == |vs|
  {
    exists d :: 0 <= d < m && ds[d].event.key == k && pos in ds[d].claimants && vs[d].position != pos
  }

  /** Cluster pos won event k by answer d. */
  ghost predicate Won(ds: seq<Dispute>, vs: seq<Verdict>, d: nat, pos: int, k: EventKey)
    requires d < |ds| == |vs|
  {
    ds[d].event.key == k && vs[d].position == pos
  }

  /** The answers to a pass's disputes: one claimant each, at a confidence in [0, 1]. */
  ghost predicate Ruled(rs: seq<ClusterResult>, ds: seq<Dispute>, vs: seq<Verdict>) {
    && |vs| == |ds|
    && (forall d :: 0 <= d < |ds| ==> vs[d].position in ds[d].claimants && InUnit(vs[d].confidence))
    && (forall d, c :: 0 <= d < c < |ds| ==> ds[d].event.key != ds[c].event.key)
    && (forall d :: 0 <= d < |ds| ==> ds[d].claimants == Claimants(rs, ds[d].event.key, |rs|))
  }

  ghost predicate AnyEvent(ds: seq<Dispute>, m: nat, e: Event)
    requires m <= |ds|
  {
    exists d :: 0 <= d < m && e == ds[d].event
  }

  /** Cluster pos won event k by one of the first m answers. */
  ghost predicate WonBefore(ds: seq<Dispute>, vs: seq<Verdict>, m: nat, pos: int, k: EventKey)
    requires m <= |ds| == |vs|
  {
    exists d :: 0 <= d < m && Won(ds, vs, d, pos, k)
  }

  /** What settling the first m disputes makes of cluster pos: placements and confidences. */
  ghost predicate SettledTo(r: ClusterResult, out: ClusterResult, ds: seq<Dispute>, vs: seq<Verdict>, m: nat, pos: int)
    requires m <= |ds| == |vs|
  {
    && WellFormed(out) && out.kind == r.kind && out.narrativeID == r.narrativeID
    && (forall k :: out.Holds(k) <==> r.Holds(k) && !Lost(ds, vs, m, pos, k))
    && (forall k :: k in Keys(out.context) <==> k in Keys(r.context) || Lost(ds, vs, m, pos, k))
    && (forall e :: e in out.events ==> e in r.events)
    && (forall e :: e in out.context ==> e in r.context || AnyEvent(ds, m, e))
    && Stated(r, out, ds, vs, m, pos)
  }

  /** A won member is at the answer's confidence, every other at the confidence it had. */
  ghost predicate Stated(r: ClusterResult, out: ClusterResult, ds: seq<Dispute>, vs: seq<Verdict>, m: nat, pos: int)
    requires m <= |ds| == |vs|
  {
    && (forall k :: out.Holds(k) && !WonBefore(ds, vs, m, pos, k) ==> out.ConfidenceOf(k) == r.ConfidenceOf(k))
    && (forall d :: 0 <= d < m && vs[d].position == pos ==> out.ConfidenceOf(ds[d].event.key) == vs[d].confidence)
  }

  lemma WinnerExactly(r: ClusterResult, d: Dispute, v: Verdict)
    requires WellFormed(r) && r.Holds(d.event.key) && InUnit(v.confidence)
    ensures var w := Winner(r, d, v);
            && WellFormed(w) && w.events == r.events && w.context == r.context
            && w.ConfidenceOf(d.event.key) == v.confidence
            && (forall k :: k != d.event.key ==> w.ConfidenceOf(k) == r.ConfidenceOf(k))
  {
  }

  lemma StatedMore(r: ClusterResult, out: ClusterResult, out': ClusterResult, ds: seq<Dispute>, vs: seq<Verdict>, m: nat, pos: int)
    requires m < |ds| == |vs| && Stated(r, out, ds, vs, m, pos)
    requires forall d, c :: 0 <= d < c < |ds| ==> ds[d].event.key != ds[c].event.key
    requires forall k :: out'.Holds(k) ==> out.Holds(k)
    requires vs[m].position == pos ==> out'.ConfidenceOf(ds[m].event.key) == vs[m].confidence
    requires forall k :: out'.Holds(k) && !(k == ds[m].event.key && vs[m].position == pos) ==> out'.ConfidenceOf(k) == out.ConfidenceOf(k)
    requires forall d :: 0 <= d < m && vs[d].position == pos ==> out'.Holds(ds[d].event.key)
    ensures Stated(r, out', ds, vs, m + 1, pos)
  {
    forall k | out'.Holds(k) && !WonBefore(ds, vs, m + 1, pos, k) ensures out'.ConfidenceOf(k) == r.ConfidenceOf(k) {
      assert !Won(ds, vs, m, pos, k);
    }
  }

  lemma LostMore(ds: seq<Dispute>, vs: seq<Verdict>, m: nat, pos: int, k: EventKey)
    requires m < |ds| == |vs|
    ensures Lost(ds, vs, m + 1, pos, k) <==>
            Lost(ds, vs, m, pos, k) || (k == ds[m].event.key && pos in ds[m].claimants && vs[m].position != pos)
  {
  }

  /** A dispute's claimants hold its event until it is settled. */
  lemma StillHolds(rs: seq<ClusterResult>, out: ClusterResult, ds: seq<Dispute>, vs: seq<Verdict>, m: nat, d: nat, pos: nat)
    requires Ruled(rs, ds, vs) && m <= |ds| && d < |ds| && pos < |rs| && SettledTo(rs[pos], out, ds, vs, m, pos)
    requires pos in ds[d].claimants && (m <= d || vs[d].position == pos)
    ensures out.Holds(ds[d].event.key)
  {
    ClaimantsExactly(rs, ds[d].event.key, |rs|);
    assert rs[pos].Holds(ds[d].event.key);
  }

  lemma SettledMore(out: ClusterResult, rs: seq<ClusterResult>, ds: seq<Dispute>, vs: seq<Verdict>, m: nat, pos: nat)
    requires Ruled(rs, ds, vs) && m < |ds| && pos < |rs|
    requires SettledTo(rs[pos], out, ds, vs, m, pos)
    ensures SettledTo(rs[pos], SettledAt(out, pos, ds[m], vs[m]), ds, vs, m + 1, pos)
  {
    var r, out' := rs[pos], SettledAt(out, pos, ds[m], vs[m]);
    forall k { LostMore(ds, vs, m, pos, k); }
    if pos in ds[m].claimants {
      StillHolds(rs, out, ds, vs, m, m, pos);
      if vs[m].position == pos { WinnerExactly(out, ds[m], vs[m]); } else { LoserExactly(out, ds[m]); }
    }
    forall d | 0 <= d < m && vs[d].position == pos ensures out'.Holds(ds[d].event.key) {
      StillHolds(rs, out, ds, vs, m, d, pos);
    }
    StatedMore(r, out, out', ds, vs, m, pos);
    forall e | e in out'.context ensures e in r.context || AnyEvent(ds, m + 1, e) {
      if AnyEvent(ds, m, e) {
        var d :| 0 <= d < m && e == ds[d].event;
        assert e == ds[d].event;
      }
    }
  }

  /** Every cluster after the first m answers. */
  lemma {:induction false} SettleAllAt(rs: seq<ClusterResult>, ds: seq<Dispute>, vs: seq<Verdict>, m: nat, pos: nat)
    requires AllWellFormed(rs) && Ruled(rs, ds, vs) && m <= |ds| && pos < |rs|
    ensures SettledTo(rs[pos], SettleAll(rs, ds[..m], vs[..m])[pos], ds, vs, m, pos)
  {
    if m > 0 {
      SettleAllAt(rs, ds, vs, m - 1, pos);
      assert ds[..m][..m - 1] == ds[..m - 1] && vs[..m][..m - 1] == vs[..m - 1];
      SettledMore(SettleAll(rs, ds[..m - 1], vs[..m - 1])[pos], rs, ds, vs, m - 1, pos);
    }
  }

  lemma SettledEach(rs: seq<ClusterResult>, ds: seq<Dispute>, vs: seq<Verdict>, pos: nat)
    requires AllWellFormed(rs) && Ruled(rs, ds, vs) && pos < |rs|
    ensures SettledTo(rs[pos], SettleAll(rs, ds, vs)[pos], ds, vs, |ds|, pos)
  {
    assert ds[..|ds|] == ds && vs[..|vs|] == vs;
    SettleAllAt(rs, ds, vs, |ds|, pos);
  }

  /** An event no two clusters claim stays exactly as it was, everywhere. */
  lemma SettledElsewhere(rs: seq<ClusterResult>, ds: seq<Dispute>, vs: seq<Verdict>, k: EventKey, pos: nat)
    requires AllWellFormed(rs) && Ruled(rs, ds, vs) && pos < |rs| && !DisputedIn(ds, k)
    ensures var out := SettleAll(rs, ds, vs);
            && (out[pos].Holds(k) <==> rs[pos].Holds(k))
            && (k in Keys(out[pos].context) <==> k in Keys(rs[pos].context))
            && (out[pos].Holds(k) ==> out[pos].ConfidenceOf(k) == rs[pos].ConfidenceOf(k))
  {
    SettledEach(rs, ds, vs, pos);
    assert !Lost(ds, vs, |ds|, pos, k);
    assert !WonBefore(ds, vs, |ds|, pos, k);
  }

  /**
   * Each disputed event ends a member of exactly the answered claimant, at the answered
   * confidence, and context of every other claimant.
   */
  lemma SettledDispute(rs: seq<ClusterResult>, ds: seq<Dispute>, vs: seq<Verdict>, d: nat)
    requires AllWellFormed(rs) && ds == DisputesOf(rs) && Ruled(rs, ds, vs) && d < |ds|
    ensures var out, k := SettleAll(rs, ds, vs), ds[d].event.key;
            && 0 <= vs[d].position < |rs|
            && out[vs[d].position].Holds(k) && out[vs[d].position].ConfidenceOf(k) == vs[d].confidence
            && (forall pos :: 0 <= pos < |rs| && out[pos].Holds(k) ==> pos == vs[d].position)
            && (forall pos :: pos in ds[d].claimants && pos != vs[d].position ==> 0 <= pos < |rs| && k in Keys(out[pos].context))
  {
    var out, k := SettleAll(rs, ds, vs), ds[d].event.key;
    ClaimantsExactly(rs, k, |rs|);
    forall pos | 0 <= pos < |rs| ensures SettledTo(rs[pos], out[pos], ds, vs, |ds|, pos) {
      SettledEach(rs, ds, vs, pos);
    }
    StillHolds(rs, out[vs[d].position], ds, vs, |ds|, d, vs[d].position);
    forall pos | 0 <= pos < |rs| && pos in ds[d].claimants && pos != vs[d].position ensures Lost(ds, vs, |ds|, pos, k) {
    }
  }

  lemma DisputedOneHome(rs: seq<ClusterResult>, ds: seq<Dispute>, vs: seq<Verdict>, d: nat)
    requires AllWellFormed(rs) && ds == DisputesOf(rs) && Ruled(rs, ds, vs) && d < |ds|
    ensures var k := ds[d].event.key; SoleClaim(SettleAll(rs, ds, vs), k) && Placed(SettleAll(rs, ds, vs), k)
  {
    SettledDispute(rs, ds, vs, d);
    assert SettleAll(rs, ds, vs)[vs[d].position].Holds(ds[d].event.key);
  }

  lemma UndisputedOneHome(rs: seq<ClusterResult>, ds: seq<Dispute>, vs: seq<Verdict>, k: EventKey)
    requires AllWellFormed(rs) && Ruled(rs, ds, vs) && !DisputedIn(ds, k) && SoleClaim(rs, k)
    ensures SoleClaim(SettleAll(rs, ds, vs), k)
    ensures Placed(SettleAll(rs, ds, vs), k) <==> Placed(rs, k)
  {
    var out := SettleAll(rs, ds, vs);
    forall pos | 0 <= pos < |rs| ensures out[pos].Holds(k) <==> rs[pos].Holds(k) {
      SettledElsewhere(rs, ds, vs, k, pos);
    }
  }

  /** The answers leave every event with at most one home, and none that had a home without one. */
  lemma SettledOneHome(rs: seq<ClusterResult>, ds: seq<Dispute>, vs: seq<Verdict>, k: EventKey)
    requires AllWellFormed(rs) && ds == DisputesOf(rs) && Ruled(rs, ds, vs)
    ensures SoleClaim(SettleAll(rs, ds, vs), k)
    ensures Placed(SettleAll(rs, ds, vs), k) <==> Placed(rs, k)
  {
    DisputesExactly(rs);
    if DisputedIn(ds, k) {
      var d :| 0 <= d < |ds| && ds[d].event.key == k;
      DisputedOneHome(rs, ds, vs, d);
      assert Placed(rs, k) by {
        var i, j :| 0 <= i < |rs| && 0 <= j < |rs| && rs[i].Holds(k) && rs[j].Holds(k) && i != j;
      }
    } else {
      UndisputedOneHome(rs, ds, vs, k);
    }
  }

  /** No background is lost. */
  lemma SettledBackground(rs: seq<ClusterResult>, ds: seq<Dispute>, vs: seq<Verdict>, k: EventKey, pos: nat)
    requires AllWellFormed(rs) && Ruled(rs, ds, vs) && pos < |rs| && k in Keys(rs[pos].context)
    ensures k in Keys(SettleAll(rs, ds, vs)[pos].context)
  {
    SettledEach(rs, ds, vs, pos);
  }

  /** The settled clusters are well formed, drawn from the same events, and of the same kinds. */
  lemma SettledSound(rs: seq<ClusterResult>, ds: seq<Dispute>, vs: seq<Verdict>, pool: seq<Event>)
    requires AllWellFormed(rs) && ds == DisputesOf(rs) && Ruled(rs, ds, vs) && DrawnFrom(rs, pool)
    ensures var out := SettleAll(rs, ds, vs);
            && AllWellFormed(out) && DrawnFrom(out, pool)
            && (forall pos :: 0 <= pos < |rs| ==> out[pos].kind == rs[pos].kind && out[pos].narrativeID == rs[pos].narrativeID)
  {
    var out := SettleAll(rs, ds, vs);
    DisputesExactly(rs);
    forall pos | 0 <= pos < |rs| ensures SettledTo(rs[pos], out[pos], ds, vs, |ds|, pos) {
      SettledEach(rs, ds, vs, pos);
    }
    forall pos, e | 0 <= pos < |out| && (e in out[pos].events || e in out[pos].context) ensures e in pool {
      if e in out[pos].context && AnyEvent(ds, |ds|, e) {
        var d :| 0 <= d < |ds| && e == ds[d].event;
        var i :| 0 <= i < |rs| && ds[d].event in rs[i].events;
      }
    }
  }
}
