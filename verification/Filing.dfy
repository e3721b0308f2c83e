/** Writing the results' members: each event moved to its one home, one result after another. */
module Filing {
  import opened Events
  import opened Clusters
  import opened Regrouping
  import opened Oracle
  import opened Links
  import opened Persisting

  // One result's members.

  /** The first m of r's members linked to narrative id. */
  ghost predicate MovedUpTo(s: State, r: ClusterResult, id: int, m: nat, t: State)
    requires m <= |r.events|
  {
    && t == s.(members := t.members, context := t.context, nextSeq := t.nextSeq) && s.nextSeq <= t.nextSeq
    && (forall k :: k in Keys(r.events[..m]) ==> LinkedBy(s, r, id, k, t))
    && (forall k :: k !in Keys(r.events[..m]) ==> (k in t.members <==> k in s.members) && (k in s.members ==> t.members[k] == s.members[k]))
    && (forall p :: p in t.context <==> p in s.context && !IsMember(t, p.0, p.1))
  }

  /** No event is both a narrative's work and its background. */
  ghost predicate Separate(s: State) {
    forall p :: p in s.context ==> !IsMember(s, p.0, p.1)
  }

  /** Moving k keeps exactly the background that is not its narrative's work. */
  lemma MoveKeepsContext(s: State, t: State, id: int, k: EventKey, confidence: real)
    requires Separate(s) && (k in t.members <==> k in s.members) && (k in s.members ==> t.members[k] == s.members[k])
    requires forall p :: p in t.context <==> p in s.context && !IsMember(t, p.0, p.1)
    ensures var u := Moved(t, id, k, confidence, ByModel);
            forall p :: p in u.context <==> p in s.context && !IsMember(u, p.0, p.1)
  {
    var u := Moved(t, id, k, confidence, ByModel);
    forall p ensures p in u.context <==> p in s.context && !IsMember(u, p.0, p.1) {
      assert p in t.context <==> p in s.context && !IsMember(t, p.0, p.1);
    }
  }

  lemma OneKeyMore(evts: seq<Event>, m: nat)
    requires m < |evts| && UniqueKeys(evts)
    ensures Keys(evts[..m + 1]) == Keys(evts[..m]) + {evts[m].key} && evts[m].key !in Keys(evts[..m])
  {
    assert evts[..m + 1] == evts[..m] + [evts[m]];
    KeysConcat(evts[..m], [evts[m]]);
    assert Keys([evts[m]]) == {evts[m].key};
  }

  lemma MoveStep(s: State, r: ClusterResult, id: int, m: nat, t: State)
    requires m < |r.events| && UniqueKeys(r.events) && MovedUpTo(s, r, id, m, t)
    requires Separate(s) && Movable(t, id, r.events[m].key)
    ensures MovedUpTo(s, r, id, m + 1, Moved(t, id, r.events[m].key, r.ConfidenceOf(r.events[m].key), ByModel))
  {
    var k := r.events[m].key;
    var u := Moved(t, id, k, r.ConfidenceOf(k), ByModel);
    OneKeyMore(r.events, m);
    forall j | j in Keys(r.events[..m + 1]) ensures LinkedBy(s, r, id, j, u) {
      assert j != k ==> LinkedBy(s, r, id, j, t);
    }
    MoveKeepsContext(s, t, id, k, r.ConfidenceOf(k));
  }

  /** All of r's members may be moved to narrative id. */
  ghost predicate AllMovable(s: State, r: ClusterResult, id: int) {
    forall k :: r.Holds(k) ==> Movable(s, id, k)
  }

  method MoveMembers(db: Store, id: int, r: ClusterResult) returns (ok: bool)
    requires Separate(db.Now()) && UniqueKeys(r.events)
    modifies db
    ensures ok <==> AllMovable(old(db.Now()), r, id)
    ensures ok ==> MovedUpTo(old(db.Now()), r, id, |r.events|, db.Now())
  {
    ghost var s := db.Now();
    for m := 0 to |r.events|
      invariant MovedUpTo(s, r, id, m, db.Now())
      invariant forall i :: 0 <= i < m ==> Movable(s, id, r.events[i].key)
    {
      var k := r.events[m].key;
      ghost var t := db.Now();
      assert k !in Keys(r.events[..m]);
      assert Movable(t, id, k) <==> Movable(s, id, k);
      assert r.Holds(k) by { InKeys(r.events[m], r.events); }
      ok := db.MoveMember(id, k, r.ConfidenceOf(k), ByModel);
      if !ok {
        return;
      }
      MoveStep(s, r, id, m, t);
    }
    ok := true;
    assert r.events[..|r.events|] == r.events;
  }

  method WindowOf(evts: seq<Event>) returns (lo: int, hi: int)
    ensures evts != [] ==> lo == Earliest(evts) && hi == Latest(evts)
  {
    lo, hi := 0, 0;
    for i := 0 to |evts|
      invariant i > 0 ==> lo == Earliest(evts[..i]) && hi == Latest(evts[..i])
    {
      assert evts[..i + 1][..i] == evts[..i];
      if i == 0 || evts[i].at < lo {
        lo := evts[i].at;
      }
      if i == 0 || evts[i].at > hi {
        hi := evts[i].at;
      }
    }
    assert evts[..|evts|] == evts;
  }

  /** One result's members, and its narrative's row, written. */
  ghost predicate FiledOne(s: State, r: ClusterResult, id: int, t: State) {
    && t.events == s.events && t.commits == s.commits
    && MovedUpTo(s.(rows := t.rows, nextID := t.nextID), r, id, |r.events|, t)
    && match r.kind
       case New =>
         && id == s.nextID && t.nextID == id + 1
         && RowBegun(r, if id in t.rows then t.rows[id] else Row(0, 0, "", "", "", None))
         && id in t.rows && t.rows == s.rows[id := t.rows[id]]
       case Extends =>
         && id == r.narrativeID && t.nextID == s.nextID && id in s.rows
         && t.rows == if r.events == [] then s.rows else s.rows[id := Written(s.rows[id], r)]
  }

  /** The row with the result's window and summary written onto it. */
  function Written(row: Row, r: ClusterResult): Row
    requires r.events != []
  {
    row.(end := if Latest(r.events) > row.end then Latest(r.events) else row.end, summary := r.summary)
  }

  /** Fails only on a member that may not move. */
  method ApplyPrepared(db: Store, r: ClusterResult) returns (ok: bool, id: int)
    requires Separate(db.Now()) && UniqueKeys(r.events)
    requires r.kind == New ==> r.events != [] && db.nextID !in db.rows
    requires r.kind == Extends ==> r.narrativeID in db.rows
    modifies db
    ensures id == if r.kind == New then old(db.nextID) else r.narrativeID
    ensures ok <==> AllMovable(old(db.Now()), r, id)
    ensures ok ==> FiledOne(old(db.Now()), r, id, db.Now())
  {
    var lo, hi := WindowOf(r.events);
    if r.kind == New {
      id := db.InsertNarrative(Row(lo, hi, r.title, r.summary, OPEN, None));
      ok := MoveMembers(db, id, r);
    } else {
      id := r.narrativeID;
      if r.events == [] {
        assert r.events[..0] == [];
        return true, id;
      }
      var row := db.rows[id];
      var end := if hi > row.end then hi else row.end;
      db.ExtendNarrative(id, end, r.summary);
      ok := MoveMembers(db, id, r);
    }
  }

  // Every result's members, one result after another.

  lemma PlacedStep(rs: seq<ClusterResult>, r: ClusterResult, k: EventKey)
    ensures Placed(rs + [r], k) <==> Placed(rs, k) || r.Holds(k)
  {
    var all := rs + [r];
    if Placed(rs, k) {
      var i :| 0 <= i < |rs| && rs[i].Holds(k);
      assert all[i].Holds(k);
    }
    if r.Holds(k) {
      assert all[|rs|].Holds(k);
    }
    if Placed(all, k) {
      var i :| 0 <= i < |all| && all[i].Holds(k);
      assert i < |rs| ==> rs[i].Holds(k);
    }
  }

  /** r's work is none of the earlier results'. */
  ghost predicate Apart(rs: seq<ClusterResult>, r: ClusterResult) {
    forall k :: r.Holds(k) ==> !Placed(rs, k)
  }

  /** An event no result has placed yet is where it was. */
  lemma StillThere(s: State, rs: seq<ClusterResult>, ids: seq<int>, t: State, r: ClusterResult, k: EventKey)
    requires Filed(s, rs, ids, t) && Apart(rs, r) && r.Holds(k)
    ensures k in t.members <==> k in s.members
    ensures k in s.members ==> t.members[k] == s.members[k]
  {
  }

  lemma MovableIsTakeable(s: State, rs: seq<ClusterResult>, ids: seq<int>, t: State, r: ClusterResult, id: int)
    requires Sound(s) && Filed(s, rs, ids, t) && Apart(rs, r)
    requires id == if r.kind == New then t.nextID else r.narrativeID
    ensures AllMovable(t, r, id) <==> forall k :: r.Holds(k) ==> Takeable(s, r, k)
  {
    forall k | r.Holds(k) ensures Movable(t, id, k) <==> Takeable(s, r, k) {
      StillThere(s, rs, ids, t, r, k);
      if k in s.members {
        assert LinkSound(s, k);
      }
    }
  }

  lemma IDStep(s: State, rs: seq<ClusterResult>, ids: seq<int>, t: State, r: ClusterResult, id: int, u: State)
    requires |ids| == |rs| && IDsGiven(s, rs, ids, t.nextID) && FiledOne(t, r, id, u)
    ensures IDsGiven(s, rs + [r], ids + [id], u.nextID)
  {
  }

  lemma MembersStep(s: State, rs: seq<ClusterResult>, ids: seq<int>, t: State, r: ClusterResult, id: int, u: State)
    requires Filed(s, rs, ids, t) && Apart(rs, r) && FiledOne(t, r, id, u)
    ensures MembersFiled(s, rs + [r], ids + [id], u)
  {
    assert r.events[..|r.events|] == r.events;
    forall i, k | 0 <= i <= |rs| && (rs + [r])[i].Holds(k) ensures LinkedBy(s, (rs + [r])[i], (ids + [id])[i], k, u) {
      if i < |rs| {
        assert LinkedBy(s, rs[i], ids[i], k, t);
        assert Placed(rs, k);
      } else {
        StillThere(s, rs, ids, t, r, k);
        assert LinkedBy(t, r, id, k, u);
      }
    }
  }

  lemma OthersStep(s: State, rs: seq<ClusterResult>, ids: seq<int>, t: State, r: ClusterResult, id: int, u: State)
    requires Filed(s, rs, ids, t) && FiledOne(t, r, id, u)
    ensures OthersKept(s, rs + [r], u)
  {
    assert r.events[..|r.events|] == r.events;
    forall k | !Placed(rs + [r], k)
      ensures (k in u.members <==> k in s.members) && (k in s.members ==> u.members[k] == s.members[k])
    {
      PlacedStep(rs, r, k);
    }
  }

  lemma ContextStep(s: State, rs: seq<ClusterResult>, ids: seq<int>, t: State, r: ClusterResult, id: int, u: State)
    requires Separate(s) && Filed(s, rs, ids, t) && Apart(rs, r) && FiledOne(t, r, id, u)
    ensures forall p :: p in u.context <==> p in s.context && !IsMember(u, p.0, p.1)
  {
    assert r.events[..|r.events|] == r.events;
    forall p ensures p in u.context <==> p in s.context && !IsMember(u, p.0, p.1) {
      if p in s.context && r.Holds(p.1) {
        StillThere(s, rs, ids, t, r, p.1);
      }
      assert !r.Holds(p.1) ==> (IsMember(u, p.0, p.1) <==> IsMember(t, p.0, p.1));
    }
  }

  /** Writing one more result's members. */
  lemma FileStep(s: State, rs: seq<ClusterResult>, ids: seq<int>, t: State, r: ClusterResult, id: int, u: State)
    requires Separate(s) && Filed(s, rs, ids, t) && Apart(rs, r) && FiledOne(t, r, id, u)
    ensures Filed(s, rs + [r], ids + [id], u)
  {
    IDStep(s, rs, ids, t, r, id, u);
    MembersStep(s, rs, ids, t, r, id, u);
    OthersStep(s, rs, ids, t, r, id, u);
    ContextStep(s, rs, ids, t, r, id, u);
  }

  lemma EndStays(rs: seq<ClusterResult>, r: ClusterResult, n: int, end: int)
    requires EndsAt(rs, n, end)
    ensures EndsAt(rs + [r], n, end)
  {
    var all := rs + [r];
    var i, e :| 0 <= i < |rs| && rs[i].ExtendsID(n) && e in rs[i].events && e.at == end;
    assert all[i].ExtendsID(n) && e in all[i].events;
  }

  /** One more result leaves a narrative it does not extend with work as it was. */
  lemma RowUntouched(before: Row, rs: seq<ClusterResult>, r: ClusterResult, n: int, after: Row)
    requires RowExtended(before, rs, n, after) && !Carries(r, n)
    ensures RowExtended(before, rs + [r], n, after)
  {
    LastSummaryMore(rs, r, n, before.summary);
    if EndsAt(rs, n, after.end) {
      EndStays(rs, r, n, after.end);
    }
  }

  lemma RowWritten(before: Row, rs: seq<ClusterResult>, r: ClusterResult, n: int, mid: Row)
    requires RowExtended(before, rs, n, mid) && Carries(r, n)
    ensures RowExtended(before, rs + [r], n, Written(mid, r))
  {
    LatestExactly(r.events);
    LastSummaryMore(rs, r, n, before.summary);
    var all, after := rs + [r], Written(mid, r);
    assert all[|rs|] == r;
    if after.end != mid.end {
      var e :| e in r.events && e.at == after.end;
      assert all[|rs|].ExtendsID(n) && e in all[|rs|].events;
    } else if EndsAt(rs, n, mid.end) {
      EndStays(rs, r, n, mid.end);
    }
  }

  /** What one result's write does to a row. */
  lemma RowOf(t: State, r: ClusterResult, id: int, u: State, n: int)
    requires FiledOne(t, r, id, u) && n in t.rows && (r.kind == New ==> n < t.nextID)
    ensures n in u.rows
    ensures u.rows[n] == if r.ExtendsID(n) && r.events != [] then Written(t.rows[n], r) else t.rows[n]
  {
  }

  lemma StoredRowStep(s: State, rs: seq<ClusterResult>, t: State, r: ClusterResult, id: int, u: State, n: int)
    requires n in s.rows && n in t.rows && RowExtended(s.rows[n], rs, n, t.rows[n]) && FiledOne(t, r, id, u)
    requires n < t.nextID
    ensures n in u.rows && RowExtended(s.rows[n], rs + [r], n, u.rows[n])
  {
    RowOf(t, r, id, u, n);
    if r.ExtendsID(n) && r.events != [] {
      RowWritten(s.rows[n], rs, r, n, t.rows[n]);
    } else {
      RowUntouched(s.rows[n], rs, r, n, t.rows[n]);
    }
  }

  lemma BegunRowStep(s: State, rs: seq<ClusterResult>, ids: seq<int>, t: State, r: ClusterResult, id: int, u: State, i: nat)
    requires Sound(s) && |ids| == |rs| && IDsGiven(s, rs, ids, t.nextID) && RowsFiled(s, rs, ids, t) && FiledOne(t, r, id, u)
    requires r.kind == Extends ==> id in s.rows
    requires i <= |rs| && (rs + [r])[i].kind == New
    ensures (ids + [id])[i] in u.rows && RowBegun((rs + [r])[i], u.rows[(ids + [id])[i]])
  {
    if i < |rs| {
      assert ids[i] in t.rows && RowBegun(rs[i], t.rows[ids[i]]);
      RowOf(t, r, id, u, ids[i]);
    }
  }

  lemma NewRowsStep(s: State, t: State, r: ClusterResult, id: int, u: State)
    requires s.nextID <= t.nextID && (forall n :: n in t.rows && n !in s.rows ==> s.nextID <= n < t.nextID)
    requires FiledOne(t, r, id, u)
    ensures forall n :: n in u.rows && n !in s.rows ==> s.nextID <= n < u.nextID
  {
  }

  lemma RowsStep(s: State, rs: seq<ClusterResult>, ids: seq<int>, t: State, r: ClusterResult, id: int, u: State)
    requires Sound(s) && |ids| == |rs| && IDsGiven(s, rs, ids, t.nextID) && RowsFiled(s, rs, ids, t) && FiledOne(t, r, id, u)
    requires r.kind == Extends ==> id in s.rows
    ensures RowsFiled(s, rs + [r], ids + [id], u)
  {
    forall n | n in s.rows ensures n in u.rows && RowExtended(s.rows[n], rs + [r], n, u.rows[n]) {
      StoredRowStep(s, rs, t, r, id, u, n);
    }
    var all, given := rs + [r], ids + [id];
    forall i | 0 <= i < |all| && all[i].kind == New ensures given[i] in u.rows && RowBegun(all[i], u.rows[given[i]]) {
      BegunRowStep(s, rs, ids, t, r, id, u, i);
    }
    NewRowsStep(s, t, r, id, u);
  }

  /** Every result's members written, in order; fails only on a member that may not move. */
  method ApplyAll(db: Store, rs: seq<ClusterResult>) returns (ok: bool, ids: seq<int>)
    requires Sound(db.Now()) && OneHomeEach(rs)
    requires forall i :: 0 <= i < |rs| ==> Prepared(db.Now(), rs[i])
    modifies db
    ensures ok <==> AllTakeable(old(db.Now()), rs)
    ensures ok ==> Filed(old(db.Now()), rs, ids, db.Now()) && RowsFiled(old(db.Now()), rs, ids, db.Now())
  {
    ghost var s := db.Now();
    ids := [];
    Unfiled(s);
    for i := 0 to |rs|
      invariant Filed(s, rs[..i], ids, db.Now()) && RowsFiled(s, rs[..i], ids, db.Now())
      invariant Separate(db.Now()) && db.nextID !in db.rows
      invariant forall j, k :: 0 <= j < i && rs[j].Holds(k) ==> Takeable(s, rs[j], k)
    {
      ghost var t := db.Now();
      var r := rs[i];
      EarlierApart(rs, i);
      assert rs[..i + 1] == rs[..i] + [r];
      var id;
      ok, id := ApplyPrepared(db, r);
      MovableIsTakeable(s, rs[..i], ids, t, r, id);
      if !ok {
        return;
      }
      FileStep(s, rs[..i], ids, t, r, id, db.Now());
      RowsStep(s, rs[..i], ids, t, r, id, db.Now());
      ids := ids + [id];
    }
    assert rs[..|rs|] == rs;
    ok := true;
  }

  lemma Unfiled(s: State)
    requires Sound(s)
    ensures Filed(s, [], [], s) && RowsFiled(s, [], [], s) && Separate(s)
  {
    assert forall n :: n in s.rows ==> RowExtended(s.rows[n], [], n, s.rows[n]);
    forall p | p in s.context ensures !IsMember(s, p.0, p.1) {
      assert BackgroundSound(s, p.0, p.1);
    }
  }

  lemma EarlierApart(rs: seq<ClusterResult>, i: nat)
    requires i < |rs| && OneHomeEach(rs)
    ensures Apart(rs[..i], rs[i])
  {
    forall j, k | 0 <= j < i && rs[..i][j].Holds(k) ensures !rs[i].Holds(k) {
      assert Keys(rs[j].events) !! Keys(rs[i].events);
    }
  }
}
