/** The whole of Persist: prepared, written, checked, and rolled back on any failure. */
module PersistPass {
  import opened Events
  import opened Clusters
  import opened Regrouping
  import opened Oracle
  import opened Links
  import opened Persisting
  import opened Filing

  // Before the transaction.

  /** The members of the first n results, with the first m of the next: seen so far. */
  ghost predicate SeenUpTo(rs: seq<ClusterResult>, i: nat, m: nat, seen: set<EventKey>)
    requires i < |rs| && m <= |rs[i].events|
  {
    forall k :: k in seen <==> Placed(rs[..i], k) || k in Keys(rs[i].events[..m])
  }

  lemma SeenStep(rs: seq<ClusterResult>, i: nat, m: nat, seen: set<EventKey>)
    requires i < |rs| && m < |rs[i].events| && SeenUpTo(rs, i, m, seen)
    ensures SeenUpTo(rs, i, m + 1, seen + {rs[i].events[m].key})
  {
    var evts := rs[i].events;
    assert evts[..m + 1] == evts[..m] + [evts[m]];
    KeysConcat(evts[..m], [evts[m]]);
    assert Keys([evts[m]]) == {evts[m].key};
  }

  lemma TakenTwice(rs: seq<ClusterResult>, i: nat, m: nat)
    requires i < |rs| && m < |rs[i].events|
    requires Placed(rs[..i], rs[i].events[m].key) || rs[i].events[m].key in Keys(rs[i].events[..m])
    ensures !OneHomeEach(rs)
  {
    var k := rs[i].events[m].key;
    InKeys(rs[i].events[m], rs[i].events);
    if Placed(rs[..i], k) {
      var j :| 0 <= j < i && rs[..i][j].Holds(k);
      assert k in Keys(rs[j].events) * Keys(rs[i].events);
    } else {
      var e :| e in rs[i].events[..m] && e.key == k;
      var a :| 0 <= a < m && rs[i].events[a] == e;
    }
  }

  /** Claims the i-th result's members, unless one is claimed already. */
  method ClaimMembers(rs: seq<ClusterResult>, i: nat, seen: set<EventKey>) returns (ok: bool, claimed: set<EventKey>)
    requires i < |rs| && forall k :: k in seen <==> Placed(rs[..i], k)
    ensures !ok ==> !OneHomeEach(rs)
    ensures ok ==> UniqueKeys(rs[i].events) && Apart(rs[..i], rs[i]) && forall k :: k in claimed <==> Placed(rs[..i + 1], k)
  {
    var evts := rs[i].events;
    claimed := seen;
    assert evts[..0] == [];
    for m := 0 to |evts|
      invariant SeenUpTo(rs, i, m, claimed)
      invariant UniqueKeys(evts[..m])
      invariant forall a :: 0 <= a < m ==> !Placed(rs[..i], evts[a].key)
    {
      if evts[m].key in claimed {
        TakenTwice(rs, i, m);
        return false, claimed;
      }
      forall a | 0 <= a < m ensures evts[a].key != evts[m].key {
        InKeys(evts[..m][a], evts[..m]);
      }
      SeenStep(rs, i, m, claimed);
      claimed := claimed + {evts[m].key};
    }
    assert evts[..|evts|] == evts;
    assert rs[..i + 1] == rs[..i] + [rs[i]];
    forall k ensures k in claimed <==> Placed(rs[..i + 1], k) {
      PlacedStep(rs[..i], rs[i], k);
    }
    ok := true;
  }

  /** The first i results share no member. */
  ghost predicate ApartUpTo(rs: seq<ClusterResult>, i: nat)
    requires i <= |rs|
  {
    forall j :: 0 <= j < i ==> UniqueKeys(rs[j].events) && Apart(rs[..j], rs[j])
  }

  lemma ApartMeansOneHome(rs: seq<ClusterResult>)
    requires ApartUpTo(rs, |rs|)
    ensures OneHomeEach(rs)
  {
    forall i, j | 0 <= i < j < |rs| ensures Keys(rs[i].events) !! Keys(rs[j].events) {
      forall k | k in Keys(rs[j].events) ensures k !in Keys(rs[i].events) {
        assert rs[j].Holds(k) && rs[..j][i] == rs[i];
        assert !Placed(rs[..j], k);
      }
    }
  }

  /** No event is claimed twice. */
  method CheckClaims(rs: seq<ClusterResult>) returns (ok: bool)
    ensures ok <==> OneHomeEach(rs)
  {
    var claimed: set<EventKey> := {};
    for i := 0 to |rs|
      invariant forall k :: k in claimed <==> Placed(rs[..i], k)
      invariant ApartUpTo(rs, i)
    {
      ok, claimed := ClaimMembers(rs, i, claimed);
      if !ok {
        return;
      }
    }
    ApartMeansOneHome(rs);
    ok := true;
  }

  /** Every event of the list is stored. */
  method CheckStored(db: Store, evts: seq<Event>) returns (ok: bool)
    ensures ok <==> forall e :: e in evts ==> Exists(db.Now(), e.key)
  {
    for i := 0 to |evts|
      invariant forall j :: 0 <= j < i ==> Exists(db.Now(), evts[j].key)
    {
      if !Exists(db.Now(), evts[i].key) {
        return false;
      }
    }
    ok := true;
  }

  method PrepareResults(db: Store, rs: seq<ClusterResult>) returns (ok: bool)
    ensures ok <==> OneHomeEach(rs) && forall i :: 0 <= i < |rs| ==> Prepared(db.Now(), rs[i])
  {
    ok := CheckClaims(rs);
    if !ok {
      return;
    }
    for i := 0 to |rs|
      invariant forall j :: 0 <= j < i ==> Prepared(db.Now(), rs[j])
    {
      var r := rs[i];
      var members := CheckStored(db, r.events);
      var background := CheckStored(db, r.context);
      if !members || !background {
        return false;
      }
      if r.kind == New && r.events == [] {
        return false;
      }
      if r.kind == Extends && ((r.events == [] && r.context == []) || r.narrativeID !in db.rows) {
        return false;
      }
    }
  }

  method MemberEventIDs(rs: seq<ClusterResult>) returns (out: seq<EventKey>)
    ensures forall k :: k in out <==> Placed(rs, k)
  {
    out := [];
    for i := 0 to |rs|
      invariant forall k :: k in out <==> Placed(rs[..i], k)
    {
      var more := KeysOf(rs[i].events);
      assert rs[..i + 1] == rs[..i] + [rs[i]];
      forall k ensures k in out + more <==> Placed(rs[..i + 1], k) {
        PlacedStep(rs[..i], rs[i], k);
      }
      out := out + more;
    }
    assert rs[..|rs|] == rs;
  }

  method KeysOf(evts: seq<Event>) returns (out: seq<EventKey>)
    ensures |out| == |evts| && forall i :: 0 <= i < |evts| ==> out[i] == evts[i].key
    ensures forall k :: k in out <==> k in Keys(evts)
  {
    out := [];
    for i := 0 to |evts|
      invariant |out| == i && forall j :: 0 <= j < i ==> out[j] == evts[j].key
    {
      out := out + [evts[i].key];
    }
    forall k | k in Keys(evts) ensures k in out {
      var e :| e in evts && e.key == k;
      var i :| 0 <= i < |evts| && evts[i] == e;
      assert out[i] == k;
    }
  }

  // The background, once every member is in its final home.

  ghost predicate ContextAdded(t: State, rs: seq<ClusterResult>, ids: seq<int>, u: State)
    requires |ids| == |rs|
  {
    && u == t.(context := u.context, nextSeq := u.nextSeq) && t.nextSeq <= u.nextSeq
    && forall n, k :: (n, k) in u.context <==> (n, k) in t.context || (Named(rs, ids, n, k) && !IsMember(t, n, k))
  }

  lemma NamedStep(rs: seq<ClusterResult>, ids: seq<int>, r: ClusterResult, id: int, n: int, k: EventKey)
    requires |ids| == |rs|
    ensures Named(rs + [r], ids + [id], n, k) <==> Named(rs, ids, n, k) || (n == id && k in Keys(r.context))
  {
    var all, given := rs + [r], ids + [id];
    if Named(rs, ids, n, k) {
      var i :| 0 <= i < |rs| && ids[i] == n && k in Keys(rs[i].context);
      assert given[i] == n && k in Keys(all[i].context);
    }
    if n == id && k in Keys(r.context) {
      assert given[|rs|] == n && k in Keys(all[|rs|].context);
    }
    if Named(all, given, n, k) {
      var i :| 0 <= i < |all| && given[i] == n && k in Keys(all[i].context);
      assert i < |rs| ==> ids[i] == n && k in Keys(rs[i].context);
    }
  }

  method AddContextOf(db: Store, id: int, evts: seq<Event>)
    modifies db
    ensures db.Now() == old(db.Now()).(context := db.context, nextSeq := db.nextSeq) && old(db.nextSeq) <= db.nextSeq
    ensures forall n, k :: (n, k) in db.context <==>
              (n, k) in old(db.context) || (n == id && k in Keys(evts) && !IsMember(old(db.Now()), n, k))
  {
    ghost var t := db.Now();
    for i := 0 to |evts|
      invariant db.Now() == t.(context := db.context, nextSeq := db.nextSeq) && t.nextSeq <= db.nextSeq
      invariant forall n, k :: (n, k) in db.context <==>
                  (n, k) in t.context || (n == id && k in Keys(evts[..i]) && !IsMember(t, n, k))
    {
      assert evts[..i + 1] == evts[..i] + [evts[i]];
      KeysConcat(evts[..i], [evts[i]]);
      assert Keys([evts[i]]) == {evts[i].key};
      var _ := db.AddContext(id, evts[i].key);
    }
    assert evts[..|evts|] == evts;
  }

  method ApplyContextLinks(db: Store, rs: seq<ClusterResult>, ids: seq<int>)
    requires |ids| == |rs|
    modifies db
    ensures ContextAdded(old(db.Now()), rs, ids, db.Now())
  {
    ghost var t := db.Now();
    for i := 0 to |rs|
      invariant ContextAdded(t, rs[..i], ids[..i], db.Now())
    {
      ghost var before := db.Now();
      AddContextOf(db, ids[i], rs[i].context);
      assert rs[..i + 1] == rs[..i] + [rs[i]] && ids[..i + 1] == ids[..i] + [ids[i]];
      forall n, k
        ensures (n, k) in db.context <==> (n, k) in t.context || (Named(rs[..i + 1], ids[..i + 1], n, k) && !IsMember(t, n, k))
      {
        NamedStep(rs[..i], ids[..i], rs[i], ids[i], n, k);
        assert IsMember(before, n, k) <==> IsMember(t, n, k);
      }
    }
    assert rs[..|rs|] == rs && ids[..|ids|] == ids;
  }

  // The narratives the pass emptied.

  /** Of the holders, those left without work are split and keep no background. */
  ghost predicate SplitWhere(t: State, which: set<int>, u: State) {
    && u == t.(rows := u.rows, context := u.context)
    && u.rows.Keys == t.rows.Keys
    && (forall n :: n in t.rows ==> u.rows[n] == if n in which then t.rows[n].(status := SPLIT) else t.rows[n])
    && (forall p :: p in u.context <==> p in t.context && p.0 !in which)
  }

  ghost predicate AllSplittable(t: State, holders: seq<int>) {
    forall n :: n in holders && !HoldsWork(t, n) ==> Splittable(t, n)
  }

  ghost function Workless(t: State, holders: seq<int>): set<int> {
    set n | n in holders && !HoldsWork(t, n)
  }

  method MarkEmptied(db: Store, holders: seq<int>) returns (ok: bool)
    requires forall n :: n in holders ==> n in db.rows
    modifies db
    ensures ok <==> AllSplittable(old(db.Now()), holders)
    ensures ok ==> SplitWhere(old(db.Now()), Workless(old(db.Now()), holders), db.Now())
  {
    ghost var t := db.Now();
    for i := 0 to |holders|
      invariant SplitWhere(t, Workless(t, holders[..i]), db.Now())
      invariant AllSplittable(t, holders[..i])
    {
      var n := holders[i];
      assert holders[..i + 1] == holders[..i] + [n];
      assert HoldsWork(db.Now(), n) <==> HoldsWork(t, n);
      assert !HoldsWork(t, n) ==> (Splittable(db.Now(), n) <==> Splittable(t, n));
      var emptied;
      ok, emptied := db.MarkSplitIfEmptied(n);
      if !ok {
        return;
      }
      assert Workless(t, holders[..i + 1]) == Workless(t, holders[..i]) + if HoldsWork(t, n) then {} else {n};
    }
    assert holders[..|holders|] == holders;
    ok := true;
  }

  method BackgroundKeys(rs: seq<ClusterResult>) returns (out: seq<EventKey>)
    ensures forall k :: k in out <==> Background(rs, k)
  {
    out := [];
    for i := 0 to |rs|
      invariant forall k :: k in out <==> Background(rs[..i], k)
    {
      var more := KeysOf(rs[i].context);
      forall k ensures k in out + more <==> Background(rs[..i + 1], k) {
        BackgroundStep(rs, i, k);
      }
      out := out + more;
    }
    assert rs[..|rs|] == rs;
  }

  lemma BackgroundStep(rs: seq<ClusterResult>, i: nat, k: EventKey)
    requires i < |rs|
    ensures Background(rs[..i + 1], k) <==> Background(rs[..i], k) || k in Keys(rs[i].context)
  {
    if Background(rs[..i], k) {
      var j :| 0 <= j < i && k in Keys(rs[..i][j].context);
      assert k in Keys(rs[..i + 1][j].context);
    }
    if k in Keys(rs[i].context) {
      assert k in Keys(rs[..i + 1][i].context);
    }
    if Background(rs[..i + 1], k) {
      var j :| 0 <= j <= i && k in Keys(rs[..i + 1][j].context);
      assert j < i ==> k in Keys(rs[..i][j].context);
    }
  }

  /** Every event given as background is some narrative's work. */
  method RequireMemberHomes(db: Store, rs: seq<ClusterResult>) returns (ok: bool)
    ensures ok <==> forall k :: Background(rs, k) ==> k in db.members
  {
    var keys := BackgroundKeys(rs);
    var homeless := db.EventsWithoutMemberHome(keys);
    ok := homeless == [];
    assert homeless != [] ==> homeless[0] in homeless;
  }

  // The transaction.

  /** The narratives split are the ones the pass took everything from and gave nothing. */
  lemma EmptiedExactly(s: State, rs: seq<ClusterResult>, ids: seq<int>, t: State, n: int)
    requires Sound(s) && Filed(s, rs, ids, t)
    ensures Touches(s, rs, n) && !HoldsWork(t, n) <==> Emptied(s, rs, n)
  {
    if Touches(s, rs, n) {
      var k :| IsMember(s, n, k) && Placed(rs, k);
      assert LinkSound(s, k);
      if Supplied(rs, n) {
        var i :| 0 <= i < |rs| && Carries(rs[i], n);
        InKeys(rs[i].events[0], rs[i].events);
        assert LinkedBy(s, rs[i], ids[i], rs[i].events[0].key, t);
      }
      if HoldsWork(t, n) {
        HeldStill(s, rs, ids, t, n);
      } else {
        forall j | IsMember(s, n, j) ensures Placed(rs, j) {
          assert !IsMember(t, n, j);
        }
      }
    }
  }

  /** A stored narrative that holds work after holds some it keeps, or some a result gave it. */
  lemma HeldStill(s: State, rs: seq<ClusterResult>, ids: seq<int>, t: State, n: int)
    requires Filed(s, rs, ids, t) && HoldsWork(t, n) && n < s.nextID
    ensures Supplied(rs, n) || exists k :: IsMember(s, n, k) && !Placed(rs, k)
  {
    var k :| k in t.members && t.members[k].narrative == n;
    if Placed(rs, k) {
      var i :| 0 <= i < |rs| && rs[i].Holds(k);
      assert LinkedBy(s, rs[i], ids[i], k, t);
    } else {
      assert k in s.members && s.members[k] == t.members[k];
      assert IsMember(s, n, k);
    }
  }

  lemma RowsSplit(s: State, rs: seq<ClusterResult>, ids: seq<int>, t: State, which: set<int>, v: State)
    requires |ids| == |rs| && Sound(s) && IDsGiven(s, rs, ids, t.nextID) && RowsFiled(s, rs, ids, t)
    requires forall n :: n in which <==> Emptied(s, rs, n)
    requires v.rows.Keys == t.rows.Keys && v.nextID == t.nextID
    requires forall n :: n in t.rows ==> v.rows[n] == if n in which then t.rows[n].(status := SPLIT) else t.rows[n]
    ensures RowsSettled(s, rs, ids, v)
  {
    forall n | n in s.rows ensures n in v.rows && RowSettled(s, rs, n, v.rows[n]) {
      assert RowExtended(s.rows[n], rs, n, t.rows[n]);
    }
    forall n | n in which ensures n in s.rows {
      var k :| IsMember(s, n, k) && Placed(rs, k);
      assert LinkSound(s, k);
    }
  }

  lemma ContextSettled(s: State, rs: seq<ClusterResult>, ids: seq<int>, t: State, u: State, which: set<int>, v: State)
    requires Filed(s, rs, ids, t) && ContextAdded(t, rs, ids, u)
    requires forall n :: n in which <==> Emptied(s, rs, n)
    requires v.members == u.members && forall p :: p in v.context <==> p in u.context && p.0 !in which
    ensures ContextFiled(s, rs, ids, v)
  {
    forall n, k
      ensures (n, k) in v.context <==>
              !IsMember(v, n, k) && !Emptied(s, rs, n) && ((n, k) in s.context || Named(rs, ids, n, k))
    {
      assert (n, k) in t.context <==> (n, k) in s.context && !IsMember(t, (n, k).0, (n, k).1);
    }
  }

  lemma PersistedWhole(s: State, rs: seq<ClusterResult>, ids: seq<int>, t: State, u: State, which: set<int>, v: State)
    requires Sound(s) && Filed(s, rs, ids, t) && RowsFiled(s, rs, ids, t)
    requires ContextAdded(t, rs, ids, u) && SplitWhere(u, which, v)
    requires forall n :: n in which <==> Emptied(s, rs, n)
    ensures Persisted(s, rs, ids, v)
  {
    RowsSplit(s, rs, ids, t, which, v);
    ContextSettled(s, rs, ids, t, u, which, v);
    forall i, k | 0 <= i < |rs| && rs[i].Holds(k) ensures LinkedBy(s, rs[i], ids[i], k, v) {
      assert LinkedBy(s, rs[i], ids[i], k, t);
    }
  }

  /** Which narratives the transaction checks, and what it finds. */
  lemma HoldersTouched(s: State, rs: seq<ClusterResult>, keys: seq<EventKey>, holders: seq<int>)
    requires Sound(s)
    requires forall k :: k in keys <==> Placed(rs, k)
    requires forall n :: n in holders <==> HoldsOneOf(s, n, keys)
    ensures forall n :: n in holders <==> Touches(s, rs, n)
    ensures forall n :: n in holders ==> n in s.rows
  {
    forall n ensures n in holders <==> Touches(s, rs, n) {
      if HoldsOneOf(s, n, keys) {
        var k :| k in keys && IsMember(s, n, k);
        assert Placed(rs, k);
      }
      if Touches(s, rs, n) {
        var k :| IsMember(s, n, k) && Placed(rs, k);
        assert k in keys;
      }
    }
    forall n | n in holders ensures n in s.rows {
      var k :| k in keys && IsMember(s, n, k);
      assert LinkSound(s, k);
    }
  }

  /** A narrative that must be splittable before the pass must be after its members are written. */
  lemma SplittableAlike(s: State, rs: seq<ClusterResult>, ids: seq<int>, t: State, u: State, holders: seq<int>)
    requires Sound(s) && Filed(s, rs, ids, t) && RowsFiled(s, rs, ids, t) && ContextAdded(t, rs, ids, u)
    requires forall n :: n in holders <==> Touches(s, rs, n)
    requires forall n :: n in holders ==> n in s.rows
    ensures AllSplittable(u, holders) <==> forall n :: Emptied(s, rs, n) ==> Splittable(s, n)
    ensures forall n :: n in Workless(u, holders) <==> Emptied(s, rs, n)
  {
    forall n
      ensures n in Workless(u, holders) <==> Emptied(s, rs, n)
      ensures n in holders ==> (Splittable(u, n) <==> Splittable(s, n))
    {
      EmptiedExactly(s, rs, ids, t, n);
      assert HoldsWork(u, n) <==> HoldsWork(t, n);
      if n in holders {
        assert RowExtended(s.rows[n], rs, n, t.rows[n]);
      }
    }
    assert forall n :: n in Workless(u, holders) <==> n in holders && !HoldsWork(u, n);
  }

  lemma HomedAlike(s: State, rs: seq<ClusterResult>, ids: seq<int>, t: State)
    requires Filed(s, rs, ids, t)
    ensures (forall k :: Background(rs, k) ==> k in t.members) <==> Homed(s, rs)
  {
    forall k ensures k in t.members <==> k in s.members || Placed(rs, k) {
      if Placed(rs, k) {
        var i :| 0 <= i < |rs| && rs[i].Holds(k);
        assert LinkedBy(s, rs[i], ids[i], k, t);
      }
    }
  }

  /** Writes the prepared results; leaves the store half-written on failure, for the caller to roll back. */
  method Write(db: Store, rs: seq<ClusterResult>) returns (ok: bool, ids: seq<int>)
    requires Sound(db.Now()) && OneHomeEach(rs)
    requires forall i :: 0 <= i < |rs| ==> Prepared(db.Now(), rs[i])
    modifies db
    ensures ok <==> CanPersist(old(db.Now()), rs)
    ensures ok ==> Persisted(old(db.Now()), rs, ids, db.Now())
  {
    ghost var s := db.Now();
    var keys := MemberEventIDs(rs);
    var holders := db.MemberHolders(keys);
    HoldersTouched(s, rs, keys, holders);
    ok, ids := ApplyAll(db, rs);
    if !ok {
      return;
    }
    ghost var t := db.Now();
    ApplyContextLinks(db, rs, ids);
    ghost var u := db.Now();
    SplittableAlike(s, rs, ids, t, u, holders);
    HomedAlike(s, rs, ids, t);
    ok := MarkEmptied(db, holders);
    if !ok {
      return;
    }
    PersistedWhole(s, rs, ids, t, u, Workless(u, holders), db.Now());
    ok := RequireMemberHomes(db, rs);
  }

  /**
   * Persists the results in one transaction, or changes nothing. It persists them exactly
   * when CanPersist says so.
   */
  method Persist(db: Store, rs: seq<ClusterResult>) returns (ok: bool, ids: seq<int>)
    requires Sound(db.Now())
    modifies db
    ensures ok <==> CanPersist(old(db.Now()), rs)
    ensures ok ==> Persisted(old(db.Now()), rs, ids, db.Now())
    ensures !ok ==> db.Now() == old(db.Now())
  {
    ok := PrepareResults(db, rs);
    if !ok {
      return false, [];
    }
    var before := db.Now();
    ok, ids := Write(db, rs);
    if !ok {
      db.Rollback(before);
    }
  }
}
