/** What a persisted pass guarantees, and that the order of its results does not matter. */
module PersistFacts {
  import opened Events
  import opened Clusters
  import opened Regrouping
  import opened Oracle
  import opened Links
  import opened Persisting

  // Every event keeps one home.

  lemma LinkStaysSound(s: State, rs: seq<ClusterResult>, ids: seq<int>, t: State, k: EventKey)
    requires Sound(s) && CanPersist(s, rs) && Persisted(s, rs, ids, t) && k in t.members
    ensures LinkSound(t, k)
  {
    if Placed(rs, k) {
      var i :| 0 <= i < |rs| && rs[i].Holds(k);
      assert LinkedBy(s, rs[i], ids[i], k, t) && Prepared(s, rs[i]);
      var e :| e in rs[i].events && e.key == k;
      assert Exists(s, e.key);
      if k in s.members { assert LinkSound(s, k); }
    } else {
      assert LinkSound(s, k);
    }
  }

  lemma BackgroundStaysSound(s: State, rs: seq<ClusterResult>, ids: seq<int>, t: State, n: int, k: EventKey)
    requires Sound(s) && CanPersist(s, rs) && Persisted(s, rs, ids, t) && (n, k) in t.context
    ensures BackgroundSound(t, n, k)
  {
    if (n, k) in s.context {
      assert BackgroundSound(s, (n, k).0, (n, k).1);
    } else {
      var i :| 0 <= i < |rs| && ids[i] == n && k in Keys(rs[i].context);
      assert Prepared(s, rs[i]) && Background(rs, k);
    }
    assert k in t.members by {
      if Placed(rs, k) {
        var i :| 0 <= i < |rs| && rs[i].Holds(k);
        assert LinkedBy(s, rs[i], ids[i], k, t);
      }
    }
  }

  /** A pass leaves the store sound: one home for every linked event, and none both work and background. */
  lemma PersistKeepsSound(s: State, rs: seq<ClusterResult>, ids: seq<int>, t: State)
    requires Sound(s) && CanPersist(s, rs) && Persisted(s, rs, ids, t)
    ensures Sound(t)
  {
    forall k | k in t.members ensures LinkSound(t, k) {
      LinkStaysSound(s, rs, ids, t, k);
    }
    forall p | p in t.context ensures BackgroundSound(t, p.0, p.1) {
      BackgroundStaysSound(s, rs, ids, t, p.0, p.1);
    }
  }

  /** Every event the pass named is exactly one narrative's work: its result's, if it is a member of one. */
  lemma EveryEventHomed(s: State, rs: seq<ClusterResult>, ids: seq<int>, t: State, k: EventKey)
    requires Sound(s) && CanPersist(s, rs) && Persisted(s, rs, ids, t) && (Placed(rs, k) || Background(rs, k))
    ensures k in t.members
    ensures forall i :: 0 <= i < |rs| && rs[i].Holds(k) ==> t.members[k].narrative == ids[i]
  {
    if Placed(rs, k) {
      var i :| 0 <= i < |rs| && rs[i].Holds(k);
      assert LinkedBy(s, rs[i], ids[i], k, t);
      forall j | 0 <= j < |rs| && rs[j].Holds(k) ensures t.members[k].narrative == ids[j] {
        assert LinkedBy(s, rs[j], ids[j], k, t);
      }
    }
  }

  /** A narrative given work holds some. */
  lemma SuppliedHolds(s: State, rs: seq<ClusterResult>, ids: seq<int>, t: State, n: int)
    requires Persisted(s, rs, ids, t) && Supplied(rs, n)
    ensures HoldsWork(t, n)
  {
    var i :| 0 <= i < |rs| && Carries(rs[i], n);
    InKeys(rs[i].events[0], rs[i].events);
    assert LinkedBy(s, rs[i], ids[i], rs[i].events[0].key, t);
  }

  /** A narrative left some of its work holds it. */
  lemma LeftHolds(s: State, rs: seq<ClusterResult>, t: State, n: int, k: EventKey)
    requires OthersKept(s, rs, t) && IsMember(s, n, k) && !Placed(rs, k)
    ensures HoldsWork(t, n)
  {
    assert k in t.members && t.members[k].narrative == n;
  }

  /** A stored narrative the pass took work from, or re-placed work in, holds some or is split. */
  lemma NoneOpenWithoutWork(s: State, rs: seq<ClusterResult>, ids: seq<int>, t: State, n: int)
    requires Sound(s) && Persisted(s, rs, ids, t) && Touches(s, rs, n)
    ensures n in t.rows && (HoldsWork(t, n) || t.rows[n].status == SPLIT)
  {
    EmptiedStored(s, rs, n);
    assert RowSettled(s, rs, n, t.rows[n]);
    if Supplied(rs, n) {
      SuppliedHolds(s, rs, ids, t, n);
    } else if !Emptied(s, rs, n) {
      var j :| IsMember(s, n, j) && !Placed(rs, j);
      LeftHolds(s, rs, t, n, j);
    }
  }

  /** A narrative the pass emptied is split, and holds neither work nor background. */
  lemma EmptiedBare(s: State, rs: seq<ClusterResult>, ids: seq<int>, t: State, n: int)
    requires Sound(s) && CanPersist(s, rs) && Persisted(s, rs, ids, t) && Emptied(s, rs, n)
    ensures n in t.rows && t.rows[n].status == SPLIT && !HoldsWork(t, n)
    ensures forall k :: (n, k) !in t.context
  {
    EmptiedStored(s, rs, n);
    assert RowSettled(s, rs, n, t.rows[n]);
    if k :| k in t.members && t.members[k].narrative == n {
      if Placed(rs, k) {
        var i :| 0 <= i < |rs| && rs[i].Holds(k);
        assert LinkedBy(s, rs[i], ids[i], k, t);
        WritesTo(s, rs, ids, t, i);
        SomeWork(rs[i], k);
      }
    }
  }

  lemma SomeWork(r: ClusterResult, k: EventKey)
    requires r.Holds(k)
    ensures r.events != []
  {
  }

  /** A member the last applied action describes is never moved. */
  lemma FrozenStays(s: State, rs: seq<ClusterResult>, ids: seq<int>, t: State, k: EventKey)
    requires CanPersist(s, rs) && Persisted(s, rs, ids, t) && k in s.members && !Eligible(s, k)
    ensures k in t.members && t.members[k] == s.members[k]
  {
    if Placed(rs, k) {
      var i :| 0 <= i < |rs| && rs[i].Holds(k);
      assert Takeable(s, rs[i], k) && LinkedBy(s, rs[i], ids[i], k, t);
    }
  }

  /** Events none of which falls outside the window, which begins with one and ends with one. */
  ghost predicate Bounds(start: int, end: int, evts: seq<Event>) {
    && (forall e :: e in evts ==> start <= e.at <= end)
    && (exists e :: e in evts && e.at == start) && (exists e :: e in evts && e.at == end)
  }

  /** A narrative the pass begins: an open row over exactly its result's work, from its first event to its last. */
  lemma BegunCovers(s: State, rs: seq<ClusterResult>, ids: seq<int>, t: State, i: nat)
    requires Sound(s) && CanPersist(s, rs) && Persisted(s, rs, ids, t) && i < |rs| && rs[i].kind == New
    ensures ids[i] !in s.rows && ids[i] in t.rows
    ensures var row := t.rows[ids[i]]; Bounds(row.start, row.end, rs[i].events) && row.status == OPEN
    ensures forall k :: IsMember(t, ids[i], k) <==> rs[i].Holds(k)
  {
    EarliestExactly(rs[i].events);
    LatestExactly(rs[i].events);
    forall k ensures IsMember(t, ids[i], k) <==> rs[i].Holds(k) {
      if rs[i].Holds(k) { assert LinkedBy(s, rs[i], ids[i], k, t); }
      if IsMember(t, ids[i], k) { BegunHolds(s, rs, ids, t, i, k); }
    }
  }

  lemma BegunHolds(s: State, rs: seq<ClusterResult>, ids: seq<int>, t: State, i: nat, k: EventKey)
    requires Sound(s) && CanPersist(s, rs) && Persisted(s, rs, ids, t) && i < |rs| && rs[i].kind == New && IsMember(t, ids[i], k)
    ensures rs[i].Holds(k)
  {
    if !Placed(rs, k) { StaysStored(s, rs, t, k); }
    var j :| 0 <= j < |rs| && rs[j].Holds(k);
    assert LinkedBy(s, rs[j], ids[j], k, t);
    WritesTo(s, rs, ids, t, j);
  }

  /** What no result places stays with a narrative stored before. */
  lemma StaysStored(s: State, rs: seq<ClusterResult>, t: State, k: EventKey)
    requires Sound(s) && OthersKept(s, rs, t) && k in t.members && !Placed(rs, k)
    ensures t.members[k].narrative in s.rows
  {
    assert LinkSound(s, k);
  }

  /** A result writes to a stored narrative exactly when it extends one. */
  lemma WritesTo(s: State, rs: seq<ClusterResult>, ids: seq<int>, t: State, j: nat)
    requires Sound(s) && CanPersist(s, rs) && Persisted(s, rs, ids, t) && j < |rs|
    ensures ids[j] in s.rows <==> rs[j].kind == Extends
  {
    assert Prepared(s, rs[j]);
  }

  // The order of the results.

  ghost predicate SameResults(rs: seq<ClusterResult>, qs: seq<ClusterResult>) {
    multiset(rs) == multiset(qs)
  }

  lemma SameElements(rs: seq<ClusterResult>, qs: seq<ClusterResult>)
    requires SameResults(rs, qs)
    ensures forall r :: r in rs <==> r in qs
  {
    assert forall r :: r in rs <==> r in multiset(rs);
    assert forall r :: r in qs <==> r in multiset(qs);
  }

  /** Where a result of one list stands in the other. */
  lemma Elsewhere(rs: seq<ClusterResult>, qs: seq<ClusterResult>, i: nat) returns (j: nat)
    requires SameResults(rs, qs) && i < |rs|
    ensures j < |qs| && qs[j] == rs[i]
  {
    SameElements(rs, qs);
    assert rs[i] in rs;
    j :| 0 <= j < |qs| && qs[j] == rs[i];
  }

  lemma PlacedAlike(rs: seq<ClusterResult>, qs: seq<ClusterResult>, k: EventKey)
    requires SameResults(rs, qs)
    ensures Placed(rs, k) ==> Placed(qs, k)
    ensures Background(rs, k) ==> Background(qs, k)
  {
    if Placed(rs, k) {
      var i :| 0 <= i < |rs| && rs[i].Holds(k);
      var j := Elsewhere(rs, qs, i);
    }
    if Background(rs, k) {
      var i :| 0 <= i < |rs| && k in Keys(rs[i].context);
      var j := Elsewhere(rs, qs, i);
      assert k in Keys(qs[j].context);
    }
  }

  lemma EmptiedAlike(s: State, rs: seq<ClusterResult>, qs: seq<ClusterResult>, n: int)
    requires SameResults(rs, qs)
    ensures Emptied(s, rs, n) ==> Emptied(s, qs, n)
  {
    if Emptied(s, rs, n) {
      forall k | IsMember(s, n, k) ensures Placed(qs, k) {
        PlacedAlike(rs, qs, k);
      }
      var k :| IsMember(s, n, k) && Placed(rs, k);
      assert Placed(qs, k);
      if Supplied(qs, n) {
        var j :| 0 <= j < |qs| && Carries(qs[j], n);
        var i := Elsewhere(qs, rs, j);
      }
    }
  }

  /** Two of a value in one list are two in the other. */
  lemma {:induction false} TwoOf(rs: seq<ClusterResult>, r: ClusterResult)
    requires multiset(rs)[r] >= 2
    ensures exists i, j :: 0 <= i < j < |rs| && rs[i] == r && rs[j] == r
  {
    var n := |rs| - 1;
    assert rs == rs[..n] + [rs[n]];
    if rs[n] == r {
      assert multiset(rs[..n])[r] >= 1;
      assert r in rs[..n];
      var i :| 0 <= i < n && rs[..n][i] == r;
      assert rs[i] == r;
    } else {
      TwoOf(rs[..n], r);
      var i, j :| 0 <= i < j < n && rs[..n][i] == r && rs[..n][j] == r;
      assert rs[i] == r && rs[j] == r;
    }
  }

  lemma CountTwo(rs: seq<ClusterResult>, i: nat, j: nat)
    requires i < j < |rs| && rs[i] == rs[j]
    ensures multiset(rs)[rs[i]] >= 2
  {
    assert rs == rs[..j] + [rs[j]] + rs[j + 1..];
    assert rs[i] in rs[..j];
  }

  lemma OneHomeAlike(rs: seq<ClusterResult>, qs: seq<ClusterResult>)
    requires SameResults(rs, qs) && OneHomeEach(rs)
    ensures OneHomeEach(qs)
  {
    forall a | 0 <= a < |qs| ensures UniqueKeys(qs[a].events) {
      var i := Elsewhere(qs, rs, a);
    }
    forall a, b | 0 <= a < b < |qs| ensures Keys(qs[a].events) !! Keys(qs[b].events) {
      if qs[a] == qs[b] {
        CountTwo(qs, a, b);
        TwoOf(rs, qs[a]);
      } else {
        var i := Elsewhere(qs, rs, a);
        var j := Elsewhere(qs, rs, b);
        assert i < j || j < i;
      }
    }
  }

  /** Whether a pass can be persisted does not depend on the order of its results. */
  lemma CanPersistAlike(s: State, rs: seq<ClusterResult>, qs: seq<ClusterResult>)
    requires SameResults(rs, qs) && CanPersist(s, rs)
    ensures CanPersist(s, qs)
  {
    OneHomeAlike(rs, qs);
    forall j | 0 <= j < |qs| ensures Prepared(s, qs[j]) {
      var i := Elsewhere(qs, rs, j);
    }
    forall j, k | 0 <= j < |qs| && qs[j].Holds(k) ensures Takeable(s, qs[j], k) {
      var i := Elsewhere(qs, rs, j);
    }
    forall n | Emptied(s, qs, n) ensures Splittable(s, n) {
      EmptiedAlike(s, qs, rs, n);
    }
    forall k | Background(qs, k) ensures k in s.members || Placed(qs, k) {
      PlacedAlike(qs, rs, k);
      PlacedAlike(rs, qs, k);
    }
  }

  /** n in the one outcome and m in the other are one narrative: stored before the pass, or begun by one result. */
  ghost predicate SameNarrative(
    s: State, rs: seq<ClusterResult>, ids: seq<int>, n: int, qs: seq<ClusterResult>, jds: seq<int>, m: int)
    requires |ids| == |rs| && |jds| == |qs|
  {
    (n == m && n in s.rows) || exists i, j :: SameBegun(rs, ids, i, n, qs, jds, j, m)
  }

  ghost predicate SameBegun(
    rs: seq<ClusterResult>, ids: seq<int>, i: int, n: int, qs: seq<ClusterResult>, jds: seq<int>, j: int, m: int)
    requires |ids| == |rs| && |jds| == |qs|
  {
    0 <= i < |rs| && 0 <= j < |qs| && rs[i] == qs[j] && rs[i].kind == New && ids[i] == n && jds[j] == m
  }

  /** The narrative a result writes to is the same narrative in either order. */
  lemma ResultsAlike(
    s: State, rs: seq<ClusterResult>, ids: seq<int>, t: State, qs: seq<ClusterResult>, jds: seq<int>, u: State,
    i: nat, j: nat)
    requires CanPersist(s, rs) && Persisted(s, rs, ids, t) && Persisted(s, qs, jds, u)
    requires i < |rs| && j < |qs| && rs[i] == qs[j]
    ensures SameNarrative(s, rs, ids, ids[i], qs, jds, jds[j])
  {
    assert Prepared(s, rs[i]);
    if rs[i].kind == New {
      assert SameBegun(rs, ids, i, ids[i], qs, jds, j, jds[j]);
    }
  }

  /** Each event's home is the same narrative in either order, at the same confidence. */
  lemma HomesAlike(
    s: State, rs: seq<ClusterResult>, ids: seq<int>, t: State, qs: seq<ClusterResult>, jds: seq<int>, u: State,
    k: EventKey)
    requires Sound(s) && CanPersist(s, rs) && SameResults(rs, qs)
    requires Persisted(s, rs, ids, t) && Persisted(s, qs, jds, u) && k in t.members
    ensures k in u.members && SameNarrative(s, rs, ids, t.members[k].narrative, qs, jds, u.members[k].narrative)
    ensures t.members[k].confidence == u.members[k].confidence && t.members[k].placed == u.members[k].placed
  {
    PlacedAlike(qs, rs, k);
    if Placed(rs, k) {
      var i :| 0 <= i < |rs| && rs[i].Holds(k);
      var j := Elsewhere(rs, qs, i);
      assert LinkedBy(s, rs[i], ids[i], k, t) && LinkedBy(s, qs[j], jds[j], k, u);
      ResultsAlike(s, rs, ids, t, qs, jds, u, i, j);
      FreshNotHome(s, rs, ids, t, i, k);
      FreshNotHome(s, qs, jds, u, j, k);
    } else {
      assert LinkSound(s, k);
    }
  }

  /** An event was not already the work of a narrative begun by the pass. */
  lemma FreshNotHome(s: State, rs: seq<ClusterResult>, ids: seq<int>, t: State, i: nat, k: EventKey)
    requires Sound(s) && Persisted(s, rs, ids, t) && i < |rs|
    ensures rs[i].kind == New ==> !IsMember(s, ids[i], k)
    ensures rs[i].kind == Extends ==> ids[i] == rs[i].narrativeID
  {
    if k in s.members { assert LinkSound(s, k); }
  }

  /** A narrative that is not k's home in one order has a counterpart that is not in the other. */
  lemma NotHomeAlike(
    s: State, rs: seq<ClusterResult>, ids: seq<int>, t: State, qs: seq<ClusterResult>, jds: seq<int>, u: State,
    n: int, m: int, k: EventKey)
    requires Sound(s) && CanPersist(s, rs) && CanPersist(s, qs) && SameResults(rs, qs)
    requires Persisted(s, rs, ids, t) && Persisted(s, qs, jds, u)
    requires SameNarrative(s, rs, ids, n, qs, jds, m) && IsMember(u, m, k)
    ensures IsMember(t, n, k)
  {
    HomesAlike(s, qs, jds, u, rs, ids, t, k);
    var h := t.members[k].narrative;
    assert SameNarrative(s, qs, jds, m, rs, ids, h);
    if m in s.rows {
      assert h == n;
    } else {
      var i, j :| SameBegun(rs, ids, i, n, qs, jds, j, m);
      var j', i' :| SameBegun(qs, jds, j', m, rs, ids, i', h);
      SameNewResult(s, qs, jds, u, j, j');
      OneOfItsKind(rs, s, i, i');
    }
  }

  lemma SameNewResult(s: State, qs: seq<ClusterResult>, jds: seq<int>, u: State, j: nat, j': nat)
    requires Persisted(s, qs, jds, u) && j < |qs| && j' < |qs| && qs[j].kind == New && qs[j'].kind == New && jds[j] == jds[j']
    ensures j == j'
  {
  }

  /** No two results of a pass that can be persisted begin the same narrative. */
  lemma OneOfItsKind(rs: seq<ClusterResult>, s: State, i: nat, j: nat)
    requires CanPersist(s, rs) && i < |rs| && j < |rs| && rs[i] == rs[j] && rs[i].kind == New
    ensures i == j
  {
    assert Prepared(s, rs[i]);
    InKeys(rs[i].events[0], rs[i].events);
    assert rs[i].events[0].key in Keys(rs[i].events) * Keys(rs[j].events);
  }

  /** Each event is background to the same narratives in either order. */
  lemma BackgroundAlike(
    s: State, rs: seq<ClusterResult>, ids: seq<int>, t: State, qs: seq<ClusterResult>, jds: seq<int>, u: State,
    n: int, k: EventKey) returns (m: int)
    requires Sound(s) && CanPersist(s, rs) && SameResults(rs, qs)
    requires Persisted(s, rs, ids, t) && Persisted(s, qs, jds, u) && (n, k) in t.context
    ensures SameNarrative(s, rs, ids, n, qs, jds, m) && (m, k) in u.context
  {
    CanPersistAlike(s, rs, qs);
    m := n;
    if (n, k) in s.context {
      assert BackgroundSound(s, (n, k).0, (n, k).1);
      EmptiedAlike(s, qs, rs, n);
    } else {
      var i :| 0 <= i < |rs| && ids[i] == n && k in Keys(rs[i].context);
      var j := Elsewhere(rs, qs, i);
      m := jds[j];
      ResultsAlike(s, rs, ids, t, qs, jds, u, i, j);
      assert Named(qs, jds, m, k);
      NotEmptiedAlike(s, rs, ids, t, qs, jds, u, n, m);
    }
    if IsMember(u, m, k) {
      NotHomeAlike(s, rs, ids, t, qs, jds, u, n, m, k);
    }
  }

  lemma NotEmptiedAlike(
    s: State, rs: seq<ClusterResult>, ids: seq<int>, t: State, qs: seq<ClusterResult>, jds: seq<int>, u: State,
    n: int, m: int)
    requires Sound(s) && SameResults(rs, qs) && Persisted(s, rs, ids, t) && Persisted(s, qs, jds, u)
    requires SameNarrative(s, rs, ids, n, qs, jds, m) && !Emptied(s, rs, n)
    ensures !Emptied(s, qs, m)
  {
    EmptiedAlike(s, qs, rs, m);
    EmptiedStored(s, qs, m);
  }

  lemma EmptiedStored(s: State, rs: seq<ClusterResult>, n: int)
    requires Sound(s)
    ensures Touches(s, rs, n) ==> n in s.rows
  {
    if Touches(s, rs, n) {
      var k :| IsMember(s, n, k) && Placed(rs, k);
      assert LinkSound(s, k);
    }
  }

  /** A stored narrative has the same status and the same window in either order. */
  lemma RowsAlike(
    s: State, rs: seq<ClusterResult>, ids: seq<int>, t: State, qs: seq<ClusterResult>, jds: seq<int>, u: State, n: int)
    requires SameResults(rs, qs) && Persisted(s, rs, ids, t) && Persisted(s, qs, jds, u) && n in s.rows
    ensures n in t.rows && n in u.rows && t.rows[n].(summary := "") == u.rows[n].(summary := "")
  {
    EmptiedAlike(s, rs, qs, n);
    EmptiedAlike(s, qs, rs, n);
    assert RowSettled(s, rs, n, t.rows[n]) && RowSettled(s, qs, n, u.rows[n]);
    EndsAlike(s, rs, qs, n, t.rows[n], u.rows[n]);
    EndsAlike(s, qs, rs, n, u.rows[n], t.rows[n]);
  }

  lemma EndsAlike(s: State, rs: seq<ClusterResult>, qs: seq<ClusterResult>, n: int, a: Row, b: Row)
    requires n in s.rows && SameResults(rs, qs) && RowSettled(s, rs, n, a) && RowSettled(s, qs, n, b)
    ensures a.end <= b.end
  {
    if a.end != s.rows[n].end {
      var i, e :| 0 <= i < |rs| && rs[i].ExtendsID(n) && e in rs[i].events && e.at == a.end;
      var j := Elsewhere(rs, qs, i);
      assert e in qs[j].events;
    }
  }

  /** The whole row is the same in two orders exactly when the last result giving the narrative work states the same summary. */
  lemma RowsAgreeExactly(
    s: State, rs: seq<ClusterResult>, ids: seq<int>, t: State, qs: seq<ClusterResult>, jds: seq<int>, u: State, n: int)
    requires SameResults(rs, qs) && Persisted(s, rs, ids, t) && Persisted(s, qs, jds, u) && n in s.rows
    ensures n in t.rows && n in u.rows
    ensures t.rows[n] == u.rows[n] <==> LastSummary(rs, n, s.rows[n].summary) == LastSummary(qs, n, s.rows[n].summary)
  {
    RowsAlike(s, rs, ids, t, qs, jds, u, n);
    assert RowSettled(s, rs, n, t.rows[n]) && RowSettled(s, qs, n, u.rows[n]);
  }

  /** No two results giving narrative n work state different summaries. */
  ghost predicate SummariesAgree(rs: seq<ClusterResult>, n: int) {
    forall i, j :: 0 <= i < |rs| && 0 <= j < |rs| && Carries(rs[i], n) && Carries(rs[j], n) ==> rs[i].summary == rs[j].summary
  }

  /** Every order of the results leaves the narrative the same summary. */
  ghost predicate SummaryOrderFree(rs: seq<ClusterResult>, n: int, was: string) {
    forall qs :: SameResults(rs, qs) ==> LastSummary(qs, n, was) == LastSummary(rs, n, was)
  }

  lemma {:induction false} LastSummaryExactly(rs: seq<ClusterResult>, n: int, was: string)
    ensures if Supplied(rs, n) then exists i :: 0 <= i < |rs| && Carries(rs[i], n) && LastSummary(rs, n, was) == rs[i].summary
            else LastSummary(rs, n, was) == was
  {
    if rs != [] {
      var init, r := rs[..|rs| - 1], rs[|rs| - 1];
      assert rs == init + [r];
      LastSummaryExactly(init, n, was);
      LastSummaryMore(init, r, n, was);
      if Carries(r, n) {
        assert rs[|rs| - 1] == r;
      } else if Supplied(init, n) {
        var i :| 0 <= i < |init| && Carries(init[i], n) && LastSummary(init, n, was) == init[i].summary;
        assert rs[i] == init[i];
      }
    }
  }

  lemma AgreeingSummaries(rs: seq<ClusterResult>, qs: seq<ClusterResult>, n: int, was: string)
    requires SameResults(rs, qs) && SummariesAgree(rs, n)
    ensures LastSummary(qs, n, was) == LastSummary(rs, n, was)
  {
    LastSummaryExactly(rs, n, was);
    LastSummaryExactly(qs, n, was);
    if i :| 0 <= i < |rs| && Carries(rs[i], n) {
      var j := Elsewhere(rs, qs, i);
      assert Supplied(qs, n);
    }
    if Supplied(qs, n) {
      var j :| 0 <= j < |qs| && Carries(qs[j], n) && LastSummary(qs, n, was) == qs[j].summary;
      var i := Elsewhere(qs, rs, j);
      assert Supplied(rs, n);
    }
  }

  /** A result giving the narrative work, written last, writes the summary. */
  lemma WrittenLast(rs: seq<ClusterResult>, i: nat, n: int, was: string) returns (qs: seq<ClusterResult>)
    requires i < |rs| && Carries(rs[i], n)
    ensures SameResults(rs, qs) && LastSummary(qs, n, was) == rs[i].summary
  {
    var rest := rs[..i] + rs[i + 1..];
    qs := rest + [rs[i]];
    assert rs == rs[..i] + [rs[i]] + rs[i + 1..];
    LastSummaryMore(rest, rs[i], n, was);
  }

  /** The order of the results does not decide a narrative's summary exactly when no two giving it work state different ones. */
  lemma SummaryOrderFreeExactly(rs: seq<ClusterResult>, n: int, was: string)
    ensures SummaryOrderFree(rs, n, was) <==> SummariesAgree(rs, n)
  {
    if SummariesAgree(rs, n) {
      forall qs | SameResults(rs, qs) ensures LastSummary(qs, n, was) == LastSummary(rs, n, was) {
        AgreeingSummaries(rs, qs, n, was);
      }
    }
    if SummaryOrderFree(rs, n, was) {
      forall i, j | 0 <= i < |rs| && 0 <= j < |rs| && Carries(rs[i], n) && Carries(rs[j], n)
        ensures rs[i].summary == rs[j].summary
      {
        var qs := WrittenLast(rs, i, n, was);
        var ps := WrittenLast(rs, j, n, was);
      }
    }
  }

  /** A narrative extended once has one summary to take. */
  lemma SummariesAlike(
    s: State, rs: seq<ClusterResult>, ids: seq<int>, t: State, qs: seq<ClusterResult>, jds: seq<int>, u: State, n: int)
    requires SameResults(rs, qs) && Persisted(s, rs, ids, t) && Persisted(s, qs, jds, u) && n in s.rows && ExtendsOnce(rs)
    ensures n in t.rows && n in u.rows && t.rows[n] == u.rows[n]
  {
    forall i, j | 0 <= i < |rs| && 0 <= j < |rs| && Carries(rs[i], n) && Carries(rs[j], n)
      ensures rs[i].summary == rs[j].summary
    {
      assert rs[i].narrativeID == rs[j].narrativeID;
      assert i == j;
    }
    AgreeingSummaries(rs, qs, n, s.rows[n].summary);
    RowsAgreeExactly(s, rs, ids, t, qs, jds, u, n);
  }

  function Extending(summary: string): ClusterResult {
    ClusterResult(Extends, 1, "", summary, [Event(EventKey("git", summary), 0, "", 0)], [], 1.0, map[])
  }

  /** Two results extending narrative 1, written one way and the other, leave it different summaries. */
  lemma SummaryDependsOnOrder(was: string)
    ensures var a, b := Extending("x"), Extending("y");
            && SameResults([a, b], [b, a]) && OneHomeEach([a, b])
            && LastSummary([a, b], 1, was) == "y" && LastSummary([b, a], 1, was) == "x"
  {
    var a, b := Extending("x"), Extending("y");
    assert [a] + [b] == [a, b] && [b] + [a] == [b, a];
    LastSummaryMore([a], b, 1, was);
    LastSummaryMore([b], a, 1, was);
    assert "x"[0] != "y"[0];
    assert multiset([a, b]) == multiset([b, a]);
  }

  /** Every home and background link of t has its counterpart in u. */
  ghost predicate LinksCarried(
    s: State, rs: seq<ClusterResult>, ids: seq<int>, t: State, qs: seq<ClusterResult>, jds: seq<int>, u: State)
    requires |ids| == |rs| && |jds| == |qs|
  {
    && (forall k :: k in t.members ==>
          k in u.members && SameNarrative(s, rs, ids, t.members[k].narrative, qs, jds, u.members[k].narrative))
    && (forall n, k :: (n, k) in t.context ==> BackgroundCarried(s, rs, ids, n, qs, jds, u, k))
  }

  ghost predicate BackgroundCarried(
    s: State, rs: seq<ClusterResult>, ids: seq<int>, n: int, qs: seq<ClusterResult>, jds: seq<int>, u: State, k: EventKey)
    requires |ids| == |rs| && |jds| == |qs|
  {
    exists m :: SameNarrative(s, rs, ids, n, qs, jds, m) && (m, k) in u.context
  }

  lemma LinksCarriedOver(
    s: State, rs: seq<ClusterResult>, ids: seq<int>, t: State, qs: seq<ClusterResult>, jds: seq<int>, u: State)
    requires Sound(s) && CanPersist(s, rs) && SameResults(rs, qs)
    requires Persisted(s, rs, ids, t) && Persisted(s, qs, jds, u)
    ensures LinksCarried(s, rs, ids, t, qs, jds, u)
  {
    forall k | k in t.members
      ensures k in u.members && SameNarrative(s, rs, ids, t.members[k].narrative, qs, jds, u.members[k].narrative)
    {
      HomesAlike(s, rs, ids, t, qs, jds, u, k);
    }
    forall n, k | (n, k) in t.context ensures BackgroundCarried(s, rs, ids, n, qs, jds, u, k) {
      var m := BackgroundAlike(s, rs, ids, t, qs, jds, u, n, k);
    }
  }

  /**
   * Persisting the same results in another order succeeds or fails alike, and leaves the same
   * homes, the same background and the same statuses and windows, up to the ids new narratives get.
   */
  lemma OrderOfResultsIrrelevant(
    s: State, rs: seq<ClusterResult>, ids: seq<int>, t: State, qs: seq<ClusterResult>, jds: seq<int>, u: State)
    requires Sound(s) && SameResults(rs, qs)
    ensures CanPersist(s, rs) <==> CanPersist(s, qs)
    ensures CanPersist(s, rs) && Persisted(s, rs, ids, t) && Persisted(s, qs, jds, u) ==>
              && LinksCarried(s, rs, ids, t, qs, jds, u) && LinksCarried(s, qs, jds, u, rs, ids, t)
              && forall n :: n in s.rows ==> n in t.rows && n in u.rows && t.rows[n].(summary := "") == u.rows[n].(summary := "")
  {
    if CanPersist(s, rs) { CanPersistAlike(s, rs, qs); }
    if CanPersist(s, qs) { CanPersistAlike(s, qs, rs); }
    if CanPersist(s, rs) && Persisted(s, rs, ids, t) && Persisted(s, qs, jds, u) {
      LinksCarriedOver(s, rs, ids, t, qs, jds, u);
      LinksCarriedOver(s, qs, jds, u, rs, ids, t);
      forall n | n in s.rows
        ensures n in t.rows && n in u.rows && t.rows[n].(summary := "") == u.rows[n].(summary := "")
      {
        RowsAlike(s, rs, ids, t, qs, jds, u, n);
      }
    }
  }

  // What an applied action freezes.

  /** The store once an action describing narrative n's work so far has been applied. */
  function Committed(s: State, n: int): State
    requires s.nextSeq > 0
  {
    s.(commits := s.commits[n := s.nextSeq - 1])
  }

  /** An applied action freezes all its narrative's work so far, nothing else's, and nothing linked after it. */
  lemma CommitFreezes(s: State, n: int, k: EventKey, confidence: real, placed: Placement)
    requires Sound(s)
    ensures IsMember(s, n, k) ==> !Eligible(Committed(s, n), k)
    ensures k in s.members && s.members[k].narrative != n ==> (Eligible(Committed(s, n), k) <==> Eligible(s, k))
    ensures !IsMember(s, n, k) ==> Eligible(Moved(Committed(s, n), n, k, confidence, placed), k)
  {
    if k in s.members { assert LinkSound(s, k); }
  }
}
