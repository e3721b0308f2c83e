/** The join itself: planned from one read, and written unless the run is dry. */
module PreassignPass {
  import opened Events
  import opened Oracle
  import opened Links
  import opened Preassign

  method PlanPRIdentity(db: Store, candidates: seq<Event>)
    returns (placed: seq<PreAssignment>, fallbacks: seq<Fallback>, remaining: seq<Event>)
    ensures placed == PlacedIn(db.Now(), candidates)
    ensures fallbacks == FallbacksIn(db.Now(), candidates)
    ensures remaining == RemainingIn(db.Now(), candidates)
  {
    placed, fallbacks, remaining := [], [], [];
    for i := 0 to |candidates|
      invariant placed == PlacedIn(db.Now(), candidates[..i])
      invariant fallbacks == FallbacksIn(db.Now(), candidates[..i])
      invariant remaining == RemainingIn(db.Now(), candidates[..i])
    {
      assert candidates[..i + 1][..i] == candidates[..i];
      var e := candidates[i];
      var holders := HoldersOf(db.Now(), e.pr);
      var d := Decide(e, holders);
      match d {
        case NoIdentity =>
          remaining := remaining + [e];
        case Join(n) =>
          placed := placed + [PreAssignment(e, n)];
        case FallBack(reason) =>
          fallbacks := fallbacks + [Fallback(e, reason, holders)];
          remaining := remaining + [e];
      }
    }
    assert candidates[..|candidates|] == candidates;
  }

  lemma JoinStep(s: State, placed: seq<PreAssignment>, m: nat, t: State)
    requires m < |placed| && Placeable(s, placed) && JoinedUpTo(s, placed, m, t)
    requires forall p :: p in s.context ==> p.1 in s.members
    ensures placed[m].event.key !in t.members
    ensures JoinedUpTo(s, placed, m + 1, Moved(t, placed[m].narrative, placed[m].event.key, 1.0, ByIdentity))
  {
    var p, k := placed[m], placed[m].event.key;
    var u := Moved(t, p.narrative, k, 1.0, ByIdentity);
    assert JoinedKeys(placed[..m + 1]) == JoinedKeys(placed[..m]) + {k} by {
      assert placed[..m + 1] == placed[..m] + [p];
      assert placed[..m + 1][m].event.key == k;
      forall j | j in JoinedKeys(placed[..m]) ensures j in JoinedKeys(placed[..m + 1]) {
        var i :| 0 <= i < m && placed[..m][i].event.key == j;
        assert placed[..m + 1][i].event.key == j;
      }
      forall j | j in JoinedKeys(placed[..m + 1]) ensures j in JoinedKeys(placed[..m]) + {k} {
        var i :| 0 <= i <= m && placed[..m + 1][i].event.key == j;
        assert i < m ==> placed[..m][i].event.key == j;
      }
    }
    assert k !in JoinedKeys(placed[..m]);
    forall i | 0 <= i <= m ensures JoinedBy(s, placed[i], u) {
      assert i < m ==> JoinedBy(s, placed[i], t) && placed[i].event.key != k;
    }
    forall q ensures q in u.context <==> q in s.context && !IsMember(u, q.0, q.1) {
      assert q in t.context <==> q in s.context && !IsMember(t, q.0, q.1);
    }
  }

  method LinkPRPreAssignments(db: Store, placed: seq<PreAssignment>)
    requires Sound(db.Now()) && Placeable(db.Now(), placed)
    modifies db
    ensures JoinedUpTo(old(db.Now()), placed, |placed|, db.Now())
  {
    ghost var s := db.Now();
    forall p | p in s.context ensures p.1 in s.members && !IsMember(s, p.0, p.1) {
      assert BackgroundSound(s, p.0, p.1);
    }
    for m := 0 to |placed|
      invariant JoinedUpTo(s, placed, m, db.Now())
    {
      ghost var t := db.Now();
      JoinStep(s, placed, m, t);
      var ok := db.MoveMember(placed[m].narrative, placed[m].event.key, 1.0, ByIdentity);
    }
  }

  method EndsPlanned(placed: seq<PreAssignment>) returns (ends: map<int, int>)
    ensures ends == PlannedEnds(placed)
  {
    ends := map[];
    for i := 0 to |placed|
      invariant ends == PlannedEnds(placed[..i])
    {
      assert placed[..i + 1][..i] == placed[..i];
      var p := placed[i];
      if p.narrative !in ends || p.event.at > ends[p.narrative] {
        ends := ends[p.narrative := p.event.at];
      }
    }
    assert placed[..|placed|] == placed;
  }

  lemma {:induction false} EndsNamePlaced(placed: seq<PreAssignment>)
    ensures forall n :: n in PlannedEnds(placed) <==> exists i :: 0 <= i < |placed| && placed[i].narrative == n
    ensures forall i :: 0 <= i < |placed| ==> placed[i].event.at <= PlannedEnds(placed)[placed[i].narrative]
    ensures forall n :: n in PlannedEnds(placed) ==> ReachedAt(placed, n, PlannedEnds(placed)[n])
  {
    if placed != [] {
      var m := |placed| - 1;
      EndsNamePlaced(placed[..m]);
      forall n ensures n in PlannedEnds(placed) <==> exists i :: 0 <= i < |placed| && placed[i].narrative == n {
        if i :| 0 <= i < |placed| && placed[i].narrative == n {
          assert i < m ==> placed[..m][i].narrative == n;
        }
      }
      forall i | 0 <= i < |placed| ensures placed[i].event.at <= PlannedEnds(placed)[placed[i].narrative] {
        assert i < m ==> placed[..m][i] == placed[i];
      }
      forall n | n in PlannedEnds(placed) ensures ReachedAt(placed, n, PlannedEnds(placed)[n]) {
        if n in PlannedEnds(placed[..m]) && PlannedEnds(placed)[n] == PlannedEnds(placed[..m])[n] {
          var i :| 0 <= i < m && placed[..m][i].narrative == n && placed[..m][i].event.at == PlannedEnds(placed)[n];
          assert placed[i] == placed[..m][i];
        }
      }
    }
  }

  /** Some event joined to narrative n happened at that instant. */
  ghost predicate ReachedAt(placed: seq<PreAssignment>, n: int, at: int) {
    exists i :: 0 <= i < |placed| && placed[i].narrative == n && placed[i].event.at == at
  }

  /** A join moves a narrative's end forward, never back, and no further than over what joined it; nothing else in its row changes. */
  lemma JoinReaches(s: State, placed: seq<PreAssignment>, t: State, n: int)
    requires Joined(s, placed, t) && n in s.rows
    ensures n in t.rows && t.rows[n] == s.rows[n].(end := t.rows[n].end) && s.rows[n].end <= t.rows[n].end
    ensures forall i :: 0 <= i < |placed| && placed[i].narrative == n ==> placed[i].event.at <= t.rows[n].end
    ensures t.rows[n].end == s.rows[n].end || ReachedAt(placed, n, t.rows[n].end)
  {
    EndsNamePlaced(placed);
  }

  /** Each narrative joined reaches its latest joined event; no end moves back. */
  method ExtendForPreAssignments(db: Store, placed: seq<PreAssignment>)
    requires forall i :: 0 <= i < |placed| ==> placed[i].narrative in db.rows
    modifies db`rows
    ensures db.rows == Reached(old(db.rows), PlannedEnds(placed))
  {
    var ends := EndsPlanned(placed);
    EndsNamePlaced(placed);
    var before := db.rows;
    var left: seq<int> := [];
    for i := 0 to |placed|
      invariant forall n :: n in left <==> exists j :: 0 <= j < i && placed[j].narrative == n
    {
      if placed[i].narrative !in left {
        left := left + [placed[i].narrative];
      }
    }
    for i := 0 to |left|
      invariant db.rows.Keys == before.Keys
      invariant forall n :: n in before ==>
                  db.rows[n] == if n in left[..i] then before[n].(end := Forward(before[n].end, ends, n)) else before[n]
    {
      var n := left[i];
      assert left[..i + 1] == left[..i] + [n];
      assert n in left;
      var row := db.rows[n];
      if ends[n] > row.end {
        db.ExtendNarrative(n, ends[n], row.summary);
      }
    }
    assert left[..|left|] == left;
    assert forall n :: n in ends <==> n in left;
  }

  /**
   * Joins what one open narrative's pull request settles and returns the rest. A dry run
   * decides the same and writes nothing.
   */
  method PreassignByPullRequest(db: Store, candidates: seq<Event>, dryRun: bool)
    returns (remaining: seq<Event>, placed: seq<PreAssignment>, fallbacks: seq<Fallback>)
    requires Sound(db.Now()) && Unplaced(db.Now(), candidates)
    modifies db
    ensures placed == PlacedIn(old(db.Now()), candidates)
    ensures fallbacks == FallbacksIn(old(db.Now()), candidates)
    ensures remaining == RemainingIn(old(db.Now()), candidates)
    ensures if dryRun then db.Now() == old(db.Now()) else Joined(old(db.Now()), placed, db.Now())
  {
    ghost var s := db.Now();
    placed, fallbacks, remaining := PlanPRIdentity(db, candidates);
    if !dryRun {
      PlanPlaceable(s, candidates);
      LinkPRPreAssignments(db, placed);
      ExtendForPreAssignments(db, placed);
      JoinThenReach(s, placed, db.Now());
    }
  }

  lemma JoinThenReach(s: State, placed: seq<PreAssignment>, t: State)
    requires JoinedUpTo(s, placed, |placed|, t.(rows := s.rows)) && t.rows == Reached(s.rows, PlannedEnds(placed))
    ensures Joined(s, placed, t)
  {
    var u := t.(rows := s.rows);
    forall i | 0 <= i < |placed| ensures JoinedBy(s.(rows := t.rows), placed[i], t) {
      assert JoinedBy(s, placed[i], u);
    }
    forall p ensures p in t.context <==> p in s.context && !IsMember(t, p.0, p.1) {
      assert p in u.context <==> p in s.context && !IsMember(u, p.0, p.1);
    }
  }

  /** The join leaves the store sound. */
  lemma JoinKeepsSound(s: State, placed: seq<PreAssignment>, t: State)
    requires Sound(s) && Placeable(s, placed) && Joined(s, placed, t)
    ensures Sound(t)
  {
    assert placed[..|placed|] == placed;
    forall k | k in t.members ensures LinkSound(t, k) {
      if k in JoinedKeys(placed) {
        var i :| 0 <= i < |placed| && placed[i].event.key == k;
        assert JoinedBy(s.(rows := t.rows), placed[i], t);
      } else {
        assert LinkSound(s, k);
      }
    }
    forall p | p in t.context ensures BackgroundSound(t, p.0, p.1) {
      assert BackgroundSound(s, p.0, p.1);
      assert p.1 !in JoinedKeys(placed);
    }
  }
}
