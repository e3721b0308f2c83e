/**
 * What the model is shown once the join has run, and why a dry run, which has written nothing,
 * shows it the same.
 */
module DryRun {
  import opened Events
  import opened Oracle
  import opened Links
  import opened Preassign
  import opened PreassignPass
  import Windows

  /** A stored narrative as a clustering pass reads it: frozen work, work that may move, background. */
  datatype Hydrated = Hydrated(id: int, row: Row, frozen: seq<Event>, eligible: seq<Event>, background: seq<Event>)

  /** Which of a narrative's links a list is read from. */
  datatype Kind = Frozen | Uncommitted | Context

  /** The event comes after what the narrative's summary already recounts. */
  predicate AfterBoundary(row: Row, e: Stored) {
    match row.boundary
    case None => true
    case Some(b) => e.event.at > b.at || (e.event.at == b.at && e.id > b.id)
  }

  /** Narrative n holds the event under that kind of link. */
  predicate LinkedAs(s: State, n: int, kind: Kind, k: EventKey) {
    match kind
    case Frozen => IsMember(s, n, k) && !Eligible(s, k)
    case Uncommitted => IsMember(s, n, k) && Eligible(s, k)
    case Context => (n, k) in s.context
  }

  /** Narrative n's visible events of one kind, in (occurred_at, id) order. */
  function Visible(s: State, n: int, row: Row, kind: Kind, count: nat): seq<Event>
    requires count <= |s.events|
  {
    if count == 0 then [] else Visible(s, n, row, kind, count - 1) + LastVisible(s, n, row, kind, count)
  }

  /** The last of the first `count` events, if it is visible. */
  function LastVisible(s: State, n: int, row: Row, kind: Kind, count: nat): seq<Event>
    requires 0 < count <= |s.events|
  {
    var e := s.events[count - 1];
    if AfterBoundary(row, e) && LinkedAs(s, n, kind, e.event.key) then [e.event] else []
  }

  function Hydrate(s: State, n: int, row: Row): Hydrated {
    Hydrated(n, row,
             Visible(s, n, row, Frozen, |s.events|),
             Visible(s, n, row, Uncommitted, |s.events|),
             Visible(s, n, row, Context, |s.events|))
  }

  /** The narratives overlapping or touching the window, as if their windows had been moved forward already. */
  function OverlappingExtended(s: State, w: TimeRange, ends: map<int, int>): map<int, Row> {
    map n | n in s.rows && Forward(s.rows[n].end, ends, n) >= w.start && s.rows[n].start <= w.end && s.rows[n].status != SPLIT
      :: s.rows[n].(end := Forward(s.rows[n].end, ends, n))
  }

  /**
   * Ranks the narratives found and keeps as many as the configuration allows. Any function
   * of the rows will do: the pass also gives it the candidates' issue keys and the
   * narratives' issue links, which the join changes neither of.
   */
  type Ranking = map<int, Row> -> seq<int>

  ghost predicate Selects(rank: Ranking) {
    forall rows, n :: n in rank(rows) ==> n in rows
  }

  function HydrateAll(s: State, rows: map<int, Row>, ids: seq<int>): seq<Hydrated>
    requires forall n :: n in ids ==> n in rows
  {
    if ids == [] then []
    else HydrateAll(s, rows, ids[..|ids| - 1]) + [Hydrate(s, ids[|ids| - 1], rows[ids[|ids| - 1]])]
  }

  /** The events not hidden, in order. */
  function KeepOf(evts: seq<Event>, hidden: set<EventKey>): seq<Event> {
    if evts == [] then []
    else KeepOf(evts[..|evts| - 1], hidden) + if evts[|evts| - 1].key in hidden then [] else [evts[|evts| - 1]]
  }

  function HideIn(h: Hydrated, hidden: set<EventKey>): Hydrated {
    h.(frozen := KeepOf(h.frozen, hidden), eligible := KeepOf(h.eligible, hidden), background := KeepOf(h.background, hidden))
  }

  function HideAll(hs: seq<Hydrated>, hidden: set<EventKey>): (r: seq<Hydrated>)
    ensures |r| == |hs| && forall i :: 0 <= i < |hs| ==> r[i] == HideIn(hs[i], hidden)
  {
    seq(|hs|, i requires 0 <= i < |hs| => HideIn(hs[i], hidden))
  }

  // The methods.

  method VisibleOf(db: Store, n: int, row: Row) returns (h: Hydrated)
    ensures h == Hydrate(db.Now(), n, row)
  {
    var s := db.Now();
    var frozen, eligible, background: seq<Event> := [], [], [];
    for i := 0 to |s.events|
      invariant frozen == Visible(s, n, row, Frozen, i)
      invariant eligible == Visible(s, n, row, Uncommitted, i)
      invariant background == Visible(s, n, row, Context, i)
    {
      var e := s.events[i];
      if AfterBoundary(row, e) {
        if IsMember(s, n, e.event.key) {
          if Eligible(s, e.event.key) {
            eligible := eligible + [e.event];
          } else {
            frozen := frozen + [e.event];
          }
        }
        if (n, e.event.key) in s.context {
          background := background + [e.event];
        }
      }
    }
    h := Hydrated(n, row, frozen, eligible, background);
  }

  method HydrateContextNarratives(db: Store, w: TimeRange, ends: map<int, int>, rank: Ranking) returns (out: seq<Hydrated>)
    requires Selects(rank)
    ensures var rows := OverlappingExtended(db.Now(), w, ends); out == HydrateAll(db.Now(), rows, rank(rows))
  {
    var rows := OverlappingExtended(db.Now(), w, ends);
    var ids := rank(rows);
    out := [];
    for i := 0 to |ids|
      invariant out == HydrateAll(db.Now(), rows, ids[..i])
    {
      assert ids[..i + 1][..i] == ids[..i];
      assert ids[i] in ids;
      var h := VisibleOf(db, ids[i], rows[ids[i]]);
      out := out + [h];
    }
    assert ids[..|ids|] == ids;
  }

  method Keep(evts: seq<Event>, hidden: set<EventKey>) returns (out: seq<Event>)
    ensures out == KeepOf(evts, hidden)
  {
    out := [];
    for i := 0 to |evts|
      invariant out == KeepOf(evts[..i], hidden)
    {
      assert evts[..i + 1][..i] == evts[..i];
      if evts[i].key !in hidden {
        out := out + [evts[i]];
      }
    }
    assert evts[..|evts|] == evts;
  }

  /** Takes every event the join placed out of the narratives shown, in place. */
  method HidePreAssigned(existing: array<Hydrated>, placed: seq<PreAssignment>)
    modifies existing
    ensures existing[..] == HideAll(old(existing[..]), JoinedKeys(placed))
  {
    var hidden: set<EventKey> := {};
    for i := 0 to |placed|
      invariant hidden == JoinedKeys(placed[..i]) && existing[..] == old(existing[..])
    {
      JoinedKeysStep(placed, i);
      hidden := hidden + {placed[i].event.key};
    }
    assert placed[..|placed|] == placed;
    assert forall j :: 0 <= j < existing.Length ==> existing[j] == existing[..][j];
    for i := 0 to existing.Length
      invariant forall j :: 0 <= j < i ==> existing[j] == HideIn(old(existing[j]), hidden)
      invariant forall j :: i <= j < existing.Length ==> existing[j] == old(existing[j])
    {
      var h := existing[i];
      var frozen := Keep(h.frozen, hidden);
      var eligible := Keep(h.eligible, hidden);
      var background := Keep(h.background, hidden);
      existing[i] := h.(frozen := frozen, eligible := eligible, background := background);
    }
  }

  lemma JoinedKeysStep(placed: seq<PreAssignment>, i: nat)
    requires i < |placed|
    ensures JoinedKeys(placed[..i + 1]) == JoinedKeys(placed[..i]) + {placed[i].event.key}
  {
    assert placed[..i + 1] == placed[..i] + [placed[i]];
    assert placed[..i + 1][i] == placed[i];
    forall k | k in JoinedKeys(placed[..i]) ensures k in JoinedKeys(placed[..i + 1]) {
      var j :| 0 <= j < i && placed[..i][j].event.key == k;
      assert placed[..i + 1][j].event.key == k;
    }
    forall k | k in JoinedKeys(placed[..i + 1]) ensures k in JoinedKeys(placed[..i]) + {placed[i].event.key} {
      var j :| 0 <= j <= i && placed[..i + 1][j].event.key == k;
      assert j < i ==> placed[..i][j].event.key == k;
    }
  }

  /** What a clustering call is given: the candidates left and the narratives shown. */
  datatype Input = Input(candidates: seq<Event>, existing: seq<Hydrated>)

  function InputFrom(before: State, now: State, candidates: seq<Event>, w: TimeRange, rank: Ranking): Input
    requires Selects(rank)
  {
    var placed := PlacedIn(before, candidates);
    var rows := OverlappingExtended(now, w, PlannedEnds(placed));
    Input(RemainingIn(before, candidates), HideAll(HydrateAll(now, rows, rank(rows)), JoinedKeys(placed)))
  }

  method AssembleInput(db: Store, candidates: seq<Event>, w: TimeRange, rank: Ranking, dryRun: bool) returns (input: Input)
    requires Sound(db.Now()) && Unplaced(db.Now(), candidates) && Selects(rank)
    modifies db
    ensures input == InputFrom(old(db.Now()), db.Now(), candidates, w, rank)
    ensures if dryRun then db.Now() == old(db.Now()) else Joined(old(db.Now()), PlacedIn(old(db.Now()), candidates), db.Now())
    ensures input == InputFrom(old(db.Now()), old(db.Now()), candidates, w, rank)
  {
    ghost var s := db.Now();
    var remaining, placed, fallbacks := PreassignByPullRequest(db, candidates, dryRun);
    var ends := EndsPlanned(placed);
    var shown := HydrateContextNarratives(db, w, ends, rank);
    var existing := new Hydrated[|shown|](i requires 0 <= i < |shown| => shown[i]);
    assert existing[..] == shown;
    HidePreAssigned(existing, placed);
    input := Input(remaining, existing[..]);
    if !dryRun {
      DryRunEqualsRealRun(s, db.Now(), candidates, w, rank);
    }
  }

  // What is read.

  /** The stored events are in (occurred_at, id) order. */
  ghost predicate InOrder(s: State) {
    forall i, j :: 0 <= i < j < |s.events| ==>
      s.events[i].event.at < s.events[j].event.at || (s.events[i].event.at == s.events[j].event.at && s.events[i].id < s.events[j].id)
  }

  /** A narrative folded up to one of the stored events shows the events after that one, and only those. */
  lemma ShownFromBoundary(s: State, row: Row, i: nat, j: nat)
    requires InOrder(s) && i < |s.events| && j < |s.events|
    requires row.boundary == Some(Boundary(s.events[j].event.at, s.events[j].id))
    ensures AfterBoundary(row, s.events[i]) <==> i > j
  {
  }

  lemma {:induction false} VisibleExactly(s: State, n: int, row: Row, kind: Kind, count: nat)
    requires count <= |s.events|
    ensures forall e :: e in Visible(s, n, row, kind, count) <==>
              exists i :: 0 <= i < count && s.events[i].event == e && AfterBoundary(row, s.events[i]) && LinkedAs(s, n, kind, e.key)
  {
    if count > 0 {
      VisibleExactly(s, n, row, kind, count - 1);
    }
  }

  /**
   * A narrative is read exactly when it is not split and some instant is in both its window,
   * moved forward over what joined it, and the pass's, ends included.
   */
  lemma OverlapsExactly(s: State, w: TimeRange, ends: map<int, int>, n: int)
    requires n in s.rows && s.rows[n].start <= s.rows[n].end && w.start <= w.end
    ensures n in OverlappingExtended(s, w, ends) <==>
            s.rows[n].status != SPLIT && Windows.Meet(s.rows[n].start, Forward(s.rows[n].end, ends, n), w.start, w.end)
  {
    var end := Forward(s.rows[n].end, ends, n);
    var x := if s.rows[n].start > w.start then s.rows[n].start else w.start;
    if n in OverlappingExtended(s, w, ends) {
      assert Windows.InSpan(x, s.rows[n].start, end) && Windows.InSpan(x, w.start, w.end);
    }
  }

  // Why they agree.

  lemma {:induction false} KeepConcat(a: seq<Event>, b: seq<Event>, hidden: set<EventKey>)
    ensures KeepOf(a + b, hidden) == KeepOf(a, hidden) + KeepOf(b, hidden)
  {
    if b == [] {
      assert a + b == a;
    } else {
      KeepConcat(a, b[..|b| - 1], hidden);
      assert (a + b)[..|a + b| - 1] == a + b[..|b| - 1];
    }
  }

  /** An event the join did not place is linked as before. */
  lemma SameLink(s: State, placed: seq<PreAssignment>, t: State, n: int, kind: Kind, k: EventKey)
    requires Joined(s, placed, t) && k !in JoinedKeys(placed)
    requires forall p :: p in s.context ==> !IsMember(s, p.0, p.1)
    ensures LinkedAs(t, n, kind, k) <==> LinkedAs(s, n, kind, k)
  {
    assert placed[..|placed|] == placed;
    assert (n, k) in t.context <==> (n, k) in s.context && !IsMember(t, (n, k).0, (n, k).1);
  }

  lemma SameLast(s: State, placed: seq<PreAssignment>, t: State, n: int, row: Row, kind: Kind, count: nat)
    requires Joined(s, placed, t) && 0 < count <= |s.events|
    requires forall p :: p in s.context ==> !IsMember(s, p.0, p.1)
    ensures var hidden := JoinedKeys(placed);
            KeepOf(LastVisible(t, n, row, kind, count), hidden) == KeepOf(LastVisible(s, n, row, kind, count), hidden)
  {
    var e, hidden := s.events[count - 1].event, JoinedKeys(placed);
    if e.key !in hidden {
      SameLink(s, placed, t, n, kind, e.key);
    } else {
      assert KeepOf([e], hidden) == [] == KeepOf([], hidden) by { assert [e][..0] == []; }
    }
  }

  lemma KeptLast(s: State, n: int, row: Row, kind: Kind, count: nat, hidden: set<EventKey>)
    requires 0 < count <= |s.events|
    ensures KeepOf(Visible(s, n, row, kind, count), hidden) ==
            KeepOf(Visible(s, n, row, kind, count - 1), hidden) + KeepOf(LastVisible(s, n, row, kind, count), hidden)
  {
    KeepConcat(Visible(s, n, row, kind, count - 1), LastVisible(s, n, row, kind, count), hidden);
  }

  /** Hiding what the join placed leaves the same events visible before and after it. */
  lemma {:induction false} SameVisible(
    s: State, placed: seq<PreAssignment>, t: State, n: int, row: Row, kind: Kind, count: nat)
    requires Joined(s, placed, t) && count <= |s.events|
    requires forall p :: p in s.context ==> !IsMember(s, p.0, p.1)
    ensures KeepOf(Visible(t, n, row, kind, count), JoinedKeys(placed)) == KeepOf(Visible(s, n, row, kind, count), JoinedKeys(placed))
  {
    if count > 0 {
      SameVisible(s, placed, t, n, row, kind, count - 1);
      SameLast(s, placed, t, n, row, kind, count);
      KeptLast(t, n, row, kind, count, JoinedKeys(placed));
      KeptLast(s, n, row, kind, count, JoinedKeys(placed));
    }
  }

  lemma SameHydrated(s: State, placed: seq<PreAssignment>, t: State, n: int, row: Row)
    requires Joined(s, placed, t)
    requires forall p :: p in s.context ==> !IsMember(s, p.0, p.1)
    ensures HideIn(Hydrate(t, n, row), JoinedKeys(placed)) == HideIn(Hydrate(s, n, row), JoinedKeys(placed))
  {
    SameVisible(s, placed, t, n, row, Frozen, |s.events|);
    SameVisible(s, placed, t, n, row, Uncommitted, |s.events|);
    SameVisible(s, placed, t, n, row, Context, |s.events|);
  }

  lemma {:induction false} SameHydratedAll(
    s: State, placed: seq<PreAssignment>, t: State, rows: map<int, Row>, ids: seq<int>)
    requires Joined(s, placed, t) && forall n :: n in ids ==> n in rows
    requires forall p :: p in s.context ==> !IsMember(s, p.0, p.1)
    ensures HideAll(HydrateAll(t, rows, ids), JoinedKeys(placed)) == HideAll(HydrateAll(s, rows, ids), JoinedKeys(placed))
  {
    if ids != [] {
      var m := |ids| - 1;
      SameHydratedAll(s, placed, t, rows, ids[..m]);
      assert ids[m] in ids;
      SameHydrated(s, placed, t, ids[m], rows[ids[m]]);
      HideAllConcat(HydrateAll(t, rows, ids[..m]), Hydrate(t, ids[m], rows[ids[m]]), JoinedKeys(placed));
      HideAllConcat(HydrateAll(s, rows, ids[..m]), Hydrate(s, ids[m], rows[ids[m]]), JoinedKeys(placed));
    }
  }

  lemma HideAllConcat(hs: seq<Hydrated>, h: Hydrated, hidden: set<EventKey>)
    ensures HideAll(hs + [h], hidden) == HideAll(hs, hidden) + [HideIn(h, hidden)]
  {
  }

  /** The windows the join moved are the windows a dry run reads as moved. */
  lemma SameOverlapping(s: State, placed: seq<PreAssignment>, t: State, w: TimeRange)
    requires Joined(s, placed, t)
    ensures OverlappingExtended(t, w, PlannedEnds(placed)) == OverlappingExtended(s, w, PlannedEnds(placed))
  {
  }

  /**
   * From any sound store, a real run, which has written its joins, gives the model the same
   * candidates and the same narratives, with the same windows, frozen, movable and background
   * events, as a dry run, which has written nothing.
   */
  lemma DryRunEqualsRealRun(s: State, t: State, candidates: seq<Event>, w: TimeRange, rank: Ranking)
    requires Sound(s) && Joined(s, PlacedIn(s, candidates), t) && Selects(rank)
    ensures InputFrom(s, t, candidates, w, rank) == InputFrom(s, s, candidates, w, rank)
  {
    var placed := PlacedIn(s, candidates);
    SameOverlapping(s, placed, t, w);
    forall p | p in s.context ensures !IsMember(s, p.0, p.1) {
      assert BackgroundSound(s, p.0, p.1);
    }
    var rows := OverlappingExtended(s, w, PlannedEnds(placed));
    SameHydratedAll(s, placed, t, rows, rank(rows));
  }

  lemma {:induction false} KeptOnly(evts: seq<Event>, hidden: set<EventKey>)
    ensures forall e :: e in KeepOf(evts, hidden) <==> e in evts && e.key !in hidden
  {
    if evts != [] {
      KeptOnly(evts[..|evts| - 1], hidden);
      assert evts == evts[..|evts| - 1] + [evts[|evts| - 1]];
    }
  }

  lemma HiddenFrom(h: Hydrated, hidden: set<EventKey>, k: EventKey)
    requires k in hidden
    ensures var shown := HideIn(h, hidden); k !in Keys(shown.frozen) + Keys(shown.eligible) + Keys(shown.background)
  {
    KeptOnly(h.frozen, hidden);
    KeptOnly(h.eligible, hidden);
    KeptOnly(h.background, hidden);
  }

  lemma HiddenFromAll(hs: seq<Hydrated>, hidden: set<EventKey>, k: EventKey)
    requires k in hidden
    ensures forall h :: h in HideAll(hs, hidden) ==> k !in Keys(h.frozen) + Keys(h.eligible) + Keys(h.background)
  {
    forall h | h in HideAll(hs, hidden) ensures k !in Keys(h.frozen) + Keys(h.eligible) + Keys(h.background) {
      var j :| 0 <= j < |hs| && HideAll(hs, hidden)[j] == h;
      HiddenFrom(hs[j], hidden, k);
    }
  }

  /** A joined event is not left for the model. */
  lemma JoinedNotLeft(s: State, candidates: seq<Event>, p: PreAssignment)
    requires UniqueKeys(candidates) && p in PlacedIn(s, candidates)
    ensures p.event.key !in Keys(RemainingIn(s, candidates)) && p.event.key in JoinedKeys(PlacedIn(s, candidates))
  {
    PlacedInExactly(s, candidates);
    forall e | e in RemainingIn(s, candidates) ensures e.key != p.event.key {
      if e.key == p.event.key { SameKeySameEvent(candidates, e, p.event); }
    }
    var i :| 0 <= i < |PlacedIn(s, candidates)| && PlacedIn(s, candidates)[i] == p;
  }

  /** An event the join placed is neither a candidate nor in any narrative shown, so no reply can move it. */
  lemma PlacedNeverShown(s: State, now: State, candidates: seq<Event>, w: TimeRange, rank: Ranking, p: PreAssignment)
    requires UniqueKeys(candidates) && Selects(rank) && p in PlacedIn(s, candidates)
    ensures var input := InputFrom(s, now, candidates, w, rank);
            && p.event.key !in Keys(input.candidates)
            && forall h :: h in input.existing ==> p.event.key !in Keys(h.frozen) + Keys(h.eligible) + Keys(h.background)
  {
    var placed := PlacedIn(s, candidates);
    JoinedNotLeft(s, candidates, p);
    var rows := OverlappingExtended(now, w, PlannedEnds(placed));
    HiddenFromAll(HydrateAll(now, rows, rank(rows)), JoinedKeys(placed), p.event.key);
  }
}
