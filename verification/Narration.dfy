/**
 * One narration pass, end to end: what identity settles is joined, what is left is clustered,
 * and the clusters are persisted. Nothing the model replies can leave a candidate without a
 * home, give one two, or move committed work.
 */
module Narration {
  import opened Events
  import opened Clusters
  import opened Regrouping
  import opened Oracle
  import opened Prompts
  import opened Links
  import opened Persisting
  import PersistPass
  import PersistFacts
  import opened Preassign
  import PreassignPass
  import opened DryRun
  import ContextFit
  import Windows
  import Engine
  import Pass
  import Text

  // Between clustering and persisting.

  /** The cluster holds some event. */
  predicate Holding(r: ClusterResult) {
    r.events != [] || r.context != []
  }

  function DropEmpty(rs: seq<ClusterResult>): seq<ClusterResult> {
    if rs == [] then []
    else DropEmpty(rs[..|rs| - 1]) + if Holding(rs[|rs| - 1]) then [rs[|rs| - 1]] else []
  }

  method DropEmptyClusters(rs: seq<ClusterResult>) returns (kept: seq<ClusterResult>)
    ensures kept == DropEmpty(rs)
  {
    kept := [];
    for i := 0 to |rs|
      invariant kept == DropEmpty(rs[..i])
    {
      assert rs[..i + 1][..i] == rs[..i];
      if rs[i].events != [] || rs[i].context != [] {
        kept := kept + [rs[i]];
      }
    }
    assert rs[..|rs|] == rs;
  }

  /** A New cluster holds some work. */
  predicate NewHoldsWork(r: ClusterResult) {
    r.kind == New ==> r.events != []
  }

  method RequireNonEmptyClusters(rs: seq<ClusterResult>) returns (ok: bool)
    ensures ok <==> forall i :: 0 <= i < |rs| ==> NewHoldsWork(rs[i])
  {
    for i := 0 to |rs|
      invariant forall j :: 0 <= j < i ==> NewHoldsWork(rs[j])
    {
      if rs[i].kind == New && rs[i].events == [] {
        return false;
      }
    }
    ok := true;
  }

  /** `kept` is the clusters of `rs` at the positions `at`, in order, every one that holds an event. */
  ghost predicate KeptAt(rs: seq<ClusterResult>, kept: seq<ClusterResult>, at: seq<nat>) {
    && |at| == |kept|
    && (forall p :: 0 <= p < |at| ==> at[p] < |rs| && kept[p] == rs[at[p]] && Holding(kept[p]))
    && (forall p, q :: 0 <= p < q < |at| ==> at[p] < at[q])
    && (forall i :: 0 <= i < |rs| && Holding(rs[i]) ==> i in at)
  }

  lemma KeptStep(rs: seq<ClusterResult>, kept: seq<ClusterResult>, at: seq<nat>, r: ClusterResult)
    requires KeptAt(rs, kept, at)
    ensures Holding(r) ==> KeptAt(rs + [r], kept + [r], at + [|rs|])
    ensures !Holding(r) ==> KeptAt(rs + [r], kept, at)
  {
    var all, positions := rs + [r], at + [|rs|];
    assert positions[|at|] == |rs|;
    forall i | 0 <= i < |all| && Holding(all[i]) ensures i in positions && (i < |rs| ==> i in at) {
      if i < |rs| {
        assert all[i] == rs[i];
        var p :| 0 <= p < |at| && at[p] == i;
        assert positions[p] == i;
      }
    }
  }

  /** Where each cluster kept stood: dropping keeps the order and every cluster that holds an event. */
  lemma {:induction false} DropEmptyExactly(rs: seq<ClusterResult>) returns (at: seq<nat>)
    ensures KeptAt(rs, DropEmpty(rs), at)
  {
    at := [];
    if rs != [] {
      var n := |rs| - 1;
      at := DropEmptyExactly(rs[..n]);
      KeptStep(rs[..n], DropEmpty(rs[..n]), at, rs[n]);
      assert rs == rs[..n] + [rs[n]];
      if Holding(rs[n]) {
        at := at + [n];
      }
      assert DropEmpty(rs[..n]) + [] == DropEmpty(rs[..n]);
    }
  }

  lemma DroppedKeeps(rs: seq<ClusterResult>, k: EventKey)
    ensures Placed(DropEmpty(rs), k) <==> Placed(rs, k)
    ensures Background(DropEmpty(rs), k) ==> Background(rs, k)
    ensures SoleClaim(rs, k) ==> SoleClaim(DropEmpty(rs), k)
  {
    var kept := DropEmpty(rs);
    var at := DropEmptyExactly(rs);
    if Placed(rs, k) {
      var i :| 0 <= i < |rs| && rs[i].Holds(k);
      assert Holding(rs[i]);
      var p :| 0 <= p < |at| && at[p] == i;
      assert kept[p].Holds(k);
    }
    if Placed(kept, k) {
      var p :| 0 <= p < |kept| && kept[p].Holds(k);
      assert rs[at[p]].Holds(k);
    }
    if Background(kept, k) {
      var p :| 0 <= p < |kept| && k in Keys(kept[p].context);
      assert k in Keys(rs[at[p]].context);
    }
    if SoleClaim(rs, k) {
      forall p, q | 0 <= p < |kept| && 0 <= q < |kept| && kept[p].Holds(k) && kept[q].Holds(k) ensures p == q {
        assert rs[at[p]].Holds(k) && rs[at[q]].Holds(k);
      }
    }
  }

  /** What clustering is offered: stored events, each of the window's own or some narrative's work that may still move. */
  ghost predicate Offered(s: State, evts: seq<Event>, ns: seq<ContextFit.Narrative>, w: TimeRange) {
    forall e :: e in Engine.Pool(evts, ns, w) ==>
      && Exists(s, e.key)
      && (e in Within(evts, w) || e.key in s.members)
      && (e.key in s.members ==> Eligible(s, e.key))
  }

  lemma CoverHasOneHomeEach(rs: seq<ClusterResult>)
    requires AllWellFormed(rs) && forall k :: SoleClaim(rs, k)
    ensures OneHomeEach(rs)
  {
    forall i | 0 <= i < |rs| ensures UniqueKeys(rs[i].events) {
      assert WellFormed(rs[i]);
    }
    forall i, j | 0 <= i < j < |rs| ensures Keys(rs[i].events) !! Keys(rs[j].events) {
      forall k | k in Keys(rs[i].events) ensures k !in Keys(rs[j].events) {
        assert SoleClaim(rs, k) && rs[i].Holds(k);
      }
    }
  }

  /** Any event a cluster names was offered. */
  lemma NamedWasOffered(s: State, rs: seq<ClusterResult>, evts: seq<Event>, ns: seq<ContextFit.Narrative>, w: TimeRange, i: nat, e: Event)
    requires DrawnFrom(rs, Engine.Pool(evts, ns, w)) && Offered(s, evts, ns, w)
    requires i < |rs| && (e in rs[i].events || e in rs[i].context)
    ensures Exists(s, e.key) && (e in Within(evts, w) || e.key in s.members) && (e.key in s.members ==> Eligible(s, e.key))
  {
  }

  /** What is still open once clustering has covered the window exactly. */
  ghost predicate Writable(s: State, rs: seq<ClusterResult>) {
    && (forall i :: 0 <= i < |rs| ==> NewHoldsWork(rs[i]))
    && (forall i :: 0 <= i < |rs| && rs[i].kind == Extends ==> rs[i].narrativeID in s.rows)
    && (forall n :: Emptied(s, rs, n) ==> Splittable(s, n))
  }

  lemma CoverTakeable(s: State, rs: seq<ClusterResult>, kept: seq<ClusterResult>, evts: seq<Event>, ns: seq<ContextFit.Narrative>, w: TimeRange)
    requires Pass.ExactCover(rs, evts, ns, w) && Offered(s, evts, ns, w) && kept == DropEmpty(rs)
    ensures AllTakeable(s, kept)
    ensures forall i, e :: 0 <= i < |kept| && (e in kept[i].events || e in kept[i].context) ==> Exists(s, e.key)
  {
    var at := DropEmptyExactly(rs);
    forall i, e | 0 <= i < |kept| && (e in kept[i].events || e in kept[i].context)
      ensures Exists(s, e.key) && (e.key in s.members ==> Eligible(s, e.key))
    {
      NamedWasOffered(s, rs, evts, ns, w, at[i], e);
    }
    forall i, k | 0 <= i < |kept| && kept[i].Holds(k) ensures Takeable(s, kept[i], k) {
      var e :| e in kept[i].events && e.key == k;
      NamedWasOffered(s, rs, evts, ns, w, at[i], e);
    }
  }

  lemma CoverHomed(s: State, rs: seq<ClusterResult>, evts: seq<Event>, ns: seq<ContextFit.Narrative>, w: TimeRange)
    requires Pass.ExactCover(rs, evts, ns, w) && Offered(s, evts, ns, w)
    ensures Homed(s, DropEmpty(rs))
  {
    forall k | Background(DropEmpty(rs), k) ensures k in s.members || Placed(DropEmpty(rs), k) {
      DroppedKeeps(rs, k);
      var i :| 0 <= i < |rs| && k in Keys(rs[i].context);
      var e :| e in rs[i].context && e.key == k;
      NamedWasOffered(s, rs, evts, ns, w, i, e);
      if e in Within(evts, w) {
        assert Pass.OneHome(rs, e.key);
      }
    }
  }

  lemma KeptOneHomeEach(rs: seq<ClusterResult>, evts: seq<Event>, ns: seq<ContextFit.Narrative>, w: TimeRange)
    requires Pass.ExactCover(rs, evts, ns, w)
    ensures OneHomeEach(DropEmpty(rs))
  {
    var at := DropEmptyExactly(rs);
    forall k ensures SoleClaim(DropEmpty(rs), k) {
      DroppedKeeps(rs, k);
    }
    assert AllWellFormed(DropEmpty(rs));
    CoverHasOneHomeEach(DropEmpty(rs));
  }

  /**
   * Clusters that cover the window exactly can be persisted exactly when no new one is without
   * work, every extended narrative is stored, and every narrative they empty has a known status.
   */
  lemma CoverPersists(s: State, rs: seq<ClusterResult>, evts: seq<Event>, ns: seq<ContextFit.Narrative>, w: TimeRange)
    requires Pass.ExactCover(rs, evts, ns, w) && Offered(s, evts, ns, w)
    ensures CanPersist(s, DropEmpty(rs)) <==> Writable(s, DropEmpty(rs))
  {
    var kept := DropEmpty(rs);
    var at := DropEmptyExactly(rs);
    KeptOneHomeEach(rs, evts, ns, w);
    CoverTakeable(s, rs, kept, evts, ns, w);
    CoverHomed(s, rs, evts, ns, w);
    if Writable(s, kept) {
      forall i | 0 <= i < |kept| ensures Prepared(s, kept[i]) {
        assert Holding(kept[i]) && NewHoldsWork(kept[i]);
      }
    }
    if CanPersist(s, kept) {
      forall i | 0 <= i < |kept| ensures NewHoldsWork(kept[i]) && (kept[i].kind == Extends ==> kept[i].narrativeID in s.rows) {
        assert Prepared(s, kept[i]);
      }
    }
  }

  // The pass.

  /** How long a narrative's header and summary render. */
  type Headings = (int, Row) -> nat

  /** A narrative as clustering reads it. */
  function Shown(h: Hydrated, headings: Headings): ContextFit.Narrative {
    ContextFit.Narrative(h.id, h.row.start, h.row.end, headings(h.id, h.row), h.frozen, h.eligible, h.background)
  }

  function AllShown(hs: seq<Hydrated>, headings: Headings): (ns: seq<ContextFit.Narrative>)
    ensures |ns| == |hs| && forall i :: 0 <= i < |hs| ==> ns[i] == Shown(hs[i], headings)
  {
    seq(|hs|, i requires 0 <= i < |hs| => Shown(hs[i], headings))
  }

  lemma {:induction false} VisibleLinked(s: State, n: int, row: Row, kind: Kind, count: nat)
    requires count <= |s.events|
    ensures forall e :: e in Visible(s, n, row, kind, count) ==> LinkedAs(s, n, kind, e.key) && Exists(s, e.key)
  {
    if count > 0 {
      VisibleLinked(s, n, row, kind, count - 1);
      assert Exists(s, s.events[count - 1].event.key);
    }
  }

  lemma {:induction false} HydratedAll(s: State, rows: map<int, Row>, ids: seq<int>, h: Hydrated)
    requires (forall n :: n in ids ==> n in rows) && h in HydrateAll(s, rows, ids)
    ensures exists n :: n in ids && h == Hydrate(s, n, rows[n])
  {
    var m := |ids| - 1;
    if h in HydrateAll(s, rows, ids[..m]) {
      HydratedAll(s, rows, ids[..m], h);
      var n :| n in ids[..m] && h == Hydrate(s, n, rows[n]);
      assert n in ids;
    } else {
      assert ids[m] in ids;
    }
  }

  /** Every eligible event shown is stored work of a narrative that may still move. */
  lemma ShownEligible(before: State, now: State, candidates: seq<Event>, w: TimeRange, rank: Ranking, h: Hydrated, e: Event)
    requires Selects(rank) && h in InputFrom(before, now, candidates, w, rank).existing && e in h.eligible
    ensures Exists(now, e.key) && e.key in now.members && Eligible(now, e.key)
  {
    var placed := PlacedIn(before, candidates);
    var rows := OverlappingExtended(now, w, PlannedEnds(placed));
    var all := HydrateAll(now, rows, rank(rows));
    var j :| 0 <= j < |all| && h == HideIn(all[j], JoinedKeys(placed));
    HydratedAll(now, rows, rank(rows), all[j]);
    var n :| n in rank(rows) && all[j] == Hydrate(now, n, rows[n]);
    KeptOnly(all[j].eligible, JoinedKeys(placed));
    VisibleLinked(now, n, rows[n], Uncommitted, |now.events|);
  }

  /** A candidate left for the model is stored and still has no home. */
  lemma RemainingUnplaced(s: State, now: State, candidates: seq<Event>, e: Event)
    requires Unplaced(s, candidates) && e in RemainingIn(s, candidates)
    requires now == s || Joined(s, PlacedIn(s, candidates), now)
    ensures Exists(now, e.key) && e.key !in now.members
  {
    PlacedInExactly(s, candidates);
    var i :| 0 <= i < |s.events| && s.events[i].event == e;
    assert s.events[i].event.key == e.key;
    var placed := PlacedIn(s, candidates);
    assert placed[..|placed|] == placed;
    assert e.key !in JoinedKeys(placed) by {
      forall j | 0 <= j < |placed| ensures placed[j].event.key != e.key {
        assert placed[j] in placed;
        if placed[j].event.key == e.key { SameKeySameEvent(candidates, placed[j].event, e); }
      }
    }
  }

  lemma InputOffered(s: State, now: State, candidates: seq<Event>, w: TimeRange, rank: Ranking, headings: Headings)
    requires Unplaced(s, candidates) && Selects(rank)
    requires now == s || Joined(s, PlacedIn(s, candidates), now)
    ensures var input := InputFrom(s, now, candidates, w, rank);
            Offered(now, input.candidates, AllShown(input.existing, headings), w)
  {
    var input := InputFrom(s, now, candidates, w, rank);
    var ns := AllShown(input.existing, headings);
    forall e | e in Engine.Pool(input.candidates, ns, w)
      ensures && Exists(now, e.key)
              && (e in Within(input.candidates, w) || e.key in now.members)
              && (e.key in now.members ==> Eligible(now, e.key))
    {
      WithinExactly(input.candidates, w);
      if e in Within(input.candidates, w) {
        RemainingUnplaced(s, now, candidates, e);
      } else {
        Windows.EligibleExactly(Windows.Relevant(ns, w));
        Windows.RelevantExactly(ns, w);
        var n :| n in Windows.Relevant(ns, w) && e in n.eligible;
        var i :| 0 <= i < |ns| && ns[i] == n;
        ShownEligible(s, now, candidates, w, rank, input.existing[i], e);
      }
    }
  }

  /** How a pass ends. */
  datatype Narrated =
    | NothingToDo
    | ClusteringFailed(why: Failure)
    | NewWithoutWork
    | DryRunDone(clusters: seq<ClusterResult>)
    | NotPersisted
    | Narrated(ids: seq<int>)

  /** What the join leaves: nothing on a dry run, the placements written otherwise. */
  ghost predicate AfterJoin(s: State, candidates: seq<Event>, dryRun: bool, t: State) {
    if dryRun then t == s else Joined(s, PlacedIn(s, candidates), t)
  }

  /** Work the last applied action describes is where it was after the join. */
  lemma JoinKeepsFrozen(s: State, placed: seq<PreAssignment>, t: State, k: EventKey)
    requires Placeable(s, placed) && Joined(s, placed, t) && k in s.members && !Eligible(s, k)
    ensures k in t.members && t.members[k] == s.members[k] && !Eligible(t, k)
  {
    assert placed[..|placed|] == placed;
    assert k !in JoinedKeys(placed);
  }

  /** Every candidate is joined, or left for the model. */
  lemma JoinedOrLeft(s: State, candidates: seq<Event>, t: State, e: Event)
    requires Joined(s, PlacedIn(s, candidates), t) && e in candidates
    ensures e in RemainingIn(s, candidates) || e.key in t.members
  {
    PlacedInExactly(s, candidates);
    var placed, d := PlacedIn(s, candidates), DecideIn(s, e);
    if d.Join? {
      assert PreAssignment(e, d.narrative) in placed;
      var i :| 0 <= i < |placed| && placed[i] == PreAssignment(e, d.narrative);
      assert JoinedBy(s.(rows := t.rows), placed[i], t);
    }
  }

  /** A persisted pass leaves a home for what had one, and for what clustering covered. */
  lemma HomedAfter(
    s: State, candidates: seq<Event>, t: State, evts: seq<Event>, ns: seq<ContextFit.Narrative>, w: TimeRange,
    rs: seq<ClusterResult>, ids: seq<int>, u: State, e: Event)
    requires Joined(s, PlacedIn(s, candidates), t) && evts == RemainingIn(s, candidates)
    requires Pass.ExactCover(rs, evts, ns, w) && Persisted(t, DropEmpty(rs), ids, u)
    requires e in candidates && InWindow(e, w)
    ensures e.key in u.members
  {
    JoinedOrLeft(s, candidates, t, e);
    WithinExactly(evts, w);
    if e in evts {
      assert Pass.OneHome(rs, e.key);
      DroppedKeeps(rs, e.key);
      var i :| 0 <= i < |DropEmpty(rs)| && DropEmpty(rs)[i].Holds(e.key);
      assert LinkedBy(t, DropEmpty(rs)[i], ids[i], e.key, u);
    } else if Placed(DropEmpty(rs), e.key) {
      var i :| 0 <= i < |DropEmpty(rs)| && DropEmpty(rs)[i].Holds(e.key);
      assert LinkedBy(t, DropEmpty(rs)[i], ids[i], e.key, u);
    }
  }

  /** No committed work moved. */
  ghost predicate CommittedStays(s: State, t: State) {
    forall k :: k in s.members && !Eligible(s, k) ==> k in t.members && t.members[k] == s.members[k]
  }

  /** Every candidate of the window has a home. */
  ghost predicate AllHomed(candidates: seq<Event>, w: TimeRange, t: State) {
    forall e :: e in candidates && InWindow(e, w) ==> e.key in t.members
  }

  lemma JoinIsSafe(s: State, candidates: seq<Event>, dryRun: bool, t: State)
    requires Sound(s) && Unplaced(s, candidates) && AfterJoin(s, candidates, dryRun, t)
    ensures Sound(t) && CommittedStays(s, t)
    ensures forall k :: k in s.members && !Eligible(s, k) ==> !Eligible(t, k)
  {
    if !dryRun {
      PlanPlaceable(s, candidates);
      PreassignPass.JoinKeepsSound(s, PlacedIn(s, candidates), t);
      forall k | k in s.members && !Eligible(s, k) ensures k in t.members && t.members[k] == s.members[k] && !Eligible(t, k) {
        JoinKeepsFrozen(s, PlacedIn(s, candidates), t, k);
      }
    }
  }

  /** What a narrated pass leaves. */
  lemma PassIsSafe(
    s: State, candidates: seq<Event>, t: State, evts: seq<Event>, ns: seq<ContextFit.Narrative>, w: TimeRange,
    rs: seq<ClusterResult>, ids: seq<int>, u: State)
    requires Sound(s) && Unplaced(s, candidates) && Joined(s, PlacedIn(s, candidates), t) && evts == RemainingIn(s, candidates)
    requires Pass.ExactCover(rs, evts, ns, w) && CanPersist(t, DropEmpty(rs)) && Persisted(t, DropEmpty(rs), ids, u)
    ensures Sound(u) && CommittedStays(s, u) && AllHomed(candidates, w, u)
  {
    JoinIsSafe(s, candidates, false, t);
    PersistFacts.PersistKeepsSound(t, DropEmpty(rs), ids, u);
    forall k | k in s.members && !Eligible(s, k) ensures k in u.members && u.members[k] == s.members[k] {
      PersistFacts.FrozenStays(t, DropEmpty(rs), ids, u, k);
    }
    forall e | e in candidates && InWindow(e, w) ensures e.key in u.members {
      HomedAfter(s, candidates, t, evts, ns, w, rs, ids, u, e);
    }
  }

  /** Clustering the input ended in `passed`. */
  ghost predicate Clustered(
    trace: Pass.Trace, next: nat, replies: Replies, wording: Wording, budgets: Engine.Budgets, contextWindow: int, reserve: int,
    input: Input, headings: Headings, w: TimeRange, passed: Outcome<seq<ClusterResult>>)
  {
    var budget := Pass.PromptBudget(contextWindow, reserve);
    if budget.Failed? then passed == Failed(NoPromptBudget) && next == 0
    else exists joins, conflicts ::
      Pass.PassEnds(trace, replies, next, wording, budgets, budget.value, input.candidates, AllShown(input.existing, headings), w,
                    passed, joins, conflicts)
  }

  /**
   * How a pass with something to cluster ends, once the joins have left t and clustering ended
   * in `passed`, and the store it leaves: only a pass all of whose clusters a store can take
   * narrates, and then it persists them.
   */
  ghost predicate NarrationEnds(t: State, passed: Outcome<seq<ClusterResult>>, dryRun: bool, out: Narrated, u: State) {
    match passed
    case Failed(why) => out == ClusteringFailed(why) && u == t
    case Done(rs) =>
      var kept := DropEmpty(rs);
      if exists i :: 0 <= i < |kept| && !NewHoldsWork(kept[i]) then out == NewWithoutWork && u == t
      else if dryRun then out == DryRunDone(kept) && u == t
      else if Writable(t, kept) then out.Narrated? && Persisted(t, kept, out.ids, u)
      else out == NotPersisted && u == t
  }

  /** Clusters the input. */
  method ClusterInput(
    replies: Replies, wording: Wording, budgets: Engine.Budgets, contextWindow: int, reserve: int, input: Input, headings: Headings,
    w: TimeRange)
    returns (passed: Outcome<seq<ClusterResult>>, ghost trace: Pass.Trace, ghost next: nat)
    requires |input.candidates| + |ContextFit.Eligible(AllShown(input.existing, headings))| <= Text.MAX_INT
    ensures passed.Done? ==> Pass.ExactCover(passed.value, input.candidates, AllShown(input.existing, headings), w)
    ensures var clustered := Clustered(trace, next, replies, wording, budgets, contextWindow, reserve, input, headings, w, passed); clustered
  {
    var stats, read, conflicts;
    passed, stats, read, conflicts, trace :=
      Pass.Cluster(replies, wording, budgets, contextWindow, reserve, input.candidates, AllShown(input.existing, headings), w);
    next := read;
  }

  /** Persists the clusters a pass made, or says why not. */
  method Finish(db: Store, passed: Outcome<seq<ClusterResult>>, ghost evts: seq<Event>, ghost ns: seq<ContextFit.Narrative>,
                ghost w: TimeRange, dryRun: bool)
    returns (out: Narrated)
    requires Sound(db.Now()) && Offered(db.Now(), evts, ns, w)
    requires passed.Done? ==> Pass.ExactCover(passed.value, evts, ns, w)
    modifies db
    ensures out != NothingToDo && NarrationEnds(old(db.Now()), passed, dryRun, out, db.Now())
    ensures out.Narrated? ==> passed.Done? && CanPersist(old(db.Now()), DropEmpty(passed.value))
  {
    ghost var t := db.Now();
    if passed.Failed? {
      return ClusteringFailed(passed.reason);
    }
    var kept := DropEmptyClusters(passed.value);
    var ok := RequireNonEmptyClusters(kept);
    if !ok {
      return NewWithoutWork;
    }
    if dryRun {
      return DryRunDone(kept);
    }
    CoverPersists(t, passed.value, evts, ns, w);
    var ids;
    ok, ids := PersistPass.Persist(db, kept);
    if !ok {
      return NotPersisted;
    }
    out := Narrated(ids);
  }

  /**
   * Narrates a window. It ends as the replies say: nothing to do exactly when identity settles
   * every candidate, and otherwise with the clusters the pass made, listed on a dry run and
   * persisted on a real one if a store can take them. Whatever the model replies, the store
   * stays sound and no committed work moves; a dry run changes nothing; a pass that does not
   * end narrated has written the identity joins and nothing else; and one that does leaves
   * every candidate of the window with one home.
   */
  method RunNarrate(
    db: Store, replies: Replies, wording: Wording, budgets: Engine.Budgets, contextWindow: int, reserve: int,
    candidates: seq<Event>, w: TimeRange, rank: Ranking, headings: Headings, dryRun: bool)
    returns (out: Narrated, ghost joined: State, ghost passed: Outcome<seq<ClusterResult>>, ghost trace: Pass.Trace, ghost next: nat)
    requires Sound(db.Now()) && Unplaced(db.Now(), candidates) && Selects(rank)
    requires var input := InputFrom(db.Now(), db.Now(), candidates, w, rank);
             |input.candidates| + |ContextFit.Eligible(AllShown(input.existing, headings))| <= Text.MAX_INT
    modifies db
    ensures AfterJoin(old(db.Now()), candidates, dryRun, joined)
    ensures out == NothingToDo <==> RemainingIn(old(db.Now()), candidates) == []
    ensures out == NothingToDo ==> db.Now() == joined
    ensures out != NothingToDo ==>
              var input := InputFrom(old(db.Now()), old(db.Now()), candidates, w, rank);
              var clustered := Clustered(trace, next, replies, wording, budgets, contextWindow, reserve, input, headings, w, passed);
              var ends := NarrationEnds(joined, passed, dryRun, out, db.Now());
              clustered && ends
    ensures Sound(db.Now()) && CommittedStays(old(db.Now()), db.Now())
    ensures out.Narrated? ==> AllHomed(candidates, w, db.Now())
  {
    ghost var s := db.Now();
    var input := AssembleInput(db, candidates, w, rank, dryRun);
    joined := db.Now();
    JoinIsSafe(s, candidates, dryRun, joined);
    if input.candidates == [] {
      passed, trace, next := Failed(NoPromptBudget), Pass.NoTrace(), 0;
      return NothingToDo, joined, passed, trace, next;
    }
    var result;
    result, trace, next := ClusterInput(replies, wording, budgets, contextWindow, reserve, input, headings, w);
    passed := result;
    InputOffered(s, joined, candidates, w, rank, headings);
    ghost var ns := AllShown(input.existing, headings);
    out := Finish(db, result, input.candidates, ns, w, dryRun);
    if out.Narrated? {
      PassIsSafe(s, candidates, joined, input.candidates, ns, w, result.value, out.ids, db.Now());
    }
  }
}
