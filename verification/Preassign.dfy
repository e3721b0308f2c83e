/**
 * Joining an event to the one open narrative that already holds its pull request, before the
 * model is asked, and showing the model the narratives that are left.
 */
module Preassign {
  import opened Events
  import opened Oracle
  import opened Links

  /** A narrative holding a pull request's work, and its status. */
  datatype Holder = Holder(narrative: int, status: string)

  type Holders = map<string, set<Holder>>

  datatype PreAssignment = PreAssignment(event: Event, narrative: int)

  datatype Reason = NoHolder | SeveralHolders | HolderNotOpen

  datatype Fallback = Fallback(event: Event, reason: Reason, holders: set<Holder>)

  /** What a candidate's pull request decides. */
  datatype Decision = NoIdentity | Join(narrative: int) | FallBack(reason: Reason)

  /** Some stored event of the pull request is narrative n's work. */
  predicate HoldsPullRequest(s: State, n: int, pr: string) {
    exists i :: 0 <= i < |s.events| && s.events[i].event.pr == pr && IsMember(s, n, s.events[i].event.key)
  }

  /** Every narrative holding the pull request's work. */
  function HoldersOf(s: State, pr: string): set<Holder> {
    set n | n in s.rows && HoldsPullRequest(s, n, pr) :: Holder(n, s.rows[n].status)
  }

  function Decide(e: Event, holders: set<Holder>): Decision {
    if e.pr == "" then NoIdentity
    else if holders == {} then FallBack(NoHolder)
    else if exists h :: h in holders && holders == {h} then
      var h :| h in holders && holders == {h};
      if h.status == OPEN then Join(h.narrative) else FallBack(HolderNotOpen)
    else FallBack(SeveralHolders)
  }

  function DecideIn(s: State, e: Event): Decision {
    Decide(e, HoldersOf(s, e.pr))
  }

  /** The candidates joined, in order. */
  function PlacedIn(s: State, candidates: seq<Event>): seq<PreAssignment> {
    if candidates == [] then []
    else
      var n := |candidates| - 1;
      var d := DecideIn(s, candidates[n]);
      PlacedIn(s, candidates[..n]) + if d.Join? then [PreAssignment(candidates[n], d.narrative)] else []
  }

  /** The candidates left for the model, in order. */
  function RemainingIn(s: State, candidates: seq<Event>): seq<Event> {
    if candidates == [] then []
    else
      var n := |candidates| - 1;
      RemainingIn(s, candidates[..n]) + if DecideIn(s, candidates[n]).Join? then [] else [candidates[n]]
  }

  function FallbacksIn(s: State, candidates: seq<Event>): seq<Fallback> {
    if candidates == [] then []
    else
      var n := |candidates| - 1;
      var d := DecideIn(s, candidates[n]);
      FallbacksIn(s, candidates[..n])
      + if d.FallBack? then [Fallback(candidates[n], d.reason, HoldersOf(s, candidates[n].pr))] else []
  }

  /** How far each narrative joined must reach: its latest joined event. */
  function PlannedEnds(placed: seq<PreAssignment>): map<int, int> {
    if placed == [] then map[]
    else
      var p, before := placed[|placed| - 1], PlannedEnds(placed[..|placed| - 1]);
      if p.narrative in before && p.event.at <= before[p.narrative] then before else before[p.narrative := p.event.at]
  }

  /** An end moved forward to the planned one, never back. */
  function Forward(end: int, ends: map<int, int>, n: int): int {
    if n in ends && ends[n] > end then ends[n] else end
  }

  // Writing the join.

  /** The first m placements written. */
  ghost predicate JoinedUpTo(s: State, placed: seq<PreAssignment>, m: nat, t: State)
    requires m <= |placed|
  {
    && t == s.(members := t.members, context := t.context, nextSeq := t.nextSeq) && s.nextSeq <= t.nextSeq
    && (forall i :: 0 <= i < m ==> JoinedBy(s, placed[i], t))
    && (forall k :: k !in JoinedKeys(placed[..m]) ==> (k in t.members <==> k in s.members) && (k in s.members ==> t.members[k] == s.members[k]))
    && (forall p :: p in t.context <==> p in s.context && !IsMember(t, p.0, p.1))
  }

  predicate JoinedBy(s: State, p: PreAssignment, t: State) {
    && IsMember(t, p.narrative, p.event.key)
    && t.members[p.event.key].placed == ByIdentity && t.members[p.event.key].confidence == 1.0
    && s.nextSeq <= t.members[p.event.key].position < t.nextSeq
  }

  function JoinedKeys(placed: seq<PreAssignment>): set<EventKey> {
    set i | 0 <= i < |placed| :: placed[i].event.key
  }

  /** The rows with every window moved forward over what joined. */
  function Reached(rows: map<int, Row>, ends: map<int, int>): map<int, Row> {
    map n | n in rows :: rows[n].(end := Forward(rows[n].end, ends, n))
  }

  /** What writing the placements leaves. */
  ghost predicate Joined(s: State, placed: seq<PreAssignment>, t: State) {
    JoinedUpTo(s.(rows := t.rows), placed, |placed|, t) && t.rows == Reached(s.rows, PlannedEnds(placed))
  }

  /** The events are stored, each once, and none has a home yet. */
  ghost predicate Unplaced(s: State, candidates: seq<Event>) {
    && UniqueKeys(candidates)
    && forall e :: e in candidates ==> e.key !in s.members && exists i :: 0 <= i < |s.events| && s.events[i].event == e
  }

  /** The placements are of distinct unplaced events, onto stored narratives. */
  ghost predicate Placeable(s: State, placed: seq<PreAssignment>) {
    && (forall i, j :: 0 <= i < j < |placed| ==> placed[i].event.key != placed[j].event.key)
    && (forall i :: 0 <= i < |placed| ==> placed[i].narrative in s.rows && placed[i].event.key !in s.members)
    && (forall i :: 0 <= i < |placed| ==> Exists(s, placed[i].event.key))
  }

  lemma {:induction false} PlacedInExactly(s: State, candidates: seq<Event>)
    ensures forall p :: p in PlacedIn(s, candidates) <==> p.event in candidates && DecideIn(s, p.event) == Join(p.narrative)
    ensures forall e :: e in RemainingIn(s, candidates) <==> e in candidates && !DecideIn(s, e).Join?
    ensures forall f :: f in FallbacksIn(s, candidates) <==>
              f.event in candidates && DecideIn(s, f.event) == FallBack(f.reason) && f.holders == HoldersOf(s, f.event.pr)
  {
    if candidates != [] {
      PlacedInExactly(s, candidates[..|candidates| - 1]);
      assert candidates == candidates[..|candidates| - 1] + [candidates[|candidates| - 1]];
    }
  }

  /** An event joins a narrative exactly when that narrative alone holds its pull request, and is open. */
  lemma JoinsExactly(s: State, e: Event, n: int)
    ensures DecideIn(s, e) == Join(n) <==>
            e.pr != "" && n in s.rows && s.rows[n].status == OPEN && HoldsPullRequest(s, n, e.pr)
            && forall m :: m in s.rows && HoldsPullRequest(s, m, e.pr) ==> m == n
  {
    var hs := HoldersOf(s, e.pr);
    if e.pr != "" && DecideIn(s, e) == Join(n) {
      assert Holder(n, OPEN) in hs;
      forall m | m in s.rows && HoldsPullRequest(s, m, e.pr) ensures m == n {
        assert Holder(m, s.rows[m].status) in hs;
      }
    }
    if e.pr != "" && n in s.rows && s.rows[n].status == OPEN && HoldsPullRequest(s, n, e.pr)
       && forall m :: m in s.rows && HoldsPullRequest(s, m, e.pr) ==> m == n {
      assert hs == {Holder(n, OPEN)};
    }
  }

  /** Why a candidate with an identity falls back: no narrative holds its work, several do, or the one that does is not open. */
  lemma FallsBackExactly(s: State, e: Event)
    requires e.pr != ""
    ensures DecideIn(s, e) == FallBack(NoHolder) <==> forall n :: n in s.rows ==> !HoldsPullRequest(s, n, e.pr)
    ensures DecideIn(s, e) == FallBack(SeveralHolders) <==>
            exists m, n :: m != n && m in s.rows && n in s.rows && HoldsPullRequest(s, m, e.pr) && HoldsPullRequest(s, n, e.pr)
    ensures DecideIn(s, e) == FallBack(HolderNotOpen) <==>
            exists n :: OnlyHolder(s, n, e.pr) && s.rows[n].status != OPEN
  {
    var hs := HoldersOf(s, e.pr);
    if m, n :| m != n && m in s.rows && n in s.rows && HoldsPullRequest(s, m, e.pr) && HoldsPullRequest(s, n, e.pr) {
      assert Holder(m, s.rows[m].status) in hs && Holder(n, s.rows[n].status) in hs;
    } else if n :| n in s.rows && HoldsPullRequest(s, n, e.pr) {
      assert hs == {Holder(n, s.rows[n].status)};
      assert OnlyHolder(s, n, e.pr);
    }
  }

  /** Narrative n, and no other, holds the pull request's work. */
  ghost predicate OnlyHolder(s: State, n: int, pr: string) {
    n in s.rows && HoldsPullRequest(s, n, pr) && forall m :: m in s.rows && HoldsPullRequest(s, m, pr) ==> m == n
  }

  lemma {:induction false} PlacedDistinct(s: State, candidates: seq<Event>)
    requires UniqueKeys(candidates)
    ensures forall i, j :: 0 <= i < j < |PlacedIn(s, candidates)| ==>
              PlacedIn(s, candidates)[i].event.key != PlacedIn(s, candidates)[j].event.key
  {
    if candidates != [] {
      var n := |candidates| - 1;
      PlacedDistinct(s, candidates[..n]);
      PlacedInExactly(s, candidates[..n]);
      var before := PlacedIn(s, candidates[..n]);
      forall i | 0 <= i < |before| ensures before[i].event.key != candidates[n].key {
        assert before[i] in before;
      }
    }
  }

  lemma PlanPlaceable(s: State, candidates: seq<Event>)
    requires Unplaced(s, candidates)
    ensures Placeable(s, PlacedIn(s, candidates))
  {
    PlacedDistinct(s, candidates);
    PlacedInExactly(s, candidates);
    var placed := PlacedIn(s, candidates);
    forall i | 0 <= i < |placed| ensures placed[i].narrative in s.rows && placed[i].event.key !in s.members && Exists(s, placed[i].event.key) {
      assert placed[i] in placed;
      JoinsExactly(s, placed[i].event, placed[i].narrative);
      var j :| 0 <= j < |s.events| && s.events[j].event == placed[i].event;
      assert s.events[j].event.key == placed[i].event.key;
    }
  }
}
