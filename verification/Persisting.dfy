/** Persist's link transaction: what it does to the store, in which order, and what makes it fail. */
module Persisting {
  import opened Events
  import opened Clusters
  import opened Regrouping
  import opened Oracle
  import opened Links

  /** The earliest instant of some events. */
  function Earliest(evts: seq<Event>): int
    requires evts != []
  {
    if |evts| == 1 then evts[0].at
    else
      var before := Earliest(evts[..|evts| - 1]);
      if evts[|evts| - 1].at < before then evts[|evts| - 1].at else before
  }

  /** The latest instant of some events. */
  function Latest(evts: seq<Event>): int
    requires evts != []
  {
    if |evts| == 1 then evts[0].at
    else
      var before := Latest(evts[..|evts| - 1]);
      if evts[|evts| - 1].at > before then evts[|evts| - 1].at else before
  }

  lemma {:induction false} EarliestExactly(evts: seq<Event>)
    requires evts != []
    ensures (forall e :: e in evts ==> Earliest(evts) <= e.at) && exists e :: e in evts && e.at == Earliest(evts)
  {
    if |evts| > 1 {
      EarliestExactly(evts[..|evts| - 1]);
      assert evts == evts[..|evts| - 1] + [evts[|evts| - 1]];
    } else {
      assert evts[0] in evts;
    }
  }

  lemma {:induction false} LatestExactly(evts: seq<Event>)
    requires evts != []
    ensures (forall e :: e in evts ==> e.at <= Latest(evts)) && exists e :: e in evts && e.at == Latest(evts)
  {
    if |evts| > 1 {
      LatestExactly(evts[..|evts| - 1]);
      assert evts == evts[..|evts| - 1] + [evts[|evts| - 1]];
    } else {
      assert evts[0] in evts;
    }
  }

  // When a pass can be persisted.

  /** Every event the result names is stored, and the result has something to write and somewhere to write it. */
  ghost predicate Prepared(s: State, r: ClusterResult) {
    && (forall e :: e in r.events || e in r.context ==> Exists(s, e.key))
    && (r.kind == New ==> r.events != [])
    && (r.kind == Extends ==> (r.events != [] || r.context != []) && r.narrativeID in s.rows)
  }

  /** The result may take the event: it has no home, its home is the result's own, or it may still move. */
  predicate Takeable(s: State, r: ClusterResult, k: EventKey) {
    k in s.members ==> r.ExtendsID(s.members[k].narrative) || Eligible(s, k)
  }

  /** Some event is the work of two results, or of one twice. */
  ghost predicate OneHomeEach(rs: seq<ClusterResult>) {
    && (forall i :: 0 <= i < |rs| ==> UniqueKeys(rs[i].events))
    && (forall i, j :: 0 <= i < j < |rs| ==> Keys(rs[i].events) !! Keys(rs[j].events))
  }

  /** The pass takes a member from narrative n or re-places one there. */
  ghost predicate Touches(s: State, rs: seq<ClusterResult>, n: int) {
    exists k :: IsMember(s, n, k) && Placed(rs, k)
  }

  /** Some result makes an event narrative n's work. */
  ghost predicate Supplied(rs: seq<ClusterResult>, n: int) {
    exists i :: 0 <= i < |rs| && Carries(rs[i], n)
  }

  /** The pass takes all of narrative n's work and gives it none. */
  ghost predicate Emptied(s: State, rs: seq<ClusterResult>, n: int) {
    && Touches(s, rs, n)
    && (forall k :: IsMember(s, n, k) ==> Placed(rs, k))
    && !Supplied(rs, n)
  }

  /** Every event given as background is some narrative's work already, or becomes a result's. */
  ghost predicate Homed(s: State, rs: seq<ClusterResult>) {
    forall k :: Background(rs, k) ==> k in s.members || Placed(rs, k)
  }

  /** Every event named may be taken by each result naming it. */
  ghost predicate AllTakeable(s: State, rs: seq<ClusterResult>) {
    forall i, k :: 0 <= i < |rs| && rs[i].Holds(k) ==> Takeable(s, rs[i], k)
  }

  /** What a caller can check beforehand that decides whether the pass is persisted at all. */
  ghost predicate CanPersist(s: State, rs: seq<ClusterResult>) {
    && OneHomeEach(rs)
    && (forall i :: 0 <= i < |rs| ==> Prepared(s, rs[i]))
    && AllTakeable(s, rs)
    && (forall n :: Emptied(s, rs, n) ==> Splittable(s, n))
    && Homed(s, rs)
  }

  // What the transaction leaves.

  /** k is now narrative id's work, on r's word unless it already was. */
  predicate LinkedBy(s: State, r: ClusterResult, id: int, k: EventKey, t: State) {
    && k in t.members && t.members[k].narrative == id
    && if IsMember(s, id, k) then t.members[k] == s.members[k]
       else t.members[k].confidence == r.ConfidenceOf(k) && t.members[k].placed == ByModel
            && s.nextSeq <= t.members[k].position < t.nextSeq
  }

  /** Every result's members are linked to its narrative. */
  ghost predicate MembersFiled(s: State, rs: seq<ClusterResult>, ids: seq<int>, t: State)
    requires |ids| == |rs|
  {
    forall i, k :: 0 <= i < |rs| && rs[i].Holds(k) ==> LinkedBy(s, rs[i], ids[i], k, t)
  }

  /** Every other event keeps its link. */
  ghost predicate OthersKept(s: State, rs: seq<ClusterResult>, t: State) {
    forall k :: !Placed(rs, k) ==> (k in t.members <==> k in s.members) && (k in s.members ==> t.members[k] == s.members[k])
  }

  /** A result that extends writes to its narrative; a new one to a narrative of its own. */
  ghost predicate IDsGiven(s: State, rs: seq<ClusterResult>, ids: seq<int>, nextID: int)
    requires |ids| == |rs|
  {
    && s.nextID <= nextID
    && (forall i :: 0 <= i < |rs| && rs[i].kind == Extends ==> ids[i] == rs[i].narrativeID)
    && (forall i :: 0 <= i < |rs| && rs[i].kind == New ==> s.nextID <= ids[i] < nextID)
    && (forall i, j :: 0 <= i < j < |rs| && rs[i].kind == New && rs[j].kind == New ==> ids[i] != ids[j])
  }

  /** The result gives narrative n work. */
  predicate Carries(r: ClusterResult, n: int) {
    r.ExtendsID(n) && r.events != []
  }

  /** The summary of the last result that gives narrative n work, or the one it had. */
  function LastSummary(rs: seq<ClusterResult>, n: int, was: string): string {
    if rs == [] then was
    else if Carries(rs[|rs| - 1], n) then rs[|rs| - 1].summary
    else LastSummary(rs[..|rs| - 1], n, was)
  }

  lemma LastSummaryMore(rs: seq<ClusterResult>, r: ClusterResult, n: int, was: string)
    ensures LastSummary(rs + [r], n, was) == if Carries(r, n) then r.summary else LastSummary(rs, n, was)
  {
    assert (rs + [r])[..|rs + [r]| - 1] == rs;
  }

  /**
   * The row of a narrative the results extend: its end only moves forward, to its latest new
   * event, and the last result with work writes its summary.
   */
  ghost predicate RowExtended(before: Row, rs: seq<ClusterResult>, n: int, after: Row) {
    && after == before.(end := after.end, summary := after.summary)
    && before.end <= after.end
    && (forall i, e :: 0 <= i < |rs| && rs[i].ExtendsID(n) && e in rs[i].events ==> e.at <= after.end)
    && (after.end == before.end || EndsAt(rs, n, after.end))
    && after.summary == LastSummary(rs, n, before.summary)
  }

  ghost predicate EndsAt(rs: seq<ClusterResult>, n: int, end: int) {
    exists i, e :: 0 <= i < |rs| && rs[i].ExtendsID(n) && e in rs[i].events && e.at == end
  }

  /** The row of a narrative a result begins. */
  predicate RowBegun(r: ClusterResult, row: Row) {
    r.events != [] && row == Row(Earliest(r.events), Latest(r.events), r.title, r.summary, OPEN, None)
  }

  ghost predicate RowsFiled(s: State, rs: seq<ClusterResult>, ids: seq<int>, t: State)
    requires |ids| == |rs|
  {
    && (forall n :: n in s.rows ==> n in t.rows && RowExtended(s.rows[n], rs, n, t.rows[n]))
    && (forall i :: 0 <= i < |rs| && rs[i].kind == New ==> ids[i] in t.rows && RowBegun(rs[i], t.rows[ids[i]]))
    && (forall n :: n in t.rows && n !in s.rows ==> s.nextID <= n < t.nextID)
  }

  /** What holds once the results' members, and nothing else, are written. */
  ghost predicate Filed(s: State, rs: seq<ClusterResult>, ids: seq<int>, t: State) {
    && |ids| == |rs|
    && t.events == s.events && t.commits == s.commits && s.nextSeq <= t.nextSeq
    && IDsGiven(s, rs, ids, t.nextID)
    && MembersFiled(s, rs, ids, t)
    && OthersKept(s, rs, t)
    && (forall p :: p in t.context <==> p in s.context && !IsMember(t, p.0, p.1))
  }

  /** Some result names the event as background to narrative n. */
  ghost predicate Named(rs: seq<ClusterResult>, ids: seq<int>, n: int, k: EventKey)
    requires |ids| == |rs|
  {
    exists i :: 0 <= i < |rs| && ids[i] == n && k in Keys(rs[i].context)
  }

  /** The background the pass leaves: what was there and what it adds, but no work and nothing on an emptied narrative. */
  ghost predicate ContextFiled(s: State, rs: seq<ClusterResult>, ids: seq<int>, t: State)
    requires |ids| == |rs|
  {
    forall n, k :: (n, k) in t.context <==>
      !IsMember(t, n, k) && !Emptied(s, rs, n) && ((n, k) in s.context || Named(rs, ids, n, k))
  }

  /** Every row as the results leave it, split if they emptied it. */
  ghost predicate RowsSettled(s: State, rs: seq<ClusterResult>, ids: seq<int>, t: State)
    requires |ids| == |rs|
  {
    && (forall n :: n in s.rows ==> n in t.rows && RowSettled(s, rs, n, t.rows[n]))
    && (forall i :: 0 <= i < |rs| && rs[i].kind == New ==> ids[i] in t.rows && RowBegun(rs[i], t.rows[ids[i]]))
    && (forall n :: n in t.rows && n !in s.rows ==> s.nextID <= n < t.nextID)
  }

  ghost predicate RowSettled(s: State, rs: seq<ClusterResult>, n: int, after: Row)
    requires n in s.rows
  {
    RowExtended(s.rows[n].(status := if Emptied(s, rs, n) then SPLIT else s.rows[n].status), rs, n, after)
  }

  /** t is what persisting the results leaves, result i in narrative ids[i]. */
  ghost predicate Persisted(s: State, rs: seq<ClusterResult>, ids: seq<int>, t: State) {
    && |ids| == |rs|
    && t.events == s.events && t.commits == s.commits && s.nextSeq <= t.nextSeq
    && IDsGiven(s, rs, ids, t.nextID)
    && MembersFiled(s, rs, ids, t)
    && OthersKept(s, rs, t)
    && ContextFiled(s, rs, ids, t)
    && RowsSettled(s, rs, ids, t)
  }
}
