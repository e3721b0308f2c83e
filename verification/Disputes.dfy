/** Events two or more clusters claim: finding them, reading who wins each, and applying the answers. */
module Disputes {
  import opened Events
  import opened Clusters
  import opened Oracle

  /** One event with more than one member placement, and the clusters claiming it, ascending. */
  datatype Dispute = Dispute(event: Event, claimants: seq<int>)

  /** The clusters below n holding k as a member, ascending. */
  function Claimants(rs: seq<ClusterResult>, k: EventKey, n: nat): seq<int>
    requires n <= |rs|
  {
    if n == 0 then []
    else if rs[n - 1].Holds(k) then Claimants(rs, k, n - 1) + [n - 1]
    else Claimants(rs, k, n - 1)
  }

  lemma {:induction false} ClaimantsExactly(rs: seq<ClusterResult>, k: EventKey, n: nat)
    requires n <= |rs|
    ensures forall t :: 0 <= t < |Claimants(rs, k, n)| ==> 0 <= Claimants(rs, k, n)[t] < n
    ensures forall i :: i in Claimants(rs, k, n) <==> 0 <= i < n && rs[i].Holds(k)
    ensures forall t, u :: 0 <= t < u < |Claimants(rs, k, n)| ==> Claimants(rs, k, n)[t] < Claimants(rs, k, n)[u]
  {
    if n > 0 { ClaimantsExactly(rs, k, n - 1); }
  }

  /** Every member placement, in reply order. */
  function AllMembers(rs: seq<ClusterResult>): seq<Event> {
    if rs == [] then [] else AllMembers(rs[..|rs| - 1]) + rs[|rs| - 1].events
  }

  /** Those of `order` that more than one cluster claims. */
  function Disputed(rs: seq<ClusterResult>, order: seq<Event>): seq<Dispute> {
    if order == [] then []
    else
      var before, e := Disputed(rs, order[..|order| - 1]), order[|order| - 1];
      var claimants := Claimants(rs, e.key, |rs|);
      if |claimants| > 1 then before + [Dispute(e, claimants)] else before
  }

  /** The disputes of a pass, in order of first appearance. */
  function DisputesOf(rs: seq<ClusterResult>): seq<Dispute> {
    Disputed(rs, Unseen({}, AllMembers(rs)))
  }

  lemma {:induction false} UnseenAppend(seen: set<EventKey>, a: seq<Event>, e: Event)
    ensures Unseen(seen, a + [e]) == Unseen(seen, a) + if e.key in seen || e.key in Keys(a) then [] else [e]
    decreases |a|
  {
    if a == [] {
      assert a + [e] == [e];
      assert [e][1..] == [];
    } else {
      assert (a + [e])[1..] == a[1..] + [e];
      UnseenAppend(seen, a[1..], e);
      UnseenAppend(seen + {a[0].key}, a[1..], e);
      KeysConcat([a[0]], a[1..]);
      assert a == [a[0]] + a[1..];
    }
  }

  /** What has been seen of the clusters so far: who claims each member, and the order they appeared in. */
  ghost predicate Seen(rs: seq<ClusterResult>, positions: map<EventKey, seq<int>>, order: seq<Event>, n: nat)
    requires n <= |rs|
  {
    && (forall k :: Recorded(positions, k) == Claimants(rs, k, n))
    && positions.Keys == Keys(AllMembers(rs[..n]))
    && order == Unseen({}, AllMembers(rs[..n]))
  }

  function Recorded(positions: map<EventKey, seq<int>>, k: EventKey): seq<int> {
    if k in positions then positions[k] else []
  }

  function OnlyIf(c: bool, i: int): seq<int> {
    if c then [i] else []
  }

  /** Cluster n's claims are recorded for the members in `here`. */
  ghost predicate Claimed(rs: seq<ClusterResult>, positions: map<EventKey, seq<int>>, n: nat, here: set<EventKey>)
    requires n < |rs|
  {
    forall k :: Recorded(positions, k) == Claimants(rs, k, n) + OnlyIf(k in here, n)
  }

  lemma ClaimedMore(rs: seq<ClusterResult>, positions: map<EventKey, seq<int>>, n: nat, here: set<EventKey>, k: EventKey)
    requires n < |rs| && Claimed(rs, positions, n, here) && k !in here
    ensures Claimed(rs, positions[k := Recorded(positions, k) + [n]], n, here + {k})
  {
  }

  /** A scan under way: which of the cluster's members are recorded, who claims what, and the order of appearance. */
  datatype Scan = Scan(here: set<EventKey>, positions: map<EventKey, seq<int>>, order: seq<Event>)

  function ScanEvent(s: Scan, e: Event, n: int): Scan {
    if e.key in s.here then s
    else
      Scan(s.here + {e.key}, s.positions[e.key := Recorded(s.positions, e.key) + [n]],
           if e.key in s.positions then s.order else s.order + [e])
  }

  function ScanTo(start: Scan, own: seq<Event>, n: int, t: nat): Scan
    requires t <= |own|
  {
    if t == 0 then start else ScanEvent(ScanTo(start, own, n, t - 1), own[t - 1], n)
  }

  /** Cluster n's members whose identities are in s.here are recorded, after the events of `before`. */
  ghost predicate Claiming(rs: seq<ClusterResult>, n: nat, before: set<EventKey>, s: Scan)
    requires n < |rs|
  {
    Claimed(rs, s.positions, n, s.here) && s.positions.Keys == before + s.here
  }

  lemma {:induction false} ScanClaims(rs: seq<ClusterResult>, n: nat, before: set<EventKey>, start: Scan, own: seq<Event>, t: nat)
    requires n < |rs| && t <= |own| && Claiming(rs, n, before, start)
    ensures Claiming(rs, n, before, ScanTo(start, own, n, t))
  {
    if t > 0 {
      ScanClaims(rs, n, before, start, own, t - 1);
      var s := ScanTo(start, own, n, t - 1);
      ClaimStep(rs, n, before, s, own[t - 1]);
      assert ScanTo(start, own, n, t) == ScanEvent(s, own[t - 1], n);
    }
  }

  lemma {:induction false} ScanHere(start: Scan, own: seq<Event>, n: int, t: nat)
    requires t <= |own| && start.here == {}
    ensures ScanTo(start, own, n, t).here == Keys(own[..t])
  {
    if t > 0 {
      ScanHere(start, own, n, t - 1);
      OneMoreKey(own, t - 1);
    }
  }

  lemma ClaimStep(rs: seq<ClusterResult>, n: nat, before: set<EventKey>, s: Scan, e: Event)
    requires n < |rs| && Claiming(rs, n, before, s)
    ensures Claiming(rs, n, before, ScanEvent(s, e, n))
  {
    if e.key !in s.here {
      ClaimedMore(rs, s.positions, n, s.here, e.key);
    }
  }

  lemma OneMoreKey(own: seq<Event>, t: nat)
    requires t < |own|
    ensures Keys(own[..t + 1]) == Keys(own[..t]) + {own[t].key}
  {
    assert own[..t + 1] == own[..t] + [own[t]];
    KeysConcat(own[..t], [own[t]]);
  }

  /** The order of appearance, as the scan goes on. */
  lemma {:induction false} ScanOrders(rs: seq<ClusterResult>, n: nat, before: seq<Event>, start: Scan, t: nat)
    requires n < |rs| && t <= |rs[n].events| && start.here == {} && Claiming(rs, n, Keys(before), start)
    requires start.order == Unseen({}, before)
    ensures ScanTo(start, rs[n].events, n, t).order == Unseen({}, before + rs[n].events[..t])
  {
    var own := rs[n].events;
    if t == 0 {
      assert before + own[..0] == before;
    } else {
      ScanOrders(rs, n, before, start, t - 1);
      ScanClaims(rs, n, Keys(before), start, own, t - 1);
      ScanHere(start, own, n, t - 1);
      AppearsNext(before, own, t - 1);
    }
  }

  /** One cluster's members recorded, after every earlier cluster's. */
  method ScanMembers(own: seq<Event>, n: nat, positions: map<EventKey, seq<int>>, order: seq<Event>)
    returns (positions': map<EventKey, seq<int>>, order': seq<Event>)
    ensures var s := ScanTo(Scan({}, positions, order), own, n, |own|); positions' == s.positions && order' == s.order
  {
    positions', order' := positions, order;
    var here: set<EventKey> := {};
    for t := 0 to |own|
      invariant Scan(here, positions', order') == ScanTo(Scan({}, positions, order), own, n, t)
    {
      var e := own[t];
      if e.key !in here {
        here := here + {e.key};
        if e.key !in positions' {
          order' := order' + [e];
        }
        positions' := positions'[e.key := Recorded(positions', e.key) + [n]];
      }
    }
  }

  method ScanCluster(rs: seq<ClusterResult>, n: nat, positions: map<EventKey, seq<int>>, order: seq<Event>)
    returns (positions': map<EventKey, seq<int>>, order': seq<Event>)
    requires n < |rs| && Seen(rs, positions, order, n)
    ensures Seen(rs, positions', order', n + 1)
  {
    SeenMore(rs, positions, order, n);
    positions', order' := ScanMembers(rs[n].events, n, positions, order);
  }

  lemma SeenWhen(rs: seq<ClusterResult>, positions: map<EventKey, seq<int>>, order: seq<Event>, n: nat)
    requires n < |rs| && Claimed(rs, positions, n, Keys(rs[n].events))
    requires positions.Keys == Keys(AllMembers(rs[..n])) + Keys(rs[n].events)
    requires order == Unseen({}, AllMembers(rs[..n]) + rs[n].events)
    ensures Seen(rs, positions, order, n + 1)
  {
    assert rs[..n + 1][..n] == rs[..n] && rs[..n + 1][n] == rs[n];
    KeysConcat(AllMembers(rs[..n]), rs[n].events);
  }

  lemma ScanAll(rs: seq<ClusterResult>, n: nat, before: seq<Event>, start: Scan)
    requires n < |rs| && start.here == {} && Claiming(rs, n, Keys(before), start) && start.order == Unseen({}, before)
    ensures var s := ScanTo(start, rs[n].events, n, |rs[n].events|);
            && Claimed(rs, s.positions, n, Keys(rs[n].events))
            && s.positions.Keys == Keys(before) + Keys(rs[n].events)
            && s.order == Unseen({}, before + rs[n].events)
  {
    var own := rs[n].events;
    assert own[..|own|] == own;
    ScanClaims(rs, n, Keys(before), start, own, |own|);
    ScanHere(start, own, n, |own|);
    ScanOrders(rs, n, before, start, |own|);
  }

  lemma SeenClaims(rs: seq<ClusterResult>, positions: map<EventKey, seq<int>>, order: seq<Event>, n: nat)
    requires n < |rs| && Seen(rs, positions, order, n)
    ensures Claiming(rs, n, Keys(AllMembers(rs[..n])), Scan({}, positions, order))
  {
  }

  lemma SeenMore(rs: seq<ClusterResult>, positions: map<EventKey, seq<int>>, order: seq<Event>, n: nat)
    requires n < |rs| && Seen(rs, positions, order, n)
    ensures var s := ScanTo(Scan({}, positions, order), rs[n].events, n, |rs[n].events|); Seen(rs, s.positions, s.order, n + 1)
  {
    var start := Scan({}, positions, order);
    SeenClaims(rs, positions, order, n);
    ScanAll(rs, n, AllMembers(rs[..n]), start);
    var s := ScanTo(start, rs[n].events, n, |rs[n].events|);
    SeenWhen(rs, s.positions, s.order, n);
  }

  lemma AppearsNext(before: seq<Event>, own: seq<Event>, t: nat)
    requires t < |own|
    ensures Unseen({}, before + own[..t + 1]) == Unseen({}, before + own[..t]) +
              if own[t].key in Keys(before) + Keys(own[..t]) then [] else [own[t]]
  {
    assert before + own[..t + 1] == before + own[..t] + [own[t]];
    KeysConcat(before, own[..t]);
    UnseenAppend({}, before + own[..t], own[t]);
  }

  /** Every event two or more clusters hold as a member, in order of first appearance. */
  method FindDisputes(rs: seq<ClusterResult>) returns (ds: seq<Dispute>)
    ensures ds == DisputesOf(rs)
  {
    var positions: map<EventKey, seq<int>>, order: seq<Event> := map[], [];
    for n := 0 to |rs|
      invariant Seen(rs, positions, order, n)
    {
      positions, order := ScanCluster(rs, n, positions, order);
    }
    assert rs[..|rs|] == rs;
    ds := [];
    for t := 0 to |order|
      invariant ds == Disputed(rs, order[..t])
    {
      assert order[..t + 1][..t] == order[..t];
      var claimants := Recorded(positions, order[t].key);
      if |claimants| > 1 {
        ds := ds + [Dispute(order[t], claimants)];
      }
    }
    assert order[..|order|] == order;
  }

  /** Whether a rune is white space. */
  predicate IsSpace(c: char) {
    c in {' ', '\t', '\n', '\U{0B}', '\U{0C}', '\r', '\U{85}', '\U{A0}', '\U{1680}', '\U{2028}', '\U{2029}', '\U{202F}', '\U{205F}', '\U{3000}'}
    || '\U{2000}' <= c <= '\U{200A}'
  }

  predicate Blank(s: string) {
    forall i :: 0 <= i < |s| ==> IsSpace(s[i])
  }

  /** Which claimant owns a disputed event, how surely, and why. */
  datatype Verdict = Verdict(position: int, confidence: real, rationale: string)

  /** The ruling answers one dispute of those asked, naming one of its claimants, with a confidence and a reason. */
  predicate Sound(r: Ruling, ds: seq<Dispute>) {
    && r.eventIndex.Some? && 0 <= r.eventIndex.value < |ds|
    && r.position.Some? && r.position.value in ds[r.eventIndex.value].claimants
    && r.confidence.Some? && InUnit(r.confidence.value)
    && !Blank(r.rationale)
  }

  /** Some ruling answers dispute d. */
  predicate Answers(rulings: seq<Ruling>, d: int) {
    exists t :: 0 <= t < |rulings| && rulings[t].eventIndex == Some(d)
  }

  /** Every ruling is sound, none answers a dispute twice, and every dispute is answered. */
  predicate Complete(rulings: seq<Ruling>, ds: seq<Dispute>) {
    && (forall t :: 0 <= t < |rulings| ==> Sound(rulings[t], ds))
    && (forall t, u :: 0 <= t < u < |rulings| ==> rulings[t].eventIndex != rulings[u].eventIndex)
    && (forall d :: 0 <= d < |ds| ==> Answers(rulings, d))
  }

  function VerdictOf(r: Ruling): Verdict
    requires r.position.Some? && r.confidence.Some?
  {
    Verdict(r.position.value, r.confidence.value, r.rationale)
  }

  /** verdicts[d] is what the ruling on dispute d says. */
  ghost predicate VerdictsOf(rulings: seq<Ruling>, ds: seq<Dispute>, verdicts: seq<Verdict>) {
    && |verdicts| == |ds|
    && (forall t :: 0 <= t < |rulings| ==>
         Sound(rulings[t], ds) && verdicts[rulings[t].eventIndex.value] == VerdictOf(rulings[t]))
  }

  /** A verdict for every dispute, or None: an unanswered dispute has no default. */
  method ParseDisputeResponse(body: Body, ds: seq<Dispute>) returns (out: Option<seq<Verdict>>)
    ensures out.Some? <==> body.Rulings? && Complete(body.rulings, ds)
    ensures out.Some? ==> VerdictsOf(body.rulings, ds, out.value)
  {
    if !body.Rulings? {
      return None;
    }
    var rulings := body.rulings;
    var verdicts := new Verdict[|ds|](_ => Verdict(0, 0.0, ""));
    var done := new bool[|ds|](_ => false);
    for t := 0 to |rulings|
      invariant VerdictsOf(rulings[..t], ds, verdicts[..])
      invariant forall d :: 0 <= d < |ds| ==> done[d] == Answers(rulings[..t], d)
      invariant forall u, v :: 0 <= u < v < t ==> rulings[u].eventIndex != rulings[v].eventIndex
    {
      var r := rulings[t];
      if !Sound(r, ds) {
        return None;
      }
      var d := r.eventIndex.value;
      if done[d] {
        ghost var u :| 0 <= u < t && rulings[..t][u].eventIndex == Some(d);
        assert rulings[u].eventIndex == rulings[t].eventIndex;
        return None;
      }
      NotAnswered(rulings, t, d);
      AnswersMore(rulings, t);
      verdicts[d] := VerdictOf(r);
      done[d] := true;
      VerdictsMore(rulings, t, ds, verdicts[..]);
    }
    assert rulings[..|rulings|] == rulings;
    for d := 0 to |ds|
      invariant forall c :: 0 <= c < d ==> done[c]
    {
      if !done[d] {
        return None;
      }
    }
    return Some(verdicts[..]);
  }

  lemma NotAnswered(rulings: seq<Ruling>, t: nat, d: int)
    requires t <= |rulings| && !Answers(rulings[..t], d)
    ensures forall u :: 0 <= u < t ==> rulings[u].eventIndex != Some(d)
  {
    forall u | 0 <= u < t ensures rulings[u].eventIndex != Some(d) {
      assert rulings[..t][u] == rulings[u];
    }
  }

  lemma VerdictsMore(rulings: seq<Ruling>, t: nat, ds: seq<Dispute>, verdicts: seq<Verdict>)
    requires t < |rulings| && Sound(rulings[t], ds) && |verdicts| == |ds|
    requires verdicts[rulings[t].eventIndex.value] == VerdictOf(rulings[t])
    requires forall u :: 0 <= u < t ==> Sound(rulings[u], ds) && verdicts[rulings[u].eventIndex.value] == VerdictOf(rulings[u])
    ensures VerdictsOf(rulings[..t + 1], ds, verdicts)
  {
  }

  lemma AnswersMore(rulings: seq<Ruling>, t: nat)
    requires t < |rulings|
    ensures forall d :: Answers(rulings[..t + 1], d) <==> Answers(rulings[..t], d) || rulings[t].eventIndex == Some(d)
  {
    forall d | Answers(rulings[..t + 1], d) && rulings[t].eventIndex != Some(d) ensures Answers(rulings[..t], d) {
      var u :| 0 <= u < t + 1 && rulings[..t + 1][u].eventIndex == Some(d);
      assert rulings[..t][u] == rulings[u];
    }
    forall d | Answers(rulings[..t], d) || rulings[t].eventIndex == Some(d) ensures Answers(rulings[..t + 1], d) {
      if Answers(rulings[..t], d) {
        var u :| 0 <= u < t && rulings[..t][u].eventIndex == Some(d);
        assert rulings[..t + 1][u] == rulings[..t][u];
      } else {
        assert rulings[..t + 1][t] == rulings[t];
      }
    }
  }

  /** evts without any event of identity k. */
  function Without(evts: seq<Event>, k: EventKey): seq<Event> {
    if evts == [] then []
    else if evts[|evts| - 1].key == k then Without(evts[..|evts| - 1], k)
    else Without(evts[..|evts| - 1], k) + [evts[|evts| - 1]]
  }

  /** A claimant that lost the event: it keeps it as background. */
  function Loser(r: ClusterResult, d: Dispute): ClusterResult {
    var k := d.event.key;
    r.(events := Without(r.events, k), overrides := r.overrides - {k},
       context := if k in Keys(r.context) then r.context else r.context + [d.event])
  }

  /** The claimant that won it, at the confidence the answer states. */
  function Winner(r: ClusterResult, d: Dispute, a: Verdict): ClusterResult {
    r.(overrides := r.overrides[d.event.key := a.confidence])
  }

  function SettledAt(r: ClusterResult, pos: int, d: Dispute, a: Verdict): ClusterResult {
    if pos == a.position then Winner(r, d, a) else if pos in d.claimants then Loser(r, d) else r
  }

  /** Every cluster after one dispute's answer. */
  function SettleOne(rs: seq<ClusterResult>, d: Dispute, a: Verdict): seq<ClusterResult> {
    seq(|rs|, pos requires 0 <= pos < |rs| => SettledAt(rs[pos], pos, d, a))
  }

  /** Every cluster after every answer, in order. */
  function SettleAll(rs: seq<ClusterResult>, ds: seq<Dispute>, answers: seq<Verdict>): (out: seq<ClusterResult>)
    requires |ds| == |answers|
    ensures |out| == |rs|
  {
    if ds == [] then rs
    else SettleOne(SettleAll(rs, ds[..|ds| - 1], answers[..|ds| - 1]), ds[|ds| - 1], answers[|ds| - 1])
  }

  /** How one dispute ended. */
  datatype Resolution = Resolution(event: EventKey, claimants: seq<Label>, chosen: Label, confidence: real, rationale: string)

  ghost predicate ClaimantsIn(rs: seq<ClusterResult>, ds: seq<Dispute>) {
    forall d, t :: 0 <= d < |ds| && 0 <= t < |ds[d].claimants| ==> 0 <= ds[d].claimants[t] < |rs|
  }

  /** Each answer names a claimant. */
  ghost predicate Answered(ds: seq<Dispute>, answers: seq<Verdict>) {
    |answers| == |ds| && forall d :: 0 <= d < |ds| ==> answers[d].position in ds[d].claimants
  }

  function ResolutionOf(rs: seq<ClusterResult>, d: Dispute, a: Verdict): Resolution
    requires (forall t :: 0 <= t < |d.claimants| ==> 0 <= d.claimants[t] < |rs|) && a.position in d.claimants
  {
    Resolution(d.event.key, seq(|d.claimants|, t requires 0 <= t < |d.claimants| => LabelOf(rs[d.claimants[t]])),
               LabelOf(rs[a.position]), a.confidence, a.rationale)
  }

  method RemoveEvent(evts: seq<Event>, k: EventKey) returns (out: seq<Event>)
    ensures out == Without(evts, k)
  {
    out := [];
    for t := 0 to |evts|
      invariant out == Without(evts[..t], k)
    {
      assert evts[..t + 1][..t] == evts[..t];
      if evts[t].key != k {
        out := out + [evts[t]];
      }
    }
    assert evts[..|evts|] == evts;
  }

  /** Moves one disputed event out of every losing claimant and records the winner's confidence. */
  method ApplyOne(rs: seq<ClusterResult>, d: Dispute, a: Verdict) returns (out: seq<ClusterResult>)
    requires forall t :: 0 <= t < |d.claimants| ==> 0 <= d.claimants[t] < |rs|
    requires forall t, u :: 0 <= t < u < |d.claimants| ==> d.claimants[t] < d.claimants[u]
    requires a.position in d.claimants
    ensures out == SettleOne(rs, d, a)
  {
    out := rs;
    for t := 0 to |d.claimants|
      invariant |out| == |rs|
      invariant forall pos :: 0 <= pos < |rs| ==>
                  out[pos] == if pos != a.position && pos in d.claimants[..t] then Loser(rs[pos], d) else rs[pos]
    {
      var pos := d.claimants[t];
      assert d.claimants[..t + 1] == d.claimants[..t] + [pos];
      if pos == a.position {
        continue;
      }
      var kept := RemoveEvent(out[pos].events, d.event.key);
      out := out[pos := out[pos].(events := kept, overrides := out[pos].overrides - {d.event.key})];
      if d.event.key !in Keys(out[pos].context) {
        out := out[pos := out[pos].(context := out[pos].context + [d.event])];
      }
    }
    assert d.claimants[..|d.claimants|] == d.claimants;
    out := out[a.position := out[a.position].(overrides := out[a.position].overrides[d.event.key := a.confidence])];
  }

  /** A New cluster with no member. */
  predicate Hollow(r: ClusterResult) {
    r.kind == New && r.events == []
  }

  /** Every answer applied; an error when a New cluster is left with no work of its own. */
  method ApplyDisputeAnswers(rs: seq<ClusterResult>, ds: seq<Dispute>, answers: seq<Verdict>)
    returns (out: Outcome<seq<ClusterResult>>, resolutions: seq<Resolution>)
    requires ClaimantsIn(rs, ds) && Answered(ds, answers)
    requires forall d, t, u :: 0 <= d < |ds| && 0 <= t < u < |ds[d].claimants| ==> ds[d].claimants[t] < ds[d].claimants[u]
    ensures var settled := SettleAll(rs, ds, answers);
            out == if exists pos :: 0 <= pos < |rs| && Hollow(settled[pos]) then Failed(NewClusterEmptied) else Done(settled)
    ensures |resolutions| == |ds|
    ensures forall d :: 0 <= d < |ds| ==> resolutions[d] == ResolutionOf(rs, ds[d], answers[d])
  {
    var settled := rs;
    resolutions := [];
    for i := 0 to |ds|
      invariant settled == SettleAll(rs, ds[..i], answers[..i])
      invariant |resolutions| == i
      invariant forall d :: 0 <= d < i ==> resolutions[d] == ResolutionOf(rs, ds[d], answers[d])
    {
      assert ds[..i + 1][..i] == ds[..i] && answers[..i + 1][..i] == answers[..i];
      settled := ApplyOne(settled, ds[i], answers[i]);
      resolutions := resolutions + [ResolutionOf(rs, ds[i], answers[i])];
    }
    assert ds[..|ds|] == ds && answers[..|ds|] == answers;
    for pos := 0 to |settled|
      invariant forall p :: 0 <= p < pos ==> !Hollow(settled[p])
    {
      if Hollow(settled[pos]) {
        return Failed(NewClusterEmptied), resolutions;
      }
    }
    return Done(settled), resolutions;
  }
}
