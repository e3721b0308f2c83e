/** What every omission round keeps, and the bounded loop over them. */
module Rounds {
  import opened Events
  import opened Clusters
  import opened Regrouping
  import opened Oracle
  import opened Parsing
  import opened Omission
  import opened Prompts

  /** `after` is `before` with work added: the same cluster, every member at the confidence it had. */
  ghost predicate Grown(before: ClusterResult, after: ClusterResult) {
    && after.kind == before.kind && after.narrativeID == before.narrativeID && after.title == before.title
    && after.confidence == before.confidence
    && before.events <= after.events
    && (forall k :: before.Holds(k) ==> after.ConfidenceOf(k) == before.ConfidenceOf(k))
    && (forall k :: k in Keys(before.context) ==> k in Keys(after.context) || after.Holds(k))
  }

  /** Every cluster of `before` is still at its place, grown or as it was. */
  ghost predicate Keeps(before: seq<ClusterResult>, after: seq<ClusterResult>) {
    |before| <= |after| && forall i :: 0 <= i < |before| ==> Grown(before[i], after[i])
  }

  lemma GrownTransitive(a: ClusterResult, b: ClusterResult, c: ClusterResult)
    requires Grown(a, b) && Grown(b, c)
    ensures Grown(a, c)
  {
    forall k | a.Holds(k) ensures b.Holds(k) {
      var e :| e in a.events && e.key == k;
      assert e in b.events;
    }
    forall k | b.Holds(k) ensures c.Holds(k) {
      var e :| e in b.events && e.key == k;
      assert e in c.events;
    }
  }

  lemma KeepsTransitive(a: seq<ClusterResult>, b: seq<ClusterResult>, c: seq<ClusterResult>)
    requires Keeps(a, b) && Keeps(b, c)
    ensures Keeps(a, c)
  {
    forall i | 0 <= i < |a| ensures Grown(a[i], c[i]) {
      GrownTransitive(a[i], b[i], c[i]);
    }
  }

  /** Joining an item's events to a cluster grows it by exactly those, each at the item's confidence. */
  lemma JoinGrows(r: ClusterResult, item: Item, evts: seq<Event>)
    requires WellFormed(r) && Readable(item, |evts|) && UniqueKeys(evts)
    ensures var p := Resolved(item, evts);
            var j := JoinCluster(r, p, item.summary);
            && WellFormed(j) && Grown(r, j)
            && Keys(j.events) == Keys(r.events) + Keys(p.members)
            && Keys(j.context) == Keys(r.context) + Keys(p.context) - Keys(j.events)
            && (forall k :: k in Keys(p.members) && !r.Holds(k) ==> j.ConfidenceOf(k) == p.confidence)
            && (j.summary != r.summary ==> j.summary == item.summary != "")
            && (forall e :: e in j.events || e in j.context ==> e in r.events || e in r.context || e in evts)
  {
    var p := Resolved(item, evts);
    ResolvedExactly(item, evts);
    AbsorbWellFormed(r, p.members, p.context, Flat(p.confidence));
    AbsorbPlaces(r, p.members, p.context, Flat(p.confidence));
    var a := Absorb(r, p.members, p.context, Flat(p.confidence));
    var j := JoinCluster(r, p, item.summary);
    forall k | r.Holds(k) || k in Keys(p.members)
      ensures j.ConfidenceOf(k) == if r.Holds(k) then r.ConfidenceOf(k) else p.confidence
    {
      AbsorbConfidence(r, p.members, p.context, Flat(p.confidence), k);
    }
  }

  /** The clusters after one item: every earlier one kept, exactly the item's events newly placed. */
  lemma Placed1Keeps(merged: seq<ClusterResult>, item: Item, evts: seq<Event>)
    requires AllWellFormed(merged) && DrawnFrom(merged, evts) && UniqueKeys(evts)
    requires Readable(item, |evts|)
    requires item.kind == "earlier" ==> item.position.Some? && 0 <= item.position.value < |merged|
    ensures var out := Placed1(merged, item, evts);
            AllWellFormed(out) && DrawnFrom(out, evts) && Keeps(merged, out)
  {
    ResolvedExactly(item, evts);
    var at := PlaceFor(merged, item);
    if at < |merged| {
      JoinGrows(merged[at], item, evts);
    }
  }

  lemma Placed1Places(merged: seq<ClusterResult>, item: Item, evts: seq<Event>, k: EventKey)
    requires AllWellFormed(merged) && UniqueKeys(evts) && Readable(item, |evts|)
    requires item.kind == "earlier" ==> item.position.Some? && 0 <= item.position.value < |merged|
    ensures Placed(Placed1(merged, item, evts), k) <==> Placed(merged, k) || k in Keys(Resolved(item, evts).members)
  {
    var at, out := PlaceFor(merged, item), Placed1(merged, item, evts);
    if at < |merged| {
      JoinGrows(merged[at], item, evts);
      assert out[at].Holds(k) <==> merged[at].Holds(k) || k in Keys(Resolved(item, evts).members);
      if i :| 0 <= i < |merged| && merged[i].Holds(k) { assert out[i].Holds(k); }
      if i :| 0 <= i < |out| && out[i].Holds(k) { assert i != at ==> merged[i].Holds(k); }
    } else {
      assert out[|merged|].Holds(k) <==> k in Keys(Resolved(item, evts).members);
      if i :| 0 <= i < |merged| && merged[i].Holds(k) { assert out[i].Holds(k); }
      if i :| 0 <= i < |out| && out[i].Holds(k) { assert i < |merged| ==> merged[i].Holds(k); }
    }
  }

  lemma Placed1ExtendsOnce(merged: seq<ClusterResult>, item: Item, evts: seq<Event>)
    requires ExtendsOnce(merged) && Readable(item, |evts|)
    requires item.kind == "earlier" ==> item.position.Some? && 0 <= item.position.value < |merged|
    ensures ExtendsOnce(Placed1(merged, item, evts))
  {
    var at, out := PlaceFor(merged, item), Placed1(merged, item, evts);
    forall i, j | 0 <= i < j < |out| && out[i].kind == Extends && out[j].kind == Extends
      ensures out[i].narrativeID != out[j].narrativeID
    {
      assert out[i].kind == merged[i].kind && out[i].narrativeID == merged[i].narrativeID;
      if j < |merged| {
        assert out[j].kind == merged[j].kind && out[j].narrativeID == merged[j].narrativeID;
      } else {
        assert !merged[i].ExtendsID(item.narrativeID);
      }
    }
  }

  /** An accepted reply keeps every earlier cluster in its place and places exactly the events it names. */
  lemma {:induction false} PlacedAllKeeps(first: seq<ClusterResult>, items: seq<Item>, evts: seq<Event>, omitted: seq<int>)
    requires AllWellFormed(first) && DrawnFrom(first, evts) && UniqueKeys(evts)
    requires AllAccepted(items, |evts|, |first|, omitted)
    ensures var out := PlacedAll(first, items, evts, omitted);
            && AllWellFormed(out) && DrawnFrom(out, evts) && Keeps(first, out)
            && (ExtendsOnce(first) ==> ExtendsOnce(out))
  {
    if items == [] {
      assert forall i :: 0 <= i < |first| ==> Grown(first[i], first[i]);
    } else {
      var before := items[..|items| - 1];
      assert AllAccepted(before, |evts|, |first|, omitted);
      assert Accepted(items[|items| - 1], |evts|, |first|, omitted);
      PlacedAllKeeps(first, before, evts, omitted);
      var mid := PlacedAll(first, before, evts, omitted);
      Placed1Keeps(mid, items[|items| - 1], evts);
      KeepsTransitive(first, mid, PlacedAll(first, items, evts, omitted));
      if ExtendsOnce(first) { Placed1ExtendsOnce(mid, items[|items| - 1], evts); }
    }
  }

  lemma {:induction false} PlacedAllPlaces(first: seq<ClusterResult>, items: seq<Item>, evts: seq<Event>, omitted: seq<int>, i: nat)
    requires AllWellFormed(first) && DrawnFrom(first, evts) && UniqueKeys(evts) && i < |evts|
    requires AllAccepted(items, |evts|, |first|, omitted)
    ensures Placed(PlacedAll(first, items, evts, omitted), evts[i].key) <==> Placed(first, evts[i].key) || Mentions(items, i)
  {
    if items != [] {
      var n := |items| - 1;
      assert AllAccepted(items[..n], |evts|, |first|, omitted);
      assert Accepted(items[n], |evts|, |first|, omitted);
      PlacedAllKeeps(first, items[..n], evts, omitted);
      PlacedAllPlaces(first, items[..n], evts, omitted, i);
      Placed1Places(PlacedAll(first, items[..n], evts, omitted), items[n], evts, evts[i].key);
      ResolvedExactly(items[n], evts);
      assert items[..n + 1] == items;
      MentionsMore(items, n);
    }
  }

  /** The cluster at p is the place the item names: an earlier one, one extending its narrative, or a new one with its title. */
  ghost predicate PlaceNamed(item: Item, out: seq<ClusterResult>, p: nat, firstLen: nat)
    requires p < |out|
  {
    match item.kind
    case "earlier" => item.position == Some(p)
    case "extends" => out[p].ExtendsID(item.narrativeID)
    case _ => p >= firstLen && out[p].kind == New && out[p].title == item.title
  }

  /** The cluster holds every event the item places, and names or holds every event it gives as context. */
  ghost predicate TakesAll(r: ClusterResult, item: Item, evts: seq<Event>) {
    && (forall i :: 0 <= i < |evts| && i in item.eventIndices ==> r.Holds(evts[i].key))
    && (forall i :: 0 <= i < |evts| && i in item.contextIndices ==> evts[i].key in Keys(r.context) || r.Holds(evts[i].key))
  }

  lemma Placed1Where(merged: seq<ClusterResult>, item: Item, evts: seq<Event>, firstLen: nat)
    requires AllWellFormed(merged) && UniqueKeys(evts) && Readable(item, |evts|) && NamesPlace(item, firstLen) && firstLen <= |merged|
    ensures var out, p := Placed1(merged, item, evts), PlaceFor(merged, item);
            p < |out| && PlaceNamed(item, out, p, firstLen) && TakesAll(out[p], item, evts)
  {
    ResolvedExactly(item, evts);
    var p := PlaceFor(merged, item);
    if p < |merged| { JoinGrows(merged[p], item, evts); }
  }

  /** Where the events of each item of an accepted reply end: in the cluster it names. */
  lemma {:induction false} PlacedWhereNamed(
    first: seq<ClusterResult>, items: seq<Item>, evts: seq<Event>, omitted: seq<int>, t: nat) returns (p: nat)
    requires AllWellFormed(first) && DrawnFrom(first, evts) && UniqueKeys(evts)
    requires AllAccepted(items, |evts|, |first|, omitted) && t < |items|
    ensures var out := PlacedAll(first, items, evts, omitted);
            p < |out| && PlaceNamed(items[t], out, p, |first|) && TakesAll(out[p], items[t], evts)
    decreases |items|
  {
    var n := |items| - 1;
    assert AllAccepted(items[..n], |evts|, |first|, omitted);
    assert Accepted(items[n], |evts|, |first|, omitted);
    var mid := PlacedAll(first, items[..n], evts, omitted);
    PlacedAllKeeps(first, items[..n], evts, omitted);
    if t == n {
      p := PlaceFor(mid, items[n]);
      Placed1Where(mid, items[n], evts, |first|);
    } else {
      p := PlacedWhereNamed(first, items[..n], evts, omitted, t);
      Placed1Keeps(mid, items[n], evts);
      StillTakes(mid[p], Placed1(mid, items[n], evts)[p], items[t], evts);
    }
  }

  /** A cluster that grows still takes what it took. */
  lemma StillTakes(before: ClusterResult, after: ClusterResult, item: Item, evts: seq<Event>)
    requires Grown(before, after) && TakesAll(before, item, evts)
    ensures TakesAll(after, item, evts)
  {
    GrownHolds(before, after);
  }

  lemma GrownHolds(before: ClusterResult, after: ClusterResult)
    requires Grown(before, after)
    ensures forall k :: before.Holds(k) ==> after.Holds(k)
  {
    forall k | before.Holds(k) ensures after.Holds(k) {
      var e :| e in before.events && e.key == k;
      assert e in after.events;
    }
  }

  lemma {:induction false} StillMissingExactly(items: seq<Item>, omitted: seq<int>)
    ensures forall i :: i in StillMissing(items, omitted) <==> i in omitted && !Mentions(items, i)
    ensures |StillMissing(items, omitted)| <= |omitted|
  {
    if omitted != [] {
      StillMissingExactly(items, omitted[..|omitted| - 1]);
      assert omitted == omitted[..|omitted| - 1] + [omitted[|omitted| - 1]];
    }
  }

  /** A round's state: the clusters so far, the events still missing, the last refusal quoted. */
  datatype Round = Round(clusters: seq<ClusterResult>, missing: seq<int>, refusal: Option<(nat, nat)>)

  /** Exactly the in-window events, numbered below n, that no cluster holds are missing. */
  ghost predicate Settled(s: Round, evts: seq<Event>, n: nat) {
    && AllWellFormed(s.clusters) && DrawnFrom(s.clusters, evts)
    && (forall i :: i in s.missing <==> 0 <= i < n && i < |evts| && !Placed(s.clusters, evts[i].key))
  }

  /** The state after a reply: merged if it was accepted, and otherwise only its refusal noted. */
  function AfterReply(s: Round, reply: Reply, evts: seq<Event>): Round {
    if reply.NoAnswer? then s
    else match MergeOf(reply.body, evts, s.clusters, s.missing)
      case None => s.(refusal := Some((reply.size, reply.reasonSize)))
      case Some(m) => Round(m.clusters, m.missing, None)
  }

  /**
   * One round: every earlier cluster stays where it was with its kind, narrative and members;
   * nothing placed is missing again; and what is still missing is exactly what has no home.
   */
  lemma AfterReplySettled(s: Round, reply: Reply, evts: seq<Event>, n: nat)
    requires Settled(s, evts, n) && UniqueKeys(evts) && n <= |evts|
    ensures var s' := AfterReply(s, reply, evts);
            && Settled(s', evts, n)
            && Keeps(s.clusters, s'.clusters)
            && (forall i :: i in s'.missing ==> i in s.missing)
            && (ExtendsOnce(s.clusters) ==> ExtendsOnce(s'.clusters))
            && (s'.refusal.Some? && reply.Answer? ==> s'.clusters == s.clusters && s'.missing == s.missing)
  {
    assert forall i :: 0 <= i < |s.clusters| ==> Grown(s.clusters[i], s.clusters[i]);
    if reply.Answer? && MergeOf(reply.body, evts, s.clusters, s.missing).Some? {
      var items := reply.body.items;
      PlacedAllKeeps(s.clusters, items, evts, s.missing);
      StillMissingExactly(items, s.missing);
      forall i | 0 <= i < n
        ensures Placed(PlacedAll(s.clusters, items, evts, s.missing), evts[i].key) <==>
                Placed(s.clusters, evts[i].key) || Mentions(items, i)
      {
        PlacedAllPlaces(s.clusters, items, evts, s.missing, i);
      }
    }
  }

  /** states[r] is what the r-th reply from `at` on makes of the state before it. */
  ghost predicate StepAt(states: seq<Round>, replies: Replies, at: nat, evts: seq<Event>, r: nat)
    requires 0 < r < |states|
  {
    states[r] == AfterReply(states[r - 1], replies(at + r - 1), evts)
  }

  /** The states that some replies lead to, one after another, from the first. */
  ghost predicate Chain(states: seq<Round>, start: Round, replies: Replies, at: nat, evts: seq<Event>) {
    && states != [] && states[0] == start
    && forall r: nat {:trigger StepAt(states, replies, at, evts, r)} :: 0 < r < |states| ==> StepAt(states, replies, at, evts, r)
  }

  lemma ChainMore(states: seq<Round>, start: Round, replies: Replies, at: nat, evts: seq<Event>, next: Round)
    requires Chain(states, start, replies, at, evts)
    requires next == AfterReply(states[|states| - 1], replies(at + |states| - 1), evts)
    ensures Chain(states + [next], start, replies, at, evts)
  {
    var more := states + [next];
    forall r: nat | 0 < r < |more| ensures StepAt(more, replies, at, evts, r) {
      if r < |states| { assert StepAt(states, replies, at, evts, r); }
    }
  }

  lemma ChainBefore(states: seq<Round>, start: Round, replies: Replies, at: nat, evts: seq<Event>)
    requires Chain(states, start, replies, at, evts) && |states| > 1
    ensures Chain(states[..|states| - 1], start, replies, at, evts)
    ensures states[|states| - 1] == AfterReply(states[|states| - 2], replies(at + |states| - 2), evts)
  {
    var init := states[..|states| - 1];
    assert StepAt(states, replies, at, evts, |states| - 1);
    forall r: nat | 0 < r < |init| ensures StepAt(init, replies, at, evts, r) {
      assert StepAt(states, replies, at, evts, r);
    }
  }

  /** The replies decide the states. */
  lemma {:induction false} ChainUnique(a: seq<Round>, b: seq<Round>, start: Round, replies: Replies, at: nat, evts: seq<Event>)
    requires Chain(a, start, replies, at, evts) && Chain(b, start, replies, at, evts) && |a| <= |b|
    ensures a == b[..|a|]
    decreases |b|
  {
    if |a| < |b| {
      ChainBefore(b, start, replies, at, evts);
      ChainUnique(a, b[..|b| - 1], start, replies, at, evts);
    } else if |a| > 1 {
      ChainBefore(a, start, replies, at, evts);
      ChainBefore(b, start, replies, at, evts);
      ChainUnique(a[..|a| - 1], b[..|b| - 1], start, replies, at, evts);
      assert a == a[..|a| - 1] + [a[|a| - 1]] && b == b[..|b| - 1] + [b[|b| - 1]];
    }
  }

  /** However many rounds are asked, whatever is answered. */
  lemma {:induction false} RoundsSettled(states: seq<Round>, start: Round, replies: Replies, at: nat, evts: seq<Event>, n: nat)
    requires Chain(states, start, replies, at, evts)
    requires Settled(start, evts, n) && UniqueKeys(evts) && n <= |evts|
    ensures var end := states[|states| - 1];
            && Settled(end, evts, n)
            && Keeps(start.clusters, end.clusters)
            && (forall i :: i in end.missing ==> i in start.missing)
            && (ExtendsOnce(start.clusters) ==> ExtendsOnce(end.clusters))
  {
    if |states| == 1 {
      assert forall i :: 0 <= i < |start.clusters| ==> Grown(start.clusters[i], start.clusters[i]);
    } else {
      ChainBefore(states, start, replies, at, evts);
      RoundsSettled(states[..|states| - 1], start, replies, at, evts, n);
      var mid := states[|states| - 2];
      AfterReplySettled(mid, replies(at + |states| - 2), evts, n);
      KeepsTransitive(start.clusters, mid.clusters, states[|states| - 1].clusters);
    }
  }

  /** The last number a key has among evts[..n], if it has one. */
  function NumberOf(evts: seq<Event>, k: EventKey, n: nat): Option<int>
    requires n <= |evts|
  {
    if n == 0 then None else if evts[n - 1].key == k then Some(n - 1) else NumberOf(evts, k, n - 1)
  }

  lemma {:induction false} NumberOfExactly(evts: seq<Event>, k: EventKey, n: nat)
    requires n <= |evts|
    ensures NumberOf(evts, k, n).Some? ==> 0 <= NumberOf(evts, k, n).value < n && evts[NumberOf(evts, k, n).value].key == k
    ensures NumberOf(evts, k, n).None? ==> forall i :: 0 <= i < n ==> evts[i].key != k
  {
    if n > 0 { NumberOfExactly(evts, k, n - 1); }
  }

  /** Each cluster's member numbers, or None when a merge invented an event. */
  method MemberIndices(rs: seq<ClusterResult>, evts: seq<Event>) returns (out: Option<seq<seq<int>>>)
    ensures out.Some? <==> forall c, e :: 0 <= c < |rs| && e in rs[c].events ==> e.key in Keys(evts)
    ensures out.Some? && UniqueKeys(evts) && DrawnFrom(rs, evts) ==> Numbered(rs, out.value, evts) && out.value == NumbersOf(rs, evts)
  {
    var index: map<EventKey, int> := map[];
    for i := 0 to |evts|
      invariant forall k :: (if k in index then Some(index[k]) else None) == NumberOf(evts, k, i)
    {
      index := index[evts[i].key := i];
    }
    forall k ensures k in index <==> k in Keys(evts) {
      NumberOfExactly(evts, k, |evts|);
      if k in index { InKeys(evts[index[k]], evts); }
    }
    var indices: seq<seq<int>> := [];
    for c := 0 to |rs|
      invariant |indices| == c
      invariant forall d, e :: 0 <= d < c && e in rs[d].events ==> e.key in Keys(evts)
      invariant forall d :: 0 <= d < c ==> |indices[d]| == |rs[d].events|
      invariant forall d, t :: 0 <= d < c && 0 <= t < |rs[d].events| ==>
                  NumberOf(evts, rs[d].events[t].key, |evts|) == Some(indices[d][t])
    {
      var own: seq<int> := [];
      for t := 0 to |rs[c].events|
        invariant |own| == t
        invariant forall u :: 0 <= u < t ==> rs[c].events[u].key in Keys(evts)
        invariant forall u :: 0 <= u < t ==> NumberOf(evts, rs[c].events[u].key, |evts|) == Some(own[u])
      {
        var k := rs[c].events[t].key;
        if k !in index {
          return None;
        }
        own := own + [index[k]];
      }
      indices := indices + [own];
    }
    out := Some(indices);
    if UniqueKeys(evts) && DrawnFrom(rs, evts) {
      forall c, t | 0 <= c < |rs| && 0 <= t < |rs[c].events|
        ensures 0 <= indices[c][t] < |evts| && evts[indices[c][t]] == rs[c].events[t]
      {
        NumberOfExactly(evts, rs[c].events[t].key, |evts|);
        SameKeySameEvent(evts, rs[c].events[t], evts[indices[c][t]]);
      }
      NumberedIs(rs, indices, evts);
    }
  }

  /** What a round's prompt is estimated at: the first prompt, the clusters so far, a quoted refusal. */
  function RoundTokens(w: Wording, userPrompt: nat, s: Round, indices: seq<seq<int>>): nat {
    Tokens(w.omissionSystem + userPrompt + w.omission(s.clusters, indices, s.missing) +
           match s.refusal case None => 0 case Some(r) => w.omissionRefusal + r.0 + r.1)
  }

  /** Each cluster's member numbers. */
  ghost function NumbersOf(rs: seq<ClusterResult>, evts: seq<Event>): (indices: seq<seq<int>>)
    ensures |indices| == |rs|
  {
    seq(|rs|, c requires 0 <= c < |rs| => NumbersIn(rs[c].events, evts))
  }

  ghost function NumbersIn(own: seq<Event>, evts: seq<Event>): (numbers: seq<int>)
    ensures |numbers| == |own|
  {
    seq(|own|, t requires 0 <= t < |own| =>
      var n := NumberOf(evts, own[t].key, |evts|); if n.Some? then n.value else -1)
  }

  /** With no event numbered twice, only one numbering lists the clusters' members. */
  lemma NumberedIs(rs: seq<ClusterResult>, indices: seq<seq<int>>, evts: seq<Event>)
    requires Numbered(rs, indices, evts) && UniqueKeys(evts)
    ensures indices == NumbersOf(rs, evts)
  {
    forall c | 0 <= c < |rs| ensures indices[c] == NumbersIn(rs[c].events, evts) {
      forall t | 0 <= t < |rs[c].events| ensures indices[c][t] == NumbersIn(rs[c].events, evts)[t] {
        NumberOfExactly(evts, rs[c].events[t].key, |evts|);
        assert evts[indices[c][t]] == rs[c].events[t];
      }
    }
  }

  /** The round asked from state s fits the budget. */
  ghost predicate RoundFits(w: Wording, userPrompt: nat, s: Round, evts: seq<Event>, budget: int) {
    RoundTokens(w, userPrompt, s, NumbersOf(s.clusters, evts)) <= budget
  }

  /** Every round was asked for something still missing, within the budget. */
  ghost predicate RoundsAsked(states: seq<Round>, w: Wording, userPrompt: nat, evts: seq<Event>, budget: int) {
    forall r :: 0 <= r < |states| - 1 ==> states[r].missing != [] && RoundFits(w, userPrompt, states[r], evts, budget)
  }

  /** Why the rounds stop short: no answer, no room for one more, or none left to ask. */
  ghost predicate RoundsFail(
    end: Round, replies: Replies, at: nat, rounds: nat, w: Wording, userPrompt: nat, evts: seq<Event>, budget: int,
    maxRounds: int, why: Failure)
  {
    match why
    case CallFailed => rounds > 0 && AllAnswer(replies, at, at + rounds - 1) && replies(at + rounds - 1).NoAnswer?
    case EventsUnplaced => rounds == AtLeastZero(maxRounds) && AllAnswer(replies, at, at + rounds)
    case ReaskOverBudget =>
      && rounds < AtLeastZero(maxRounds) && AllAnswer(replies, at, at + rounds)
      && !RoundFits(w, userPrompt, end, evts, budget)
    case _ => false
  }

  /** The omission rounds end: with clusters that leave nothing out, or with why they stopped short. */
  ghost predicate RoundsEnd(
    states: seq<Round>, replies: Replies, at: nat, w: Wording, userPrompt: nat, evts: seq<Event>, budget: int,
    maxRounds: int, out: Outcome<seq<ClusterResult>>)
  {
    && 0 < |states| <= AtLeastZero(maxRounds) + 1
    && RoundsAsked(states, w, userPrompt, evts, budget)
    && var end, rounds := states[|states| - 1], |states| - 1;
       match out
       case Done(rs) => rs == end.clusters && end.missing == [] && AllAnswer(replies, at, at + rounds)
       case Failed(why) => end.missing != [] && RoundsFail(end, replies, at, rounds, w, userPrompt, evts, budget, maxRounds, why)
  }

  /** Rounds asked and answered, with something still missing. */
  ghost predicate Underway(
    states: seq<Round>, start: Round, replies: Replies, at: nat, w: Wording, userPrompt: nat, evts: seq<Event>, budget: int)
  {
    && Chain(states, start, replies, at, evts) && states[|states| - 1].missing != []
    && RoundsAsked(states, w, userPrompt, evts, budget) && AllAnswer(replies, at, at + |states| - 1)
  }

  /** A reply merged if it is accepted, and otherwise only its refusal noted. */
  method TakeReply(s: Round, reply: Reply, evts: seq<Event>) returns (s': Round)
    requires reply.Answer?
    ensures s' == AfterReply(s, reply, evts)
    ensures s'.refusal.Some? ==> s'.missing == s.missing && s'.clusters == s.clusters
  {
    var merge := MergeReaskResponse(reply.body, evts, s.clusters, s.missing);
    if merge.None? {
      s' := s.(refusal := Some((reply.size, reply.reasonSize)));
    } else {
      s' := Round(merge.value.clusters, merge.value.missing, None);
    }
  }

  /** The state after one more reply, drawn from the numbered events like the ones before. */
  method NextRound(ghost states: seq<Round>, ghost start: Round, replies: Replies, ghost at: nat, next: nat, s: Round,
                   evts: seq<Event>, ghost n: nat)
    returns (s': Round)
    requires Chain(states, start, replies, at, evts) && s == states[|states| - 1] && next == at + |states| - 1
    requires Settled(start, evts, n) && UniqueKeys(evts) && n <= |evts|
    ensures Chain(states + [s'], start, replies, at, evts) && DrawnFrom(s'.clusters, evts)
    ensures s'.refusal.Some? || replies(next).NoAnswer? ==> s'.missing == s.missing && s'.clusters == s.clusters
  {
    if replies(next).NoAnswer? {
      s' := s;
    } else {
      s' := TakeReply(s, replies(next), evts);
    }
    ChainMore(states, start, replies, at, evts, s');
    RoundsSettled(states + [s'], start, replies, at, evts, n);
  }

  method Renumber(rs: seq<ClusterResult>, evts: seq<Event>) returns (out: Option<seq<seq<int>>>)
    requires DrawnFrom(rs, evts) && UniqueKeys(evts)
    ensures out == Some(NumbersOf(rs, evts))
  {
    AlwaysNumbered(rs, evts);
    out := MemberIndices(rs, evts);
  }

  /**
   * Up to maxRounds rounds. Success only when nothing is missing; otherwise an error and no
   * clusters. Rounds stop early only when nothing is missing, no answer comes, or one more
   * would not fit the budget. `states` is what each reply left.
   */
  method RecoverOmittedEvents(replies: Replies, at: nat, w: Wording, userPrompt: nat, budget: int, maxRounds: int,
                              evts: seq<Event>, n: nat, first: seq<ClusterResult>, firstIndices: seq<seq<int>>, omitted: seq<int>)
    returns (out: Outcome<seq<ClusterResult>>, stats: Stats, next: nat, ghost states: seq<Round>)
    requires UniqueKeys(evts) && n <= |evts| && omitted != []
    requires Settled(Round(first, omitted, None), evts, n) && Numbered(first, firstIndices, evts)
    ensures next == at + stats.omissionReasks && stats.omissionReasks <= AtLeastZero(maxRounds)
    ensures stats == NOTHING.(calls := stats.calls, omissionReasks := stats.omissionReasks, omitted := |omitted|, recovered := stats.recovered)
    ensures stats.calls == if out == Failed(CallFailed) then stats.omissionReasks - 1 else stats.omissionReasks
    ensures Chain(states, Round(first, omitted, None), replies, at, evts) && |states| == stats.omissionReasks + 1
    ensures RoundsEnd(states, replies, at, w, userPrompt, evts, budget, maxRounds, out)
    ensures stats.recovered == |omitted| - |states[|states| - 1].missing|
  {
    stats := NOTHING.(omitted := |omitted|);
    next := at;
    var s := Round(first, omitted, None);
    ghost var start := s;
    states := [s];
    if maxRounds <= 0 {
      return Failed(EventsUnplaced), stats, next, states;
    }
    var indices := firstIndices;
    NumberedIs(first, firstIndices, evts);
    for number := 1 to maxRounds + 1
      invariant |states| == number && s == states[number - 1] && Underway(states, start, replies, at, w, userPrompt, evts, budget)
      invariant indices == NumbersOf(s.clusters, evts)
      invariant next == at + number - 1
      invariant stats == NOTHING.(calls := number - 1, omissionReasks := number - 1, omitted := |omitted|,
                                  recovered := |omitted| - |s.missing|)
    {
      if RoundTokens(w, userPrompt, s, indices) > budget {
        return Failed(ReaskOverBudget), stats, next, states;
      }
      stats := stats.(omissionReasks := stats.omissionReasks + 1);
      var reply := replies(next);
      s := NextRound(states, start, replies, at, next, s, evts, n);
      states := states + [s];
      next := next + 1;
      if reply.NoAnswer? {
        return Failed(CallFailed), stats, next, states;
      }
      stats := stats.(calls := stats.calls + 1);
      if s.refusal.Some? {
        continue;
      }
      var renumbered := Renumber(s.clusters, evts);
      if renumbered.None? {
        return Failed(NotNumbered), stats, next, states;
      }
      indices := renumbered.value;
      stats := stats.(recovered := |omitted| - |s.missing|);
      if s.missing == [] {
        return Done(s.clusters), stats, next, states;
      }
    }
    return Failed(EventsUnplaced), stats, next, states;
  }

  /** A merge never invents an event, so renumbering never fails. */
  lemma AlwaysNumbered(rs: seq<ClusterResult>, evts: seq<Event>)
    requires DrawnFrom(rs, evts)
    ensures forall c, e :: 0 <= c < |rs| && e in rs[c].events ==> e.key in Keys(evts)
  {
    forall c, e | 0 <= c < |rs| && e in rs[c].events ensures e.key in Keys(evts) {
      InKeys(e, evts);
    }
  }
}
