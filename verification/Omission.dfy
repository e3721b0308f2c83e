/** The omission rounds: asking again, and only, for the in-window events a reply left in no cluster. */
module Omission {
  import opened Events
  import opened Clusters
  import opened Regrouping
  import opened Oracle
  import opened Parsing

  /** r with an item's events joined to it, at the item's own confidence. */
  function JoinCluster(r: ClusterResult, p: Placement, summary: string): ClusterResult {
    var joined := Absorb(r, p.members, p.context, Flat(p.confidence));
    if summary != "" then joined.(summary := summary) else joined
  }

  /** The first cluster from i on extending id, or |rs|. */
  function Extending(rs: seq<ClusterResult>, id: int, i: nat): (at: nat)
    requires i <= |rs|
    ensures i <= at <= |rs|
    ensures at < |rs| ==> rs[at].ExtendsID(id)
    ensures forall j :: i <= j < at ==> !rs[j].ExtendsID(id)
    decreases |rs| - i
  {
    if i == |rs| || rs[i].ExtendsID(id) then i else Extending(rs, id, i + 1)
  }

  /** The item names no event but the ones the round asked for. */
  predicate OnlyOmitted(item: Item, omitted: seq<int>) {
    forall t :: 0 <= t < |item.eventIndices| ==> item.eventIndices[t] in omitted
  }

  /** The item names a place: a cluster the first reply made, a stored narrative, or a new cluster. */
  predicate NamesPlace(item: Item, firstLen: nat) {
    match item.kind
    case "earlier" => item.position.Some? && 0 <= item.position.value < firstLen
    case "extends" => true
    case "new" => true
    case _ => false
  }

  predicate Accepted(item: Item, n: nat, firstLen: nat, omitted: seq<int>) {
    OnlyOmitted(item, omitted) && Readable(item, n) && NamesPlace(item, firstLen)
  }

  /** The position the item's events go to: |merged| for a cluster of their own. */
  function PlaceFor(merged: seq<ClusterResult>, item: Item): (at: nat)
    requires item.kind == "earlier" ==> item.position.Some? && 0 <= item.position.value < |merged|
    ensures at <= |merged|
  {
    if item.kind == "earlier" then item.position.value
    else if item.kind == "extends" then Extending(merged, item.narrativeID, 0)
    else |merged|
  }

  /** The clusters after one accepted item. */
  function Placed1(merged: seq<ClusterResult>, item: Item, evts: seq<Event>): seq<ClusterResult>
    requires Readable(item, |evts|)
    requires item.kind == "earlier" ==> item.position.Some? && 0 <= item.position.value < |merged|
  {
    var at := PlaceFor(merged, item);
    if at < |merged| then merged[at := JoinCluster(merged[at], Resolved(item, evts), item.summary)]
    else merged + [NewPlace(item, evts)]
  }

  /** A cluster of the item's own. */
  function NewPlace(item: Item, evts: seq<Event>): ClusterResult
    requires Readable(item, |evts|)
  {
    var p := Resolved(item, evts);
    ClusterResult(if item.kind == "extends" then Extends else New, if item.kind == "extends" then item.narrativeID else 0,
                  item.title, item.summary, p.members, p.context, p.confidence, map[])
  }

  predicate AllAccepted(items: seq<Item>, n: nat, firstLen: nat, omitted: seq<int>) {
    forall t :: 0 <= t < |items| ==> Accepted(items[t], n, firstLen, omitted)
  }

  /** The clusters after every item of an accepted reply, in order. */
  function PlacedAll(first: seq<ClusterResult>, items: seq<Item>, evts: seq<Event>, omitted: seq<int>): (merged: seq<ClusterResult>)
    requires AllAccepted(items, |evts|, |first|, omitted)
    ensures |merged| >= |first|
  {
    if items == [] then first
    else
      assert forall t :: 0 <= t < |items| - 1 ==> items[..|items| - 1][t] == items[t];
      Placed1(PlacedAll(first, items[..|items| - 1], evts, omitted), items[|items| - 1], evts)
  }

  predicate Mentions(items: seq<Item>, i: int) {
    exists t :: 0 <= t < |items| && i in items[t].eventIndices
  }

  /** Those of `omitted` no item places. */
  function StillMissing(items: seq<Item>, omitted: seq<int>): seq<int> {
    if omitted == [] then []
    else
      var before, i := StillMissing(items, omitted[..|omitted| - 1]), omitted[|omitted| - 1];
      if Mentions(items, i) then before else before + [i]
  }

  /** What a round answers: the merged clusters and what is still missing. */
  datatype Merge = Merge(clusters: seq<ClusterResult>, missing: seq<int>)

  /** A round's reply is merged whole or not at all. */
  function MergeOf(body: Body, evts: seq<Event>, first: seq<ClusterResult>, omitted: seq<int>): Option<Merge> {
    if body.Items? && AllAccepted(body.items, |evts|, |first|, omitted) then
      Some(Merge(PlacedAll(first, body.items, evts, omitted), StillMissing(body.items, omitted)))
    else None
  }

  method PlaceReaskItem(merged: seq<ClusterResult>, firstLen: nat, item: Item, p: Placement, ghost evts: seq<Event>)
    returns (out: Option<seq<ClusterResult>>)
    requires firstLen <= |merged| && Readable(item, |evts|) && p == Resolved(item, evts)
    ensures out == if NamesPlace(item, firstLen) then Some(Placed1(merged, item, evts)) else None
  {
    match item.kind
    case "earlier" =>
      if item.position.None? || item.position.value < 0 || item.position.value >= firstLen {
        return None;
      }
      var joined := JoinClusterInto(merged[item.position.value], p, item.summary);
      return Some(merged[item.position.value := joined]);
    case "extends" =>
      for i := 0 to |merged|
        invariant Extending(merged, item.narrativeID, 0) == Extending(merged, item.narrativeID, i)
      {
        if merged[i].ExtendsID(item.narrativeID) {
          var joined := JoinClusterInto(merged[i], p, item.summary);
          return Some(merged[i := joined]);
        }
      }
      return Some(merged + [ClusterResult(Extends, item.narrativeID, item.title, item.summary, p.members, p.context, p.confidence, map[])]);
    case "new" =>
      return Some(merged + [ClusterResult(New, 0, item.title, item.summary, p.members, p.context, p.confidence, map[])]);
    case _ =>
      return None;
  }

  method JoinClusterInto(r: ClusterResult, p: Placement, summary: string) returns (joined: ClusterResult)
    ensures joined == JoinCluster(r, p, summary)
  {
    joined := AbsorbInto(r, p.members, p.context, Flat(p.confidence));
    if summary != "" {
      joined := joined.(summary := summary);
    }
  }

  method RequireOmitted(indices: seq<int>, omitted: seq<int>, n: nat) returns (ok: bool)
    ensures ok <==> InRange(indices, n) && forall t :: 0 <= t < |indices| ==> indices[t] in omitted
  {
    for t := 0 to |indices|
      invariant InRange(indices[..t], n) && forall u :: 0 <= u < t ==> indices[u] in omitted
    {
      if indices[t] < 0 || indices[t] >= n || indices[t] !in omitted {
        return false;
      }
    }
    assert indices[..|indices|] == indices;
    return true;
  }

  /** One item of a round's reply, placed, or None when it is refused. */
  method MergeItem(merged: seq<ClusterResult>, firstLen: nat, item: Item, evts: seq<Event>, omitted: seq<int>)
    returns (out: Option<seq<ClusterResult>>)
    requires firstLen <= |merged|
    ensures out == if Accepted(item, |evts|, firstLen, omitted) then Some(Placed1(merged, item, evts)) else None
  {
    var asked := RequireOmitted(item.eventIndices, omitted, |evts|);
    if !asked {
      return None;
    }
    var p := ResolvePlacement(item, evts);
    if p.None? {
      return None;
    }
    out := PlaceReaskItem(merged, firstLen, item, p.value, evts);
  }

  method MergeReaskResponse(body: Body, evts: seq<Event>, first: seq<ClusterResult>, omitted: seq<int>)
    returns (out: Option<Merge>)
    ensures out == MergeOf(body, evts, first, omitted)
  {
    if !body.Items? {
      return None;
    }
    var items := body.items;
    var merged := first;
    var homed: set<int> := {};
    for t := 0 to |items|
      invariant AllAccepted(items[..t], |evts|, |first|, omitted)
      invariant merged == PlacedAll(first, items[..t], evts, omitted)
      invariant forall i :: i in homed <==> Mentions(items[..t], i)
    {
      var next := MergeItem(merged, |first|, items[t], evts, omitted);
      if next.None? {
        NotAccepted(items, t, |evts|, |first|, omitted);
        return None;
      }
      AcceptedMore(items, t, |evts|, |first|, omitted);
      PlacedAllMore(first, items, t, evts, omitted);
      MentionsMore(items, t);
      merged := next.value;
      homed := homed + (set i | i in items[t].eventIndices);
    }
    assert items[..|items|] == items;
    var missing := KeepUnhomed(items, omitted, homed);
    return Some(Merge(merged, missing));
  }

  lemma AcceptedMore(items: seq<Item>, t: nat, n: nat, firstLen: nat, omitted: seq<int>)
    requires t < |items| && AllAccepted(items[..t], n, firstLen, omitted) && Accepted(items[t], n, firstLen, omitted)
    ensures AllAccepted(items[..t + 1], n, firstLen, omitted)
  {
    assert items[..t + 1] == items[..t] + [items[t]];
  }

  lemma PlacedAllMore(first: seq<ClusterResult>, items: seq<Item>, t: nat, evts: seq<Event>, omitted: seq<int>)
    requires t < |items| && AllAccepted(items[..t], |evts|, |first|, omitted) && AllAccepted(items[..t + 1], |evts|, |first|, omitted)
    requires Accepted(items[t], |evts|, |first|, omitted)
    ensures PlacedAll(first, items[..t + 1], evts, omitted) == Placed1(PlacedAll(first, items[..t], evts, omitted), items[t], evts)
  {
    assert items[..t + 1][t] == items[t] && items[..t + 1][..t] == items[..t];
  }

  lemma NotAccepted(items: seq<Item>, t: nat, n: nat, firstLen: nat, omitted: seq<int>)
    requires t < |items| && !Accepted(items[t], n, firstLen, omitted)
    ensures !AllAccepted(items, n, firstLen, omitted)
  {
  }

  lemma MentionsMore(items: seq<Item>, t: nat)
    requires t < |items|
    ensures forall i :: Mentions(items[..t + 1], i) <==> Mentions(items[..t], i) || i in items[t].eventIndices
  {
    forall i ensures Mentions(items[..t + 1], i) <==> Mentions(items[..t], i) || i in items[t].eventIndices {
      assert items[..t + 1][t] == items[t];
      if Mentions(items[..t], i) {
        var u :| 0 <= u < t && i in items[..t][u].eventIndices;
        assert items[..t + 1][u] == items[..t][u];
      }
      if Mentions(items[..t + 1], i) {
        var u :| 0 <= u < t + 1 && i in items[..t + 1][u].eventIndices;
        if u < t { assert items[..t][u] == items[u]; }
      }
    }
  }

  method KeepUnhomed(ghost items: seq<Item>, omitted: seq<int>, homed: set<int>) returns (missing: seq<int>)
    requires forall i :: i in homed <==> Mentions(items, i)
    ensures missing == StillMissing(items, omitted)
  {
    missing := [];
    for t := 0 to |omitted|
      invariant missing == StillMissing(items, omitted[..t])
    {
      assert omitted[..t + 1][..t] == omitted[..t];
      if omitted[t] !in homed {
        missing := missing + [omitted[t]];
      }
    }
    assert omitted[..|omitted|] == omitted;
  }
}
