/** Reading a clustering reply against the numbered events it was asked about. */
module Parsing {
  import opened Events
  import opened Clusters
  import opened Regrouping
  import opened Oracle

  /** One item's indices resolved: its members and their indices, its context, its confidence. */
  datatype Placement = Placement(members: seq<Event>, indices: seq<int>, context: seq<Event>, confidence: real)

  predicate InRange(idxs: seq<int>, n: nat) {
    forall t :: 0 <= t < |idxs| ==> 0 <= idxs[t] < n
  }

  /** The events at some indices. */
  function EventsAt(evts: seq<Event>, idxs: seq<int>): seq<Event>
    requires InRange(idxs, |evts|)
  {
    seq(|idxs|, t requires 0 <= t < |idxs| => evts[idxs[t]])
  }

  /** The first mention of each index that is not one of `taken`. */
  function Others(taken: seq<int>, idxs: seq<int>): seq<int> {
    if idxs == [] then []
    else
      var before, i := Others(taken, idxs[..|idxs| - 1]), idxs[|idxs| - 1];
      if i in taken || i in before then before else before + [i]
  }

  lemma {:induction false} OthersExactly(taken: seq<int>, idxs: seq<int>)
    ensures forall i :: i in Others(taken, idxs) <==> i in idxs && i !in taken
    ensures forall t, u :: 0 <= t < u < |Others(taken, idxs)| ==> Others(taken, idxs)[t] != Others(taken, idxs)[u]
  {
    if idxs != [] {
      OthersExactly(taken, idxs[..|idxs| - 1]);
      assert idxs == idxs[..|idxs| - 1] + [idxs[|idxs| - 1]];
    }
  }

  lemma MentionsInRange(members: seq<int>, context: seq<int>, n: nat)
    requires InRange(members, n) && InRange(context, n)
    ensures InRange(FirstOccurrences(members), n) && InRange(Others(members, context), n)
  {
    FirstOccurrencesExactly(members);
    OthersExactly(members, context);
    forall t | 0 <= t < |FirstOccurrences(members)| ensures 0 <= FirstOccurrences(members)[t] < n {
      assert FirstOccurrences(members)[t] in FirstOccurrences(members);
    }
    forall t | 0 <= t < |Others(members, context)| ensures 0 <= Others(members, context)[t] < n {
      assert Others(members, context)[t] in Others(members, context);
    }
  }

  /** An item placing members states a confidence for them in [0, 1]. */
  predicate Confident(item: Item) {
    item.eventIndices != [] ==> item.confidence.Some? && InUnit(item.confidence.value)
  }

  /** The item can be read: it states a confidence if it needs one and names only numbered events. */
  predicate Readable(item: Item, n: nat) {
    Confident(item) && InRange(item.eventIndices, n) && InRange(item.contextIndices, n)
  }

  /**
   * An item is refused exactly when it names an event that is not numbered, or places members
   * at no confidence from 0 to 1; one that places none needs no confidence.
   */
  lemma RefusedExactly(item: Item, n: nat)
    ensures !Readable(item, n) <==>
            || (exists i :: (i in item.eventIndices || i in item.contextIndices) && !(0 <= i < n))
            || (item.eventIndices != [] && (item.confidence.None? || !(0.0 <= item.confidence.value <= 1.0)))
  {
    if i :| i in item.eventIndices && !(0 <= i < n) {
      var t :| 0 <= t < |item.eventIndices| && item.eventIndices[t] == i;
    }
    if i :| i in item.contextIndices && !(0 <= i < n) {
      var t :| 0 <= t < |item.contextIndices| && item.contextIndices[t] == i;
    }
    if !InRange(item.eventIndices, n) {
      var t :| 0 <= t < |item.eventIndices| && !(0 <= item.eventIndices[t] < n);
      assert item.eventIndices[t] in item.eventIndices;
    }
    if !InRange(item.contextIndices, n) {
      var t :| 0 <= t < |item.contextIndices| && !(0 <= item.contextIndices[t] < n);
      assert item.contextIndices[t] in item.contextIndices;
    }
  }

  /** What a readable item says. A repeated index counts once, and a member is never also context. */
  function Resolved(item: Item, evts: seq<Event>): Placement
    requires Readable(item, |evts|)
  {
    MentionsInRange(item.eventIndices, item.contextIndices, |evts|);
    var members := FirstOccurrences(item.eventIndices);
    var context := Others(item.eventIndices, item.contextIndices);
    Placement(EventsAt(evts, members), members, EventsAt(evts, context),
              if item.eventIndices == [] then 0.0 else item.confidence.value)
  }

  method ResolvePlacement(item: Item, evts: seq<Event>) returns (p: Option<Placement>)
    ensures p == if Readable(item, |evts|) then Some(Resolved(item, evts)) else None
  {
    var confidence := 0.0;
    if item.eventIndices != [] {
      if item.confidence.None? || item.confidence.value < 0.0 || item.confidence.value > 1.0 {
        return None;
      }
      confidence := item.confidence.value;
    }
    var indices := ReadIndices([], item.eventIndices, |evts|);
    if indices.None? {
      return None;
    }
    var named := ReadIndices(item.eventIndices, item.contextIndices, |evts|);
    if named.None? {
      return None;
    }
    MentionsInRange(item.eventIndices, item.contextIndices, |evts|);
    OthersFromNone(item.eventIndices);
    return Some(Placement(EventsAt(evts, indices.value), indices.value, EventsAt(evts, named.value), confidence));
  }

  /** The first mention of each index not taken, or None when one is out of range. */
  method ReadIndices(taken: seq<int>, idxs: seq<int>, n: nat) returns (out: Option<seq<int>>)
    ensures out == if InRange(idxs, n) then Some(Others(taken, idxs)) else None
  {
    var kept: seq<int> := [];
    for t := 0 to |idxs|
      invariant InRange(idxs[..t], n)
      invariant kept == Others(taken, idxs[..t])
    {
      assert idxs[..t + 1][..t] == idxs[..t];
      if idxs[t] < 0 || idxs[t] >= n {
        return None;
      }
      if idxs[t] !in taken && idxs[t] !in kept {
        kept := kept + [idxs[t]];
      }
    }
    assert idxs[..|idxs|] == idxs;
    return Some(kept);
  }

  lemma {:induction false} OthersUpTo(idxs: seq<int>, n: nat)
    requires n <= |idxs|
    ensures Others([], idxs[..n]) == FirstUpTo(idxs, n)
  {
    if n > 0 {
      OthersUpTo(idxs, n - 1);
      assert idxs[..n][..n - 1] == idxs[..n - 1];
    }
  }

  lemma OthersFromNone(idxs: seq<int>)
    ensures Others([], idxs) == FirstOccurrences(idxs)
  {
    OthersUpTo(idxs, |idxs|);
    assert idxs[..|idxs|] == idxs;
  }

  /**
   * What a resolved item says: its members are exactly the events it names, each once; its
   * context the others it names as such; its confidence the one it states.
   */
  lemma ResolvedExactly(item: Item, evts: seq<Event>)
    requires Readable(item, |evts|) && UniqueKeys(evts)
    ensures var p := Resolved(item, evts);
            && InUnit(p.confidence)
            && UniqueKeys(p.members) && UniqueKeys(p.context) && Keys(p.members) !! Keys(p.context)
            && (forall e :: e in p.members || e in p.context ==> e in evts)
            && (forall i :: 0 <= i < |evts| ==> (evts[i].key in Keys(p.members) <==> i in item.eventIndices))
            && (forall i :: 0 <= i < |evts| ==>
                 (evts[i].key in Keys(p.context) <==> i in item.contextIndices && i !in item.eventIndices))
            && (item.eventIndices != [] ==> item.confidence == Some(p.confidence))
            && (forall i :: i in p.indices <==> i in item.eventIndices)
            && InRange(p.indices, |evts|) && p.members == EventsAt(evts, p.indices)
  {
    var p := Resolved(item, evts);
    MentionsInRange(item.eventIndices, item.contextIndices, |evts|);
    FirstOccurrencesExactly(item.eventIndices);
    OthersExactly(item.eventIndices, item.contextIndices);
    KeysAt(evts, p.indices);
    KeysAt(evts, Others(item.eventIndices, item.contextIndices));
  }

  /** The identities of the events at some indices, when no identity is numbered twice. */
  lemma KeysAt(evts: seq<Event>, idxs: seq<int>)
    requires UniqueKeys(evts) && InRange(idxs, |evts|)
    requires forall t, u :: 0 <= t < u < |idxs| ==> idxs[t] != idxs[u]
    ensures UniqueKeys(EventsAt(evts, idxs))
    ensures forall i :: 0 <= i < |evts| ==> (evts[i].key in Keys(EventsAt(evts, idxs)) <==> i in idxs)
    ensures forall k :: k in Keys(EventsAt(evts, idxs)) ==> exists i :: 0 <= i < |evts| && i in idxs && evts[i].key == k
  {
    var es := EventsAt(evts, idxs);
    forall i | 0 <= i < |evts| ensures evts[i].key in Keys(es) <==> i in idxs {
      if i in idxs {
        var t :| 0 <= t < |idxs| && idxs[t] == i;
        InKeys(es[t], es);
      }
      if evts[i].key in Keys(es) {
        var e :| e in es && e.key == evts[i].key;
        var t :| 0 <= t < |es| && es[t] == e;
        assert evts[idxs[t]] == e;
      }
    }
    forall k | k in Keys(es) ensures exists i :: 0 <= i < |evts| && i in idxs && evts[i].key == k {
      var e :| e in es && e.key == k;
      var t :| 0 <= t < |es| && es[t] == e;
      assert idxs[t] in idxs;
    }
  }

  /** An accepted reply: its clusters and each one's member indices. */
  datatype Parsed = Parsed(results: seq<ClusterResult>, indices: seq<seq<int>>)

  predicate KnownKind(item: Item) {
    item.kind == "new" || item.kind == "extends"
  }

  /** Every item can be read and says what it is. */
  predicate Acceptable(items: seq<Item>, n: nat) {
    forall t :: 0 <= t < |items| ==> KnownKind(items[t]) && Readable(items[t], n)
  }

  /** The cluster an item describes. */
  function ClusterOf(item: Item, evts: seq<Event>): ClusterResult
    requires Readable(item, |evts|)
  {
    var p := Resolved(item, evts);
    ClusterResult(if item.kind == "extends" then Extends else New, item.narrativeID, item.title, item.summary,
                  p.members, p.context, p.confidence, map[])
  }

  function ParsedOf(items: seq<Item>, evts: seq<Event>): Parsed
    requires Acceptable(items, |evts|)
  {
    Parsed(seq(|items|, t requires 0 <= t < |items| => ClusterOf(items[t], evts)),
           seq(|items|, t requires 0 <= t < |items| => Resolved(items[t], evts).indices))
  }

  /** The clusters of a reply, or None when any item is malformed: never a partial reading. */
  method ParseClusterResponse(body: Body, evts: seq<Event>) returns (parsed: Option<Parsed>)
    ensures parsed == if body.Items? && Acceptable(body.items, |evts|) then Some(ParsedOf(body.items, evts)) else None
  {
    if !body.Items? {
      return None;
    }
    var results: seq<ClusterResult>, indices: seq<seq<int>> := [], [];
    for t := 0 to |body.items|
      invariant |results| == |indices| == t && Acceptable(body.items[..t], |evts|)
      invariant forall u :: 0 <= u < t ==> Readable(body.items[u], |evts|)
      invariant forall u :: 0 <= u < t ==> results[u] == ClusterOf(body.items[u], evts)
      invariant forall u :: 0 <= u < t ==> indices[u] == Resolved(body.items[u], evts).indices
    {
      var item := body.items[t];
      if item.kind != "new" && item.kind != "extends" {
        return None;
      }
      var p := ResolvePlacement(item, evts);
      if p.None? {
        return None;
      }
      var kind := if item.kind == "extends" then Extends else New;
      results := results + [ClusterResult(kind, item.narrativeID, item.title, item.summary,
                                          p.value.members, p.value.context, p.value.confidence, map[])];
      indices := indices + [p.value.indices];
    }
    assert body.items[..|body.items|] == body.items;
    assert results == ParsedOf(body.items, evts).results;
    assert indices == ParsedOf(body.items, evts).indices;
    return Some(Parsed(results, indices));
  }

  /** indices[c] are the numbers of cluster c's members. */
  ghost predicate Numbered(rs: seq<ClusterResult>, indices: seq<seq<int>>, evts: seq<Event>) {
    && |indices| == |rs|
    && (forall c :: 0 <= c < |rs| ==> InRange(indices[c], |evts|) && rs[c].events == EventsAt(evts, indices[c]))
  }

  /** The cluster says what the item says: its kind and words, and the events it names, at the confidence it states. */
  ghost predicate SaysWhat(r: ClusterResult, item: Item, evts: seq<Event>) {
    && (r.kind == Extends <==> item.kind == "extends") && r.title == item.title && r.summary == item.summary
    && (r.kind == Extends ==> r.narrativeID == item.narrativeID)
    && (forall i :: 0 <= i < |evts| ==> (r.Holds(evts[i].key) <==> i in item.eventIndices))
    && (forall i :: 0 <= i < |evts| ==> (evts[i].key in Keys(r.context) <==> i in item.contextIndices && i !in item.eventIndices))
    && (forall i :: 0 <= i < |evts| && i in item.eventIndices ==> item.confidence == Some(r.ConfidenceOf(evts[i].key)))
  }

  /** An accepted reply's clusters say what its items say, are well formed, of the numbered events, and numbered as listed. */
  lemma ParsedExactly(items: seq<Item>, evts: seq<Event>)
    requires Acceptable(items, |evts|) && UniqueKeys(evts)
    ensures var p := ParsedOf(items, evts);
            && AllWellFormed(p.results) && DrawnFrom(p.results, evts) && Numbered(p.results, p.indices, evts)
            && |p.results| == |items| && (forall c :: 0 <= c < |items| ==> SaysWhat(p.results[c], items[c], evts))
  {
    forall c | 0 <= c < |items|
      ensures var p := ParsedOf(items, evts);
              && WellFormed(p.results[c]) && SaysWhat(p.results[c], items[c], evts)
              && (forall e :: e in p.results[c].events || e in p.results[c].context ==> e in evts)
              && InRange(p.indices[c], |evts|) && p.results[c].events == EventsAt(evts, p.indices[c])
    {
      ResolvedExactly(items[c], evts);
    }
  }

  /** The reply extends no narrative twice. */
  ghost predicate ItemsExtendOnce(items: seq<Item>) {
    forall t, u :: 0 <= t < u < |items| && items[t].kind == "extends" && items[u].kind == "extends" ==>
      items[t].narrativeID != items[u].narrativeID
  }

  lemma ParsedExtendsOnce(items: seq<Item>, evts: seq<Event>)
    requires Acceptable(items, |evts|) && ItemsExtendOnce(items)
    ensures ExtendsOnce(ParsedOf(items, evts).results)
  {
  }

  /** The model never extends one narrative twice in one reply. */
  ghost predicate RepliesExtendOnce(replies: Replies) {
    forall n: nat :: replies(n).Answer? && replies(n).body.Items? ==> ItemsExtendOnce(replies(n).body.items)
  }

  /** Some cluster lists index i. */
  predicate Listed(indices: seq<seq<int>>, i: int) {
    exists c :: 0 <= c < |indices| && i in indices[c]
  }

  /** The indices below n that no cluster lists, ascending. */
  function Unlisted(indices: seq<seq<int>>, n: nat): seq<int> {
    if n == 0 then []
    else if Listed(indices, n - 1) then Unlisted(indices, n - 1)
    else Unlisted(indices, n - 1) + [n - 1]
  }

  lemma {:induction false} UnlistedExactly(indices: seq<seq<int>>, n: nat)
    ensures forall i :: i in Unlisted(indices, n) <==> 0 <= i < n && !Listed(indices, i)
  {
    if n > 0 { UnlistedExactly(indices, n - 1); }
  }

  /** The in-window events, numbered first, that the reply left in no cluster. */
  method UnassignedIndices(indices: seq<seq<int>>, n: nat) returns (out: seq<int>)
    requires forall c, t :: 0 <= c < |indices| && 0 <= t < |indices[c]| ==> indices[c][t] >= 0
    ensures out == Unlisted(indices, n)
  {
    var homed := new bool[n](_ => false);
    for c := 0 to |indices|
      invariant forall i :: 0 <= i < n ==> homed[i] == Listed(indices[..c], i)
    {
      for t := 0 to |indices[c]|
        invariant forall i :: 0 <= i < n ==> homed[i] == (Listed(indices[..c], i) || i in indices[c][..t])
      {
        if indices[c][t] < n {
          homed[indices[c][t]] := true;
        }
      }
      forall i | 0 <= i < n ensures Listed(indices[..c + 1], i) == (Listed(indices[..c], i) || i in indices[c]) {
        assert indices[..c + 1] == indices[..c] + [indices[c]];
        if i in indices[c] { assert indices[..c + 1][c] == indices[c]; }
        if Listed(indices[..c], i) {
          var d :| 0 <= d < c && i in indices[..c][d];
          assert indices[..c + 1][d] == indices[d];
        }
      }
      assert indices[c][..|indices[c]|] == indices[c];
    }
    assert indices[..|indices|] == indices;
    out := [];
    for i := 0 to n
      invariant out == Unlisted(indices, i)
    {
      if !homed[i] {
        out := out + [i];
      }
    }
  }

  /** A numbered event is listed exactly when some cluster holds it as a member. */
  lemma ListedIsPlaced(rs: seq<ClusterResult>, indices: seq<seq<int>>, evts: seq<Event>, i: nat)
    requires Numbered(rs, indices, evts) && UniqueKeys(evts) && i < |evts|
    ensures Listed(indices, i) <==> Placed(rs, evts[i].key)
  {
    if Listed(indices, i) {
      var c :| 0 <= c < |indices| && i in indices[c];
      var t :| 0 <= t < |indices[c]| && indices[c][t] == i;
      InKeys(rs[c].events[t], rs[c].events);
      assert rs[c].Holds(evts[i].key);
    }
    if c :| 0 <= c < |rs| && rs[c].Holds(evts[i].key) {
      var e :| e in rs[c].events && e.key == evts[i].key;
      var t :| 0 <= t < |rs[c].events| && rs[c].events[t] == e;
      assert evts[indices[c][t]] == e;
      assert indices[c][t] == i;
    }
  }
}
