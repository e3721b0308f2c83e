/** Clusters and absorb, the one primitive every path that combines two clusters goes through. */
module Clusters {
  import opened Events

  datatype ClusterKind = New | Extends

  /**
   * One narrative-shaped grouping. `events` are its members, its work; `context` is
   * background that is some other cluster's work. `overrides` holds the confidence of the
   * members placed by a separate judgment; every other member was placed at `confidence`.
   * `narrativeID` means something only on an Extends.
   */
  datatype ClusterResult = ClusterResult(
    kind: ClusterKind,
    narrativeID: int,
    title: string,
    summary: string,
    events: seq<Event>,
    context: seq<Event>,
    confidence: real,
    overrides: map<EventKey, real>)
  {
    function ConfidenceOf(k: EventKey): real {
      if k in overrides then overrides[k] else confidence
    }

    predicate Holds(k: EventKey) {
      k in Keys(events)
    }

    predicate ExtendsID(id: int) {
      kind == Extends && narrativeID == id
    }
  }

  /** The confidence a merge reads for each member it takes: one for all, or a cluster's own. */
  datatype Stated = Flat(confidence: real) | By(result: ClusterResult)
  {
    function At(k: EventKey): real {
      match this
      case Flat(c) => c
      case By(r) => r.ConfidenceOf(k)
    }
  }

  /** A cluster as a report names it: by narrative when it extends one, by title when it is new. */
  datatype Label = Narrative(id: int) | Titled(title: string)

  function LabelOf(r: ClusterResult): Label {
    if r.kind == Extends then Narrative(r.narrativeID) else Titled(r.title)
  }

  predicate InUnit(c: real) {
    0.0 <= c <= 1.0
  }

  /**
   * What every cluster of a pass is at every point: each event placed once, as a member or
   * as context; overrides only for members; every confidence in [0, 1].
   */
  ghost predicate WellFormed(r: ClusterResult) {
    && UniqueKeys(r.events)
    && UniqueKeys(r.context)
    && Keys(r.events) !! Keys(r.context)
    && r.overrides.Keys <= Keys(r.events)
    && InUnit(r.confidence)
    && (forall k :: k in r.overrides ==> InUnit(r.overrides[k]))
  }

  ghost predicate AllWellFormed(rs: seq<ClusterResult>) {
    forall i :: 0 <= i < |rs| ==> WellFormed(rs[i])
  }

  /** The events of `src` whose identity is not in `seen`, first occurrences only, in order. */
  function Unseen(seen: set<EventKey>, src: seq<Event>): seq<Event>
    decreases |src|
  {
    if src == [] then []
    else if src[0].key in seen then Unseen(seen, src[1..])
    else [src[0]] + Unseen(seen + {src[0].key}, src[1..])
  }

  /** Passing over one more event of `src`, taken or not. */
  lemma UnseenStep(seen: set<EventKey>, src: seq<Event>, i: nat)
    requires i < |src|
    ensures Unseen(seen, src[i..]) ==
            if src[i].key in seen then Unseen(seen, src[i + 1..])
            else [src[i]] + Unseen(seen + {src[i].key}, src[i + 1..])
  {
    assert src[i..][1..] == src[i + 1..];
  }

  /** dst's overrides after taking `added`: one for each member stated at another confidence. */
  function Overridden(dst: ClusterResult, added: seq<Event>, stated: Stated): map<EventKey, real> {
    if added == [] then dst.overrides
    else
      var last := added[|added| - 1];
      var before := Overridden(dst, added[..|added| - 1], stated);
      if stated.At(last.key) != dst.confidence then before[last.key := stated.At(last.key)] else before
  }

  /** dst after taking src's members and context. */
  function Absorb(dst: ClusterResult, srcEvents: seq<Event>, srcContext: seq<Event>, stated: Stated): ClusterResult {
    var added := Unseen(Keys(dst.events), srcEvents);
    dst.(events := dst.events + added,
         overrides := Overridden(dst, added, stated),
         context := Unseen(Keys(dst.events + added), dst.context + srcContext))
  }

  method AbsorbInto(dst: ClusterResult, srcEvents: seq<Event>, srcContext: seq<Event>, stated: Stated)
    returns (r: ClusterResult)
    ensures r == Absorb(dst, srcEvents, srcContext, stated)
  {
    var members: set<EventKey> := {};
    for i := 0 to |dst.events|
      invariant members == Keys(dst.events[..i])
    {
      KeysConcat(dst.events[..i], [dst.events[i]]);
      assert dst.events[..i + 1] == dst.events[..i] + [dst.events[i]];
      members := members + {dst.events[i].key};
    }
    assert dst.events[..|dst.events|] == dst.events;

    var added, overrides := TakeMembers(dst, members, srcEvents, stated);
    KeysConcat(dst.events, added);
    UnseenExactly(members, srcEvents);
    members := members + Keys(added);

    var context := TakeContext(members, dst.context + srcContext);
    r := dst.(events := dst.events + added, overrides := overrides, context := context);
  }

  /** Passing over one more event, taken with its confidence or not. */
  lemma TakeStep(
    dst: ClusterResult, held: set<EventKey>, src: seq<Event>, stated: Stated, i: nat, members: set<EventKey>, added: seq<Event>)
    requires i < |src| && Unseen(held, src) == added + Unseen(members, src[i..])
    ensures src[i].key in members ==> Unseen(held, src) == added + Unseen(members, src[i + 1..])
    ensures src[i].key !in members ==>
              && Unseen(held, src) == (added + [src[i]]) + Unseen(members + {src[i].key}, src[i + 1..])
              && Overridden(dst, added + [src[i]], stated) ==
                 if stated.At(src[i].key) != dst.confidence
                 then Overridden(dst, added, stated)[src[i].key := stated.At(src[i].key)] else Overridden(dst, added, stated)
  {
    UnseenStep(members, src, i);
    assert (added + [src[i]])[..|added|] == added;
  }

  method TakeMembers(dst: ClusterResult, held: set<EventKey>, srcEvents: seq<Event>, stated: Stated)
    returns (added: seq<Event>, overrides: map<EventKey, real>)
    ensures added == Unseen(held, srcEvents)
    ensures overrides == Overridden(dst, added, stated)
  {
    added := [];
    overrides := dst.overrides;
    var members := held;
    assert srcEvents[0..] == srcEvents;
    for i := 0 to |srcEvents|
      invariant Unseen(held, srcEvents) == added + Unseen(members, srcEvents[i..])
      invariant overrides == Overridden(dst, added, stated)
    {
      var e := srcEvents[i];
      TakeStep(dst, held, srcEvents, stated, i, members, added);
      if e.key !in members {
        members := members + {e.key};
        added := added + [e];
        if stated.At(e.key) != dst.confidence {
          overrides := overrides[e.key := stated.At(e.key)];
        }
      }
    }
  }

  method TakeContext(members: set<EventKey>, candidates: seq<Event>) returns (context: seq<Event>)
    ensures context == Unseen(members, candidates)
  {
    context := [];
    var seen := members;
    assert candidates[0..] == candidates;
    for i := 0 to |candidates|
      invariant Unseen(members, candidates) == context + Unseen(seen, candidates[i..])
    {
      UnseenStep(seen, candidates, i);
      if candidates[i].key !in seen {
        seen := seen + {candidates[i].key};
        context := context + [candidates[i]];
      }
    }
  }

  lemma {:induction false} UnseenExactly(seen: set<EventKey>, src: seq<Event>)
    ensures UniqueKeys(Unseen(seen, src))
    ensures Keys(Unseen(seen, src)) == Keys(src) - seen
    ensures forall e :: e in Unseen(seen, src) ==> e in src
    decreases |src|
  {
    if src != [] {
      var e := src[0];
      var seen' := seen + {e.key};
      KeysConcat([e], src[1..]);
      assert src == [e] + src[1..];
      UnseenExactly(seen, src[1..]);
      UnseenExactly(seen', src[1..]);
      var rest := Unseen(seen', src[1..]);
      KeysConcat([e], rest);
      forall i | 0 <= i < |rest| ensures rest[i].key != e.key {
        InKeys(rest[i], rest);
      }
    }
  }

  lemma {:induction false} OverriddenExactly(dst: ClusterResult, added: seq<Event>, stated: Stated)
    requires UniqueKeys(added) && dst.overrides.Keys !! Keys(added)
    ensures forall k :: k in dst.overrides ==> k in Overridden(dst, added, stated) && Overridden(dst, added, stated)[k] == dst.overrides[k]
    ensures forall k :: k in Overridden(dst, added, stated) && k !in dst.overrides ==>
              k in Keys(added) && Overridden(dst, added, stated)[k] == stated.At(k)
    ensures forall k :: k in Keys(added) && k !in Overridden(dst, added, stated) ==> stated.At(k) == dst.confidence
  {
    if added != [] {
      var n := |added| - 1;
      KeysConcat(added[..n], [added[n]]);
      assert added == added[..n] + [added[n]];
      OverriddenExactly(dst, added[..n], stated);
    }
  }

  /** Absorbing keeps a cluster well formed. */
  lemma AbsorbWellFormed(dst: ClusterResult, srcEvents: seq<Event>, srcContext: seq<Event>, stated: Stated)
    requires WellFormed(dst)
    requires forall k :: InUnit(stated.At(k))
    ensures WellFormed(Absorb(dst, srcEvents, srcContext, stated))
  {
    var added := Unseen(Keys(dst.events), srcEvents);
    UnseenExactly(Keys(dst.events), srcEvents);
    KeysConcat(dst.events, added);
    UnseenExactly(Keys(dst.events + added), dst.context + srcContext);
    OverriddenExactly(dst, added, stated);
    var r := Absorb(dst, srcEvents, srcContext, stated);
    forall i, j | 0 <= i < j < |r.events| ensures r.events[i].key != r.events[j].key {
      if i < |dst.events| <= j {
        InKeys(dst.events[i], dst.events);
        InKeys(added[j - |dst.events|], added);
      }
    }
  }

  /**
   * Absorbing places exactly the events of the two sides: every member of either side is a
   * member, every context event of either side that is not becomes or stays context.
   */
  lemma AbsorbPlaces(dst: ClusterResult, srcEvents: seq<Event>, srcContext: seq<Event>, stated: Stated)
    ensures var r := Absorb(dst, srcEvents, srcContext, stated);
            && Keys(r.events) == Keys(dst.events) + Keys(srcEvents)
            && Keys(r.context) == Keys(dst.context) + Keys(srcContext) - Keys(r.events)
            && dst.events <= r.events
            && (forall e :: e in r.events ==> e in dst.events || e in srcEvents)
            && (forall e :: e in r.context ==> e in dst.context || e in srcContext)
  {
    var added := Unseen(Keys(dst.events), srcEvents);
    UnseenExactly(Keys(dst.events), srcEvents);
    KeysConcat(dst.events, added);
    UnseenExactly(Keys(dst.events + added), dst.context + srcContext);
    KeysConcat(dst.context, srcContext);
  }

  /** No merge restates a judgment: each member keeps the confidence of the first side that held it. */
  lemma AbsorbConfidence(dst: ClusterResult, srcEvents: seq<Event>, srcContext: seq<Event>, stated: Stated, k: EventKey)
    requires WellFormed(dst)
    requires k in Keys(dst.events) + Keys(srcEvents)
    ensures Absorb(dst, srcEvents, srcContext, stated).ConfidenceOf(k) ==
            if dst.Holds(k) then dst.ConfidenceOf(k) else stated.At(k)
  {
    var added := Unseen(Keys(dst.events), srcEvents);
    UnseenExactly(Keys(dst.events), srcEvents);
    OverriddenExactly(dst, added, stated);
  }
}
