/**
 * Combining clusters without losing or inventing a placement: what a seam merge and the
 * pull-request join have in common, and what follows from it alone.
 */
module Regrouping {
  import opened Events
  import opened Clusters

  /** Some cluster of `rs` holds k as a member. */
  ghost predicate Placed(rs: seq<ClusterResult>, k: EventKey) {
    exists i :: 0 <= i < |rs| && rs[i].Holds(k)
  }

  /** At most one cluster of `rs` holds k as a member. */
  ghost predicate SoleClaim(rs: seq<ClusterResult>, k: EventKey) {
    forall i, j :: 0 <= i < |rs| && 0 <= j < |rs| && rs[i].Holds(k) && rs[j].Holds(k) ==> i == j
  }

  /** Some cluster of `rs` names k as context. */
  ghost predicate Background(rs: seq<ClusterResult>, k: EventKey) {
    exists i :: 0 <= i < |rs| && k in Keys(rs[i].context)
  }

  /** Every event of every cluster is one of `pool`'s. */
  ghost predicate DrawnFrom(rs: seq<ClusterResult>, pool: seq<Event>) {
    forall i, e :: 0 <= i < |rs| && (e in rs[i].events || e in rs[i].context) ==> e in pool
  }

  lemma DrawnFromWider(rs: seq<ClusterResult>, pool: seq<Event>, wider: seq<Event>)
    requires DrawnFrom(rs, pool) && forall e :: e in pool ==> e in wider
    ensures DrawnFrom(rs, wider)
  {
  }

  /** No stored narrative is extended by two clusters. */
  ghost predicate ExtendsOnce(rs: seq<ClusterResult>) {
    forall i, j :: 0 <= i < j < |rs| && rs[i].kind == Extends && rs[j].kind == Extends ==>
      rs[i].narrativeID != rs[j].narrativeID
  }

  /** Some cluster extends the stored narrative id. */
  ghost predicate Extended(rs: seq<ClusterResult>, id: int) {
    exists i :: 0 <= i < |rs| && rs[i].ExtendsID(id)
  }

  /** The identities held as members by the clusters at `part`. */
  ghost function PartMembers(src: seq<ClusterResult>, part: set<int>): set<EventKey> {
    set i, k | i in part && 0 <= i < |src| && k in Keys(src[i].events) :: k
  }

  /** The identities named as context by the clusters at `part`. */
  ghost function PartContext(src: seq<ClusterResult>, part: set<int>): set<EventKey> {
    set i, k | i in part && 0 <= i < |src| && k in Keys(src[i].context) :: k
  }

  /** Member e of `out` comes from one of the clusters at `part`, at the confidence that one stated. */
  ghost predicate StatedIn(out: ClusterResult, e: Event, src: seq<ClusterResult>, part: set<int>) {
    exists i :: i in part && 0 <= i < |src| && e in src[i].events && out.ConfidenceOf(e.key) == src[i].ConfidenceOf(e.key)
  }

  ghost predicate NamedIn(e: Event, src: seq<ClusterResult>, part: set<int>) {
    exists i :: i in part && 0 <= i < |src| && e in src[i].context
  }

  /** The clusters at `part` extend at most one stored narrative, and `out` extends it if one does. */
  ghost predicate OneNarrative(out: ClusterResult, src: seq<ClusterResult>, part: set<int>) {
    && (forall i :: i in part && 0 <= i < |src| ==> src[i].kind == New || out.ExtendsID(src[i].narrativeID))
    && (out.kind == Extends ==> exists i :: i in part && 0 <= i < |src| && src[i].ExtendsID(out.narrativeID))
  }

  /**
   * `out` is the clusters of `src` at the positions `part`, combined: their members, the
   * context none of them holds as a member, each member's confidence as one of them stated
   * it, and at most one stored narrative among them.
   */
  ghost predicate MergedFrom(out: ClusterResult, src: seq<ClusterResult>, part: set<int>) {
    && part != {}
    && (forall i :: i in part ==> 0 <= i < |src|)
    && Keys(out.events) == PartMembers(src, part)
    && Keys(out.context) == PartContext(src, part) - PartMembers(src, part)
    && (forall e :: e in out.events ==> StatedIn(out, e, src, part))
    && (forall e :: e in out.context ==> NamedIn(e, src, part))
    && OneNarrative(out, src, part)
  }

  ghost predicate Covered(parts: seq<set<int>>, i: int) {
    exists p :: 0 <= p < |parts| && i in parts[p]
  }

  /** The parts share no position and together hold every one below n. */
  ghost predicate Partition(n: nat, parts: seq<set<int>>) {
    && (forall p, q :: 0 <= p < q < |parts| ==> parts[p] !! parts[q])
    && (forall i :: 0 <= i < n ==> Covered(parts, i))
  }

  /** `out` is `src` with some clusters combined: `parts` says which went into each, every one into one. */
  ghost predicate Regrouped(src: seq<ClusterResult>, out: seq<ClusterResult>, parts: seq<set<int>>) {
    && |parts| == |out|
    && (forall p :: 0 <= p < |out| ==> MergedFrom(out[p], src, parts[p]))
    && Partition(|src|, parts)
  }

  lemma MergedFromOne(src: seq<ClusterResult>, i: int)
    requires 0 <= i < |src| && WellFormed(src[i])
    ensures MergedFrom(src[i], src, {i})
  {
    assert PartMembers(src, {i}) == Keys(src[i].events);
    assert PartContext(src, {i}) == Keys(src[i].context);
    assert i in {i};
  }

  lemma PartMore(src: seq<ClusterResult>, part: set<int>, j: int)
    requires 0 <= j < |src|
    ensures PartMembers(src, part + {j}) == PartMembers(src, part) + Keys(src[j].events)
    ensures PartContext(src, part + {j}) == PartContext(src, part) + Keys(src[j].context)
  {
    var more := part + {j};
    forall k | k in PartMembers(src, part) + Keys(src[j].events) ensures k in PartMembers(src, more) {
      var i :| i in more && 0 <= i < |src| && k in Keys(src[i].events);
    }
    forall k | k in PartContext(src, part) + Keys(src[j].context) ensures k in PartContext(src, more) {
      var i :| i in more && 0 <= i < |src| && k in Keys(src[i].context);
    }
  }

  lemma StatedInMore(out: ClusterResult, e: Event, src: seq<ClusterResult>, part: set<int>, j: int)
    requires WellFormed(out) && (forall d :: d in out.events ==> StatedIn(out, d, src, part))
    requires 0 <= j < |src| && WellFormed(src[j])
    requires e in Absorb(out, src[j].events, src[j].context, By(src[j])).events
    ensures StatedIn(Absorb(out, src[j].events, src[j].context, By(src[j])), e, src, part + {j})
  {
    var s := src[j];
    var r := Absorb(out, s.events, s.context, By(s));
    AbsorbWellFormed(out, s.events, s.context, By(s));
    AbsorbPlaces(out, s.events, s.context, By(s));
    InKeys(e, r.events);
    AbsorbConfidence(out, s.events, s.context, By(s), e.key);
    if out.Holds(e.key) {
      var d :| d in out.events && d.key == e.key;
      SameKeySameEvent(r.events, d, e);
      var i :| i in part && 0 <= i < |src| && e in src[i].events && out.ConfidenceOf(e.key) == src[i].ConfidenceOf(e.key);
      assert i in part + {j};
    } else {
      assert j in part + {j};
      if e in out.events { InKeys(e, out.events); }
    }
  }

  /** Taking one more cluster in. */
  lemma MergedFromMore(out: ClusterResult, src: seq<ClusterResult>, part: set<int>, j: int)
    requires MergedFrom(out, src, part) && WellFormed(out)
    requires 0 <= j < |src| && WellFormed(src[j])
    requires src[j].kind == New || out.ExtendsID(src[j].narrativeID)
    ensures var r := Absorb(out, src[j].events, src[j].context, By(src[j]));
            MergedFrom(r, src, part + {j}) && WellFormed(r) && r.kind == out.kind && r.narrativeID == out.narrativeID
  {
    var s := src[j];
    var r := Absorb(out, s.events, s.context, By(s));
    AbsorbWellFormed(out, s.events, s.context, By(s));
    AbsorbPlaces(out, s.events, s.context, By(s));
    PartMore(src, part, j);
    forall e | e in r.events ensures StatedIn(r, e, src, part + {j}) {
      StatedInMore(out, e, src, part, j);
    }
    forall e | e in r.context ensures NamedIn(e, src, part + {j}) {
      if e in out.context {
        var i :| i in part && 0 <= i < |src| && e in src[i].context;
        assert i in part + {j};
      } else {
        assert j in part + {j};
      }
    }
    if out.kind == Extends {
      var i :| i in part && 0 <= i < |src| && src[i].ExtendsID(out.narrativeID);
      assert i in part + {j};
    }
  }

  /** The position whose part took position i in. */
  lemma PartOf(src: seq<ClusterResult>, out: seq<ClusterResult>, parts: seq<set<int>>, i: int) returns (p: int)
    requires Regrouped(src, out, parts) && 0 <= i < |src|
    ensures 0 <= p < |out| && i in parts[p] && MergedFrom(out[p], src, parts[p])
  {
    assert Covered(parts, i);
    p :| 0 <= p < |parts| && i in parts[p];
  }

  /** The position a member of out[p] came from. */
  lemma ClaimFrom(src: seq<ClusterResult>, out: seq<ClusterResult>, parts: seq<set<int>>, p: int, k: EventKey) returns (i: int)
    requires Regrouped(src, out, parts) && 0 <= p < |out| && out[p].Holds(k)
    ensures i in parts[p] && 0 <= i < |src| && src[i].Holds(k)
  {
    assert MergedFrom(out[p], src, parts[p]);
    assert k in PartMembers(src, parts[p]);
    i :| i in parts[p] && 0 <= i < |src| && k in Keys(src[i].events);
  }

  /** Regrouping places exactly the events that were placed. */
  lemma RegroupedPlaces(src: seq<ClusterResult>, out: seq<ClusterResult>, parts: seq<set<int>>, k: EventKey)
    requires Regrouped(src, out, parts)
    ensures Placed(out, k) <==> Placed(src, k)
  {
    if p :| 0 <= p < |out| && out[p].Holds(k) {
      var i := ClaimFrom(src, out, parts, p, k);
    }
    if i :| 0 <= i < |src| && src[i].Holds(k) {
      var p := PartOf(src, out, parts, i);
      assert k in PartMembers(src, parts[p]);
      assert out[p].Holds(k);
    }
  }

  /** An event one cluster claimed is still claimed by one. */
  lemma RegroupedSoleClaim(src: seq<ClusterResult>, out: seq<ClusterResult>, parts: seq<set<int>>, k: EventKey)
    requires Regrouped(src, out, parts) && SoleClaim(src, k)
    ensures SoleClaim(out, k)
  {
    forall p, q | 0 <= p < |out| && 0 <= q < |out| && out[p].Holds(k) && out[q].Holds(k) ensures p == q {
      var i := ClaimFrom(src, out, parts, p, k);
      var j := ClaimFrom(src, out, parts, q, k);
      assert i == j;
    }
  }

  /** A context event stays context somewhere unless a cluster now holds it as a member. */
  lemma RegroupedBackground(src: seq<ClusterResult>, out: seq<ClusterResult>, parts: seq<set<int>>, k: EventKey)
    requires Regrouped(src, out, parts)
    ensures Background(out, k) ==> Background(src, k)
    ensures Background(src, k) ==> Background(out, k) || Placed(out, k)
  {
    if p :| 0 <= p < |out| && k in Keys(out[p].context) {
      assert MergedFrom(out[p], src, parts[p]);
      assert k in PartContext(src, parts[p]);
      var i :| i in parts[p] && 0 <= i < |src| && k in Keys(src[i].context);
    }
    if i :| 0 <= i < |src| && k in Keys(src[i].context) {
      var p := PartOf(src, out, parts, i);
      assert k in PartContext(src, parts[p]);
      if k in PartMembers(src, parts[p]) {
        assert out[p].Holds(k);
      }
    }
  }

  /** Regrouping invents no event. */
  lemma RegroupedDrawnFrom(src: seq<ClusterResult>, out: seq<ClusterResult>, parts: seq<set<int>>, pool: seq<Event>)
    requires Regrouped(src, out, parts) && DrawnFrom(src, pool)
    ensures DrawnFrom(out, pool)
  {
    forall p, e | 0 <= p < |out| && (e in out[p].events || e in out[p].context) ensures e in pool {
      assert MergedFrom(out[p], src, parts[p]);
      if e in out[p].events {
        assert StatedIn(out[p], e, src, parts[p]);
      } else {
        assert NamedIn(e, src, parts[p]);
      }
    }
  }

  /** Regrouping extends exactly the stored narratives that were extended. */
  lemma RegroupedExtends(src: seq<ClusterResult>, out: seq<ClusterResult>, parts: seq<set<int>>, id: int)
    requires Regrouped(src, out, parts)
    ensures Extended(out, id) <==> Extended(src, id)
  {
    if p :| 0 <= p < |out| && out[p].ExtendsID(id) {
      var i := ExtendFrom(src, out, parts, p);
    }
    if i :| 0 <= i < |src| && src[i].ExtendsID(id) {
      var p := PartOf(src, out, parts, i);
      assert out[p].ExtendsID(id);
    }
  }

  lemma ExtendFrom(src: seq<ClusterResult>, out: seq<ClusterResult>, parts: seq<set<int>>, p: int) returns (i: int)
    requires Regrouped(src, out, parts) && 0 <= p < |out| && out[p].kind == Extends
    ensures i in parts[p] && 0 <= i < |src| && src[i].ExtendsID(out[p].narrativeID)
  {
    assert MergedFrom(out[p], src, parts[p]);
    i :| i in parts[p] && 0 <= i < |src| && src[i].ExtendsID(out[p].narrativeID);
  }

  /** A narrative extended once is still extended once. */
  lemma RegroupedExtendsOnce(src: seq<ClusterResult>, out: seq<ClusterResult>, parts: seq<set<int>>)
    requires Regrouped(src, out, parts) && ExtendsOnce(src)
    ensures ExtendsOnce(out)
  {
    forall p, q | 0 <= p < q < |out| && out[p].kind == Extends && out[q].kind == Extends
      ensures out[p].narrativeID != out[q].narrativeID
    {
      var i := ExtendFrom(src, out, parts, p);
      var j := ExtendFrom(src, out, parts, q);
      assert parts[p] !! parts[q];
      assert i != j;
    }
  }
}
