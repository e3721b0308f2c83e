/** What a seam merge keeps: every placement, every confidence, and one cluster per narrative. */
module SeamFacts {
  import opened Events
  import opened Clusters
  import opened Regrouping
  import opened Oracle
  import opened Seam

  /** The position of `second` that first[p] takes in, or -1. */
  ghost function Taken(first: seq<ClusterResult>, second: seq<ClusterResult>, p: nat): int
    requires p < |first|
  {
    if first[p].kind == Extends then NextExtend(second, Paired(first[..p], second).used, first[p].narrativeID, 0) else -1
  }

  /** first[p] after taking in the cluster at j of `second`, if any. */
  ghost function TakeIn(f: ClusterResult, second: seq<ClusterResult>, j: int): ClusterResult {
    if 0 <= j < |second| then Absorb(f, second[j].events, second[j].context, By(second[j])) else f
  }

  /** first[p] takes in nothing, or an unclaimed extend of its own narrative. */
  ghost predicate TakesOwn(first: seq<ClusterResult>, second: seq<ClusterResult>, p: nat)
    requires p < |first|
  {
    var j := Taken(first, second, p);
    j == -1 || (0 <= j < |second| && first[p].kind == Extends && second[j].ExtendsID(first[p].narrativeID))
  }

  lemma TakenExactly(first: seq<ClusterResult>, second: seq<ClusterResult>, p: nat)
    requires p < |first|
    ensures TakesOwn(first, second, p)
    ensures Taken(first, second, p) !in Paired(first[..p], second).used || Taken(first, second, p) == -1
    ensures first[p].kind == Extends && Taken(first, second, p) == -1 ==>
              forall j :: 0 <= j < |second| && second[j].ExtendsID(first[p].narrativeID) ==>
                j in Paired(first[..p], second).used
  {
    NextExtendExactly(second, Paired(first[..p], second).used, first[p].narrativeID, 0);
  }

  lemma PairedStep(first: seq<ClusterResult>, second: seq<ClusterResult>, n: nat)
    requires n < |first|
    ensures var h, j := Paired(first[..n], second), Taken(first, second, n);
            Paired(first[..n + 1], second) ==
              Halves(h.merged + [TakeIn(first[n], second, j)], if j >= 0 then h.used + {j} else h.used)
  {
    assert first[..n + 1][..n] == first[..n];
    assert first[..n + 1][n] == first[n];
    TakenExactly(first, second, n);
  }

  /** merged is the first n clusters of `first`, each with what it takes in. */
  ghost predicate MergedUpTo(first: seq<ClusterResult>, second: seq<ClusterResult>, n: nat, merged: seq<ClusterResult>)
    requires n <= |first|
  {
    |merged| == n && forall p {:trigger merged[p]} :: 0 <= p < n ==> merged[p] == TakeIn(first[p], second, Taken(first, second, p))
  }

  lemma {:induction false} PairedMerged(first: seq<ClusterResult>, second: seq<ClusterResult>, n: nat)
    requires n <= |first|
    ensures MergedUpTo(first, second, n, Paired(first[..n], second).merged)
    decreases n
  {
    if n > 0 {
      PairedMerged(first, second, n - 1);
      PairedStep(first, second, n - 1);
      MergedOneMore(first, second, n - 1, Paired(first[..n - 1], second).merged);
    }
  }

  lemma MergedOneMore(first: seq<ClusterResult>, second: seq<ClusterResult>, n: nat, merged: seq<ClusterResult>)
    requires n < |first| && MergedUpTo(first, second, n, merged)
    ensures MergedUpTo(first, second, n + 1, merged + [TakeIn(first[n], second, Taken(first, second, n))])
  {
  }

  /** The used positions are the ones the first n clusters took. */
  lemma {:induction false} PairedUsed(first: seq<ClusterResult>, second: seq<ClusterResult>, n: nat)
    requires n <= |first|
    ensures forall j :: j in Paired(first[..n], second).used ==> TakenBelow(first, second, n, j)
    ensures forall p :: 0 <= p < n && Taken(first, second, p) >= 0 ==>
              Taken(first, second, p) in Paired(first[..n], second).used
    decreases n
  {
    if n > 0 {
      PairedUsed(first, second, n - 1);
      PairedStep(first, second, n - 1);
      forall j | j in Paired(first[..n], second).used ensures TakenBelow(first, second, n, j) {
        if j in Paired(first[..n - 1], second).used {
          assert TakenBelow(first, second, n - 1, j);
        }
      }
    }
  }

  ghost predicate TakenBelow(first: seq<ClusterResult>, second: seq<ClusterResult>, n: nat, j: int)
    requires n <= |first|
  {
    j >= 0 && exists p :: 0 <= p < n && Taken(first, second, p) == j
  }

  lemma TakenOnce(first: seq<ClusterResult>, second: seq<ClusterResult>, p: nat, q: nat)
    requires p < q < |first|
    ensures Taken(first, second, p) == -1 || Taken(first, second, p) != Taken(first, second, q)
  {
    PairedUsed(first, second, q);
    TakenExactly(first, second, p);
    TakenExactly(first, second, q);
  }

  ghost function FrontPart(first: seq<ClusterResult>, second: seq<ClusterResult>, p: nat): set<int>
    requires p < |first|
  {
    if Taken(first, second, p) < 0 then {p} else {p} + {|first| + Taken(first, second, p)}
  }

  /** Where each cluster of the joined halves comes from, as positions of first + second. */
  ghost function JoinedParts(first: seq<ClusterResult>, second: seq<ClusterResult>): seq<set<int>> {
    var left := Leftover(Paired(first, second).used, |second|);
    seq(|first|, p requires 0 <= p < |first| => FrontPart(first, second, p))
    + seq(|left|, t requires 0 <= t < |left| => {|first| + left[t]})
  }

  lemma FrontDisjoint(first: seq<ClusterResult>, second: seq<ClusterResult>, p: nat, q: nat)
    requires p < q < |first|
    ensures FrontPart(first, second, p) !! FrontPart(first, second, q)
  {
    TakenOnce(first, second, p, q);
    TakenExactly(first, second, p);
    TakenExactly(first, second, q);
  }

  lemma FrontBackDisjoint(first: seq<ClusterResult>, second: seq<ClusterResult>, p: nat, j: nat)
    requires p < |first| && j !in Paired(first, second).used
    ensures |first| + j !in FrontPart(first, second, p)
  {
    assert first[..|first|] == first;
    PairedUsed(first, second, |first|);
    TakenExactly(first, second, p);
  }

  lemma PartAt(first: seq<ClusterResult>, second: seq<ClusterResult>, p: nat)
    requires p < |JoinedParts(first, second)|
    ensures p < |first| ==> JoinedParts(first, second)[p] == FrontPart(first, second, p)
    ensures p >= |first| ==>
              var left := Leftover(Paired(first, second).used, |second|);
              p - |first| < |left| && JoinedParts(first, second)[p] == {|first| + left[p - |first|]}
  {
  }

  lemma PartCount(first: seq<ClusterResult>, second: seq<ClusterResult>)
    ensures |JoinedParts(first, second)| == |first| + |Leftover(Paired(first, second).used, |second|)|
  {
  }

  lemma LeftoverAt(used: set<int>, n: nat, j: nat) returns (t: nat)
    requires j < n && j !in used
    ensures t < |Leftover(used, n)| && Leftover(used, n)[t] == j
  {
    LeftoverExactly(used, n);
    t :| t < |Leftover(used, n)| && Leftover(used, n)[t] == j;
  }

  lemma TakerOf(first: seq<ClusterResult>, second: seq<ClusterResult>, j: nat) returns (p: nat)
    requires j in Paired(first, second).used
    ensures p < |first| && Taken(first, second, p) == j
  {
    assert first[..|first|] == first;
    PairedUsed(first, second, |first|);
    assert TakenBelow(first, second, |first|, j);
    p :| p < |first| && Taken(first, second, p) == j;
  }

  /** Where position i of the halves together ends among the joined clusters. */
  lemma PlaceOf(first: seq<ClusterResult>, second: seq<ClusterResult>, i: nat) returns (p: nat)
    requires i < |first| + |second|
    ensures p < |JoinedParts(first, second)| && i in JoinedParts(first, second)[p]
  {
    PartCount(first, second);
    p := i;
    if i >= |first| {
      if i - |first| in Paired(first, second).used {
        p := TakerOf(first, second, i - |first|);
      } else {
        var t := LeftoverAt(Paired(first, second).used, |second|, i - |first|);
        p := |first| + t;
      }
    }
    PartAt(first, second, p);
  }

  lemma JoinedCovers(first: seq<ClusterResult>, second: seq<ClusterResult>, i: nat)
    requires i < |first| + |second|
    ensures Covered(JoinedParts(first, second), i)
  {
    var p := PlaceOf(first, second, i);
  }

  lemma JoinedPartition(first: seq<ClusterResult>, second: seq<ClusterResult>)
    ensures Partition(|first| + |second|, JoinedParts(first, second))
  {
    var left := Leftover(Paired(first, second).used, |second|);
    var parts := JoinedParts(first, second);
    LeftoverExactly(Paired(first, second).used, |second|);
    forall p, q | 0 <= p < q < |parts| ensures parts[p] !! parts[q] {
      if q < |first| {
        FrontDisjoint(first, second, p, q);
      } else if p < |first| {
        FrontBackDisjoint(first, second, p, left[q - |first|]);
      }
    }
    forall i | 0 <= i < |first| + |second| ensures Covered(parts, i) {
      JoinedCovers(first, second, i);
    }
  }

  lemma JoinedFront(first: seq<ClusterResult>, second: seq<ClusterResult>, p: nat)
    requires AllWellFormed(first) && AllWellFormed(second) && p < |first|
    ensures var r := TakeIn(first[p], second, Taken(first, second, p));
            MergedFrom(r, first + second, FrontPart(first, second, p)) && WellFormed(r)
  {
    var src := first + second;
    assert src[p] == first[p];
    MergedFromOne(src, p);
    TakenExactly(first, second, p);
    var j := Taken(first, second, p);
    if j >= 0 {
      assert src[|first| + j] == second[j];
      MergedFromMore(first[p], src, {p}, |first| + j);
    }
  }

  lemma JoinedLength(first: seq<ClusterResult>, second: seq<ClusterResult>)
    ensures |Joined(first, second)| == |JoinedParts(first, second)|
    ensures |Paired(first, second).merged| == |first|
    ensures forall p :: 0 <= p < |first| ==> Joined(first, second)[p] == TakeIn(first[p], second, Taken(first, second, p))
  {
    assert first[..|first|] == first;
    PairedMerged(first, second, |first|);
  }

  lemma JoinedBack(first: seq<ClusterResult>, second: seq<ClusterResult>, used: set<int>, t: nat)
    requires AllWellFormed(second) && t < |Leftover(used, |second|)|
    ensures var j := Leftover(used, |second|)[t];
            0 <= j < |second| && WellFormed(second[j]) && MergedFrom(second[j], first + second, {|first| + j})
  {
    LeftoverExactly(used, |second|);
    var j := Leftover(used, |second|)[t];
    assert (first + second)[|first| + j] == second[j];
    MergedFromOne(first + second, |first| + j);
  }

  lemma JoinedAt(first: seq<ClusterResult>, second: seq<ClusterResult>, p: nat)
    requires AllWellFormed(first) && AllWellFormed(second) && p < |Joined(first, second)|
    ensures p < |JoinedParts(first, second)|
    ensures MergedFrom(Joined(first, second)[p], first + second, JoinedParts(first, second)[p])
    ensures WellFormed(Joined(first, second)[p])
  {
    JoinedLength(first, second);
    if p < |first| {
      JoinedFront(first, second, p);
    } else {
      JoinedBack(first, second, Paired(first, second).used, p - |first|);
    }
  }

  /** Joining two halves with no story question is a regrouping of all their clusters. */
  lemma JoinedRegroups(first: seq<ClusterResult>, second: seq<ClusterResult>)
    requires AllWellFormed(first) && AllWellFormed(second)
    ensures Regrouped(first + second, Joined(first, second), JoinedParts(first, second))
    ensures AllWellFormed(Joined(first, second))
  {
    JoinedLength(first, second);
    JoinedPartition(first, second);
    forall p | 0 <= p < |Joined(first, second)|
      ensures MergedFrom(Joined(first, second)[p], first + second, JoinedParts(first, second)[p])
      ensures WellFormed(Joined(first, second)[p])
    {
      JoinedAt(first, second, p);
    }
  }

  /** Position q's part joined to position p's, and q closed up. */
  ghost function Melded<T>(rs: seq<T>, p: int, q: int, r: T): seq<T>
    requires 0 <= p < q < |rs|
  {
    rs[..q][p := r] + rs[q + 1..]
  }

  lemma MeldedPartition(n: nat, parts: seq<set<int>>, p: int, q: int)
    requires Partition(n, parts) && 0 <= p < q < |parts|
    ensures Partition(n, Melded(parts, p, q, parts[p] + parts[q]))
  {
    var parts' := Melded(parts, p, q, parts[p] + parts[q]);
    forall a, b | 0 <= a < b < |parts'| ensures parts'[a] !! parts'[b] {
      var a', b' := if a < q then a else a + 1, if b < q then b else b + 1;
      assert parts[a'] !! parts[b'];
      if a == p && b' < q { assert parts[b'] !! parts[q]; }
      if a == p && q < b' { assert parts[q] !! parts[b']; }
      if b == p { assert parts[a'] !! parts[q]; }
    }
    forall i | 0 <= i < n ensures Covered(parts', i) {
      assert Covered(parts, i);
      var a :| 0 <= a < |parts| && i in parts[a];
      var a' := if a < q then a else if a == q then p else a - 1;
      assert i in parts'[a'];
    }
  }

  /** Two clusters of a regrouping combined is still a regrouping. */
  lemma RegroupedMeld(src: seq<ClusterResult>, out: seq<ClusterResult>, parts: seq<set<int>>, p: int, q: int, r: ClusterResult)
    requires Regrouped(src, out, parts) && 0 <= p < q < |out|
    requires MergedFrom(r, src, parts[p] + parts[q])
    ensures Regrouped(src, Melded(out, p, q, r), Melded(parts, p, q, parts[p] + parts[q]))
  {
    MeldedPartition(|src|, parts, p, q);
    var out', parts' := Melded(out, p, q, r), Melded(parts, p, q, parts[p] + parts[q]);
    forall a | 0 <= a < |out'| ensures MergedFrom(out'[a], src, parts'[a]) {
      if a != p {
        var b := if a < q then a else a + 1;
        assert out'[a] == out[b] && parts'[a] == parts[b];
      }
    }
  }

  lemma PartUnion(src: seq<ClusterResult>, a: set<int>, b: set<int>)
    ensures PartMembers(src, a + b) == PartMembers(src, a) + PartMembers(src, b)
    ensures PartContext(src, a + b) == PartContext(src, a) + PartContext(src, b)
  {
    var c := a + b;
    forall k | k in PartMembers(src, a) + PartMembers(src, b) ensures k in PartMembers(src, c) {
      var i :| i in c && 0 <= i < |src| && k in Keys(src[i].events);
    }
    forall k | k in PartContext(src, a) + PartContext(src, b) ensures k in PartContext(src, c) {
      var i :| i in c && 0 <= i < |src| && k in Keys(src[i].context);
    }
  }

  lemma StatedInUnion(r: ClusterResult, a: ClusterResult, b: ClusterResult, e: Event, src: seq<ClusterResult>, pa: set<int>, pb: set<int>)
    requires WellFormed(a) && WellFormed(b) && WellFormed(r)
    requires MergedFrom(a, src, pa) && MergedFrom(b, src, pb)
    requires e in r.events && (e in a.events || e in b.events) && a.events <= r.events
    requires r.ConfidenceOf(e.key) == if a.Holds(e.key) then a.ConfidenceOf(e.key) else b.ConfidenceOf(e.key)
    ensures StatedIn(r, e, src, pa + pb)
  {
    if a.Holds(e.key) {
      var d :| d in a.events && d.key == e.key;
      assert d in r.events;
      SameKeySameEvent(r.events, d, e);
      assert StatedIn(a, e, src, pa);
      var i :| i in pa && 0 <= i < |src| && e in src[i].events && a.ConfidenceOf(e.key) == src[i].ConfidenceOf(e.key);
      assert i in pa + pb;
    } else {
      if e in a.events { InKeys(e, a.events); }
      assert StatedIn(b, e, src, pb);
      var i :| i in pb && 0 <= i < |src| && e in src[i].events && b.ConfidenceOf(e.key) == src[i].ConfidenceOf(e.key);
      assert i in pa + pb;
    }
  }

  /** A story's members, each at the confidence its side stated. */
  lemma OneStoryStates(a: ClusterResult, b: ClusterResult, title: string, summary: string,
                       src: seq<ClusterResult>, pa: set<int>, pb: set<int>)
    requires WellFormed(a) && WellFormed(b) && a.kind == New && b.kind == New
    requires MergedFrom(a, src, pa) && MergedFrom(b, src, pb)
    ensures var r := OneStory(a, b, title, summary);
            WellFormed(r) && forall e :: e in r.events ==> StatedIn(r, e, src, pa + pb)
  {
    var base := ClusterResult(New, 0, title, summary, a.events, a.context, a.confidence, a.overrides);
    var r := OneStory(a, b, title, summary);
    assert WellFormed(base);
    assert forall k :: base.ConfidenceOf(k) == a.ConfidenceOf(k) && base.Holds(k) == a.Holds(k);
    AbsorbWellFormed(base, b.events, b.context, By(b));
    AbsorbPlaces(base, b.events, b.context, By(b));
    forall e | e in r.events ensures StatedIn(r, e, src, pa + pb) {
      InKeys(e, r.events);
      AbsorbConfidence(base, b.events, b.context, By(b), e.key);
      StatedInUnion(r, a, b, e, src, pa, pb);
    }
  }

  lemma OneStoryNames(a: ClusterResult, b: ClusterResult, title: string, summary: string,
                      src: seq<ClusterResult>, pa: set<int>, pb: set<int>)
    requires MergedFrom(a, src, pa) && MergedFrom(b, src, pb)
    ensures forall e :: e in OneStory(a, b, title, summary).context ==> NamedIn(e, src, pa + pb)
  {
    var base := ClusterResult(New, 0, title, summary, a.events, a.context, a.confidence, a.overrides);
    AbsorbPlaces(base, b.events, b.context, By(b));
    forall e | e in OneStory(a, b, title, summary).context ensures NamedIn(e, src, pa + pb) {
      var p := if e in a.context then pa else pb;
      assert NamedIn(e, src, p);
      var i :| i in p && 0 <= i < |src| && e in src[i].context;
      assert i in pa + pb;
    }
  }

  lemma OneStoryKeys(a: ClusterResult, b: ClusterResult, title: string, summary: string,
                     src: seq<ClusterResult>, pa: set<int>, pb: set<int>)
    requires Keys(a.events) == PartMembers(src, pa) && Keys(a.context) == PartContext(src, pa) - PartMembers(src, pa)
    requires Keys(b.events) == PartMembers(src, pb) && Keys(b.context) == PartContext(src, pb) - PartMembers(src, pb)
    ensures var r := OneStory(a, b, title, summary);
            && Keys(r.events) == PartMembers(src, pa + pb)
            && Keys(r.context) == PartContext(src, pa + pb) - PartMembers(src, pa + pb)
  {
    var base := ClusterResult(New, 0, title, summary, a.events, a.context, a.confidence, a.overrides);
    AbsorbPlaces(base, b.events, b.context, By(b));
    PartUnion(src, pa, pb);
  }

  lemma BothNew(a: ClusterResult, b: ClusterResult, src: seq<ClusterResult>, pa: set<int>, pb: set<int>)
    requires a.kind == New && b.kind == New && OneNarrative(a, src, pa) && OneNarrative(b, src, pb)
    ensures forall i :: i in pa + pb && 0 <= i < |src| ==> src[i].kind == New
  {
    forall i | i in pa + pb && 0 <= i < |src| ensures src[i].kind == New {
      if i in pa { assert !a.ExtendsID(src[i].narrativeID); } else { assert !b.ExtendsID(src[i].narrativeID); }
    }
  }

  /** One story is its two clusters combined. */
  lemma OneStoryMerges(a: ClusterResult, b: ClusterResult, title: string, summary: string,
                       src: seq<ClusterResult>, pa: set<int>, pb: set<int>)
    requires WellFormed(a) && WellFormed(b) && a.kind == New && b.kind == New
    requires MergedFrom(a, src, pa) && MergedFrom(b, src, pb)
    ensures WellFormed(OneStory(a, b, title, summary))
    ensures MergedFrom(OneStory(a, b, title, summary), src, pa + pb)
  {
    OneStoryKeys(a, b, title, summary, src, pa, pb);
    OneStoryStates(a, b, title, summary, src, pa, pb);
    OneStoryNames(a, b, title, summary, src, pa, pb);
    BothNew(a, b, src, pa, pb);
  }

  /**
   * What an answer about the seam leads to: one cluster in place of both, combining exactly
   * their work, if it says one story; nothing if it says two; and failure if it is no answer.
   */
  lemma SameStoryExactly(reply: Reply, a: ClusterResult, b: ClusterResult,
                         src: seq<ClusterResult>, pa: set<int>, pb: set<int>)
    requires WellFormed(a) && WellFormed(b) && a.kind == New && b.kind == New
    requires MergedFrom(a, src, pa) && MergedFrom(b, src, pb)
    ensures var out := SameStory(reply, a, b);
            && (out.Failed? <==> reply.NoAnswer? || !reply.body.Story?)
            && (out.Done? ==> (out.value.Some? <==> reply.body.same))
    ensures SameStory(reply, a, b).Done? && SameStory(reply, a, b).value.Some? ==>
              var story := SameStory(reply, a, b).value.value;
              && WellFormed(story) && MergedFrom(story, src, pa + pb)
              && story.kind == New && story.title == reply.body.title && story.summary == reply.body.summary
              && (forall k :: a.Holds(k) ==> story.ConfidenceOf(k) == a.ConfidenceOf(k))
              && (forall k :: b.Holds(k) && !a.Holds(k) ==> story.ConfidenceOf(k) == b.ConfidenceOf(k))
  {
    if reply.Answer? && reply.body.Story? && reply.body.same {
      var title, summary := reply.body.title, reply.body.summary;
      OneStoryMerges(a, b, title, summary, src, pa, pb);
      var base := ClusterResult(New, 0, title, summary, a.events, a.context, a.confidence, a.overrides);
      forall k | a.Holds(k) || b.Holds(k)
        ensures OneStory(a, b, title, summary).ConfidenceOf(k) == if a.Holds(k) then a.ConfidenceOf(k) else b.ConfidenceOf(k)
      {
        AbsorbConfidence(base, b.events, b.context, By(b), k);
      }
    }
  }

  /** Making the seam's two clusters one story is a regrouping too. */
  lemma JoinedAsOneRegroups(first: seq<ClusterResult>, second: seq<ClusterResult>, title: string, summary: string)
    returns (parts: seq<set<int>>)
    requires AllWellFormed(first) && AllWellFormed(second) && SeamAsked(first, second)
    ensures Regrouped(first + second, JoinedAsOne(first, second, title, summary), parts)
    ensures AllWellFormed(JoinedAsOne(first, second, title, summary))
  {
    var l, q := SeamAt(first, second, title, summary);
    var out, apart := Joined(first, second), JoinedParts(first, second);
    JoinedRegroups(first, second);
    var story := OneStory(out[l], out[q], title, summary);
    OneStoryMerges(out[l], out[q], title, summary, first + second, apart[l], apart[q]);
    RegroupedMeld(first + second, out, apart, l, q, story);
    parts := Melded(apart, l, q, apart[l] + apart[q]);
    MeldedWellFormed(out, l, q, story);
  }

  lemma MeldedWellFormed(out: seq<ClusterResult>, l: int, q: int, r: ClusterResult)
    requires AllWellFormed(out) && WellFormed(r) && 0 <= l < q < |out|
    ensures AllWellFormed(Melded(out, l, q, r))
  {
    forall i | 0 <= i < |Melded(out, l, q, r)| ensures WellFormed(Melded(out, l, q, r)[i]) {
      if i != l {
        assert Melded(out, l, q, r)[i] == out[if i < q then i else i + 1];
      }
    }
  }

  /** The two positions of the joined halves the seam's question is about. */
  lemma SeamAt(first: seq<ClusterResult>, second: seq<ClusterResult>, title: string, summary: string) returns (l: int, q: int)
    requires SeamAsked(first, second)
    ensures 0 <= l < q < |Joined(first, second)|
    ensures Joined(first, second)[l].kind == New && Joined(first, second)[q].kind == New
    ensures JoinedAsOne(first, second, title, summary) ==
            Melded(Joined(first, second), l, q, OneStory(Joined(first, second)[l], Joined(first, second)[q], title, summary))
  {
    var m, rest := Paired(first, second).merged, Unused(first, second);
    LastNewExactly(m);
    FirstNewExactly(rest);
    var f := FirstNew(rest);
    l, q := LastNew(m), |m| + f;
    var out := Joined(first, second);
    assert out[l] == m[l] && out[q] == rest[f];
    var story := OneStory(m[l], rest[f], title, summary);
    assert out[..q] == m + rest[..f];
    assert (m + rest[..f])[l := story] == m[l := story] + rest[..f];
    assert out[q + 1..] == rest[f + 1..];
  }

  /**
   * Whatever the model answers about the seam, the merged halves are a regrouping of both:
   * no placement, context or confidence is lost, doubled or made up.
   */
  lemma SeamRegroups(first: seq<ClusterResult>, second: seq<ClusterResult>, reply: Reply) returns (parts: seq<set<int>>)
    requires AllWellFormed(first) && AllWellFormed(second) && SeamOutcome(first, second, reply).Done?
    ensures Regrouped(first + second, SeamOutcome(first, second, reply).value, parts)
    ensures AllWellFormed(SeamOutcome(first, second, reply).value)
  {
    if SeamAsked(first, second) && reply.body.same {
      parts := JoinedAsOneRegroups(first, second, reply.body.title, reply.body.summary);
    } else {
      JoinedRegroups(first, second);
      parts := JoinedParts(first, second);
    }
  }

  /** When both halves extend every narrative at most once, no extend left over matches one of `first`. */
  lemma LeftoverUnmatched(first: seq<ClusterResult>, second: seq<ClusterResult>, p: nat, j: nat)
    requires ExtendsOnce(second) && p < |first| && j < |second|
    requires first[p].kind == Extends && second[j].ExtendsID(first[p].narrativeID)
    ensures j in Paired(first, second).used
  {
    assert first[..|first|] == first;
    PairedUsed(first, second, |first|);
    PairedUsed(first, second, p);
    TakenExactly(first, second, p);
    var t := Taken(first, second, p);
    if t == -1 {
      assert TakenBelow(first, second, p, j);
      var q :| 0 <= q < p && Taken(first, second, q) == j;
    } else {
      assert t == j;
    }
  }

  /** A cluster of the second half joins one of the first exactly when they extend one narrative. */
  lemma MatchedExactly(first: seq<ClusterResult>, second: seq<ClusterResult>, j: nat)
    requires ExtendsOnce(second) && j < |second|
    ensures j in Paired(first, second).used <==> second[j].kind == Extends && Extended(first, second[j].narrativeID)
  {
    assert first[..|first|] == first;
    PairedUsed(first, second, |first|);
    if j in Paired(first, second).used {
      var p :| 0 <= p < |first| && Taken(first, second, p) == j;
      TakenExactly(first, second, p);
      assert first[p].ExtendsID(second[j].narrativeID);
    }
    if second[j].kind == Extends && Extended(first, second[j].narrativeID) {
      var p :| 0 <= p < |first| && first[p].ExtendsID(second[j].narrativeID);
      LeftoverUnmatched(first, second, p, j);
    }
  }

  /** Which cluster of which half a joined cluster keeps the kind, the narrative and the words of. */
  lemma JoinedSource(first: seq<ClusterResult>, second: seq<ClusterResult>, i: nat) returns (j: int)
    requires i < |Joined(first, second)|
    ensures i < |first| ==> j == -1 && Joined(first, second)[i].kind == first[i].kind
                            && Joined(first, second)[i].narrativeID == first[i].narrativeID
                            && Joined(first, second)[i].title == first[i].title && Joined(first, second)[i].summary == first[i].summary
    ensures i >= |first| ==>
              var left := Leftover(Paired(first, second).used, |second|);
              && i - |first| < |left| && j == left[i - |first|]
              && 0 <= j < |second| && j !in Paired(first, second).used && Joined(first, second)[i] == second[j]
  {
    JoinedLength(first, second);
    LeftoverExactly(Paired(first, second).used, |second|);
    j := -1;
    if i >= |first| {
      j := Leftover(Paired(first, second).used, |second|)[i - |first|];
    }
  }

  lemma JoinedExtendsApart(first: seq<ClusterResult>, second: seq<ClusterResult>, i: nat, j: nat)
    requires ExtendsOnce(first) && ExtendsOnce(second) && i < j < |Joined(first, second)|
    requires Joined(first, second)[i].kind == Extends && Joined(first, second)[j].kind == Extends
    ensures Joined(first, second)[i].narrativeID != Joined(first, second)[j].narrativeID
  {
    var a := JoinedSource(first, second, i);
    var b := JoinedSource(first, second, j);
    LeftoverExactly(Paired(first, second).used, |second|);
    if i < |first| <= j && first[i].narrativeID == second[b].narrativeID {
      LeftoverUnmatched(first, second, i, b);
    }
  }

  lemma JoinedExtendsOnce(first: seq<ClusterResult>, second: seq<ClusterResult>)
    requires ExtendsOnce(first) && ExtendsOnce(second)
    ensures ExtendsOnce(Joined(first, second))
  {
    var out := Joined(first, second);
    forall i, j | 0 <= i < j < |out| && out[i].kind == Extends && out[j].kind == Extends
      ensures out[i].narrativeID != out[j].narrativeID
    {
      JoinedExtendsApart(first, second, i, j);
    }
  }

  lemma MeldedExtendsOnce(out: seq<ClusterResult>, l: int, q: int, r: ClusterResult)
    requires ExtendsOnce(out) && r.kind == New && 0 <= l < q < |out|
    ensures ExtendsOnce(Melded(out, l, q, r))
  {
    var one := Melded(out, l, q, r);
    forall i, j | 0 <= i < j < |one| && one[i].kind == Extends && one[j].kind == Extends
      ensures one[i].narrativeID != one[j].narrativeID
    {
      var i', j' := if i < q then i else i + 1, if j < q then j else j + 1;
      assert one[i] == out[i'] && one[j] == out[j'];
    }
  }

  /** If each half extends every narrative at most once, so do the merged halves. */
  lemma SeamExtendsOnce(first: seq<ClusterResult>, second: seq<ClusterResult>, reply: Reply)
    requires ExtendsOnce(first) && ExtendsOnce(second) && SeamOutcome(first, second, reply).Done?
    ensures ExtendsOnce(SeamOutcome(first, second, reply).value)
  {
    JoinedExtendsOnce(first, second);
    if SeamAsked(first, second) && reply.body.same {
      var out := Joined(first, second);
      var l, q := SeamAt(first, second, reply.body.title, reply.body.summary);
      MeldedExtendsOnce(out, l, q, OneStory(out[l], out[q], reply.body.title, reply.body.summary));
    }
  }
}
