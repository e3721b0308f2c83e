/** Merging the two halves of a bisected window, and the one same-story check at their seam. */
module Seam {
  import opened Events
  import opened Clusters
  import opened Regrouping
  import opened Oracle

  /** The first half's clusters merged so far, and the positions of the second's they took in. */
  datatype Halves = Halves(merged: seq<ClusterResult>, used: set<int>)

  /** The first cluster of `second` from j on that extends id and is not used yet, or -1. */
  function NextExtend(second: seq<ClusterResult>, used: set<int>, id: int, j: nat): int
    decreases |second| - j
  {
    if j >= |second| then -1
    else if j !in used && second[j].ExtendsID(id) then j
    else NextExtend(second, used, id, j + 1)
  }

  /** Every cluster of `first`, an extend joined by the second half's extend of the same narrative. */
  function Paired(first: seq<ClusterResult>, second: seq<ClusterResult>): Halves {
    if first == [] then Halves([], {})
    else
      var h := Paired(first[..|first| - 1], second);
      var f := first[|first| - 1];
      var j := if f.kind == Extends then NextExtend(second, h.used, f.narrativeID, 0) else -1;
      if 0 <= j < |second| then
        Halves(h.merged + [Absorb(f, second[j].events, second[j].context, By(second[j]))], h.used + {j})
      else
        Halves(h.merged + [f], h.used)
  }

  /** The positions below n of the second half's clusters that were not used, ascending. */
  function Leftover(used: set<int>, n: nat): seq<int> {
    if n == 0 then []
    else if n - 1 in used then Leftover(used, n - 1)
    else Leftover(used, n - 1) + [n - 1]
  }

  /** The position of the last New, or -1. */
  function LastNew(rs: seq<ClusterResult>): int {
    if rs == [] then -1
    else if rs[|rs| - 1].kind == New then |rs| - 1
    else LastNew(rs[..|rs| - 1])
  }

  /** The position of the first New, or -1. */
  function FirstNew(rs: seq<ClusterResult>): int {
    if rs == [] then -1
    else
      var before := FirstNew(rs[..|rs| - 1]);
      if before >= 0 then before else if rs[|rs| - 1].kind == New then |rs| - 1 else -1
  }

  lemma {:induction false} LeftoverExactly(used: set<int>, n: nat)
    ensures forall t :: 0 <= t < |Leftover(used, n)| ==> 0 <= Leftover(used, n)[t] < n && Leftover(used, n)[t] !in used
    ensures forall t, u :: 0 <= t < u < |Leftover(used, n)| ==> Leftover(used, n)[t] < Leftover(used, n)[u]
    ensures forall j :: 0 <= j < n && j !in used ==> j in Leftover(used, n)
  {
    if n > 0 {
      LeftoverExactly(used, n - 1);
    }
  }

  lemma {:induction false} LastNewExactly(rs: seq<ClusterResult>)
    ensures -1 <= LastNew(rs) < |rs|
    ensures LastNew(rs) >= 0 ==> rs[LastNew(rs)].kind == New
    ensures forall i :: LastNew(rs) < i < |rs| ==> rs[i].kind == Extends
  {
    if rs != [] {
      LastNewExactly(rs[..|rs| - 1]);
    }
  }

  lemma {:induction false} FirstNewExactly(rs: seq<ClusterResult>)
    ensures -1 <= FirstNew(rs) < |rs|
    ensures FirstNew(rs) >= 0 ==> rs[FirstNew(rs)].kind == New
    ensures forall i :: 0 <= i < (if FirstNew(rs) < 0 then |rs| else FirstNew(rs)) ==> rs[i].kind == Extends
  {
    if rs != [] {
      FirstNewExactly(rs[..|rs| - 1]);
    }
  }

  lemma {:induction false} NextExtendExactly(second: seq<ClusterResult>, used: set<int>, id: int, j: nat)
    ensures var n := NextExtend(second, used, id, j);
            && (n == -1 || (j <= n < |second| && n !in used && second[n].ExtendsID(id)))
            && (n == -1 ==> forall i :: j <= i < |second| && i !in used ==> !second[i].ExtendsID(id))
    decreases |second| - j
  {
    if j < |second| && !(j !in used && second[j].ExtendsID(id)) {
      NextExtendExactly(second, used, id, j + 1);
    }
  }

  /** The clusters at some positions, in that order. */
  function At(rs: seq<ClusterResult>, positions: seq<int>): seq<ClusterResult>
    requires forall t :: 0 <= t < |positions| ==> 0 <= positions[t] < |rs|
  {
    seq(|positions|, t requires 0 <= t < |positions| => rs[positions[t]])
  }

  /** One emerging story: b's work joined to a's, titled and summarized as the model says. */
  function OneStory(a: ClusterResult, b: ClusterResult, title: string, summary: string): ClusterResult {
    Absorb(ClusterResult(New, 0, title, summary, a.events, a.context, a.confidence, a.overrides),
           b.events, b.context, By(b))
  }

  /** Both halves have a New cluster at the seam, so the model is asked whether they are one story. */
  predicate SeamAsked(first: seq<ClusterResult>, second: seq<ClusterResult>) {
    LastNew(Paired(first, second).merged) >= 0 && FirstNew(Unused(first, second)) >= 0
  }

  function Unused(first: seq<ClusterResult>, second: seq<ClusterResult>): seq<ClusterResult> {
    LeftoverExactly(Paired(first, second).used, |second|);
    At(second, Leftover(Paired(first, second).used, |second|))
  }

  /** Both halves' clusters, with no question about a story. */
  function Joined(first: seq<ClusterResult>, second: seq<ClusterResult>): seq<ClusterResult> {
    Paired(first, second).merged + Unused(first, second)
  }

  /** Both halves' clusters, the two at the seam made one story. */
  function JoinedAsOne(first: seq<ClusterResult>, second: seq<ClusterResult>, title: string, summary: string)
    : seq<ClusterResult>
    requires SeamAsked(first, second)
  {
    var m, rest := Paired(first, second).merged, Unused(first, second);
    LastNewExactly(m);
    FirstNewExactly(rest);
    var l, f := LastNew(m), FirstNew(rest);
    m[l := OneStory(m[l], rest[f], title, summary)] + (rest[..f] + rest[f + 1..])
  }

  /** What a merge of two halves comes to, given the reply to its one possible question. */
  function SeamOutcome(first: seq<ClusterResult>, second: seq<ClusterResult>, reply: Reply): Outcome<seq<ClusterResult>> {
    if !SeamAsked(first, second) then Done(Joined(first, second))
    else match reply
      case NoAnswer => Failed(CallFailed)
      case Answer(Story(true, title, summary), _, _) => Done(JoinedAsOne(first, second, title, summary))
      case Answer(Story(false, _, _), _, _) => Done(Joined(first, second))
      case Answer(_, _, _) => Failed(StoryUnreadable)
  }

  method LastNewIndex(rs: seq<ClusterResult>) returns (l: int)
    ensures l == LastNew(rs)
  {
    l := |rs| - 1;
    assert rs[..l + 1] == rs;
    while l >= 0 && rs[l].kind != New
      invariant -1 <= l < |rs|
      invariant LastNew(rs) == LastNew(rs[..l + 1])
    {
      assert rs[..l + 1][..l] == rs[..l];
      l := l - 1;
    }
    if l >= 0 {
      assert rs[..l + 1][|rs[..l + 1]| - 1] == rs[l];
    }
  }

  method FirstNewIndex(rs: seq<ClusterResult>) returns (f: int)
    ensures f == FirstNew(rs)
  {
    FirstNewExactly(rs);
    for i := 0 to |rs|
      invariant forall j :: 0 <= j < i ==> rs[j].kind != New
    {
      if rs[i].kind == New {
        return i;
      }
    }
    return -1;
  }

  /** The first extend of id in the second half that is not used yet, or -1. */
  method FindExtend(second: seq<ClusterResult>, used: set<int>, id: int) returns (found: int)
    ensures found == NextExtend(second, used, id, 0)
  {
    found := -1;
    var j := 0;
    while j < |second| && found < 0
      invariant 0 <= j <= |second|
      invariant found == -1 ==> NextExtend(second, used, id, 0) == NextExtend(second, used, id, j)
      invariant found != -1 ==> 0 <= found < |second| && found == NextExtend(second, used, id, 0)
    {
      if j !in used && second[j].ExtendsID(id) {
        found := j;
      }
      j := j + 1;
    }
  }

  lemma PairedMore(first: seq<ClusterResult>, f: ClusterResult, second: seq<ClusterResult>)
    ensures var h := Paired(first, second);
            var j := if f.kind == Extends then NextExtend(second, h.used, f.narrativeID, 0) else -1;
            Paired(first + [f], second) ==
              if 0 <= j < |second| then
                Halves(h.merged + [Absorb(f, second[j].events, second[j].context, By(second[j]))], h.used + {j})
              else Halves(h.merged + [f], h.used)
  {
    assert (first + [f])[..|first + [f]| - 1] == first;
  }

  /** Every cluster of the first half, an extend joined by the second half's extend of its narrative. */
  method PairHalves(first: seq<ClusterResult>, second: seq<ClusterResult>) returns (merged: seq<ClusterResult>, used: set<int>)
    ensures Halves(merged, used) == Paired(first, second)
  {
    merged, used := [], {};
    for i := 0 to |first|
      invariant Halves(merged, used) == Paired(first[..i], second)
    {
      assert first[..i + 1] == first[..i] + [first[i]];
      var f := first[i];
      PairedMore(first[..i], f, second);
      if f.kind != Extends {
        merged := merged + [f];
        continue;
      }
      var found := FindExtend(second, used, f.narrativeID);
      NextExtendExactly(second, used, f.narrativeID, 0);
      if found >= 0 {
        var combined := AbsorbInto(f, second[found].events, second[found].context, By(second[found]));
        merged := merged + [combined];
        used := used + {found};
      } else {
        merged := merged + [f];
      }
    }
    assert first[..|first|] == first;
  }

  /** The second half's clusters not used, in order. */
  method KeepUnused(second: seq<ClusterResult>, used: set<int>) returns (rest: seq<ClusterResult>)
    ensures var positions := Leftover(used, |second|);
            (forall t :: 0 <= t < |positions| ==> 0 <= positions[t] < |second|) && rest == At(second, positions)
  {
    rest := [];
    ghost var positions: seq<int> := [];
    for j := 0 to |second|
      invariant positions == Leftover(used, j)
      invariant forall t :: 0 <= t < |positions| ==> 0 <= positions[t] < |second|
      invariant rest == At(second, positions)
    {
      if j !in used {
        rest := rest + [second[j]];
        positions := positions + [j];
      }
    }
    LeftoverExactly(used, |second|);
  }

  /** The seam's two clusters as one story, or None when the model says they are two. */
  function SameStory(reply: Reply, a: ClusterResult, b: ClusterResult): Outcome<Option<ClusterResult>> {
    match reply
    case NoAnswer => Failed(CallFailed)
    case Answer(Story(true, title, summary), _, _) => Done(Some(OneStory(a, b, title, summary)))
    case Answer(Story(false, _, _), _, _) => Done(None)
    case Answer(_, _, _) => Failed(StoryUnreadable)
  }

  method CheckSameStory(reply: Reply, a: ClusterResult, b: ClusterResult) returns (out: Outcome<Option<ClusterResult>>)
    ensures out == SameStory(reply, a, b)
  {
    if reply.NoAnswer? {
      return Failed(CallFailed);
    }
    var body := reply.body;
    if !body.Story? {
      return Failed(StoryUnreadable);
    }
    if !body.same {
      return Done(None);
    }
    var story := ClusterResult(New, 0, body.title, body.summary, a.events, a.context, a.confidence, a.overrides);
    story := AbsorbInto(story, b.events, b.context, By(b));
    return Done(Some(story));
  }

  lemma SeamOutcomeIs(
    first: seq<ClusterResult>, second: seq<ClusterResult>, reply: Reply, merged: seq<ClusterResult>, rest: seq<ClusterResult>)
    requires merged == Paired(first, second).merged && rest == Unused(first, second)
    ensures -1 <= LastNew(merged) < |merged| && -1 <= FirstNew(rest) < |rest|
    ensures SeamAsked(first, second) <==> LastNew(merged) >= 0 && FirstNew(rest) >= 0
    ensures var l, f := LastNew(merged), FirstNew(rest);
            SeamOutcome(first, second, reply) ==
              if l < 0 || f < 0 then Done(merged + rest)
              else
                var story := SameStory(reply, merged[l], rest[f]);
                if story.Failed? then Failed(story.reason)
                else if story.value.None? then Done(merged + rest)
                else Done(merged[l := story.value.value] + (rest[..f] + rest[f + 1..]))
  {
    LastNewExactly(merged);
    FirstNewExactly(rest);
  }

  method MergeSplitResults(replies: Replies, at: nat, first: seq<ClusterResult>, second: seq<ClusterResult>)
    returns (out: Outcome<seq<ClusterResult>>, stats: Stats, next: nat)
    ensures out == SeamOutcome(first, second, replies(at))
    ensures next == (if SeamAsked(first, second) then at + 1 else at)
    ensures stats == NOTHING.(mergeChecks := next - at,
                              calls := if SeamAsked(first, second) && replies(at).Answer? then 1 else 0)
  {
    var merged, used := PairHalves(first, second);
    var rest := KeepUnused(second, used);
    SeamOutcomeIs(first, second, replies(at), merged, rest);
    next := at;
    stats := NOTHING;
    var l := LastNewIndex(merged);
    var f := FirstNewIndex(rest);
    LastNewExactly(merged);
    FirstNewExactly(rest);
    if l == -1 || f == -1 {
      return Done(merged + rest), stats, next;
    }
    next := at + 1;
    stats := NOTHING.(mergeChecks := 1, calls := if replies(at).Answer? then 1 else 0);
    var story := CheckSameStory(replies(at), merged[l], rest[f]);
    if story.Failed? {
      return Failed(story.reason), stats, next;
    }
    if story.value.None? {
      return Done(merged + rest), stats, next;
    }
    return Done(merged[l := story.value.value] + (rest[..f] + rest[f + 1..])), stats, next;
  }
}
