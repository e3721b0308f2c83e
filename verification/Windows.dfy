/** Which narratives a window is shown, which events it numbers, and how it is cut in two. */
module Windows {
  import opened Events
  import opened Oracle
  import opened ContextFit

  /** The narratives whose window overlaps or touches w, in order. */
  function Relevant(ns: seq<Narrative>, w: TimeRange): seq<Narrative> {
    if ns == [] then []
    else
      var before, n := Relevant(ns[..|ns| - 1], w), ns[|ns| - 1];
      if n.windowEnd < w.start || n.windowStart > w.end then before else before + [n]
  }

  method FilterAdjacentOrOverlapping(ns: seq<Narrative>, w: TimeRange) returns (out: seq<Narrative>)
    ensures out == Relevant(ns, w)
  {
    out := [];
    for i := 0 to |ns|
      invariant out == Relevant(ns[..i], w)
    {
      assert ns[..i + 1][..i] == ns[..i];
      if ns[i].windowEnd < w.start || ns[i].windowStart > w.end {
        continue;
      }
      out := out + [ns[i]];
    }
    assert ns[..|ns|] == ns;
  }

  lemma {:induction false} RelevantExactly(ns: seq<Narrative>, w: TimeRange)
    ensures forall n :: n in Relevant(ns, w) <==> n in ns && n.windowEnd >= w.start && n.windowStart <= w.end
  {
    if ns != [] {
      RelevantExactly(ns[..|ns| - 1], w);
      assert ns == ns[..|ns| - 1] + [ns[|ns| - 1]];
    }
  }

  /** x is in the span, its ends included. */
  predicate InSpan(x: int, start: int, end: int) {
    start <= x <= end
  }

  /** Some instant is in both spans. */
  ghost predicate Meet(a: int, b: int, c: int, d: int) {
    exists x :: InSpan(x, a, b) && InSpan(x, c, d)
  }

  /** A narrative is shown to a window exactly when some instant is in both, ends included. */
  lemma RelevantMeets(ns: seq<Narrative>, w: TimeRange, n: Narrative)
    requires n in ns && n.windowStart <= n.windowEnd && w.start <= w.end
    ensures n in Relevant(ns, w) <==> Meet(n.windowStart, n.windowEnd, w.start, w.end)
  {
    RelevantExactly(ns, w);
    if n in Relevant(ns, w) {
      var x := if n.windowStart > w.start then n.windowStart else w.start;
      assert InSpan(x, n.windowStart, n.windowEnd) && InSpan(x, w.start, w.end);
    }
  }

  lemma {:induction false} EligibleExactly(ns: seq<Narrative>)
    ensures forall e :: e in Eligible(ns) <==> EligibleOf(ns, e)
  {
    if ns != [] {
      var m := |ns| - 1;
      EligibleExactly(ns[..m]);
      assert ns == ns[..m] + [ns[m]];
      forall e | e in Eligible(ns) ensures EligibleOf(ns, e) {
        if e in Eligible(ns[..m]) {
          var n :| n in ns[..m] && e in n.eligible;
          assert n in ns;
        } else {
          assert ns[m] in ns;
        }
      }
      forall e | EligibleOf(ns, e) ensures e in Eligible(ns) {
        var n :| n in ns && e in n.eligible;
        if n in ns[..m] { assert EligibleOf(ns[..m], e); }
      }
    }
  }

  /** Some narrative holds e as an eligible event. */
  ghost predicate EligibleOf(ns: seq<Narrative>, e: Event) {
    exists n :: n in ns && e in n.eligible
  }

  /** Fewer narratives, fewer eligible events. */
  lemma EligibleWithin(some: seq<Narrative>, all: seq<Narrative>)
    requires forall n :: n in some ==> n in all
    ensures forall e :: e in Eligible(some) ==> e in Eligible(all)
  {
    EligibleExactly(some);
    EligibleExactly(all);
    forall e | e in Eligible(some) ensures e in Eligible(all) {
      var n :| n in some && e in n.eligible;
      assert EligibleOf(all, e);
    }
  }

  /** The one index space of a call: the in-window events, then the eligible ones, none twice. */
  method AssignableEvents(inWindow: seq<Event>, ns: seq<Narrative>) returns (out: Outcome<seq<Event>>)
    ensures out == if UniqueKeys(inWindow + Eligible(ns)) then Done(inWindow + Eligible(ns)) else Failed(NumberedTwice)
  {
    var all := inWindow;
    for i := 0 to |ns|
      invariant all == inWindow + Eligible(ns[..i])
    {
      assert ns[..i + 1][..i] == ns[..i];
      all := all + ns[i].eligible;
    }
    assert ns[..|ns|] == ns;
    var seen: map<EventKey, int> := map[];
    for i := 0 to |all|
      invariant UniqueKeys(all[..i])
      invariant forall k :: k in seen ==> 0 <= seen[k] < i && all[seen[k]].key == k
      invariant forall j :: 0 <= j < i ==> all[j].key in seen
    {
      if all[i].key in seen {
        assert all[seen[all[i].key]].key == all[i].key;
        return Failed(NumberedTwice);
      }
      seen := seen[all[i].key := i];
    }
    assert all[..|all|] == all;
    return Done(all);
  }

  const MIN_DURATION := -0x8000_0000_0000_0000
  const MAX_DURATION := 0x7fff_ffff_ffff_ffff

  /** The length of a window as a duration: one too long for it saturates. */
  function Duration(w: TimeRange): int {
    var d := w.end - w.start;
    if d < MIN_DURATION then MIN_DURATION else if d > MAX_DURATION then MAX_DURATION else d
  }

  /** Half of d, rounded towards zero. */
  function Halved(d: int): int {
    if d >= 0 then d / 2 else -(-d / 2)
  }

  function Middle(w: TimeRange): int {
    w.start + Halved(Duration(w))
  }

  function FirstHalf(w: TimeRange): TimeRange {
    TimeRange(w.start, Middle(w))
  }

  function SecondHalf(w: TimeRange): TimeRange {
    TimeRange(Middle(w), w.end)
  }

  /** The two halves of a window are equally long, to the nanosecond, if its length is a duration at all. */
  lemma HalvesEven(w: TimeRange)
    requires 0 <= w.end - w.start <= MAX_DURATION
    ensures FirstHalf(w).start == w.start && FirstHalf(w).end == SecondHalf(w).start && SecondHalf(w).end == w.end
    ensures var first, second := FirstHalf(w).end - w.start, w.end - SecondHalf(w).start; 0 <= first <= second <= first + 1
  {
  }

  /** Splitting makes progress: each half holds fewer events than the whole. */
  predicate Bisectable(w: TimeRange, inWindow: seq<Event>) {
    && |inWindow| > 1
    && |Within(inWindow, FirstHalf(w))| < |inWindow|
    && |Within(inWindow, SecondHalf(w))| < |inWindow|
  }

  method IsBisectable(w: TimeRange, inWindow: seq<Event>) returns (b: bool)
    ensures b == Bisectable(w, inWindow)
  {
    if |inWindow| <= 1 {
      return false;
    }
    var first := FilterEventsInWindow(inWindow, FirstHalf(w));
    var second := FilterEventsInWindow(inWindow, SecondHalf(w));
    return |first| < |inWindow| && |second| < |inWindow|;
  }

  /**
   * A bisectable window's halves each hold some of its events and together all of them, and
   * see no narrative the whole does not.
   */
  lemma HalvesExactly(evts: seq<Event>, ns: seq<Narrative>, w: TimeRange)
    requires Bisectable(w, Within(evts, w))
    ensures var first, second := FirstHalf(w), SecondHalf(w);
            && 0 < |Within(evts, first)| && 0 < |Within(evts, second)|
            && |Within(evts, first)| + |Within(evts, second)| == |Within(evts, w)|
            && (forall e :: e in Within(evts, w) <==> e in Within(evts, first) || e in Within(evts, second))
            && (forall n :: n in Relevant(ns, first) || n in Relevant(ns, second) ==> n in Relevant(ns, w))
  {
    var inWindow := Within(evts, w);
    WithinExactly(evts, w);
    assert inWindow[0] in inWindow;
    assert w.start <= Middle(w) <= w.end;
    WithinNarrower(evts, w, FirstHalf(w));
    WithinNarrower(evts, w, SecondHalf(w));
    WithinSplits(evts, w, Middle(w));
    WithinExactly(evts, FirstHalf(w));
    WithinExactly(evts, SecondHalf(w));
    RelevantExactly(ns, w);
    RelevantExactly(ns, FirstHalf(w));
    RelevantExactly(ns, SecondHalf(w));
  }
}
