/** Events and time windows: what every stage of a clustering pass reads. */
module Events {

  /** An event's identity within one pass: its source and its id within that source. */
  datatype EventKey = EventKey(source: string, externalID: string)

  /**
   * One observation. `at` is its instant in nanoseconds. `pr` is the pull-request identity
   * PullRequestOf reads from its artifacts, "" when it carries none. `extra` is how much
   * longer than the shortest possible one its rendered detail is (see ContextFit.DetailLen):
   * a prompt depends on an event's text only through that length.
   */
  datatype Event = Event(key: EventKey, at: int, pr: string, extra: nat)

  /** A half-open window [start, end). It may be empty or inverted. */
  datatype TimeRange = TimeRange(start: int, end: int)

  /** The window holds e's instant. */
  predicate InWindow(e: Event, w: TimeRange) {
    w.start <= e.at < w.end
  }

  /** The identities of some events. */
  function Keys(evts: seq<Event>): set<EventKey> {
    set e | e in evts :: e.key
  }

  /** No identity occurs twice. */
  ghost predicate UniqueKeys(evts: seq<Event>) {
    forall i, j :: 0 <= i < j < |evts| ==> evts[i].key != evts[j].key
  }

  /** The events of `evts` inside the window, in order. */
  function Within(evts: seq<Event>, w: TimeRange): seq<Event> {
    if evts == [] then []
    else if InWindow(evts[|evts| - 1], w) then Within(evts[..|evts| - 1], w) + [evts[|evts| - 1]]
    else Within(evts[..|evts| - 1], w)
  }

  method FilterEventsInWindow(evts: seq<Event>, w: TimeRange) returns (out: seq<Event>)
    ensures out == Within(evts, w)
  {
    out := [];
    for i := 0 to |evts|
      invariant out == Within(evts[..i], w)
    {
      assert evts[..i + 1][..i] == evts[..i];
      if InWindow(evts[i], w) {
        out := out + [evts[i]];
      }
    }
    assert evts[..|evts|] == evts;
  }

  lemma {:induction false} WithinExactly(evts: seq<Event>, w: TimeRange)
    ensures forall e :: e in Within(evts, w) <==> e in evts && InWindow(e, w)
    ensures |Within(evts, w)| <= |evts|
  {
    if evts != [] {
      var n := |evts| - 1;
      WithinExactly(evts[..n], w);
      assert evts == evts[..n] + [evts[n]];
    }
  }

  /** Filtering for part of a window reads the same whether or not the rest was dropped first. */
  lemma {:induction false} WithinNarrower(evts: seq<Event>, outer: TimeRange, inner: TimeRange)
    requires outer.start <= inner.start && inner.end <= outer.end
    ensures Within(Within(evts, outer), inner) == Within(evts, inner)
  {
    if evts != [] {
      var n := |evts| - 1;
      WithinNarrower(evts[..n], outer, inner);
      var kept := Within(evts[..n], outer);
      if InWindow(evts[n], outer) {
        assert (kept + [evts[n]])[..|kept|] == kept;
      }
    }
  }

  /** Cutting a window in two splits its events in two: none lost, none counted twice. */
  lemma {:induction false} WithinSplits(evts: seq<Event>, w: TimeRange, mid: int)
    requires w.start <= mid <= w.end
    ensures |Within(evts, w)| == |Within(evts, TimeRange(w.start, mid))| + |Within(evts, TimeRange(mid, w.end))|
  {
    if evts != [] {
      WithinSplits(evts[..|evts| - 1], w, mid);
    }
  }

  lemma KeysConcat(a: seq<Event>, b: seq<Event>)
    ensures Keys(a + b) == Keys(a) + Keys(b)
  {
    forall k | k in Keys(a) + Keys(b) ensures k in Keys(a + b) {
      var e :| (e in a || e in b) && e.key == k;
      assert e in a + b;
    }
    forall k | k in Keys(a + b) ensures k in Keys(a) + Keys(b) {
      var e :| e in a + b && e.key == k;
      assert e in a || e in b;
    }
  }

  lemma InKeys(e: Event, evts: seq<Event>)
    requires e in evts
    ensures e.key in Keys(evts)
  {
  }

  /** With unique identities, one event per identity. */
  lemma SameKeySameEvent(evts: seq<Event>, a: Event, b: Event)
    requires UniqueKeys(evts) && a in evts && b in evts && a.key == b.key
    ensures a == b
  {
    var i :| 0 <= i < |evts| && evts[i] == a;
    var j :| 0 <= j < |evts| && evts[j] == b;
  }
}
