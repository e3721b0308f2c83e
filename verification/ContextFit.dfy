/** Fitting each call's context narratives to the prompt budget, and why the fit is never too small. */
module ContextFit {
  import opened Events
  import opened Oracle
  import opened Prompts

  /**
   * A stored narrative as a clustering call sees it. `heading` is the length of its header
   * and summary lines. Its frozen events are shown as detail, its eligible ones are numbered,
   * and its background is another narrative's work.
   */
  datatype Narrative = Narrative(
    id: int,
    windowStart: int,
    windowEnd: int,
    heading: nat,
    frozen: seq<Event>,
    eligible: seq<Event>,
    background: seq<Event>)

  const EVENTS_HEADING := |"Events to cluster:\n"|
  const CONTEXT_HEADING := |"\nExisting narratives (CONTEXT ONLY):\n"|
  const NO_CONTEXT := |"(none)\n"|
  const FROZEN_HEADING := |"  events:\n"|
  const BACKGROUND_HEADING := |"  background (another narrative's work, linked here as context):\n"|
  const BULLET := |"    - "|
  const BACK_REFERENCE := |"    - -> #"|
  /** The estimated tokens one context narrative's cluster adds to an omission round. */
  const FOLLOWUP := 401

  /**
   * An event's detail, "[source] summary (occurred_at=stamp)": the punctuation, a quoted
   * summary of at least its quotes, a stamp of at least 20 characters, and whatever is longer.
   */
  function DetailLen(e: Event): nat {
    |"[] \"\" (occurred_at=2026-01-01T00:00:00Z)\n"| + e.extra
  }

  function NumberedLen(i: nat, e: Event): nat {
    Digits(i) + |". "| + DetailLen(e)
  }

  /** A list of events numbered from i. */
  function NumberedListLen(i: nat, evts: seq<Event>): nat {
    if evts == [] then 0
    else NumberedListLen(i, evts[..|evts| - 1]) + NumberedLen(i + |evts| - 1, evts[|evts| - 1])
  }

  function FrozenLen(evts: seq<Event>): nat {
    if evts == [] then 0 else FrozenLen(evts[..|evts| - 1]) + BULLET + DetailLen(evts[|evts| - 1])
  }

  /** A background line: a back-reference when the event is numbered, its detail when it is not. */
  function BackgroundLineLen(e: Event, number: map<EventKey, nat>): nat {
    if e.key in number then BACK_REFERENCE + Digits(number[e.key]) + 1 else BULLET + DetailLen(e)
  }

  function BackgroundLen(evts: seq<Event>, number: map<EventKey, nat>): nat {
    if evts == [] then 0
    else BackgroundLen(evts[..|evts| - 1], number) + BackgroundLineLen(evts[|evts| - 1], number)
  }

  /** A narrative's block: everything but its eligible events, which are numbered above. */
  function BlockLen(n: Narrative, number: map<EventKey, nat>): nat {
    n.heading
    + (if n.frozen == [] then 0 else FROZEN_HEADING + FrozenLen(n.frozen))
    + (if n.background == [] then 0 else BACKGROUND_HEADING + BackgroundLen(n.background, number))
  }

  function BlocksLen(ns: seq<Narrative>, number: map<EventKey, nat>): nat {
    if ns == [] then 0 else BlocksLen(ns[..|ns| - 1], number) + BlockLen(ns[|ns| - 1], number)
  }

  /** The eligible events of some narratives, in order. */
  function Eligible(ns: seq<Narrative>): seq<Event> {
    if ns == [] then [] else Eligible(ns[..|ns| - 1]) + ns[|ns| - 1].eligible
  }

  /** The number each event is listed under; a repeat would take its last. */
  function Numbers(evts: seq<Event>): map<EventKey, nat> {
    if evts == [] then map[] else Numbers(evts[..|evts| - 1])[evts[|evts| - 1].key := |evts| - 1]
  }

  /** The rendered clustering prompt: the numbered events, then every narrative's block. */
  function PromptLen(system: nat, inWindow: seq<Event>, ns: seq<Narrative>): nat {
    var evts := inWindow + Eligible(ns);
    system + EVENTS_HEADING + NumberedListLen(0, evts) + CONTEXT_HEADING
    + (if ns == [] then NO_CONTEXT else 0) + BlocksLen(ns, Numbers(evts))
  }

  /** The numbered events and context headings: what every prompt carries before any narrative. */
  function BaseLen(system: nat, inWindow: seq<Event>): nat {
    system + EVENTS_HEADING + NumberedListLen(0, inWindow) + CONTEXT_HEADING
  }

  /** Adds numbers for events not numbered yet: an event numbered twice keeps its first. */
  function Tentative(number: map<EventKey, nat>, next: nat, evts: seq<Event>): map<EventKey, nat> {
    if evts == [] then number
    else
      var before, e := Tentative(number, next, evts[..|evts| - 1]), evts[|evts| - 1];
      if e.key in before then before else before[e.key := next + |evts| - 1]
  }

  /** What a narrative would add to the prompt, rendered with the numbers known so far and its own. */
  function PieceLen(number: map<EventKey, nat>, next: nat, n: Narrative): nat {
    NumberedListLen(next, n.eligible) + BlockLen(n, Tentative(number, next, n.eligible))
  }

  /** The fit so far: what is kept and left out, the running size, and the numbers in use. */
  datatype Fit = Fit(kept: seq<Narrative>, unfitted: seq<int>, used: nat, next: nat, number: map<EventKey, nat>)

  /** One more narrative fits, with room for its follow-up. */
  predicate HasRoom(f: Fit, n: Narrative, budget: int) {
    Tokens(f.used + PieceLen(f.number, f.next, n)) + (|f.kept| + 1) * FOLLOWUP <= budget
  }

  /** One more narrative: kept if it fits, and otherwise left out whole. */
  function FitOne(f: Fit, n: Narrative, budget: int): Fit {
    if !HasRoom(f, n, budget) then f.(unfitted := f.unfitted + [n.id])
    else
      Fit(f.kept + [n], f.unfitted, f.used + PieceLen(f.number, f.next, n), f.next + |n.eligible|,
          Tentative(f.number, f.next, n.eligible))
  }

  function FitAll(start: Fit, ns: seq<Narrative>, budget: int): Fit {
    if ns == [] then start else FitOne(FitAll(start, ns[..|ns| - 1], budget), ns[|ns| - 1], budget)
  }

  function Start(system: nat, inWindow: seq<Event>): Fit {
    Fit([], [], BaseLen(system, inWindow), |inWindow|, Numbers(inWindow))
  }

  /** The estimate with no context at all. */
  function BaseTokens(system: nat, inWindow: seq<Event>): nat {
    Tokens(BaseLen(system, inWindow) + NO_CONTEXT)
  }

  // The fit, said without running it.

  /** The numbers in use once some narratives are kept, one after another. */
  ghost function NumbersWith(inWindow: seq<Event>, kept: seq<Narrative>): map<EventKey, nat> {
    if kept == [] then Numbers(inWindow)
    else
      var n := |kept| - 1;
      Tentative(NumbersWith(inWindow, kept[..n]), |inWindow| + |Eligible(kept[..n])|, kept[n].eligible)
  }

  /** What a prompt keeping some narratives is measured at: the events, then each narrative as it is added. */
  ghost function Measured(system: nat, inWindow: seq<Event>, kept: seq<Narrative>): nat {
    if kept == [] then BaseLen(system, inWindow)
    else
      var n := |kept| - 1;
      Measured(system, inWindow, kept[..n])
      + PieceLen(NumbersWith(inWindow, kept[..n]), |inWindow| + |Eligible(kept[..n])|, kept[n])
  }

  /** The narratives fit the budget together, each with its follow-up. */
  ghost predicate FitTogether(system: nat, inWindow: seq<Event>, kept: seq<Narrative>, budget: int) {
    Tokens(Measured(system, inWindow, kept)) + |kept| * FOLLOWUP <= budget
  }

  /** Of the first n narratives, those chosen. */
  ghost function Chosen(ns: seq<Narrative>, which: seq<bool>, n: nat): (kept: seq<Narrative>)
    requires n <= |ns| == |which|
  {
    if n == 0 then [] else Chosen(ns, which, n - 1) + if which[n - 1] then [ns[n - 1]] else []
  }

  /** The ids of the others. */
  ghost function NotChosen(ns: seq<Narrative>, which: seq<bool>, n: nat): seq<int>
    requires n <= |ns| == |which|
  {
    if n == 0 then [] else NotChosen(ns, which, n - 1) + if which[n - 1] then [] else [ns[n - 1].id]
  }

  /** Whether some narratives fit together. */
  ghost function Fitting(system: nat, inWindow: seq<Event>, budget: int): seq<Narrative> -> bool {
    kept => FitTogether(system, inWindow, kept, budget)
  }

  /** The i-th narrative passes together with those chosen before it. */
  ghost predicate Passes(test: seq<Narrative> -> bool, ns: seq<Narrative>, which: seq<bool>, i: nat)
    requires i < |ns| == |which|
  {
    test(Chosen(ns, which, i) + [ns[i]])
  }

  /** Each narrative is chosen exactly when it passes together with those chosen before it. */
  ghost predicate Greedy(test: seq<Narrative> -> bool, ns: seq<Narrative>, which: seq<bool>) {
    |which| == |ns| && forall i {:trigger Passes(test, ns, which, i)} :: 0 <= i < |ns| ==> (which[i] <==> Passes(test, ns, which, i))
  }

  lemma {:induction false} ChosenPrefix(ns: seq<Narrative>, which: seq<bool>, more: seq<Narrative>, others: seq<bool>, n: nat)
    requires n <= |ns| == |which| && |more| == |others|
    ensures Chosen(ns + more, which + others, n) == Chosen(ns, which, n)
    ensures NotChosen(ns + more, which + others, n) == NotChosen(ns, which, n)
  {
    if n > 0 { ChosenPrefix(ns, which, more, others, n - 1); }
  }

  lemma GreedyMore(test: seq<Narrative> -> bool, ns: seq<Narrative>, which: seq<bool>, n: Narrative)
    requires Greedy(test, ns, which)
    ensures var fits := test(Chosen(ns, which, |ns|) + [n]);
            && Greedy(test, ns + [n], which + [fits])
            && Chosen(ns + [n], which + [fits], |ns| + 1) == Chosen(ns, which, |ns|) + (if fits then [n] else [])
            && NotChosen(ns + [n], which + [fits], |ns| + 1) == NotChosen(ns, which, |ns|) + (if fits then [] else [n.id])
  {
    var fits := test(Chosen(ns, which, |ns|) + [n]);
    var all, flags := ns + [n], which + [fits];
    ChosenPrefix(ns, which, [n], [fits], |ns|);
    forall i | 0 <= i < |all| ensures flags[i] <==> Passes(test, all, flags, i) {
      if i < |ns| {
        ChosenPrefix(ns, which, [n], [fits], i);
        assert which[i] <==> Passes(test, ns, which, i);
      }
    }
  }

  /** The room a fit has taken is what its narratives are measured at. */
  ghost predicate MeasuresUp(system: nat, inWindow: seq<Event>, f: Fit) {
    && f.used == Measured(system, inWindow, f.kept) && f.number == NumbersWith(inWindow, f.kept)
    && f.next == |inWindow| + |Eligible(f.kept)|
  }

  lemma MeasuredMore(system: nat, inWindow: seq<Event>, kept: seq<Narrative>, n: Narrative)
    ensures Measured(system, inWindow, kept + [n]) ==
            Measured(system, inWindow, kept) + PieceLen(NumbersWith(inWindow, kept), |inWindow| + |Eligible(kept)|, n)
    ensures NumbersWith(inWindow, kept + [n]) == Tentative(NumbersWith(inWindow, kept), |inWindow| + |Eligible(kept)|, n.eligible)
    ensures Eligible(kept + [n]) == Eligible(kept) + n.eligible
  {
    assert (kept + [n])[..|kept + [n]| - 1] == kept;
  }

  lemma RoomExactly(system: nat, inWindow: seq<Event>, f: Fit, n: Narrative, budget: int)
    requires MeasuresUp(system, inWindow, f)
    ensures HasRoom(f, n, budget) <==> FitTogether(system, inWindow, f.kept + [n], budget)
  {
    MeasuredMore(system, inWindow, f.kept, n);
  }

  lemma StillMeasuresUp(system: nat, inWindow: seq<Event>, f: Fit, n: Narrative, budget: int)
    requires MeasuresUp(system, inWindow, f)
    ensures MeasuresUp(system, inWindow, FitOne(f, n, budget))
  {
    if HasRoom(f, n, budget) { MeasuredMore(system, inWindow, f.kept, n); }
  }

  /** kept is what is chosen, and unfitted names what is not, when each is taken exactly if it fits with those before it. */
  ghost predicate KeptAsFit(
    system: nat, inWindow: seq<Event>, ns: seq<Narrative>, budget: int, kept: seq<Narrative>, unfitted: seq<int>)
  {
    exists which :: KeptBy(Fitting(system, inWindow, budget), ns, which, kept, unfitted)
  }

  ghost predicate KeptBy(
    test: seq<Narrative> -> bool, ns: seq<Narrative>, which: seq<bool>, kept: seq<Narrative>, unfitted: seq<int>)
  {
    Greedy(test, ns, which) && kept == Chosen(ns, which, |ns|) && unfitted == NotChosen(ns, which, |ns|)
  }

  lemma KeptByMore(
    test: seq<Narrative> -> bool, ns: seq<Narrative>, which: seq<bool>, kept: seq<Narrative>, unfitted: seq<int>, n: Narrative)
    requires KeptBy(test, ns, which, kept, unfitted)
    ensures test(kept + [n]) ==> KeptBy(test, ns + [n], which + [true], kept + [n], unfitted)
    ensures !test(kept + [n]) ==> KeptBy(test, ns + [n], which + [false], kept, unfitted + [n.id])
  {
    GreedyMore(test, ns, which, n);
    assert kept + [] == kept && unfitted + [] == unfitted;
  }

  /** A fit that has taken the room its narratives measure, and kept each exactly when it fitted. */
  ghost predicate FitsSoFar(system: nat, inWindow: seq<Event>, ns: seq<Narrative>, budget: int, f: Fit) {
    MeasuresUp(system, inWindow, f) && KeptAsFit(system, inWindow, ns, budget, f.kept, f.unfitted)
  }

  lemma NothingFitted(system: nat, inWindow: seq<Event>, budget: int)
    ensures FitsSoFar(system, inWindow, [], budget, Start(system, inWindow))
  {
    assert KeptBy(Fitting(system, inWindow, budget), [], [], [], []);
  }

  lemma FitOneMore(system: nat, inWindow: seq<Event>, ns: seq<Narrative>, budget: int, f: Fit, n: Narrative)
    requires FitsSoFar(system, inWindow, ns, budget, f)
    ensures FitsSoFar(system, inWindow, ns + [n], budget, FitOne(f, n, budget))
  {
    var test := Fitting(system, inWindow, budget);
    var which :| KeptBy(test, ns, which, f.kept, f.unfitted);
    RoomExactly(system, inWindow, f, n, budget);
    StillMeasuresUp(system, inWindow, f, n, budget);
    KeptByMore(test, ns, which, f.kept, f.unfitted, n);
  }

  lemma {:induction false} FitIsGreedy(system: nat, inWindow: seq<Event>, ns: seq<Narrative>, budget: int)
    ensures FitsSoFar(system, inWindow, ns, budget, FitAll(Start(system, inWindow), ns, budget))
  {
    if ns == [] {
      NothingFitted(system, inWindow, budget);
    } else {
      var init, n := ns[..|ns| - 1], ns[|ns| - 1];
      FitIsGreedy(system, inWindow, init, budget);
      FitOneMore(system, inWindow, init, budget, FitAll(Start(system, inWindow), init, budget), n);
      assert ns == init + [n];
    }
  }

  /** Numbers tentatively the events of one narrative not numbered yet, noting which. */
  method NumberTentatively(number: map<EventKey, nat>, next: nat, evts: seq<Event>)
    returns (all: map<EventKey, nat>, added: set<EventKey>, size: nat)
    ensures all == Tentative(number, next, evts)
    ensures added !! number.Keys && all.Keys == number.Keys + added && all - added == number
    ensures size == NumberedListLen(next, evts)
  {
    all, added, size := number, {}, 0;
    for j := 0 to |evts|
      invariant all == Tentative(number, next, evts[..j])
      invariant added !! number.Keys && all.Keys == number.Keys + added && all - added == number
      invariant size == NumberedListLen(next, evts[..j])
    {
      assert evts[..j + 1][..j] == evts[..j];
      size := size + NumberedLen(next + j, evts[j]);
      var k := evts[j].key;
      if k !in all {
        all := all[k := next + j];
        added := added + {k};
      }
    }
    assert evts[..|evts|] == evts;
  }

  method FitContextNarratives(system: nat, inWindow: seq<Event>, relevant: seq<Narrative>, budget: int)
    returns (kept: seq<Narrative>, unfitted: seq<int>, baseTokens: nat)
    ensures var f := FitAll(Start(system, inWindow), relevant, budget); kept == f.kept && unfitted == f.unfitted
    ensures KeptAsFit(system, inWindow, relevant, budget, kept, unfitted)
    ensures baseTokens == BaseTokens(system, inWindow)
  {
    var number: map<EventKey, nat> := map[];
    var events: nat := 0;
    for i := 0 to |inWindow|
      invariant number == Numbers(inWindow[..i]) && events == NumberedListLen(0, inWindow[..i])
    {
      assert inWindow[..i + 1][..i] == inWindow[..i];
      number := number[inWindow[i].key := i];
      events := events + NumberedLen(i, inWindow[i]);
    }
    assert inWindow[..|inWindow|] == inWindow;
    var used: nat := system + EVENTS_HEADING + events + CONTEXT_HEADING;
    baseTokens := Tokens(used + NO_CONTEXT);
    var next: nat := |inWindow|;
    kept, unfitted := [], [];
    ghost var start := Start(system, inWindow);
    for i := 0 to |relevant|
      invariant Fit(kept, unfitted, used, next, number) == FitAll(start, relevant[..i], budget)
    {
      assert relevant[..i + 1][..i] == relevant[..i];
      var n := relevant[i];
      var added, size;
      ghost var was := number;
      number, added, size := NumberTentatively(number, next, n.eligible);
      var piece := size + BlockLen(n, number);
      if Tokens(used + piece) + (|kept| + 1) * FOLLOWUP > budget {
        number := number - added;
        assert number == was;
        unfitted := unfitted + [n.id];
        continue;
      }
      used := used + piece;
      next := next + |n.eligible|;
      kept := kept + [n];
    }
    assert relevant[..|relevant|] == relevant;
    FitIsGreedy(system, inWindow, relevant, budget);
  }
}
