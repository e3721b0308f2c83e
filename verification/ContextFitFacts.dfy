/** The running size of a fit bounds the prompt that is sent. */
module ContextFitFacts {
  import opened Events
  import opened Prompts
  import opened ContextFit
  import Text

  lemma FourDigits(n: nat)
    ensures Digits(n) <= 4 + Digits(n / 10000)
  {
    assert Digits(n) <= 1 + Digits(n / 10) && Digits(n / 10) <= 1 + Digits(n / 100);
    assert Digits(n / 100) <= 1 + Digits(n / 1000) && Digits(n / 1000) <= 1 + Digits(n / 10000);
  }

  /** A back-reference is never longer than the detail line it stands for. */
  lemma BackReferenceShorter(e: Event, i: nat)
    requires i <= Text.MAX_INT
    ensures BACK_REFERENCE + Digits(i) + 1 <= BULLET + DetailLen(e)
  {
    var a := i / 10000;
    var b := a / 10000;
    var c := b / 10000;
    var d := c / 10000;
    assert d < 10000;
    FourDigits(i);
    FourDigits(a);
    FourDigits(b);
    FourDigits(c);
    FewDigits(d);
  }

  lemma FewDigits(n: nat)
    requires n < 10000
    ensures Digits(n) <= 4
  {
    assert Digits(n) <= 1 + Digits(n / 10) && Digits(n / 10) <= 1 + Digits(n / 100) && Digits(n / 100) <= 1 + Digits(n / 1000);
    assert n / 1000 < 10;
  }

  /** number' adds numbers to number, changing none. */
  ghost predicate Extends(number: map<EventKey, nat>, number': map<EventKey, nat>) {
    && (forall k :: k in number ==> k in number' && number'[k] == number[k])
    && (forall k :: k in number' ==> number'[k] <= Text.MAX_INT)
  }

  lemma {:induction false} BackgroundShrinks(evts: seq<Event>, number: map<EventKey, nat>, number': map<EventKey, nat>)
    requires Extends(number, number')
    ensures BackgroundLen(evts, number') <= BackgroundLen(evts, number)
  {
    if evts != [] {
      BackgroundShrinks(evts[..|evts| - 1], number, number');
      var e := evts[|evts| - 1];
      if e.key in number' && e.key !in number {
        BackReferenceShorter(e, number'[e.key]);
      }
    }
  }

  /** Later numbering only shortens what was already measured. */
  lemma {:induction false} BlocksShrink(ns: seq<Narrative>, number: map<EventKey, nat>, number': map<EventKey, nat>)
    requires Extends(number, number')
    ensures BlocksLen(ns, number') <= BlocksLen(ns, number)
  {
    if ns != [] {
      BlocksShrink(ns[..|ns| - 1], number, number');
      BackgroundShrinks(ns[|ns| - 1].background, number, number');
    }
  }

  lemma {:induction false} NumberedListSplits(i: nat, a: seq<Event>, b: seq<Event>)
    ensures NumberedListLen(i, a + b) == NumberedListLen(i, a) + NumberedListLen(i + |a|, b)
  {
    if b == [] {
      assert a + b == a;
    } else {
      assert (a + b)[..|a + b| - 1] == a + b[..|b| - 1];
      NumberedListSplits(i, a, b[..|b| - 1]);
    }
  }

  lemma {:induction false} NumbersExactly(evts: seq<Event>)
    ensures Numbers(evts).Keys == Keys(evts)
    ensures forall k :: k in Numbers(evts) ==> Numbers(evts)[k] < |evts|
  {
    if evts != [] {
      NumbersExactly(evts[..|evts| - 1]);
      KeysConcat(evts[..|evts| - 1], [evts[|evts| - 1]]);
      assert evts == evts[..|evts| - 1] + [evts[|evts| - 1]];
    }
  }

  lemma UniquePrefix(a: seq<Event>, b: seq<Event>, n: nat)
    requires UniqueKeys(a + b) && n <= |b|
    ensures UniqueKeys(a + b[..n])
    ensures n < |b| ==> b[n].key !in Keys(a + b[..n])
  {
    forall i, j | 0 <= i < j < |a + b[..n]| ensures (a + b[..n])[i].key != (a + b[..n])[j].key {
      assert (a + b[..n])[i] == (a + b)[i] && (a + b[..n])[j] == (a + b)[j];
    }
    if n < |b| {
      assert (a + b)[|a| + n] == b[n];
      forall e | e in a + b[..n] ensures e.key != b[n].key {
        var i :| 0 <= i < |a + b[..n]| && (a + b[..n])[i] == e;
        assert (a + b)[i] == e;
      }
    }
  }

  /** Numbering a narrative's events tentatively gives them the numbers the prompt will. */
  lemma {:induction false} TentativeIsNumbers(evts: seq<Event>, more: seq<Event>)
    requires UniqueKeys(evts + more)
    ensures Tentative(Numbers(evts), |evts|, more) == Numbers(evts + more)
  {
    if more == [] {
      assert evts + more == evts;
    } else {
      var n := |more| - 1;
      UniquePrefix(evts, more, n);
      TentativeIsNumbers(evts, more[..n]);
      assert (evts + more)[..|evts + more| - 1] == evts + more[..n];
      NumbersExactly(evts + more[..n]);
    }
  }

  lemma {:induction false} NumbersExtend(evts: seq<Event>, more: seq<Event>)
    requires UniqueKeys(evts + more) && |evts + more| <= Text.MAX_INT
    ensures Extends(Numbers(evts), Numbers(evts + more))
  {
    NumbersExactly(evts + more);
    if more == [] {
      assert evts + more == evts;
    } else {
      var n := |more| - 1;
      UniquePrefix(evts, more, n);
      NumbersExtend(evts, more[..n]);
      assert (evts + more)[..|evts + more| - 1] == evts + more[..n];
      NumbersExactly(evts + more[..n]);
    }
  }

  /** The running size bounds the prompt, and the numbers in use are the kept narratives' alone. */
  ghost predicate Bounded(system: nat, inWindow: seq<Event>, f: Fit, budget: int) {
    var evts := inWindow + Eligible(f.kept);
    && f.next == |evts|
    && f.number == Numbers(evts)
    && system + EVENTS_HEADING + NumberedListLen(0, evts) + CONTEXT_HEADING + BlocksLen(f.kept, Numbers(evts)) <= f.used
    && (if f.kept == [] then f.used == BaseLen(system, inWindow) else Tokens(f.used) + |f.kept| * FOLLOWUP <= budget)
  }

  /** What a kept narrative adds is at least what it adds to the prompt. */
  lemma PieceBounds(evts: seq<Event>, kept: seq<Narrative>, n: Narrative)
    requires UniqueKeys(evts + n.eligible) && |evts + n.eligible| <= Text.MAX_INT
    ensures NumberedListLen(0, evts + n.eligible) + BlocksLen(kept + [n], Numbers(evts + n.eligible)) <=
            NumberedListLen(0, evts) + BlocksLen(kept, Numbers(evts)) + PieceLen(Numbers(evts), |evts|, n)
  {
    TentativeIsNumbers(evts, n.eligible);
    NumbersExtend(evts, n.eligible);
    NumberedListSplits(0, evts, n.eligible);
    BlocksShrink(kept, Numbers(evts), Numbers(evts + n.eligible));
    assert (kept + [n])[..|kept|] == kept;
  }

  lemma BoundedMore(system: nat, inWindow: seq<Event>, f: Fit, n: Narrative, budget: int)
    requires Bounded(system, inWindow, f, budget)
    requires UniqueKeys(inWindow + Eligible(FitOne(f, n, budget).kept)) && |inWindow + Eligible(FitOne(f, n, budget).kept)| <= Text.MAX_INT
    ensures Bounded(system, inWindow, FitOne(f, n, budget), budget)
  {
    var g := FitOne(f, n, budget);
    if |g.kept| > |f.kept| {
      var evts := inWindow + Eligible(f.kept);
      assert g.kept[..|f.kept|] == f.kept;
      assert inWindow + Eligible(g.kept) == evts + n.eligible;
      TentativeIsNumbers(evts, n.eligible);
      PieceBounds(evts, f.kept, n);
    }
  }

  lemma FitOneKeeps(f: Fit, n: Narrative, budget: int)
    ensures f.kept <= FitOne(f, n, budget).kept
  {
  }

  lemma {:induction false} EligiblePrefix(a: seq<Narrative>, b: seq<Narrative>)
    requires a <= b
    ensures Eligible(a) <= Eligible(b)
    decreases |b|
  {
    if a == b {
    } else {
      EligiblePrefix(a, b[..|b| - 1]);
    }
  }

  lemma {:induction false} FitAllBounded(system: nat, inWindow: seq<Event>, ns: seq<Narrative>, budget: int)
    requires var f := FitAll(Start(system, inWindow), ns, budget);
             UniqueKeys(inWindow + Eligible(f.kept)) && |inWindow + Eligible(f.kept)| <= Text.MAX_INT
    ensures Bounded(system, inWindow, FitAll(Start(system, inWindow), ns, budget), budget)
  {
    if ns == [] {
      assert inWindow + [] == inWindow;
    } else {
      var f := FitAll(Start(system, inWindow), ns[..|ns| - 1], budget);
      var g := FitOne(f, ns[|ns| - 1], budget);
      FitOneKeeps(f, ns[|ns| - 1], budget);
      EligiblePrefix(f.kept, g.kept);
      var all := Eligible(g.kept);
      UniquePrefix(inWindow, all, |Eligible(f.kept)|);
      assert all[..|Eligible(f.kept)|] == Eligible(f.kept);
      FitAllBounded(system, inWindow, ns[..|ns| - 1], budget);
      BoundedMore(system, inWindow, f, ns[|ns| - 1], budget);
    }
  }

  /**
   * The prompt sent with the kept narratives is within the budget, with 401 tokens spare for
   * each of them, whenever the window's own events are. It is sent only when no event is
   * numbered twice.
   */
  lemma PromptWithinBudget(system: nat, inWindow: seq<Event>, relevant: seq<Narrative>, budget: int)
    requires BaseTokens(system, inWindow) <= budget
    requires var kept := FitAll(Start(system, inWindow), relevant, budget).kept;
             UniqueKeys(inWindow + Eligible(kept)) && |inWindow + Eligible(kept)| <= Text.MAX_INT
    ensures var kept := FitAll(Start(system, inWindow), relevant, budget).kept;
            Tokens(PromptLen(system, inWindow, kept)) + |kept| * 401 <= budget
  {
    var f := FitAll(Start(system, inWindow), relevant, budget);
    FitAllBounded(system, inWindow, relevant, budget);
    if f.kept == [] {
      assert inWindow + Eligible(f.kept) == inWindow;
    } else {
      TokensMonotone(PromptLen(system, inWindow, f.kept), f.used);
    }
  }

  // Which narratives are kept.

  /** Only one choice takes each narrative exactly when it passes with those taken before it. */
  lemma {:induction false} GreedyUnique(test: seq<Narrative> -> bool, ns: seq<Narrative>, a: seq<bool>, b: seq<bool>, n: nat)
    requires Greedy(test, ns, a) && Greedy(test, ns, b) && n <= |ns|
    ensures a[..n] == b[..n] && Chosen(ns, a, n) == Chosen(ns, b, n)
  {
    if n > 0 {
      GreedyUnique(test, ns, a, b, n - 1);
      assert a[n - 1] <==> Passes(test, ns, a, n - 1);
      assert b[n - 1] <==> Passes(test, ns, b, n - 1);
      assert a[..n] == a[..n - 1] + [a[n - 1]] && b[..n] == b[..n - 1] + [b[n - 1]];
    }
  }

  /** A test that what passes it passes without its last one. */
  ghost predicate Shrinks(test: seq<Narrative> -> bool) {
    forall ns, n :: test(ns + [n]) && ns != [] ==> test(ns)
  }

  lemma FewerFit(system: nat, inWindow: seq<Event>, budget: int)
    ensures Shrinks(Fitting(system, inWindow, budget))
  {
    var test := Fitting(system, inWindow, budget);
    forall ns, n | test(ns + [n]) && ns != [] ensures test(ns) {
      MeasuredMore(system, inWindow, ns, n);
      TokensMonotone(Measured(system, inWindow, ns), Measured(system, inWindow, ns + [n]));
    }
  }

  lemma {:induction false} AllChosen(ns: seq<Narrative>, which: seq<bool>, n: nat)
    requires n <= |ns| == |which|
    ensures NotChosen(ns, which, n) == [] <==> forall i :: 0 <= i < n ==> which[i]
    ensures NotChosen(ns, which, n) == [] ==> Chosen(ns, which, n) == ns[..n]
  {
    if n > 0 {
      AllChosen(ns, which, n - 1);
      assert ns[..n] == ns[..n - 1] + [ns[n - 1]];
    }
  }

  /** The first n, all of which pass together, are all chosen. */
  lemma {:induction false} ChosenWhilePassing(test: seq<Narrative> -> bool, ns: seq<Narrative>, which: seq<bool>, n: nat)
    requires Greedy(test, ns, which) && Shrinks(test) && 0 < n <= |ns| && test(ns[..n])
    ensures NotChosen(ns, which, n) == []
  {
    assert ns[..n] == ns[..n - 1] + [ns[n - 1]];
    if n > 1 {
      ChosenWhilePassing(test, ns, which, n - 1);
    }
    AllChosen(ns, which, n - 1);
    assert Passes(test, ns, which, n - 1);
  }

  lemma NoneLeftOut(test: seq<Narrative> -> bool, ns: seq<Narrative>, which: seq<bool>)
    requires Greedy(test, ns, which) && Shrinks(test) && ns != []
    ensures NotChosen(ns, which, |ns|) == [] <==> test(ns)
  {
    var n := |ns| - 1;
    assert ns[..|ns|] == ns && ns[..n] + [ns[n]] == ns;
    AllChosen(ns, which, |ns|);
    AllChosen(ns, which, n);
    if NotChosen(ns, which, |ns|) == [] {
      assert which[n] && Passes(test, ns, which, n);
    } else if test(ns) {
      ChosenWhilePassing(test, ns, which, |ns|);
    }
  }

  /** Nothing is left out exactly when all of them fit together, or there is none. */
  lemma NoneLeftOutExactly(system: nat, inWindow: seq<Event>, ns: seq<Narrative>, budget: int, kept: seq<Narrative>, unfitted: seq<int>)
    requires KeptAsFit(system, inWindow, ns, budget, kept, unfitted)
    ensures unfitted == [] <==> ns == [] || FitTogether(system, inWindow, ns, budget)
    ensures unfitted == [] ==> kept == ns
  {
    var test := Fitting(system, inWindow, budget);
    var which :| KeptBy(test, ns, which, kept, unfitted);
    FewerFit(system, inWindow, budget);
    AllChosen(ns, which, |ns|);
    assert ns[..|ns|] == ns;
    if ns != [] { NoneLeftOut(test, ns, which); }
  }

  /** No background of a narrative kept is an event a later one numbers. */
  ghost predicate NoneNumberedLater(kept: seq<Narrative>) {
    forall t, u, e :: 0 <= t < u < |kept| && e in kept[t].background ==> e.key !in Keys(kept[u].eligible)
  }

  lemma {:induction false} BackgroundSame(evts: seq<Event>, number: map<EventKey, nat>, number': map<EventKey, nat>)
    requires Extends(number, number') && forall e :: e in evts && e.key in number' ==> e.key in number
    ensures BackgroundLen(evts, number') == BackgroundLen(evts, number)
  {
    if evts != [] {
      BackgroundSame(evts[..|evts| - 1], number, number');
      assert evts[|evts| - 1] in evts;
    }
  }

  lemma {:induction false} BlocksSame(ns: seq<Narrative>, number: map<EventKey, nat>, number': map<EventKey, nat>)
    requires Extends(number, number')
    requires forall t, e :: 0 <= t < |ns| && e in ns[t].background && e.key in number' ==> e.key in number
    ensures BlocksLen(ns, number') == BlocksLen(ns, number)
  {
    if ns != [] {
      BlocksSame(ns[..|ns| - 1], number, number');
      BackgroundSame(ns[|ns| - 1].background, number, number');
    }
  }

  /** One more narrative is measured at exactly what it adds, when it numbers no earlier background. */
  lemma PieceExact(evts: seq<Event>, kept: seq<Narrative>, n: Narrative)
    requires UniqueKeys(evts + n.eligible) && |evts + n.eligible| <= Text.MAX_INT
    requires forall t, e :: 0 <= t < |kept| && e in kept[t].background ==> e.key !in Keys(n.eligible)
    ensures NumberedListLen(0, evts + n.eligible) + BlocksLen(kept + [n], Numbers(evts + n.eligible)) ==
            NumberedListLen(0, evts) + BlocksLen(kept, Numbers(evts)) + PieceLen(Numbers(evts), |evts|, n)
  {
    TentativeIsNumbers(evts, n.eligible);
    NumbersExtend(evts, n.eligible);
    NumbersExactly(evts);
    NumbersExactly(evts + n.eligible);
    KeysConcat(evts, n.eligible);
    NumberedListSplits(0, evts, n.eligible);
    BlocksSame(kept, Numbers(evts), Numbers(evts + n.eligible));
    assert (kept + [n])[..|kept|] == kept;
  }

  /** The length of a prompt that numbers these events and shows these narratives. */
  ghost function RenderedLen(system: nat, evts: seq<Event>, ns: seq<Narrative>): nat {
    system + EVENTS_HEADING + NumberedListLen(0, evts) + CONTEXT_HEADING + BlocksLen(ns, Numbers(evts))
  }

  lemma RenderedIsPrompt(system: nat, inWindow: seq<Event>, ns: seq<Narrative>)
    ensures PromptLen(system, inWindow, ns) ==
            RenderedLen(system, inWindow + Eligible(ns), ns) + if ns == [] then NO_CONTEXT else 0
  {
  }

  /** One more narrative adds exactly its piece, when it numbers no earlier background. */
  lemma RenderedMore(system: nat, evts: seq<Event>, kept: seq<Narrative>, n: Narrative)
    requires UniqueKeys(evts + n.eligible) && |evts + n.eligible| <= Text.MAX_INT
    requires forall t, e :: 0 <= t < |kept| && e in kept[t].background ==> e.key !in Keys(n.eligible)
    ensures RenderedLen(system, evts + n.eligible, kept + [n]) ==
            RenderedLen(system, evts, kept) + PieceLen(Numbers(evts), |evts|, n)
  {
    PieceExact(evts, kept, n);
  }

  /** The events numbered without the last narrative's. */
  lemma UniqueBefore(inWindow: seq<Event>, kept: seq<Narrative>)
    requires kept != [] && UniqueKeys(inWindow + Eligible(kept))
    ensures var init, n := kept[..|kept| - 1], kept[|kept| - 1];
            && inWindow + Eligible(kept) == inWindow + Eligible(init) + n.eligible
            && UniqueKeys(inWindow + Eligible(init))
  {
    var init := kept[..|kept| - 1];
    UniquePrefix(inWindow, Eligible(kept), |Eligible(init)|);
    assert Eligible(kept)[..|Eligible(init)|] == Eligible(init);
  }

  /** Numbering and measure agree with the rendered prompt. */
  ghost predicate MeasuresAs(system: nat, inWindow: seq<Event>, kept: seq<Narrative>, evts: seq<Event>) {
    && inWindow + Eligible(kept) == evts
    && NumbersWith(inWindow, kept) == Numbers(evts)
    && Measured(system, inWindow, kept) == RenderedLen(system, evts, kept)
  }

  lemma MeasuredWith(system: nat, inWindow: seq<Event>, kept: seq<Narrative>, evts: seq<Event>, n: Narrative)
    requires UniqueKeys(evts + n.eligible) && |evts + n.eligible| <= Text.MAX_INT && MeasuresAs(system, inWindow, kept, evts)
    requires forall t, e :: 0 <= t < |kept| && e in kept[t].background ==> e.key !in Keys(n.eligible)
    ensures MeasuresAs(system, inWindow, kept + [n], evts + n.eligible)
  {
    NumberedWith(inWindow, kept, evts, n);
    RenderedMore(system, evts, kept, n);
    MeasuredPiece(system, inWindow, kept, n, Numbers(evts), |evts|);
  }

  lemma NumberedWith(inWindow: seq<Event>, kept: seq<Narrative>, evts: seq<Event>, n: Narrative)
    requires UniqueKeys(evts + n.eligible) && inWindow + Eligible(kept) == evts && NumbersWith(inWindow, kept) == Numbers(evts)
    ensures inWindow + Eligible(kept + [n]) == evts + n.eligible && NumbersWith(inWindow, kept + [n]) == Numbers(evts + n.eligible)
  {
    assert (kept + [n])[..|kept + [n]| - 1] == kept;
    assert inWindow + (Eligible(kept) + n.eligible) == evts + n.eligible;
    TentativeIsNumbers(evts, n.eligible);
  }

  lemma MeasuredPiece(system: nat, inWindow: seq<Event>, kept: seq<Narrative>, n: Narrative, number: map<EventKey, nat>, next: nat)
    requires NumbersWith(inWindow, kept) == number && |inWindow| + |Eligible(kept)| == next
    ensures Measured(system, inWindow, kept + [n]) == Measured(system, inWindow, kept) + PieceLen(number, next, n)
  {
    assert (kept + [n])[..|kept + [n]| - 1] == kept;
  }

  lemma {:induction false} MeasuredLen(system: nat, inWindow: seq<Event>, kept: seq<Narrative>)
    requires UniqueKeys(inWindow + Eligible(kept)) && |inWindow + Eligible(kept)| <= Text.MAX_INT && NoneNumberedLater(kept)
    ensures MeasuresAs(system, inWindow, kept, inWindow + Eligible(kept))
  {
    if kept == [] {
      assert inWindow + Eligible(kept) == inWindow;
    } else {
      var init, n := kept[..|kept| - 1], kept[|kept| - 1];
      UniqueBefore(inWindow, kept);
      MeasuredLen(system, inWindow, init);
      MeasuredWith(system, inWindow, init, inWindow + Eligible(init), n);
      assert kept == init + [n];
    }
  }

  /** The measure is the rendered prompt's length, to the character, unless a background line was shortened since. */
  lemma MeasuredIsRendered(system: nat, inWindow: seq<Event>, kept: seq<Narrative>)
    requires UniqueKeys(inWindow + Eligible(kept)) && |inWindow + Eligible(kept)| <= Text.MAX_INT && NoneNumberedLater(kept)
    ensures Measured(system, inWindow, kept) + (if kept == [] then NO_CONTEXT else 0) == PromptLen(system, inWindow, kept)
  {
    MeasuredLen(system, inWindow, kept);
    RenderedIsPrompt(system, inWindow, kept);
  }

  /** kept are the narratives of ns at the positions `at`, in order; unfitted names every other. */
  ghost predicate KeptInOrder(ns: seq<Narrative>, kept: seq<Narrative>, unfitted: seq<int>, at: seq<nat>) {
    && |kept| == |at| && |kept| + |unfitted| == |ns|
    && (forall t :: 0 <= t < |at| ==> at[t] < |ns| && kept[t] == ns[at[t]])
    && (forall t, u :: 0 <= t < u < |at| ==> at[t] < at[u])
    && (forall i :: 0 <= i < |ns| && i !in at ==> ns[i].id in unfitted)
  }

  lemma KeptMore(ns: seq<Narrative>, kept: seq<Narrative>, unfitted: seq<int>, at: seq<nat>, n: Narrative)
    requires KeptInOrder(ns, kept, unfitted, at)
    ensures KeptInOrder(ns + [n], kept + [n], unfitted, at + [|ns|])
  {
    var all := at + [|ns|];
    assert all[|at|] == |ns|;
    forall i | 0 <= i < |ns| && i !in all ensures ns[i].id in unfitted {
      assert forall t :: 0 <= t < |at| ==> all[t] == at[t];
      assert i !in at;
    }
  }

  lemma UnfittedMore(ns: seq<Narrative>, kept: seq<Narrative>, unfitted: seq<int>, at: seq<nat>, n: Narrative)
    requires KeptInOrder(ns, kept, unfitted, at)
    ensures KeptInOrder(ns + [n], kept, unfitted + [n.id], at)
  {
  }

  /** The kept narratives are some of those offered, whole and in their order; every other is reported. */
  lemma {:induction false} FitKeepsOrder(start: Fit, ns: seq<Narrative>, budget: int) returns (at: seq<nat>)
    requires start.kept == [] && start.unfitted == []
    ensures KeptInOrder(ns, FitAll(start, ns, budget).kept, FitAll(start, ns, budget).unfitted, at)
  {
    at := [];
    if ns != [] {
      var init, n := ns[..|ns| - 1], ns[|ns| - 1];
      assert ns == init + [n];
      at := FitKeepsOrder(start, init, budget);
      var f, g := FitAll(start, init, budget), FitAll(start, ns, budget);
      assert g == FitOne(f, n, budget);
      KeptMore(init, f.kept, f.unfitted, at, n);
      UnfittedMore(init, f.kept, f.unfitted, at, n);
      if |g.kept| > |f.kept| {
        at := at + [|init|];
      }
    }
  }
}
