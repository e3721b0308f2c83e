/** One clustering pass: every window's call or its bisection, the pull-request join, the dispute pass. */
module Engine {
  import opened Events
  import opened Clusters
  import opened Regrouping
  import opened Oracle
  import opened Prompts
  import opened Parsing
  import opened Rounds
  import opened ContextFit
  import opened ContextFitFacts
  import opened Windows
  import Seam
  import SeamFacts
  import Text

  /** The re-ask budgets; a negative one allows none. */
  datatype Budgets = Budgets(cluster: int, omission: int, dispute: int)

  /** The calls one window's clustering may take: the first, its re-asks, and the omission rounds. */
  function CallsPerWindow(b: Budgets): nat {
    1 + AtLeastZero(b.cluster) + AtLeastZero(b.omission)
  }

  /** c for each of n. */
  function Times(n: nat, c: nat): nat {
    if n == 0 then 0 else Times(n - 1, c) + c
  }

  lemma {:induction false} TimesAdds(m: nat, n: nat, c: nat)
    ensures Times(m + n, c) == Times(m, c) + Times(n, c)
  {
    if n > 0 { TimesAdds(m, n - 1, c); }
  }

  lemma {:induction false} TimesIs(n: nat, c: nat)
    ensures Times(n, c) == n * c
  {
    if n > 0 { TimesIs(n - 1, c); }
  }

  /** What a window's clusters may be made of: its own events and its narratives' eligible ones. */
  ghost function Pool(evts: seq<Event>, ns: seq<Narrative>, w: TimeRange): seq<Event> {
    Within(evts, w) + Eligible(Relevant(ns, w))
  }

  /** Well-formed clusters of a window's events that leave none of its own out. */
  ghost predicate Covers(rs: seq<ClusterResult>, evts: seq<Event>, ns: seq<Narrative>, w: TimeRange) {
    && AllWellFormed(rs)
    && DrawnFrom(rs, Pool(evts, ns, w))
    && (forall e :: e in Within(evts, w) ==> Placed(rs, e.key))
  }

  /** What a window may cost: calls, splits and seam checks, by how many events it holds. */
  ghost predicate WithinCost(stats: Stats, calls: int, events: nat, b: Budgets) {
    var n := if events > 1 then events else 1;
    && stats.splits <= n - 1
    && stats.mergeChecks <= stats.splits
    && stats.calls <= calls <= Times(n, CallsPerWindow(b)) + stats.mergeChecks
    && stats.disputed == stats.joins == 0
  }

  /** The first clustering call of one window: which reply it reads, the window, and the narratives it shows. */
  datatype FirstCall = FirstCall(at: nat, window: TimeRange, kept: seq<Narrative>)

  /** The estimate of its prompt, with the room its narratives' follow-up takes. */
  function FirstTokens(w: Wording, evts: seq<Event>, c: FirstCall): nat {
    Tokens(PromptLen(w.clusterSystem, Within(evts, c.window), c.kept)) + |c.kept| * FOLLOWUP
  }

  /**
   * A first call within the budget, among the replies from `from` up to `to`. It shows every
   * narrative near its window, unless the window could not be cut to show them.
   */
  ghost predicate FirstCallFits(w: Wording, evts: seq<Event>, ns: seq<Narrative>, budget: int, c: FirstCall, from: nat, to: nat) {
    && from <= c.at < to && FirstTokens(w, evts, c) <= budget
    && (forall n :: n in c.kept ==> n in Relevant(ns, c.window))
    && (c.kept == Relevant(ns, c.window) || !Bisectable(c.window, Within(evts, c.window)))
  }

  /** Each of the first calls sent fits, and each reads its own reply. */
  ghost predicate FirstCallsFit(w: Wording, evts: seq<Event>, ns: seq<Narrative>, budget: int, sent: seq<FirstCall>, from: nat, to: nat) {
    && (forall t :: 0 <= t < |sent| ==> FirstCallFits(w, evts, ns, budget, sent[t], from, to))
    && (forall t, u :: 0 <= t < u < |sent| ==> sent[t].at < sent[u].at)
  }

  /** Every call is a window's first, a re-ask, an omission round or a seam check. */
  predicate Accounted(sent: seq<FirstCall>, stats: Stats, calls: int) {
    calls == |sent| + stats.clusterReasks + stats.omissionReasks + stats.mergeChecks
  }

  lemma FirstCallsOnward(
    w: Wording, evts: seq<Event>, ns: seq<Narrative>, budget: int,
    a: seq<FirstCall>, b: seq<FirstCall>, from: nat, mid: nat, to: nat)
    requires from <= mid <= to
    requires FirstCallsFit(w, evts, ns, budget, a, from, mid) && FirstCallsFit(w, evts, ns, budget, b, mid, to)
    ensures FirstCallsFit(w, evts, ns, budget, a + b, from, to)
  {
    forall t | 0 <= t < |a + b| ensures FirstCallFits(w, evts, ns, budget, (a + b)[t], from, to) {
      if t < |a| {
        assert FirstCallFits(w, evts, ns, budget, a[t], from, mid);
      } else {
        assert FirstCallFits(w, evts, ns, budget, b[t - |a|], mid, to);
      }
    }
    forall t, u | 0 <= t < u < |a + b| ensures (a + b)[t].at < (a + b)[u].at {
      if t < |a| <= u {
        assert FirstCallFits(w, evts, ns, budget, a[t], from, mid);
        assert FirstCallFits(w, evts, ns, budget, b[u - |a|], mid, to);
      }
    }
  }

  lemma FirstCallsLater(w: Wording, evts: seq<Event>, ns: seq<Narrative>, budget: int, calls: seq<FirstCall>, from: nat, to: nat, later: nat)
    requires to <= later && FirstCallsFit(w, evts, ns, budget, calls, from, to)
    ensures FirstCallsFit(w, evts, ns, budget, calls, from, later)
  {
    forall t | 0 <= t < |calls| ensures FirstCallFits(w, evts, ns, budget, calls[t], from, later) {
      assert FirstCallFits(w, evts, ns, budget, calls[t], from, to);
    }
  }

  /** The reply was accepted whole, and reads as `parsed`. */
  ghost predicate AcceptedAs(body: Body, evts: seq<Event>, parsed: Parsed) {
    body.Items? && Acceptable(body.items, |evts|) && parsed == ParsedOf(body.items, evts)
  }

  /** The reply is an answer accepted whole. */
  ghost predicate Accepts(reply: Reply, evts: seq<Event>) {
    reply.Answer? && reply.body.Items? && Acceptable(reply.body.items, |evts|)
  }

  /** The reply is an answer the parser refuses. */
  ghost predicate Refused(reply: Reply, evts: seq<Event>) {
    reply.Answer? && !Accepts(reply, evts)
  }

  ghost predicate AllRefused(replies: Replies, from: nat, to: int, evts: seq<Event>) {
    forall t: nat :: from <= t < to ==> Refused(replies(t), evts)
  }

  /** Re-asking for the reply numbered t, which quotes the refusal before it, fits the budget. */
  ghost predicate ReaskFits(replies: Replies, t: nat, w: Wording, prompt: nat, budget: int) {
    t > 0 && Tokens(prompt + w.clusterRefusal + Quoted(replies(t - 1))) <= budget
  }

  /** Why the re-asks stop short: no answer, no room for one more, or none left to ask. */
  ghost predicate ReasksFail(
    replies: Replies, from: nat, to: nat, w: Wording, prompt: nat, budget: int, reasks: int, evts: seq<Event>, why: Failure)
  {
    match why
    case CallFailed => from < to && AllRefused(replies, from, to - 1, evts) && replies(to - 1).NoAnswer?
    case ReaskBudgetSpent => to == from + AtLeastZero(reasks) && AllRefused(replies, from, to, evts)
    case ReaskOverBudget =>
      to < from + AtLeastZero(reasks) && AllRefused(replies, from, to, evts) && !ReaskFits(replies, to, w, prompt, budget)
    case _ => false
  }

  /** A refused clustering reply, asked again up to `reasks` times: the first accepted answer or an error. */
  method ReaskRefusedCluster(replies: Replies, at: nat, w: Wording, prompt: nat, refused: nat, budget: int, reasks: int, evts: seq<Event>)
    returns (out: Outcome<Parsed>, stats: Stats, next: nat)
    requires at > 0 && refused == Quoted(replies(at - 1))
    ensures next == at + stats.clusterReasks && stats.clusterReasks <= AtLeastZero(reasks)
    ensures stats == NOTHING.(calls := stats.calls, clusterReasks := stats.clusterReasks)
    ensures stats.calls == if out == Failed(CallFailed) then next - at - 1 else next - at
    ensures forall t: nat :: at <= t < next ==> ReaskFits(replies, t, w, prompt, budget)
    ensures out.Done? ==> next > at && AllRefused(replies, at, next - 1, evts)
    ensures out.Done? ==> replies(next - 1).Answer? && AcceptedAs(replies(next - 1).body, evts, out.value)
    ensures out.Failed? ==> ReasksFail(replies, at, next, w, prompt, budget, reasks, evts, out.reason)
  {
    stats, next := NOTHING, at;
    var refusal: nat := refused;
    for attempt := 1 to AtLeastZero(reasks) + 1
      invariant next == at + attempt - 1 && refusal == Quoted(replies(next - 1))
      invariant AllRefused(replies, at, next, evts)
      invariant forall t: nat :: at <= t < next ==> ReaskFits(replies, t, w, prompt, budget)
      invariant stats == NOTHING.(calls := attempt - 1, clusterReasks := attempt - 1)
    {
      if Tokens(prompt + w.clusterRefusal + refusal) > budget {
        return Failed(ReaskOverBudget), stats, next;
      }
      stats := stats.(clusterReasks := stats.clusterReasks + 1);
      var reply := replies(next);
      next := next + 1;
      if reply.NoAnswer? {
        return Failed(CallFailed), stats, next;
      }
      stats := stats.(calls := stats.calls + 1);
      var parsed := ParseClusterResponse(reply.body, evts);
      if parsed.Some? {
        return Done(parsed.value), stats, next;
      }
      refusal := reply.size + reply.reasonSize;
    }
    return Failed(ReaskBudgetSpent), stats, next;
  }

  /** An accepted reply, with what it leaves out, is a state the omission rounds can start from. */
  lemma AcceptedSettles(body: Body, evts: seq<Event>, n: nat, parsed: Parsed)
    requires AcceptedAs(body, evts, parsed) && UniqueKeys(evts) && n <= |evts|
    ensures Settled(Round(parsed.results, Unlisted(parsed.indices, n), None), evts, n)
    ensures Numbered(parsed.results, parsed.indices, evts)
    ensures forall c, t :: 0 <= c < |parsed.indices| && 0 <= t < |parsed.indices[c]| ==> parsed.indices[c][t] >= 0
    ensures ItemsExtendOnce(body.items) ==> ExtendsOnce(parsed.results)
  {
    ParsedExactly(body.items, evts);
    UnlistedExactly(parsed.indices, n);
    forall i | 0 <= i < n ensures Listed(parsed.indices, i) <==> Placed(parsed.results, evts[i].key) {
      ListedIsPlaced(parsed.results, parsed.indices, evts, i);
    }
    if ItemsExtendOnce(body.items) { ParsedExtendsOnce(body.items, evts); }
  }

  /** What the omission rounds start from once a reply is accepted: its clusters, and the in-window events it leaves out. */
  ghost function StartOf(reply: Reply, evts: seq<Event>, n: nat): Round
    requires Accepts(reply, evts)
  {
    var p := ParsedOf(reply.body.items, evts);
    Round(p.results, Unlisted(p.indices, n), None)
  }

  /** Every re-ask fitted the budgets. */
  ghost predicate ReasksFit(replies: Replies, at: nat, reasks: nat, w: Wording, prompt: nat, budget: int, most: int) {
    reasks <= AtLeastZero(most) && forall t: nat :: at < t <= at + reasks ==> ReaskFits(replies, t, w, prompt, budget)
  }

  /** No reply was accepted: the first brought nothing, or it was refused and so was every other the budgets allowed. */
  ghost predicate NoneAccepted(
    replies: Replies, at: nat, reasks: nat, w: Wording, prompt: nat, budget: int, most: int, evts: seq<Event>, why: Failure)
  {
    && !Accepts(replies(at + reasks), evts)
    && if replies(at).NoAnswer? then reasks == 0 && why == CallFailed
       else Refused(replies(at), evts) && ReasksFail(replies, at + 1, at + reasks + 1, w, prompt, budget, most, evts, why)
  }

  /** The reply after `reasks` refused ones was accepted. */
  ghost predicate AcceptedAfter(replies: Replies, at: nat, reasks: nat, evts: seq<Event>) {
    AllRefused(replies, at, at + reasks, evts) && Accepts(replies(at + reasks), evts)
  }

  /**
   * How a window's call ends, read off the replies from `at` on: the first, `reasks` more
   * while refused, and, once one is accepted, the rounds for what it left out.
   */
  ghost predicate CallEnds(
    replies: Replies, at: nat, reasks: nat, states: seq<Round>, w: Wording, b: Budgets, budget: int,
    inWindow: seq<Event>, kept: seq<Narrative>, out: Outcome<seq<ClusterResult>>)
  {
    var evts, prompt := inWindow + Eligible(kept), PromptLen(w.clusterSystem, inWindow, kept);
    && ReasksFit(replies, at, reasks, w, prompt, budget, b.cluster)
    && if states == [] then out.Failed? && NoneAccepted(replies, at, reasks, w, prompt, budget, b.cluster, evts, out.reason)
       else
         && AcceptedAfter(replies, at, reasks, evts)
         && Chain(states, StartOf(replies(at + reasks), evts, |inWindow|), replies, at + reasks + 1, evts)
         && RoundsEnd(states, replies, at + reasks + 1, w, PromptLen(0, inWindow, kept), evts, budget, b.omission, out)
  }

  /** With nothing missing, a call's clusters cover its window. */
  lemma SettledCovers(rs: seq<ClusterResult>, evts: seq<Event>, ns: seq<Narrative>, w: TimeRange, kept: seq<Narrative>, missing: seq<int>,
                      refusal: Option<(nat, nat)>)
    requires Settled(Round(rs, missing, refusal), Within(evts, w) + Eligible(kept), |Within(evts, w)|) && missing == []
    requires forall n :: n in kept ==> n in Relevant(ns, w)
    ensures Covers(rs, evts, ns, w)
  {
    var numbered := Within(evts, w) + Eligible(kept);
    EligibleWithin(kept, Relevant(ns, w));
    forall e | e in numbered ensures e in Pool(evts, ns, w) {
      assert e in Within(evts, w) || e in Eligible(kept);
    }
    DrawnFromWider(rs, numbered, Pool(evts, ns, w));
    forall e | e in Within(evts, w) ensures Placed(rs, e.key) {
      var i :| 0 <= i < |Within(evts, w)| && Within(evts, w)[i] == e;
      assert numbered[i] == e;
      assert i !in missing;
    }
  }

  /** The omission rounds the replies lead to, and how many there were. */
  function RoundsIn(states: seq<Round>): nat {
    if states == [] then 0 else |states| - 1
  }

  /** A first answer accepted, and what it is. */
  ghost predicate FirstAccepted(
    replies: Replies, at: nat, reasks: nat, w: Wording, b: Budgets, budget: int, prompt: nat, numbered: seq<Event>, parsed: Parsed)
  {
    && ReasksFit(replies, at, reasks, w, prompt, budget, b.cluster)
    && AcceptedAfter(replies, at, reasks, numbered)
    && parsed == ParsedOf(replies(at + reasks).body.items, numbered)
  }

  /** The omission rounds, if an accepted reply leaves anything out. */
  method RecoverAny(replies: Replies, at: nat, w: Wording, userPrompt: nat, budget: int, maxRounds: int,
                    numbered: seq<Event>, n: nat, parsed: Parsed, ghost reply: Reply)
    returns (out: Outcome<seq<ClusterResult>>, stats: Stats, next: nat, ghost states: seq<Round>)
    requires UniqueKeys(numbered) && n <= |numbered| && Accepts(reply, numbered) && parsed == ParsedOf(reply.body.items, numbered)
    ensures next == at + stats.omissionReasks && stats.calls <= next - at && stats.omissionReasks <= AtLeastZero(maxRounds)
    ensures stats == NOTHING.(calls := stats.calls, omitted := stats.omitted, recovered := stats.recovered, omissionReasks := RoundsIn(states))
    ensures Chain(states, StartOf(reply, numbered, n), replies, at, numbered)
    ensures var ended := RoundsEnd(states, replies, at, w, userPrompt, numbered, budget, maxRounds, out); ended
  {
    AcceptedSettles(reply.body, numbered, n, parsed);
    var omitted := UnassignedIndices(parsed.indices, n);
    if |omitted| == 0 {
      return Done(parsed.results), NOTHING, at, [StartOf(reply, numbered, n)];
    }
    out, stats, next, states :=
      RecoverOmittedEvents(replies, at, w, userPrompt, budget, maxRounds, numbered, n, parsed.results, parsed.indices, omitted);
  }

  /** An accepted reply's clusters, with the rounds for what it leaves out. */
  method FinishCall(replies: Replies, at: nat, w: Wording, b: Budgets, budget: int, evts: seq<Event>, ns: seq<Narrative>, win: TimeRange,
                    inWindow: seq<Event>, kept: seq<Narrative>, numbered: seq<Event>, parsed: Parsed, ghost from: nat, ghost reasks: nat)
    returns (out: Outcome<seq<ClusterResult>>, stats: Stats, next: nat, ghost states: seq<Round>)
    requires inWindow == Within(evts, win) && (forall n :: n in kept ==> n in Relevant(ns, win))
    requires numbered == inWindow + Eligible(kept) && UniqueKeys(numbered) && at == from + reasks + 1
    requires FirstAccepted(replies, from, reasks, w, b, budget, PromptLen(w.clusterSystem, inWindow, kept), numbered, parsed)
    ensures out.Done? ==> Covers(out.value, evts, ns, win)
    ensures out.Done? && RepliesExtendOnce(replies) ==> ExtendsOnce(out.value)
    ensures next == at + stats.omissionReasks && stats.calls <= next - at && stats.omissionReasks <= AtLeastZero(b.omission)
    ensures stats == NOTHING.(calls := stats.calls, omitted := stats.omitted, recovered := stats.recovered, omissionReasks := RoundsIn(states))
    ensures var ends := CallEnds(replies, from, reasks, states, w, b, budget, inWindow, kept, out); ends
  {
    ghost var reply := replies(at - 1);
    out, stats, next, states :=
      RecoverAny(replies, at, w, PromptLen(0, inWindow, kept), budget, b.omission, numbered, |inWindow|, parsed, reply);
    AcceptedEnds(replies, from, reasks, states, w, b, budget, inWindow, kept, out);
    if out.Done? {
      EndCovers(replies, at, states, evts, ns, win, kept, reply, out.value);
    }
  }

  /** What the rounds after an accepted reply end with covers the window, once nothing is missing. */
  lemma EndCovers(
    replies: Replies, at: nat, states: seq<Round>, evts: seq<Event>, ns: seq<Narrative>, win: TimeRange,
    kept: seq<Narrative>, reply: Reply, rs: seq<ClusterResult>)
    requires var inWindow := Within(evts, win);
             var numbered := inWindow + Eligible(kept);
             && UniqueKeys(numbered) && Accepts(reply, numbered)
             && Chain(states, StartOf(reply, numbered, |inWindow|), replies, at, numbered)
    requires rs == states[|states| - 1].clusters && states[|states| - 1].missing == []
    requires forall n :: n in kept ==> n in Relevant(ns, win)
    ensures Covers(rs, evts, ns, win)
    ensures ItemsExtendOnce(reply.body.items) ==> ExtendsOnce(rs)
  {
    var inWindow := Within(evts, win);
    var numbered := inWindow + Eligible(kept);
    AcceptedSettles(reply.body, numbered, |inWindow|, ParsedOf(reply.body.items, numbered));
    RoundsSettled(states, StartOf(reply, numbered, |inWindow|), replies, at, numbered, |inWindow|);
    var end := states[|states| - 1];
    SettledCovers(end.clusters, evts, ns, win, kept, end.missing, end.refusal);
  }

  /** A refused first answer, and then a re-ask accepted. */
  lemma AcceptedLater(replies: Replies, at: nat, reasks: nat, evts: seq<Event>)
    requires Refused(replies(at), evts) && reasks > 0
    requires AllRefused(replies, at + 1, at + reasks, evts) && Accepts(replies(at + reasks), evts)
    ensures AcceptedAfter(replies, at, reasks, evts)
  {
  }

  /** A refused first answer, and then re-asks that fail. */
  lemma NoneLater(
    replies: Replies, at: nat, reasks: nat, w: Wording, prompt: nat, budget: int, most: int, evts: seq<Event>, why: Failure)
    requires Refused(replies(at), evts) && ReasksFail(replies, at + 1, at + reasks + 1, w, prompt, budget, most, evts, why)
    ensures NoneAccepted(replies, at, reasks, w, prompt, budget, most, evts, why)
  {
  }

  /** The first clustering call and its re-asks: the first accepted answer, read, or an error. */
  method FirstAnswer(replies: Replies, at: nat, w: Wording, b: Budgets, budget: int, prompt: nat, numbered: seq<Event>)
    returns (out: Outcome<Parsed>, stats: Stats, next: nat)
    ensures next == at + 1 + stats.clusterReasks && stats.calls <= next - at
    ensures stats == NOTHING.(calls := stats.calls, clusterReasks := stats.clusterReasks)
    ensures ReasksFit(replies, at, stats.clusterReasks, w, prompt, budget, b.cluster)
    ensures out.Done? ==>
              var accepted := FirstAccepted(replies, at, stats.clusterReasks, w, b, budget, prompt, numbered, out.value); accepted
    ensures out.Failed? ==>
              var none := NoneAccepted(replies, at, stats.clusterReasks, w, prompt, budget, b.cluster, numbered, out.reason); none
  {
    stats, next := NOTHING, at + 1;
    var reply := replies(at);
    if reply.NoAnswer? {
      return Failed(CallFailed), stats, next;
    }
    stats := stats.(calls := 1);
    var first := ParseClusterResponse(reply.body, numbered);
    if first.Some? {
      return Done(first.value), stats, next;
    }
    var reaskStats;
    out, reaskStats, next := ReaskRefusedCluster(replies, next, w, prompt, reply.size + reply.reasonSize, budget, b.cluster, numbered);
    if out.Done? {
      AcceptedLater(replies, at, reaskStats.clusterReasks, numbered);
    } else {
      NoneLater(replies, at, reaskStats.clusterReasks, w, prompt, budget, b.cluster, numbered, out.reason);
    }
    stats := stats.Plus(reaskStats);
  }

  /** One call over events numbered once each: the first answer, its re-asks, its omission rounds. */
  method NumberedCall(replies: Replies, at: nat, w: Wording, b: Budgets, budget: int, evts: seq<Event>, ns: seq<Narrative>, win: TimeRange,
                      inWindow: seq<Event>, kept: seq<Narrative>, numbered: seq<Event>)
    returns (out: Outcome<seq<ClusterResult>>, stats: Stats, next: nat, ghost states: seq<Round>)
    requires inWindow == Within(evts, win) && (forall n :: n in kept ==> n in Relevant(ns, win))
    requires numbered == inWindow + Eligible(kept) && UniqueKeys(numbered)
    ensures out.Done? ==> Covers(out.value, evts, ns, win)
    ensures out.Done? && RepliesExtendOnce(replies) ==> ExtendsOnce(out.value)
    ensures next == at + 1 + stats.clusterReasks + RoundsIn(states) && stats.calls <= next - at
    ensures stats == NOTHING.(calls := stats.calls, clusterReasks := stats.clusterReasks, omitted := stats.omitted,
                              recovered := stats.recovered, omissionReasks := RoundsIn(states))
    ensures stats.clusterReasks <= AtLeastZero(b.cluster) && stats.omissionReasks <= AtLeastZero(b.omission)
    ensures var ends := CallEnds(replies, at, stats.clusterReasks, states, w, b, budget, inWindow, kept, out); ends
  {
    states := [];
    var first;
    first, stats, next := FirstAnswer(replies, at, w, b, budget, PromptLen(w.clusterSystem, inWindow, kept), numbered);
    if first.Failed? {
      NoneAcceptedEnds(replies, at, stats.clusterReasks, w, b, budget, inWindow, kept, first.reason);
      return Failed(first.reason), stats, next, states;
    }
    var roundStats;
    out, roundStats, next, states :=
      FinishCall(replies, next, w, b, budget, evts, ns, win, inWindow, kept, numbered, first.value, at, stats.clusterReasks);
    stats := stats.Plus(roundStats);
  }

  /** One call's clusters, covering its window, or an error; no call at all when an event would be numbered twice. */
  method ClusterCall(replies: Replies, at: nat, w: Wording, b: Budgets, budget: int, evts: seq<Event>, ns: seq<Narrative>, win: TimeRange,
                     inWindow: seq<Event>, kept: seq<Narrative>)
    returns (out: Outcome<seq<ClusterResult>>, stats: Stats, next: nat, ghost states: seq<Round>)
    requires inWindow == Within(evts, win) && (forall n :: n in kept ==> n in Relevant(ns, win))
    ensures out.Done? ==> Covers(out.value, evts, ns, win)
    ensures out.Done? && RepliesExtendOnce(replies) ==> ExtendsOnce(out.value)
    ensures at <= next <= at + CallsPerWindow(b) && stats.calls <= next - at
    ensures next - at == (if UniqueKeys(inWindow + Eligible(kept)) then 1 else 0) + stats.clusterReasks + stats.omissionReasks
    ensures stats == NOTHING.(calls := stats.calls, clusterReasks := stats.clusterReasks, omitted := stats.omitted,
                              recovered := stats.recovered, omissionReasks := RoundsIn(states))
    ensures var ends := CallEnds(replies, at, stats.clusterReasks, states, w, b, budget, inWindow, kept, out);
            if UniqueKeys(inWindow + Eligible(kept)) then ends
            else out == Failed(NumberedTwice) && states == [] && stats.clusterReasks == 0
  {
    var assignable := AssignableEvents(inWindow, kept);
    if assignable.Failed? {
      return Failed(assignable.reason), NOTHING, at, [];
    }
    out, stats, next, states := NumberedCall(replies, at, w, b, budget, evts, ns, win, inWindow, kept, assignable.value);
  }

  lemma NoneAcceptedEnds(
    replies: Replies, at: nat, reasks: nat, w: Wording, b: Budgets, budget: int, inWindow: seq<Event>, kept: seq<Narrative>, why: Failure)
    requires ReasksFit(replies, at, reasks, w, PromptLen(w.clusterSystem, inWindow, kept), budget, b.cluster)
    requires NoneAccepted(replies, at, reasks, w, PromptLen(w.clusterSystem, inWindow, kept), budget, b.cluster, inWindow + Eligible(kept), why)
    ensures CallEnds(replies, at, reasks, [], w, b, budget, inWindow, kept, Failed(why))
  {
  }

  lemma AcceptedEnds(
    replies: Replies, at: nat, reasks: nat, states: seq<Round>, w: Wording, b: Budgets, budget: int,
    inWindow: seq<Event>, kept: seq<Narrative>, out: Outcome<seq<ClusterResult>>)
    requires ReasksFit(replies, at, reasks, w, PromptLen(w.clusterSystem, inWindow, kept), budget, b.cluster)
    requires AcceptedAfter(replies, at, reasks, inWindow + Eligible(kept))
    requires var evts := inWindow + Eligible(kept);
             var ended := RoundsEnd(states, replies, at + reasks + 1, w, PromptLen(0, inWindow, kept), evts, budget, b.omission, out);
             ended && Chain(states, StartOf(replies(at + reasks), evts, |inWindow|), replies, at + reasks + 1, evts)
    ensures CallEnds(replies, at, reasks, states, w, b, budget, inWindow, kept, out)
  {
  }

  lemma {:induction false} RelevantEligible(ns: seq<Narrative>, w: TimeRange)
    ensures |Eligible(Relevant(ns, w))| <= |Eligible(ns)|
  {
    if ns != [] {
      RelevantEligible(ns[..|ns| - 1], w);
      var before := Relevant(ns[..|ns| - 1], w);
      assert (before + [ns[|ns| - 1]])[..|before|] == before;
    }
  }

  lemma {:induction false} FitEligible(start: Fit, ns: seq<Narrative>, budget: int)
    requires start.kept == []
    ensures |Eligible(FitAll(start, ns, budget).kept)| <= |Eligible(ns)|
  {
    if ns != [] {
      FitEligible(start, ns[..|ns| - 1], budget);
      var f := FitAll(start, ns[..|ns| - 1], budget);
      assert (f.kept + [ns[|ns| - 1]])[..|f.kept|] == f.kept;
    }
  }

  /** What the fit keeps is shown to the window, and its prompt leaves room for its follow-up. */
  lemma FitSound(system: nat, evts: seq<Event>, ns: seq<Narrative>, w: TimeRange, budget: int)
    requires |evts| + |Eligible(ns)| <= Text.MAX_INT
    ensures var kept := FitAll(Start(system, Within(evts, w)), Relevant(ns, w), budget).kept;
            && (forall n :: n in kept ==> n in Relevant(ns, w))
            && (BaseTokens(system, Within(evts, w)) <= budget && UniqueKeys(Within(evts, w) + Eligible(kept)) ==>
                 Tokens(PromptLen(system, Within(evts, w), kept)) + |kept| * FOLLOWUP <= budget)
  {
    var start, relevant := Start(system, Within(evts, w)), Relevant(ns, w);
    var kept := FitAll(start, relevant, budget).kept;
    var at := FitKeepsOrder(start, relevant, budget);
    WithinExactly(evts, w);
    RelevantEligible(ns, w);
    FitEligible(start, relevant, budget);
    if BaseTokens(system, Within(evts, w)) <= budget && UniqueKeys(Within(evts, w) + Eligible(kept)) {
      PromptWithinBudget(system, Within(evts, w), relevant, budget);
    }
  }

  /** The merged halves of a window cover it, whatever the model says about the seam. */
  lemma HalvesCover(first: seq<ClusterResult>, second: seq<ClusterResult>, reply: Reply, evts: seq<Event>, ns: seq<Narrative>, w: TimeRange)
    requires Bisectable(w, Within(evts, w))
    requires Covers(first, evts, ns, FirstHalf(w)) && Covers(second, evts, ns, SecondHalf(w))
    requires Seam.SeamOutcome(first, second, reply).Done?
    ensures Covers(Seam.SeamOutcome(first, second, reply).value, evts, ns, w)
  {
    var both, out := first + second, Seam.SeamOutcome(first, second, reply).value;
    var parts := SeamFacts.SeamRegroups(first, second, reply);
    HalvesExactly(evts, ns, w);
    HalfPool(evts, ns, w);
    DrawnFromWider(first, Pool(evts, ns, FirstHalf(w)), Pool(evts, ns, w));
    DrawnFromWider(second, Pool(evts, ns, SecondHalf(w)), Pool(evts, ns, w));
    RegroupedDrawnFrom(both, out, parts, Pool(evts, ns, w));
    forall e | e in Within(evts, w) ensures Placed(out, e.key) {
      if e in Within(evts, FirstHalf(w)) {
        var i :| 0 <= i < |first| && first[i].Holds(e.key);
        assert both[i].Holds(e.key);
      } else {
        var i :| 0 <= i < |second| && second[i].Holds(e.key);
        assert both[|first| + i].Holds(e.key);
      }
      RegroupedPlaces(both, out, parts, e.key);
    }
  }

  lemma HalfPool(evts: seq<Event>, ns: seq<Narrative>, w: TimeRange)
    requires Bisectable(w, Within(evts, w))
    ensures forall e :: e in Pool(evts, ns, FirstHalf(w)) ==> e in Pool(evts, ns, w)
    ensures forall e :: e in Pool(evts, ns, SecondHalf(w)) ==> e in Pool(evts, ns, w)
  {
    HalvesExactly(evts, ns, w);
    EligibleWithin(Relevant(ns, FirstHalf(w)), Relevant(ns, w));
    EligibleWithin(Relevant(ns, SecondHalf(w)), Relevant(ns, w));
  }

  /** Two halves' costs and the seam's one question, within the whole window's. */
  lemma CostAdds(first: Stats, c1: int, n1: nat, second: Stats, c2: int, n2: nat, seam: Stats, c3: int, b: Budgets)
    requires n1 > 0 && n2 > 0 && WithinCost(first, c1, n1, b) && WithinCost(second, c2, n2, b)
    requires seam == NOTHING.(mergeChecks := seam.mergeChecks, calls := seam.calls) && seam.calls <= c3 == seam.mergeChecks <= 1
    ensures WithinCost(NOTHING.(splits := 1).Plus(first).Plus(second).Plus(seam), c1 + c2 + c3, n1 + n2, b)
  {
    TimesAdds(n1, n2, CallsPerWindow(b));
  }

  lemma NothingAdds(s: Stats)
    ensures s.Plus(NOTHING) == s
  {
  }

  lemma CostOfBoth(first: Stats, c1: int, n1: nat, second: Stats, c2: int, n2: nat, b: Budgets)
    requires n1 > 0 && n2 > 0 && WithinCost(first, c1, n1, b) && WithinCost(second, c2, n2, b)
    ensures WithinCost(NOTHING.(splits := 1).Plus(first).Plus(second), c1 + c2, n1 + n2, b)
  {
    CostAdds(first, c1, n1, second, c2, n2, NOTHING, 0, b);
    NothingAdds(NOTHING.(splits := 1).Plus(first).Plus(second));
  }

  lemma CostOfFirst(first: Stats, c1: int, n1: nat, n2: nat, b: Budgets)
    requires n1 > 0 && n2 > 0 && WithinCost(first, c1, n1, b)
    ensures WithinCost(NOTHING.(splits := 1).Plus(first), c1, n1 + n2, b)
  {
    CallsSpread(n2, b);
    CostOfBoth(first, c1, n1, NOTHING, 0, n2, b);
    NothingAdds(NOTHING.(splits := 1).Plus(first));
  }

  // Which windows are called.

  /** Every narrative near the window fits its prompt. */
  ghost predicate ContextFits(w: Wording, evts: seq<Event>, ns: seq<Narrative>, budget: int, win: TimeRange) {
    Relevant(ns, win) == [] || FitTogether(w.clusterSystem, Within(evts, win), Relevant(ns, win), budget)
  }

  /** The window is too big to be called as it stands: its own events, or its context where cutting it can help. */
  ghost predicate NeedsCut(w: Wording, evts: seq<Event>, ns: seq<Narrative>, budget: int, win: TimeRange) {
    || BaseTokens(w.clusterSystem, Within(evts, win)) > budget
    || (Bisectable(win, Within(evts, win)) && !ContextFits(w, evts, ns, budget, win))
  }

  /**
   * How a window was clustered: called as it stands, with the narratives kept and left out,
   * the re-asks made and what each omission round left; stuck, too big and beyond cutting; or cut, with
   * how each half went and what it came to.
   */
  datatype Plan =
    | Called(kept: seq<Narrative>, unfitted: seq<int>, reasks: nat, states: seq<Round>)
    | Stuck
    | Cut(first: Plan, one: Outcome<seq<ClusterResult>>, mid: nat, second: Plan, two: Outcome<seq<ClusterResult>>, end: nat)

  /** A window called as it stands. */
  ghost predicate CalledEnds(
    replies: Replies, at: nat, next: nat, w: Wording, b: Budgets, budget: int, evts: seq<Event>, ns: seq<Narrative>, win: TimeRange,
    kept: seq<Narrative>, unfitted: seq<int>, reasks: nat, states: seq<Round>, out: Outcome<seq<ClusterResult>>)
  {
    && !NeedsCut(w, evts, ns, budget, win)
    && KeptAsFit(w.clusterSystem, Within(evts, win), Relevant(ns, win), budget, kept, unfitted)
    && if UniqueKeys(Within(evts, win) + Eligible(kept)) then
         && next == at + 1 + reasks + RoundsIn(states)
         && CallEnds(replies, at, reasks, states, w, b, budget, Within(evts, win), kept, out)
       else next == at && reasks == 0 && states == [] && out == Failed(NumberedTwice)
  }

  /** How a window ends that follows this plan, having read the replies from `at` up to `next`. */
  ghost predicate WindowEnds(
    p: Plan, replies: Replies, at: nat, next: nat, w: Wording, b: Budgets, budget: int, evts: seq<Event>, ns: seq<Narrative>,
    win: TimeRange, out: Outcome<seq<ClusterResult>>)
  {
    match p
    case Called(kept, unfitted, reasks, states) =>
      CalledEnds(replies, at, next, w, b, budget, evts, ns, win, kept, unfitted, reasks, states, out)
    case Stuck => NeedsCut(w, evts, ns, budget, win) && !Bisectable(win, Within(evts, win)) && next == at && out == Failed(Irreducible)
    case Cut(first, one, mid, second, two, end) =>
      && NeedsCut(w, evts, ns, budget, win) && Bisectable(win, Within(evts, win))
      && WindowEnds(first, replies, at, mid, w, b, budget, evts, ns, FirstHalf(win), one)
      && if one.Failed? then second == Stuck && out == two == one && next == end == mid
         else
           && WindowEnds(second, replies, mid, end, w, b, budget, evts, ns, SecondHalf(win), two)
           && Merged(replies, end, next, one.value, two, out)
  }

  /** The halves' clusters merged as the reply about their seam says, if there is anything to ask. */
  ghost predicate Merged(
    replies: Replies, end: nat, next: nat, one: seq<ClusterResult>, two: Outcome<seq<ClusterResult>>, out: Outcome<seq<ClusterResult>>)
  {
    if two.Failed? then out == two && next == end
    else
      && out == Seam.SeamOutcome(one, two.value, replies(end))
      && next == if Seam.SeamAsked(one, two.value) then end + 1 else end
  }

  /** The first calls a plan makes, in order. */
  ghost function FirstCalls(p: Plan, evts: seq<Event>, win: TimeRange, at: nat): seq<FirstCall> {
    match p
    case Called(kept, _, _, _) => if UniqueKeys(Within(evts, win) + Eligible(kept)) then [FirstCall(at, win, kept)] else []
    case Stuck => []
    case Cut(first, one, mid, second, _, _) =>
      FirstCalls(first, evts, FirstHalf(win), at) + if one.Done? then FirstCalls(second, evts, SecondHalf(win), mid) else []
  }

  /** The narratives left out of some call. */
  ghost function LeftOut(p: Plan): set<int> {
    match p
    case Called(_, unfitted, _, _) => set id | id in unfitted
    case Stuck => {}
    case Cut(first, _, _, second, _, _) => LeftOut(first) + LeftOut(second)
  }

  ghost predicate Reports(stats: Stats, left: set<int>) {
    forall id :: id in stats.unfitted <==> id in left
  }

  lemma ReportsBoth(a: Stats, left: set<int>, b: Stats, more: set<int>)
    requires Reports(a, left) && Reports(b, more)
    ensures Reports(a.Plus(b), left + more)
  {
    UnionExactly(a.unfitted, b.unfitted);
  }

  ghost function CutsIn(p: Plan): nat {
    match p
    case Cut(first, _, _, second, _, _) => 1 + CutsIn(first) + CutsIn(second)
    case _ => 0
  }

  /** The halves of a window it can be cut into hold all its events between them. */
  lemma HalfSizes(evts: seq<Event>, ns: seq<Narrative>, win: TimeRange)
    requires Bisectable(win, Within(evts, win))
    ensures var n1, n2 := |Within(evts, FirstHalf(win))|, |Within(evts, SecondHalf(win))|;
            0 < n1 && 0 < n2 && n1 + n2 == |Within(evts, win)|
  {
    HalvesExactly(evts, ns, win);
  }

  lemma CutPlan(
    replies: Replies, at: nat, next: nat, w: Wording, b: Budgets, budget: int, evts: seq<Event>, ns: seq<Narrative>, win: TimeRange,
    first: Plan, one: Outcome<seq<ClusterResult>>, mid: nat, second: Plan, two: Outcome<seq<ClusterResult>>, end: nat,
    out: Outcome<seq<ClusterResult>>)
    requires NeedsCut(w, evts, ns, budget, win) && Bisectable(win, Within(evts, win))
    requires var ended := WindowEnds(first, replies, at, mid, w, b, budget, evts, ns, FirstHalf(win), one); ended
    requires if one.Failed? then second == Stuck && out == two == one && next == end == mid
             else
               && (var ended := WindowEnds(second, replies, mid, end, w, b, budget, evts, ns, SecondHalf(win), two); ended)
               && (var merged := Merged(replies, end, next, one.value, two, out); merged)
    ensures var ended := WindowEnds(Cut(first, one, mid, second, two, end), replies, at, next, w, b, budget, evts, ns, win, out); ended
  {
  }

  /** What a window's first calls come to: each fits, and with the rest of its calls they are all there are. */
  ghost predicate CallsMade(
    calls: seq<FirstCall>, at: nat, next: nat, w: Wording, b: Budgets, budget: int, evts: seq<Event>, ns: seq<Narrative>,
    events: nat, stats: Stats)
  {
    && at <= next && WithinCost(stats, next - at, events, b)
    && FirstCallsFit(w, evts, ns, budget, calls, at, next) && Accounted(calls, stats, next - at)
  }

  /** What a window cut in two has spent once its first half is done, and once both and their seam are. */
  function OfFirst(s1: Stats): Stats {
    NOTHING.(splits := 1).Plus(s1)
  }

  function OfHalves(s1: Stats, s2: Stats, seam: Stats): Stats {
    OfFirst(s1).Plus(s2).Plus(seam)
  }

  lemma CallsOfHalves(
    c1: seq<FirstCall>, at: nat, mid: nat, c2: seq<FirstCall>, end: nat, next: nat, w: Wording, b: Budgets, budget: int,
    evts: seq<Event>, ns: seq<Narrative>, n1: nat, s1: Stats, n2: nat, s2: Stats, seam: Stats)
    requires n1 > 0 && n2 > 0
    requires var made := CallsMade(c1, at, mid, w, b, budget, evts, ns, n1, s1); made
    requires var made := CallsMade(c2, mid, end, w, b, budget, evts, ns, n2, s2); made
    requires end <= next <= end + 1 && seam == NOTHING.(mergeChecks := next - end, calls := seam.calls) && seam.calls <= next - end
    ensures var made := CallsMade(c1 + c2, at, next, w, b, budget, evts, ns, n1 + n2, OfHalves(s1, s2, seam)); made
  {
    CostAdds(s1, mid - at, n1, s2, end - mid, n2, seam, next - end, b);
    FirstCallsOnward(w, evts, ns, budget, c1, c2, at, mid, end);
    FirstCallsOnward(w, evts, ns, budget, c1 + c2, [], at, end, next);
    assert c1 + c2 + [] == c1 + c2;
  }

  lemma CallsOfFirst(
    c1: seq<FirstCall>, at: nat, mid: nat, w: Wording, b: Budgets, budget: int, evts: seq<Event>, ns: seq<Narrative>,
    n1: nat, s1: Stats, n2: nat)
    requires n1 > 0 && n2 > 0
    requires var made := CallsMade(c1, at, mid, w, b, budget, evts, ns, n1, s1); made
    ensures var made := CallsMade(c1, at, mid, w, b, budget, evts, ns, n1 + n2, OfFirst(s1)); made
  {
    CostOfFirst(s1, mid - at, n1, n2, b);
  }

  /**
   * A window's clustering, whole: it ended as its plan says, at a cost within the bound, and
   * its first calls, with the re-asks, the rounds and the seam checks, are all its calls, and
   * it reports the narratives left out of them.
   */
  ghost predicate Ran(
    p: Plan, replies: Replies, at: nat, next: nat, w: Wording, b: Budgets, budget: int, evts: seq<Event>, ns: seq<Narrative>,
    win: TimeRange, out: Outcome<seq<ClusterResult>>, stats: Stats)
  {
    && WindowEnds(p, replies, at, next, w, b, budget, evts, ns, win, out)
    && CallsMade(FirstCalls(p, evts, win, at), at, next, w, b, budget, evts, ns, |Within(evts, win)|, stats)
    && stats.splits == CutsIn(p) && Reports(stats, LeftOut(p))
  }

  lemma RanParts(
    p: Plan, replies: Replies, at: nat, next: nat, w: Wording, b: Budgets, budget: int, evts: seq<Event>, ns: seq<Narrative>,
    win: TimeRange, out: Outcome<seq<ClusterResult>>, stats: Stats)
    requires var ran := Ran(p, replies, at, next, w, b, budget, evts, ns, win, out, stats); ran
    ensures var ended := WindowEnds(p, replies, at, next, w, b, budget, evts, ns, win, out); ended
    ensures var made := CallsMade(FirstCalls(p, evts, win, at), at, next, w, b, budget, evts, ns, |Within(evts, win)|, stats); made
    ensures stats.splits == CutsIn(p) && Reports(stats, LeftOut(p))
  {
  }

  lemma CallsOfCut(
    first: Plan, one: Outcome<seq<ClusterResult>>, mid: nat, second: Plan, two: Outcome<seq<ClusterResult>>, end: nat,
    evts: seq<Event>, win: TimeRange, at: nat)
    requires one.Failed? ==> second == Stuck
    ensures var p := Cut(first, one, mid, second, two, end);
            && FirstCalls(p, evts, win, at) == FirstCalls(first, evts, FirstHalf(win), at) + FirstCalls(second, evts, SecondHalf(win), mid)
            && CutsIn(p) == 1 + CutsIn(first) + CutsIn(second) && LeftOut(p) == LeftOut(first) + LeftOut(second)
  {
  }

  lemma CutCallsMade(
    first: Plan, one: seq<ClusterResult>, mid: nat, second: Plan, two: Outcome<seq<ClusterResult>>, end: nat, at: nat, next: nat,
    w: Wording, b: Budgets, budget: int, evts: seq<Event>, ns: seq<Narrative>, win: TimeRange, s1: Stats, s2: Stats, seam: Stats)
    requires Bisectable(win, Within(evts, win))
    requires var made := CallsMade(FirstCalls(first, evts, FirstHalf(win), at), at, mid, w, b, budget, evts, ns,
                                   |Within(evts, FirstHalf(win))|, s1); made
    requires var made := CallsMade(FirstCalls(second, evts, SecondHalf(win), mid), mid, end, w, b, budget, evts, ns,
                                   |Within(evts, SecondHalf(win))|, s2); made
    requires end <= next <= end + 1 && seam == NOTHING.(mergeChecks := next - end, calls := seam.calls) && seam.calls <= next - end
    requires s1.splits == CutsIn(first) && s2.splits == CutsIn(second) && Reports(s1, LeftOut(first)) && Reports(s2, LeftOut(second))
    ensures var p := Cut(first, Done(one), mid, second, two, end);
            var made := CallsMade(FirstCalls(p, evts, win, at), at, next, w, b, budget, evts, ns, |Within(evts, win)|, OfHalves(s1, s2, seam));
            made && OfHalves(s1, s2, seam).splits == CutsIn(p) && Reports(OfHalves(s1, s2, seam), LeftOut(p))
  {
    ReportsBoth(NOTHING.(splits := 1), {}, s1, LeftOut(first));
    ReportsBoth(OfFirst(s1), {} + LeftOut(first), s2, LeftOut(second));
    ReportsBoth(OfFirst(s1).Plus(s2), {} + LeftOut(first) + LeftOut(second), seam, {});
    HalfSizes(evts, ns, win);
    CallsOfCut(first, Done(one), mid, second, two, end, evts, win, at);
    CallsOfHalves(FirstCalls(first, evts, FirstHalf(win), at), at, mid, FirstCalls(second, evts, SecondHalf(win), mid), end, next,
                  w, b, budget, evts, ns, |Within(evts, FirstHalf(win))|, s1, |Within(evts, SecondHalf(win))|, s2, seam);
  }

  lemma CutCallsShort(
    first: Plan, one: Outcome<seq<ClusterResult>>, mid: nat, at: nat,
    w: Wording, b: Budgets, budget: int, evts: seq<Event>, ns: seq<Narrative>, win: TimeRange, s1: Stats)
    requires Bisectable(win, Within(evts, win)) && one.Failed? && s1.splits == CutsIn(first) && Reports(s1, LeftOut(first))
    requires var made := CallsMade(FirstCalls(first, evts, FirstHalf(win), at), at, mid, w, b, budget, evts, ns,
                                   |Within(evts, FirstHalf(win))|, s1); made
    ensures var p := Cut(first, one, mid, Stuck, one, mid);
            var made := CallsMade(FirstCalls(p, evts, win, at), at, mid, w, b, budget, evts, ns, |Within(evts, win)|, OfFirst(s1));
            made && OfFirst(s1).splits == CutsIn(p) && Reports(OfFirst(s1), LeftOut(p))
  {
    ReportsBoth(NOTHING.(splits := 1), {}, s1, LeftOut(first));
    HalfSizes(evts, ns, win);
    CallsOfCut(first, one, mid, Stuck, one, mid, evts, win, at);
    var calls := FirstCalls(first, evts, FirstHalf(win), at);
    assert calls + [] == calls;
    CallsOfFirst(calls, at, mid, w, b, budget, evts, ns, |Within(evts, FirstHalf(win))|, s1, |Within(evts, SecondHalf(win))|);
  }

  /** Both halves clustered, and the second failed or their clusters merged. */
  lemma RanHalves(
    replies: Replies, at: nat, next: nat, w: Wording, b: Budgets, budget: int, evts: seq<Event>, ns: seq<Narrative>, win: TimeRange,
    first: Plan, one: seq<ClusterResult>, s1: Stats, mid: nat,
    second: Plan, two: Outcome<seq<ClusterResult>>, s2: Stats, end: nat, out: Outcome<seq<ClusterResult>>, seam: Stats)
    requires NeedsCut(w, evts, ns, budget, win) && Bisectable(win, Within(evts, win))
    requires var ran := Ran(first, replies, at, mid, w, b, budget, evts, ns, FirstHalf(win), Done(one), s1); ran
    requires var ran := Ran(second, replies, mid, end, w, b, budget, evts, ns, SecondHalf(win), two, s2); ran
    requires end <= next <= end + 1 && seam == NOTHING.(mergeChecks := next - end, calls := seam.calls) && seam.calls <= next - end
    requires var merged := Merged(replies, end, next, one, two, out); merged
    ensures var ran := Ran(Cut(first, Done(one), mid, second, two, end), replies, at, next, w, b, budget, evts, ns, win, out,
                           OfHalves(s1, s2, seam)); ran
  {
    RanParts(first, replies, at, mid, w, b, budget, evts, ns, FirstHalf(win), Done(one), s1);
    RanParts(second, replies, mid, end, w, b, budget, evts, ns, SecondHalf(win), two, s2);
    CutPlan(replies, at, next, w, b, budget, evts, ns, win, first, Done(one), mid, second, two, end, out);
    CutCallsMade(first, one, mid, second, two, end, at, next, w, b, budget, evts, ns, win, s1, s2, seam);
  }

  /** The first half failed. */
  lemma RanShort(
    replies: Replies, at: nat, mid: nat, w: Wording, b: Budgets, budget: int, evts: seq<Event>, ns: seq<Narrative>, win: TimeRange,
    first: Plan, one: Outcome<seq<ClusterResult>>, s1: Stats)
    requires NeedsCut(w, evts, ns, budget, win) && Bisectable(win, Within(evts, win)) && one.Failed?
    requires var ran := Ran(first, replies, at, mid, w, b, budget, evts, ns, FirstHalf(win), one, s1); ran
    ensures var ran := Ran(Cut(first, one, mid, Stuck, one, mid), replies, at, mid, w, b, budget, evts, ns, win, one, OfFirst(s1)); ran
  {
    RanParts(first, replies, at, mid, w, b, budget, evts, ns, FirstHalf(win), one, s1);
    CutPlan(replies, at, mid, w, b, budget, evts, ns, win, first, one, mid, Stuck, one, mid, one);
    CutCallsShort(first, one, mid, at, w, b, budget, evts, ns, win, s1);
  }

  /** Windows one after another, the first starting where win does and the last ending where it does. */
  ghost predicate Tiles(calls: seq<FirstCall>, win: TimeRange) {
    && calls != [] && calls[0].window.start == win.start && calls[|calls| - 1].window.end == win.end
    && forall t :: 0 <= t < |calls| - 1 ==> calls[t].window.end == calls[t + 1].window.start
  }

  lemma TilesBoth(a: seq<FirstCall>, b: seq<FirstCall>, win: TimeRange)
    requires Tiles(a, FirstHalf(win)) && Tiles(b, SecondHalf(win))
    ensures Tiles(a + b, win)
  {
    var both := a + b;
    forall t | 0 <= t < |both| - 1 ensures both[t].window.end == both[t + 1].window.start {
      if t >= |a| { assert both[t] == b[t - |a|]; }
    }
  }

  /** The first calls of a window clustered cover it end to end, each time once. */
  lemma {:induction false} CallsTile(
    p: Plan, replies: Replies, at: nat, next: nat, w: Wording, b: Budgets, budget: int, evts: seq<Event>, ns: seq<Narrative>,
    win: TimeRange, out: Outcome<seq<ClusterResult>>)
    requires WindowEnds(p, replies, at, next, w, b, budget, evts, ns, win, out) && out.Done?
    ensures Tiles(FirstCalls(p, evts, win, at), win)
  {
    if p.Cut? {
      CallsTile(p.first, replies, at, p.mid, w, b, budget, evts, ns, FirstHalf(win), p.one);
      CallsTile(p.second, replies, p.mid, p.end, w, b, budget, evts, ns, SecondHalf(win), p.two);
      TilesBoth(FirstCalls(p.first, evts, FirstHalf(win), at), FirstCalls(p.second, evts, SecondHalf(win), p.mid), win);
    }
  }

  /** A window that fits with all its narratives is not cut, and one whose own events do not fit is cut or fails. */
  lemma CutOnlyWhenNeeded(
    p: Plan, replies: Replies, at: nat, next: nat, w: Wording, b: Budgets, budget: int, evts: seq<Event>, ns: seq<Narrative>,
    win: TimeRange, out: Outcome<seq<ClusterResult>>)
    requires WindowEnds(p, replies, at, next, w, b, budget, evts, ns, win, out)
    ensures BaseTokens(w.clusterSystem, Within(evts, win)) <= budget && ContextFits(w, evts, ns, budget, win) ==>
              CutsIn(p) == 0 && |FirstCalls(p, evts, win, at)| <= 1 && LeftOut(p) == {}
    ensures BaseTokens(w.clusterSystem, Within(evts, win)) > budget ==>
              CutsIn(p) > 0 || (out == Failed(Irreducible) && next == at && FirstCalls(p, evts, win, at) == [])
  {
    if p.Called? {
      NoneLeftOutExactly(w.clusterSystem, Within(evts, win), Relevant(ns, win), budget, p.kept, p.unfitted);
    }
  }

  /** The split the method decides on is the one the window needs. */
  lemma SplitNeeded(
    w: Wording, evts: seq<Event>, ns: seq<Narrative>, budget: int, win: TimeRange, kept: seq<Narrative>, unfitted: seq<int>)
    requires KeptAsFit(w.clusterSystem, Within(evts, win), Relevant(ns, win), budget, kept, unfitted)
    ensures NeedsCut(w, evts, ns, budget, win) <==>
            BaseTokens(w.clusterSystem, Within(evts, win)) > budget || (unfitted != [] && Bisectable(win, Within(evts, win)))
    ensures !NeedsCut(w, evts, ns, budget, win) && Bisectable(win, Within(evts, win)) ==> kept == Relevant(ns, win)
  {
    NoneLeftOutExactly(w.clusterSystem, Within(evts, win), Relevant(ns, win), budget, kept, unfitted);
  }

  /**
   * A window's clusters. Over budget, or with context left out, it is cut in two while that
   * makes progress; a window that cannot be cut leaves context out instead. `plan` is how it
   * came to its outcome.
   */
  method ClusterWindow(replies: Replies, at: nat, w: Wording, b: Budgets, budget: int, evts: seq<Event>, ns: seq<Narrative>, win: TimeRange)
    returns (out: Outcome<seq<ClusterResult>>, stats: Stats, next: nat, ghost plan: Plan)
    requires |evts| + |Eligible(ns)| <= Text.MAX_INT
    ensures out.Done? ==> Covers(out.value, evts, ns, win)
    ensures out.Done? && RepliesExtendOnce(replies) ==> ExtendsOnce(out.value)
    ensures var ran := Ran(plan, replies, at, next, w, b, budget, evts, ns, win, out, stats); ran
    decreases |Within(evts, win)|, 2
  {
    var inWindow := FilterEventsInWindow(evts, win);
    var relevant := FilterAdjacentOrOverlapping(ns, win);
    var kept, unfitted, baseTokens := FitContextNarratives(w.clusterSystem, inWindow, relevant, budget);
    SplitNeeded(w, evts, ns, budget, win, kept, unfitted);
    var split := baseTokens > budget;
    if !split && |unfitted| > 0 {
      split := IsBisectable(win, inWindow);
    }
    if split {
      out, stats, next, plan := ClusterWithSplit(replies, at, w, b, budget, evts, ns, win, inWindow);
    } else {
      out, stats, next, plan := ClusterWhole(replies, at, w, b, budget, evts, ns, win, inWindow, kept, unfitted);
    }
  }

  /** A window called as it stands. */
  method ClusterWhole(replies: Replies, at: nat, w: Wording, b: Budgets, budget: int, evts: seq<Event>, ns: seq<Narrative>, win: TimeRange,
                      inWindow: seq<Event>, kept: seq<Narrative>, unfitted: seq<int>)
    returns (out: Outcome<seq<ClusterResult>>, stats: Stats, next: nat, ghost plan: Plan)
    requires |evts| + |Eligible(ns)| <= Text.MAX_INT && inWindow == Within(evts, win) && !NeedsCut(w, evts, ns, budget, win)
    requires kept == FitAll(Start(w.clusterSystem, inWindow), Relevant(ns, win), budget).kept
    requires KeptAsFit(w.clusterSystem, inWindow, Relevant(ns, win), budget, kept, unfitted)
    ensures out.Done? ==> Covers(out.value, evts, ns, win)
    ensures out.Done? && RepliesExtendOnce(replies) ==> ExtendsOnce(out.value)
    ensures var ran := Ran(plan, replies, at, next, w, b, budget, evts, ns, win, out, stats); ran
  {
    SplitNeeded(w, evts, ns, budget, win, kept, unfitted);
    FitSound(w.clusterSystem, evts, ns, win, budget);
    ghost var states;
    out, stats, next, states := ClusterCall(replies, at, w, b, budget, evts, ns, win, inWindow, kept);
    plan := Called(kept, unfitted, stats.clusterReasks, states);
    CalledPlan(replies, at, next, w, b, budget, evts, ns, win, kept, unfitted, stats.clusterReasks, states, out);
    CalledMade(replies, at, next, w, b, budget, evts, ns, win, kept, states, stats, unfitted);
    stats := stats.(unfitted := unfitted);
  }

  lemma CalledPlan(
    replies: Replies, at: nat, next: nat, w: Wording, b: Budgets, budget: int, evts: seq<Event>, ns: seq<Narrative>, win: TimeRange,
    kept: seq<Narrative>, unfitted: seq<int>, reasks: nat, states: seq<Round>, out: Outcome<seq<ClusterResult>>)
    requires !NeedsCut(w, evts, ns, budget, win)
    requires KeptAsFit(w.clusterSystem, Within(evts, win), Relevant(ns, win), budget, kept, unfitted)
    requires var ends := CallEnds(replies, at, reasks, states, w, b, budget, Within(evts, win), kept, out);
             if UniqueKeys(Within(evts, win) + Eligible(kept)) then ends && next == at + 1 + reasks + RoundsIn(states)
             else out == Failed(NumberedTwice) && states == [] && reasks == 0 && next == at
    ensures var ended := WindowEnds(Called(kept, unfitted, reasks, states), replies, at, next, w, b, budget, evts, ns, win, out); ended
  {
  }

  lemma CalledMade(
    replies: Replies, at: nat, next: nat, w: Wording, b: Budgets, budget: int, evts: seq<Event>, ns: seq<Narrative>, win: TimeRange,
    kept: seq<Narrative>, states: seq<Round>, stats: Stats, unfitted: seq<int>)
    requires stats == NOTHING.(calls := stats.calls, clusterReasks := stats.clusterReasks, omitted := stats.omitted,
                               recovered := stats.recovered, omissionReasks := stats.omissionReasks)
    requires at <= next <= at + CallsPerWindow(b) && stats.calls <= next - at
    requires var unique := UniqueKeys(Within(evts, win) + Eligible(kept));
             && next - at == (if unique then 1 else 0) + stats.clusterReasks + stats.omissionReasks
             && (unique ==> FirstTokens(w, evts, FirstCall(at, win, kept)) <= budget)
    requires forall n :: n in kept ==> n in Relevant(ns, win)
    requires kept == Relevant(ns, win) || !Bisectable(win, Within(evts, win))
    ensures var p := Called(kept, unfitted, stats.clusterReasks, states);
            var made := CallsMade(FirstCalls(p, evts, win, at), at, next, w, b, budget, evts, ns, |Within(evts, win)|,
                                  stats.(unfitted := unfitted)); made
  {
    CallsSpread(|Within(evts, win)|, b);
  }

  lemma CallsSpread(n: nat, b: Budgets)
    ensures CallsPerWindow(b) <= Times(if n > 1 then n else 1, CallsPerWindow(b))
  {
  }

  /** A window cut in two, each half clustered on its own and the results merged at the seam. */
  method ClusterWithSplit(replies: Replies, at: nat, w: Wording, b: Budgets, budget: int, evts: seq<Event>, ns: seq<Narrative>, win: TimeRange,
                          inWindow: seq<Event>)
    returns (out: Outcome<seq<ClusterResult>>, stats: Stats, next: nat, ghost plan: Plan)
    requires |evts| + |Eligible(ns)| <= Text.MAX_INT && inWindow == Within(evts, win) && NeedsCut(w, evts, ns, budget, win)
    ensures out.Done? ==> Covers(out.value, evts, ns, win)
    ensures out.Done? && RepliesExtendOnce(replies) ==> ExtendsOnce(out.value)
    ensures var ran := Ran(plan, replies, at, next, w, b, budget, evts, ns, win, out, stats); ran
    decreases |Within(evts, win)|, 1
  {
    var bisectable := IsBisectable(win, inWindow);
    if !bisectable {
      RanStuck(replies, at, w, b, budget, evts, ns, win);
      return Failed(Irreducible), NOTHING, at, Stuck;
    }
    HalvesExactly(evts, ns, win);
    stats := NOTHING.(splits := 1);
    var first, firstStats, mid;
    first, firstStats, mid, plan := ClusterWindow(replies, at, w, b, budget, evts, ns, FirstHalf(win));
    stats := stats.Plus(firstStats);
    if first.Failed? {
      RanShort(replies, at, mid, w, b, budget, evts, ns, win, plan, first, firstStats);
      return first, stats, mid, Cut(plan, first, mid, Stuck, first, mid);
    }
    out, stats, next, plan := ClusterSecondHalf(replies, mid, w, b, budget, evts, ns, win, first.value, firstStats, at, plan);
  }

  lemma NoCalls(w: Wording, b: Budgets, budget: int, at: nat, evts: seq<Event>, ns: seq<Narrative>, win: TimeRange)
    ensures var made := CallsMade(FirstCalls(Stuck, evts, win, at), at, at, w, b, budget, evts, ns, |Within(evts, win)|, NOTHING); made
  {
    CallsSpread(|Within(evts, win)|, b);
  }

  lemma RanStuck(replies: Replies, at: nat, w: Wording, b: Budgets, budget: int, evts: seq<Event>, ns: seq<Narrative>, win: TimeRange)
    requires NeedsCut(w, evts, ns, budget, win) && !Bisectable(win, Within(evts, win))
    ensures var ran := Ran(Stuck, replies, at, at, w, b, budget, evts, ns, win, Failed(Irreducible), NOTHING); ran
  {
    NoCalls(w, b, budget, at, evts, ns, win);
  }

  /** The second half of a window clustered and merged with the first, whose calls began at `from`. */
  method ClusterSecondHalf(replies: Replies, at: nat, w: Wording, b: Budgets, budget: int, evts: seq<Event>, ns: seq<Narrative>, win: TimeRange,
                           first: seq<ClusterResult>, firstStats: Stats, ghost from: nat, ghost firstPlan: Plan)
    returns (out: Outcome<seq<ClusterResult>>, stats: Stats, next: nat, ghost plan: Plan)
    requires |evts| + |Eligible(ns)| <= Text.MAX_INT && Bisectable(win, Within(evts, win)) && NeedsCut(w, evts, ns, budget, win)
    requires Covers(first, evts, ns, FirstHalf(win))
    requires var ran := Ran(firstPlan, replies, from, at, w, b, budget, evts, ns, FirstHalf(win), Done(first), firstStats); ran
    ensures out.Done? ==> Covers(out.value, evts, ns, win)
    ensures out.Done? && RepliesExtendOnce(replies) && ExtendsOnce(first) ==> ExtendsOnce(out.value)
    ensures var ran := Ran(plan, replies, from, next, w, b, budget, evts, ns, win, out, stats); ran
    decreases |Within(evts, win)|, 0
  {
    HalvesExactly(evts, ns, win);
    var second, secondStats, end;
    ghost var secondPlan;
    second, secondStats, end, secondPlan := ClusterWindow(replies, at, w, b, budget, evts, ns, SecondHalf(win));
    stats := NOTHING.(splits := 1).Plus(firstStats).Plus(secondStats);
    plan := Cut(firstPlan, Done(first), at, secondPlan, second, end);
    if second.Failed? {
      RanHalves(replies, from, end, w, b, budget, evts, ns, win, firstPlan, first, firstStats, at,
                secondPlan, second, secondStats, end, second, NOTHING);
      NothingAdds(stats);
      return second, stats, end, plan;
    }
    var seamStats;
    out, seamStats, next := MergeHalves(replies, end, evts, ns, win, first, second.value);
    RanHalves(replies, from, next, w, b, budget, evts, ns, win, firstPlan, first, firstStats, at,
              secondPlan, second, secondStats, end, out, seamStats);
    stats := stats.Plus(seamStats);
  }

  /** The two halves of a window merged at their seam, for at most one call. */
  method MergeHalves(replies: Replies, at: nat, evts: seq<Event>, ns: seq<Narrative>, win: TimeRange,
                     first: seq<ClusterResult>, second: seq<ClusterResult>)
    returns (out: Outcome<seq<ClusterResult>>, stats: Stats, next: nat)
    requires Bisectable(win, Within(evts, win))
    requires Covers(first, evts, ns, FirstHalf(win)) && Covers(second, evts, ns, SecondHalf(win))
    ensures out == Seam.SeamOutcome(first, second, replies(at))
    ensures out.Done? ==> Covers(out.value, evts, ns, win)
    ensures out.Done? && ExtendsOnce(first) && ExtendsOnce(second) ==> ExtendsOnce(out.value)
    ensures stats == NOTHING.(mergeChecks := stats.mergeChecks, calls := stats.calls)
    ensures stats.calls <= next - at == stats.mergeChecks == if Seam.SeamAsked(first, second) then 1 else 0
  {
    out, stats, next := Seam.MergeSplitResults(replies, at, first, second);
    if out.Done? {
      HalvesCover(first, second, replies(at), evts, ns, win);
      if ExtendsOnce(first) && ExtendsOnce(second) {
        SeamFacts.SeamExtendsOnce(first, second, replies(at));
      }
    }
  }
}
