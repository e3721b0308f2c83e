/**
 * The whole pass: every event of the window ends as the work of exactly one cluster,
 * whatever the model replied.
 */
module Pass {
  import opened Events
  import opened Clusters
  import opened Regrouping
  import opened Oracle
  import opened Prompts
  import opened Parsing
  import opened ContextFit
  import opened ContextFitFacts
  import opened Windows
  import opened Engine
  import opened Disputes
  import opened DisputeFacts
  import DisputePass
  import Batching
  import PRJoin
  import PRJoinFacts
  import PRGroups
  import Text

  /** The most tokens a prompt may be estimated at: the context window less the reply's reserve. */
  function PromptBudget(contextWindow: int, reserve: int): (out: Outcome<int>)
    ensures out.Done? <==> AtLeastZero(reserve) < contextWindow
    ensures out.Done? ==> 0 < out.value <= contextWindow && (reserve > 0 ==> out.value + reserve == contextWindow)
  {
    var budget := contextWindow - AtLeastZero(reserve);
    if budget <= 0 then Failed(NoPromptBudget) else Done(budget)
  }

  /** k is the work of exactly one of the clusters. */
  ghost predicate OneHome(rs: seq<ClusterResult>, k: EventKey) {
    exists i :: 0 <= i < |rs| && rs[i].Holds(k) && forall j :: 0 <= j < |rs| && rs[j].Holds(k) ==> j == i
  }

  /**
   * Exact cover: the clusters are well formed; every event of the window is the work of
   * exactly one of them; no event at all is the work of two; and every event in them is one
   * of the window's or an eligible event of a narrative shown to it.
   */
  ghost predicate ExactCover(rs: seq<ClusterResult>, evts: seq<Event>, ns: seq<Narrative>, w: TimeRange) {
    && AllWellFormed(rs)
    && (forall e :: e in Within(evts, w) ==> OneHome(rs, e.key))
    && (forall k :: SoleClaim(rs, k))
    && DrawnFrom(rs, Pool(evts, ns, w))
  }

  /** After the join, the same events are placed, and no narrative is extended more often. */
  lemma JoinedCovers(rs: seq<ClusterResult>, group: seq<int>, evts: seq<Event>, ns: seq<Narrative>, w: TimeRange)
    requires Covers(rs, evts, ns, w) && |group| == |rs| && PRGroups.Rooted(group)
    ensures Covers(PRJoin.JoinedUpTo(rs, group, |rs|), evts, ns, w)
    ensures ExtendsOnce(rs) ==> ExtendsOnce(PRJoin.JoinedUpTo(rs, group, |rs|))
  {
    var out, parts := PRJoin.JoinedUpTo(rs, group, |rs|), PRJoinFacts.JoinParts(rs, group);
    PRJoinFacts.JoinRegroups(rs, group);
    RegroupedDrawnFrom(rs, out, parts, Pool(evts, ns, w));
    forall e | e in Within(evts, w) ensures Placed(out, e.key) {
      RegroupedPlaces(rs, out, parts, e.key);
    }
    if ExtendsOnce(rs) { RegroupedExtendsOnce(rs, out, parts); }
  }

  /** With nothing disputed, covering is covering exactly. */
  lemma UndisputedExact(rs: seq<ClusterResult>, evts: seq<Event>, ns: seq<Narrative>, w: TimeRange)
    requires Covers(rs, evts, ns, w) && DisputesOf(rs) == []
    ensures ExactCover(rs, evts, ns, w)
  {
    forall k ensures SoleClaim(rs, k) {
      NoDisputeSole(rs, k);
    }
    forall e | e in Within(evts, w) ensures OneHome(rs, e.key) {
      PlacedOnce(rs, e.key);
    }
  }

  lemma NoDisputeSole(rs: seq<ClusterResult>, k: EventKey)
    requires DisputesOf(rs) == []
    ensures SoleClaim(rs, k)
  {
    DisputesExactly(rs);
    assert !DisputedIn(DisputesOf(rs), k);
  }

  lemma PlacedOnce(rs: seq<ClusterResult>, k: EventKey)
    requires Placed(rs, k) && SoleClaim(rs, k)
    ensures OneHome(rs, k)
  {
    var i :| 0 <= i < |rs| && rs[i].Holds(k);
    assert forall j :: 0 <= j < |rs| && rs[j].Holds(k) ==> j == i;
  }

  /** Settling every dispute makes covering exact. */
  lemma SettledExact(rs: seq<ClusterResult>, vs: seq<Verdict>, evts: seq<Event>, ns: seq<Narrative>, w: TimeRange)
    requires Covers(rs, evts, ns, w) && Ruled(rs, DisputesOf(rs), vs)
    ensures ExactCover(SettleAll(rs, DisputesOf(rs), vs), evts, ns, w)
    ensures ExtendsOnce(rs) ==> ExtendsOnce(SettleAll(rs, DisputesOf(rs), vs))
  {
    var out := SettleAll(rs, DisputesOf(rs), vs);
    SettledSound(rs, DisputesOf(rs), vs, Pool(evts, ns, w));
    forall k ensures SoleClaim(out, k) && (Placed(out, k) <==> Placed(rs, k)) {
      SettledOneHome(rs, DisputesOf(rs), vs, k);
    }
    forall e | e in Within(evts, w) ensures OneHome(out, e.key) {
      assert Placed(out, e.key) && SoleClaim(out, e.key);
      PlacedOnce(out, e.key);
    }
  }

  /**
   * The pull-request join: the work of two clusters ends in one exactly when undisputed pull
   * requests connect them and their group extends at most one stored narrative; every
   * placement, context and confidence is kept; and the conflicts name the groups left apart.
   */
  ghost predicate JoinedByPR(
    rs: seq<ClusterResult>, group: seq<int>, joined: seq<ClusterResult>, joins: nat, conflicts: seq<PRJoin.Conflict>)
  {
    && PRGroups.GroupLabels(rs, group) && joined == PRJoin.JoinedUpTo(rs, group, |rs|)
    && Regrouped(rs, joined, PRJoinFacts.JoinParts(rs, group))
    && (forall i: nat, j: nat :: i < |rs| && j < |rs| ==>
         (PRJoinFacts.Together(rs, group, i, j) <==>
           i == j || (group[i] == group[j] && |PRJoin.NarrativesIn(rs, PRJoin.Group(rs, group, i))| <= 1)))
    && |joined| + joins == |rs|
    && exists leaders :: PRJoinFacts.ConflictsName(rs, group, conflicts, leaders)
  }

  method JoinWindow(rs: seq<ClusterResult>, ghost evts: seq<Event>, ghost ns: seq<Narrative>, ghost win: TimeRange)
    returns (joined: seq<ClusterResult>, joins: nat, conflicts: seq<PRJoin.Conflict>, ghost group: seq<int>)
    requires Covers(rs, evts, ns, win)
    ensures Covers(joined, evts, ns, win) && (ExtendsOnce(rs) ==> ExtendsOnce(joined))
    ensures var byPR := JoinedByPR(rs, group, joined, joins, conflicts); byPR
  {
    ghost var shared;
    joined, joins, conflicts, group, shared := PRJoin.JoinByPullRequest(rs);
    JoinedCovers(rs, group, evts, ns, win);
    PRJoinFacts.JoinRegroups(rs, group);
    forall i: nat, j: nat | i < |rs| && j < |rs|
      ensures PRJoinFacts.Together(rs, group, i, j) <==>
              i == j || (group[i] == group[j] && |PRJoin.NarrativesIn(rs, PRJoin.Group(rs, group, i))| <= 1)
    {
      PRJoinFacts.JoinedTogetherExactly(rs, group, i, j);
    }
    ghost var leaders := PRJoinFacts.ConflictsExactly(rs, group, shared);
  }

  /**
   * What a pass did: how the window was clustered, what that came to and by which reply, the
   * groups joined and the clusters they left, and what was asked about disputes.
   */
  datatype Trace = Trace(
    plan: Plan, clustered: Outcome<seq<ClusterResult>>, mid: nat, group: seq<int>, joined: seq<ClusterResult>, asked: DisputePass.Asked)

  /** Nothing done. */
  ghost function NoTrace(): Trace {
    Trace(Stuck, Failed(NoPromptBudget), 0, [], [], DisputePass.Asked([], [], []))
  }

  /** The joined clusters, settled if any event is disputed. */
  ghost predicate SettledEnds(
    t: Trace, replies: Replies, next: nat, w: Wording, b: Budgets, budget: int, out: Outcome<seq<ClusterResult>>)
  {
    if DisputesOf(t.joined) == [] then out == Done(t.joined) && next == t.mid
    else DisputePass.DisputesEnd(replies, t.mid, next, w, t.joined, budget, b.dispute, t.asked, out)
  }

  /** How a pass ends that did this, having read the replies up to `next`. */
  ghost predicate PassEnds(
    t: Trace, replies: Replies, next: nat, w: Wording, b: Budgets, budget: int, evts: seq<Event>, ns: seq<Narrative>, win: TimeRange,
    out: Outcome<seq<ClusterResult>>, joins: nat, conflicts: seq<PRJoin.Conflict>)
  {
    && WindowEnds(t.plan, replies, 0, t.mid, w, b, budget, evts, ns, win, t.clustered)
    && if t.clustered.Failed? then out == t.clustered && next == t.mid && joins == 0 && conflicts == []
       else JoinedByPR(t.clustered.value, t.group, t.joined, joins, conflicts) && SettledEnds(t, replies, next, w, b, budget, out)
  }

  lemma EndsFailed(
    t: Trace, replies: Replies, w: Wording, b: Budgets, budget: int, evts: seq<Event>, ns: seq<Narrative>, win: TimeRange)
    requires t.clustered.Failed?
    requires var ended := WindowEnds(t.plan, replies, 0, t.mid, w, b, budget, evts, ns, win, t.clustered); ended
    ensures var ended := PassEnds(t, replies, t.mid, w, b, budget, evts, ns, win, t.clustered, 0, []); ended
  {
  }

  lemma EndsSettled(
    t: Trace, replies: Replies, next: nat, w: Wording, b: Budgets, budget: int, evts: seq<Event>, ns: seq<Narrative>, win: TimeRange,
    out: Outcome<seq<ClusterResult>>, joins: nat, conflicts: seq<PRJoin.Conflict>)
    requires t.clustered.Done?
    requires var ended := WindowEnds(t.plan, replies, 0, t.mid, w, b, budget, evts, ns, win, t.clustered); ended
    requires var byPR := JoinedByPR(t.clustered.value, t.group, t.joined, joins, conflicts); byPR
    requires var settled := SettledEnds(t, replies, next, w, b, budget, out); settled
    ensures var ended := PassEnds(t, replies, next, w, b, budget, evts, ns, win, out, joins, conflicts); ended
  {
  }

  /** The disputes among the joined clusters, settled. */
  method SettleWindow(replies: Replies, at: nat, w: Wording, b: Budgets, budget: int, joined: seq<ClusterResult>,
                      ghost evts: seq<Event>, ghost ns: seq<Narrative>, ghost win: TimeRange, ghost t: Trace)
    returns (out: Outcome<seq<ClusterResult>>, stats: Stats, next: nat, ghost asked: DisputePass.Asked)
    requires Covers(joined, evts, ns, win) && t.joined == joined && t.mid == at
    ensures out.Done? ==> ExactCover(out.value, evts, ns, win)
    ensures out.Done? && ExtendsOnce(joined) ==> ExtendsOnce(out.value)
    ensures out.Done? && stats.disputed > 0 ==> forall i :: 0 <= i < |out.value| ==> !Hollow(out.value[i])
    ensures at <= next <= at + stats.disputed * AtLeastZero(b.dispute) && stats.calls <= next - at
    ensures stats == NOTHING.(calls := stats.calls, disputed := stats.disputed, disputeCalls := stats.calls, disputeReasks := stats.disputeReasks)
    ensures stats.disputed == 0 ==> next == at
    ensures var settled := SettledEnds(t.(asked := asked), replies, next, w, b, budget, out); settled
  {
    var resolutions;
    out, stats, next, resolutions, asked := DisputePass.ResolveDisputes(replies, at, w, joined, budget, b.dispute);
    if out.Done? {
      if DisputesOf(joined) == [] {
        UndisputedExact(joined, evts, ns, win);
      } else {
        SettledExact(joined, Batching.Concat(asked.answers), evts, ns, win);
      }
    }
  }

  /** What a pass over so many events may cost: splits, seam checks and calls. */
  ghost predicate CostBounded(stats: Stats, calls: nat, events: nat, b: Budgets) {
    var n := if events > 1 then events else 1;
    && stats.splits <= n - 1
    && stats.mergeChecks <= stats.splits
    && stats.calls <= calls
    && calls <= n * CallsPerWindow(b) + (n - 1) + stats.disputed * AtLeastZero(b.dispute)
  }

  lemma CostStillBounded(stats: Stats, mid: nat, next: nat, events: nat, b: Budgets, joins: nat, more: Stats)
    requires var bounded := CostBounded(stats, mid, events, b); bounded && stats.disputed == 0
    requires mid <= next <= mid + more.disputed * AtLeastZero(b.dispute) && more.calls <= next - mid
    requires more == NOTHING.(calls := more.calls, disputed := more.disputed, disputeCalls := more.calls, disputeReasks := more.disputeReasks)
    ensures var bounded := CostBounded(stats.Plus(NOTHING.(joins := joins)).Plus(more), next, events, b); bounded
  {
  }

  /** What clustering the whole window cost, and its first calls. */
  lemma WindowCost(
    p: Plan, replies: Replies, next: nat, w: Wording, b: Budgets, budget: int, evts: seq<Event>, ns: seq<Narrative>, win: TimeRange,
    out: Outcome<seq<ClusterResult>>, stats: Stats)
    requires var ran := Ran(p, replies, 0, next, w, b, budget, evts, ns, win, out, stats); ran
    ensures var ended := WindowEnds(p, replies, 0, next, w, b, budget, evts, ns, win, out); ended
    ensures var bounded := CostBounded(stats, next, |Within(evts, win)|, b); bounded && stats.disputed == stats.joins == 0
    ensures var sent := FirstCalls(p, evts, win, 0);
            var fit := FirstCallsFit(w, evts, ns, budget, sent, 0, next);
            fit && next == |sent| + stats.clusterReasks + stats.omissionReasks + stats.mergeChecks && Reports(stats, LeftOut(p))
  {
    RanParts(p, replies, 0, next, w, b, budget, evts, ns, win, out, stats);
    TimesIs(if |Within(evts, win)| > 1 then |Within(evts, win)| else 1, CallsPerWindow(b));
  }

  /**
   * The first calls fit, and until something is disputed they and what follows them up are all
   * the calls. What is left out of them is reported.
   */
  ghost predicate CallsFit(
    t: Trace, next: nat, w: Wording, budget: int, evts: seq<Event>, ns: seq<Narrative>, win: TimeRange, stats: Stats)
  {
    var sent := FirstCalls(t.plan, evts, win, 0);
    var asked := |sent| + stats.clusterReasks + stats.omissionReasks + stats.mergeChecks;
    && FirstCallsFit(w, evts, ns, budget, sent, 0, next)
    && asked <= next && (stats.disputed == 0 ==> next == asked)
    && Reports(stats, LeftOut(t.plan))
  }

  lemma CallsStillFit(
    t: Trace, mid: nat, next: nat, w: Wording, budget: int, evts: seq<Event>, ns: seq<Narrative>, win: TimeRange,
    stats: Stats, joins: nat, more: Stats)
    requires var sent := FirstCalls(t.plan, evts, win, 0);
             var fit := FirstCallsFit(w, evts, ns, budget, sent, 0, mid);
             fit && mid == |sent| + stats.clusterReasks + stats.omissionReasks + stats.mergeChecks && Reports(stats, LeftOut(t.plan))
    requires mid <= next && (more.disputed == 0 ==> next == mid)
    requires more == NOTHING.(calls := more.calls, disputed := more.disputed, disputeCalls := more.calls, disputeReasks := more.disputeReasks)
    ensures var fit := CallsFit(t, next, w, budget, evts, ns, win, stats.Plus(NOTHING.(joins := joins)).Plus(more)); fit
  {
    FirstCallsLater(w, evts, ns, budget, FirstCalls(t.plan, evts, win, 0), 0, mid, next);
  }

  /** The windows' clusters joined, and settled. */
  method JoinAndSettle(replies: Replies, at: nat, w: Wording, b: Budgets, budget: int, rs: seq<ClusterResult>,
                       ghost evts: seq<Event>, ghost ns: seq<Narrative>, ghost win: TimeRange, ghost plan: Plan)
    returns (out: Outcome<seq<ClusterResult>>, joins: nat, stats: Stats, next: nat, conflicts: seq<PRJoin.Conflict>, ghost trace: Trace)
    requires Covers(rs, evts, ns, win)
    requires var ended := WindowEnds(plan, replies, 0, at, w, b, budget, evts, ns, win, Done(rs)); ended
    ensures out.Done? ==> ExactCover(out.value, evts, ns, win)
    ensures out.Done? && ExtendsOnce(rs) ==> ExtendsOnce(out.value)
    ensures out.Done? && stats.disputed > 0 ==> forall i :: 0 <= i < |out.value| ==> !Hollow(out.value[i])
    ensures at <= next <= at + stats.disputed * AtLeastZero(b.dispute) && stats.calls <= next - at && (stats.disputed == 0 ==> next == at)
    ensures stats == NOTHING.(calls := stats.calls, disputed := stats.disputed, disputeCalls := stats.calls, disputeReasks := stats.disputeReasks)
    ensures trace.plan == plan
    ensures var ended := PassEnds(trace, replies, next, w, b, budget, evts, ns, win, out, joins, conflicts); ended
  {
    var joined;
    ghost var group, asked;
    joined, joins, conflicts, group := JoinWindow(rs, evts, ns, win);
    trace := Trace(plan, Done(rs), at, group, joined, DisputePass.Asked([], [], []));
    out, stats, next, asked := SettleWindow(replies, at, w, b, budget, joined, evts, ns, win, trace);
    trace := trace.(asked := asked);
    EndsSettled(trace, replies, next, w, b, budget, evts, ns, win, out, joins, conflicts);
  }

  /** The pass, once there is a budget. */
  method ClusterWithin(replies: Replies, w: Wording, b: Budgets, budget: int, evts: seq<Event>, ns: seq<Narrative>, win: TimeRange)
    returns (out: Outcome<seq<ClusterResult>>, stats: Stats, next: nat, conflicts: seq<PRJoin.Conflict>, ghost trace: Trace)
    requires |evts| + |Eligible(ns)| <= Text.MAX_INT
    ensures out.Done? ==> ExactCover(out.value, evts, ns, win)
    ensures out.Done? && RepliesExtendOnce(replies) ==> ExtendsOnce(out.value)
    ensures out.Done? && stats.disputed > 0 ==> forall i :: 0 <= i < |out.value| ==> !Hollow(out.value[i])
    ensures var bounded := CostBounded(stats, next, |Within(evts, win)|, b); bounded
    ensures var ended := PassEnds(trace, replies, next, w, b, budget, evts, ns, win, out, stats.joins, conflicts); ended
    ensures var fit := CallsFit(trace, next, w, budget, evts, ns, win, stats); fit
  {
    var clustered;
    ghost var plan;
    clustered, stats, next, plan := ClusterWindow(replies, 0, w, b, budget, evts, ns, win);
    WindowCost(plan, replies, next, w, b, budget, evts, ns, win, clustered, stats);
    if clustered.Failed? {
      trace := Trace(plan, clustered, next, [], [], DisputePass.Asked([], [], []));
      EndsFailed(trace, replies, w, b, budget, evts, ns, win);
      CallsStillFit(trace, next, next, w, budget, evts, ns, win, stats, 0, NOTHING);
      NothingAdds(stats);
      return clustered, stats, next, [], trace;
    }
    var joins, disputeStats, after;
    out, joins, disputeStats, after, conflicts, trace :=
      JoinAndSettle(replies, next, w, b, budget, clustered.value, evts, ns, win, plan);
    CallsStillFit(trace, next, after, w, budget, evts, ns, win, stats, joins, disputeStats);
    CostStillBounded(stats, next, after, |Within(evts, win)|, b, joins, disputeStats);
    stats := stats.Plus(NOTHING.(joins := joins)).Plus(disputeStats);
    next := after;
  }

  /**
   * Clusters the events of a window with the narratives shown to it. The outcome is the one
   * the replies lead to: the windows' clusters, joined by pull request, settled where events
   * were claimed twice. Whatever they are, success is an exact cover, extends no narrative
   * twice unless one reply did, and leaves a disputed pass's New clusters with work of their
   * own; and success or not, the calls are bounded by the window's events and the budgets, and
   * each window's first one is within the prompt budget and shows every narrative near it
   * unless it could not be cut. With the re-asks, the rounds and the seam checks those are all
   * the calls before the disputes.
   */
  method Cluster(replies: Replies, w: Wording, b: Budgets, contextWindow: int, reserve: int, evts: seq<Event>, ns: seq<Narrative>, win: TimeRange)
    returns (out: Outcome<seq<ClusterResult>>, stats: Stats, next: nat, conflicts: seq<PRJoin.Conflict>, ghost trace: Trace)
    requires |evts| + |Eligible(ns)| <= Text.MAX_INT
    ensures out.Done? ==> ExactCover(out.value, evts, ns, win)
    ensures out.Done? && RepliesExtendOnce(replies) ==> ExtendsOnce(out.value)
    ensures out.Done? && stats.disputed > 0 ==> forall i :: 0 <= i < |out.value| ==> !Hollow(out.value[i])
    ensures var n := if |Within(evts, win)| > 1 then |Within(evts, win)| else 1;
            && stats.splits <= n - 1
            && stats.mergeChecks <= stats.splits
            && stats.calls <= next
            && next <= n * CallsPerWindow(b) + (n - 1) + stats.disputed * AtLeastZero(b.dispute)
    ensures PromptBudget(contextWindow, reserve).Failed? ==> out == Failed(NoPromptBudget) && next == 0
    ensures PromptBudget(contextWindow, reserve).Done? ==>
              var budget := PromptBudget(contextWindow, reserve).value;
              var ended := PassEnds(trace, replies, next, w, b, budget, evts, ns, win, out, stats.joins, conflicts);
              var fit := CallsFit(trace, next, w, budget, evts, ns, win, stats);
              ended && fit
  {
    var budget := PromptBudget(contextWindow, reserve);
    if budget.Failed? {
      trace := NoTrace();
      CallsSpread(|Within(evts, win)|, b);
      return Failed(budget.reason), NOTHING, 0, [], trace;
    }
    out, stats, next, conflicts, trace := ClusterWithin(replies, w, b, budget.value, evts, ns, win);
  }
}
