/** A pass is decided by its replies: the same input and the same replies leave one outcome possible. */
module Replay {
  import opened Events
  import opened Clusters
  import opened Regrouping
  import opened Oracle
  import opened Prompts
  import opened Rounds
  import opened ContextFit
  import opened ContextFitFacts
  import opened Windows
  import opened Engine
  import opened Disputes
  import opened Batching
  import DisputePass
  import Pass
  import PRJoin
  import PRJoinFacts
  import PRGroups
  import Ordering

  // One call.

  /** Rounds that stopped went no further: of two runs of them neither is longer. */
  lemma RoundsNoShorter(
    a: seq<Round>, b: seq<Round>, start: Round, replies: Replies, at: nat, w: Wording, userPrompt: nat, evts: seq<Event>, budget: int,
    most: int, outA: Outcome<seq<ClusterResult>>, outB: Outcome<seq<ClusterResult>>)
    requires Chain(a, start, replies, at, evts) && Chain(b, start, replies, at, evts)
    requires RoundsEnd(a, replies, at, w, userPrompt, evts, budget, most, outA)
    requires RoundsEnd(b, replies, at, w, userPrompt, evts, budget, most, outB)
    ensures |a| >= |b|
  {
    if |a| < |b| {
      ChainUnique(a, b, start, replies, at, evts);
    }
  }

  lemma RoundsUnique(
    a: seq<Round>, b: seq<Round>, start: Round, replies: Replies, at: nat, w: Wording, userPrompt: nat, evts: seq<Event>, budget: int,
    most: int, outA: Outcome<seq<ClusterResult>>, outB: Outcome<seq<ClusterResult>>)
    requires var chained := Chain(a, start, replies, at, evts); chained
    requires var chained := Chain(b, start, replies, at, evts); chained
    requires var ended := RoundsEnd(a, replies, at, w, userPrompt, evts, budget, most, outA); ended
    requires var ended := RoundsEnd(b, replies, at, w, userPrompt, evts, budget, most, outB); ended
    ensures a == b && outA == outB
  {
    RoundsNoShorter(a, b, start, replies, at, w, userPrompt, evts, budget, most, outA, outB);
    RoundsNoShorter(b, a, start, replies, at, w, userPrompt, evts, budget, most, outB, outA);
    ChainUnique(a, b, start, replies, at, evts);
    assert b[..|a|] == b;
  }

  /** Re-asks that ended went no further: of two runs of them neither is longer. */
  lemma ReasksNoFewer(
    replies: Replies, at: nat, ra: nat, rb: nat, sa: seq<Round>, sb: seq<Round>, w: Wording, b: Budgets, budget: int,
    inWindow: seq<Event>, kept: seq<Narrative>, outA: Outcome<seq<ClusterResult>>, outB: Outcome<seq<ClusterResult>>)
    requires CallEnds(replies, at, ra, sa, w, b, budget, inWindow, kept, outA)
    requires CallEnds(replies, at, rb, sb, w, b, budget, inWindow, kept, outB)
    ensures ra >= rb
  {
    if ra < rb {
      var evts, prompt := inWindow + Eligible(kept), PromptLen(w.clusterSystem, inWindow, kept);
      StillRefused(replies, at, ra, rb, sb, w, b, budget, inWindow, kept, outB);
      if sa == [] {
        FailedShort(replies, at, ra, w, prompt, budget, b.cluster, evts, outA.reason, rb);
      }
    }
  }

  /** Every reply re-asked after was refused. */
  lemma StillRefused(
    replies: Replies, at: nat, ra: nat, rb: nat, sb: seq<Round>, w: Wording, b: Budgets, budget: int,
    inWindow: seq<Event>, kept: seq<Narrative>, outB: Outcome<seq<ClusterResult>>)
    requires CallEnds(replies, at, rb, sb, w, b, budget, inWindow, kept, outB) && ra < rb
    ensures Refused(replies(at + ra), inWindow + Eligible(kept))
  {
  }

  /** Re-asks that fail after a refusal had none left, or no room for one. */
  lemma FailedShort(
    replies: Replies, at: nat, ra: nat, w: Wording, prompt: nat, budget: int, most: int, evts: seq<Event>, why: Failure, rb: nat)
    requires NoneAccepted(replies, at, ra, w, prompt, budget, most, evts, why)
    requires Refused(replies(at + ra), evts) && ra < rb
    ensures !ReasksFit(replies, at, rb, w, prompt, budget, most)
  {
    if why == ReaskOverBudget {
      assert !ReaskFits(replies, at + ra + 1, w, prompt, budget);
    }
  }

  /** However a call ends, the replies decide it. */
  lemma CallUnique(
    replies: Replies, at: nat, ra: nat, rb: nat, sa: seq<Round>, sb: seq<Round>, w: Wording, b: Budgets, budget: int,
    inWindow: seq<Event>, kept: seq<Narrative>, outA: Outcome<seq<ClusterResult>>, outB: Outcome<seq<ClusterResult>>)
    requires CallEnds(replies, at, ra, sa, w, b, budget, inWindow, kept, outA)
    requires CallEnds(replies, at, rb, sb, w, b, budget, inWindow, kept, outB)
    ensures ra == rb && sa == sb && outA == outB
  {
    ReasksNoFewer(replies, at, ra, rb, sa, sb, w, b, budget, inWindow, kept, outA, outB);
    ReasksNoFewer(replies, at, rb, ra, sb, sa, w, b, budget, inWindow, kept, outB, outA);
    SameFate(replies, at, ra, sa, sb, w, b, budget, inWindow, kept, outA, outB);
    if sa != [] {
      AcceptedUnique(replies, at, ra, sa, sb, w, b, budget, inWindow, kept, outA, outB);
    } else {
      OneReason(replies, at, ra, w, PromptLen(w.clusterSystem, inWindow, kept), budget, b.cluster, inWindow + Eligible(kept),
                outA.reason, outB.reason);
    }
  }

  lemma SameFate(
    replies: Replies, at: nat, reasks: nat, sa: seq<Round>, sb: seq<Round>, w: Wording, b: Budgets, budget: int,
    inWindow: seq<Event>, kept: seq<Narrative>, outA: Outcome<seq<ClusterResult>>, outB: Outcome<seq<ClusterResult>>)
    requires CallEnds(replies, at, reasks, sa, w, b, budget, inWindow, kept, outA)
    requires CallEnds(replies, at, reasks, sb, w, b, budget, inWindow, kept, outB)
    ensures sa == [] <==> sb == []
  {
  }

  lemma AcceptedParts(
    replies: Replies, at: nat, reasks: nat, states: seq<Round>, w: Wording, b: Budgets, budget: int,
    inWindow: seq<Event>, kept: seq<Narrative>, out: Outcome<seq<ClusterResult>>)
    requires (var ends := CallEnds(replies, at, reasks, states, w, b, budget, inWindow, kept, out); ends) && states != []
    ensures var evts := inWindow + Eligible(kept);
            && Accepts(replies(at + reasks), evts)
            && (var chained := Chain(states, StartOf(replies(at + reasks), evts, |inWindow|), replies, at + reasks + 1, evts); chained)
            && (var ended := RoundsEnd(states, replies, at + reasks + 1, w, PromptLen(0, inWindow, kept), evts, budget, b.omission, out); ended)
  {
  }

  lemma AcceptedUnique(
    replies: Replies, at: nat, reasks: nat, sa: seq<Round>, sb: seq<Round>, w: Wording, b: Budgets, budget: int,
    inWindow: seq<Event>, kept: seq<Narrative>, outA: Outcome<seq<ClusterResult>>, outB: Outcome<seq<ClusterResult>>)
    requires (var ends := CallEnds(replies, at, reasks, sa, w, b, budget, inWindow, kept, outA); ends) && sa != []
    requires (var ends := CallEnds(replies, at, reasks, sb, w, b, budget, inWindow, kept, outB); ends) && sb != []
    ensures sa == sb && outA == outB
  {
    var evts := inWindow + Eligible(kept);
    AcceptedParts(replies, at, reasks, sa, w, b, budget, inWindow, kept, outA);
    AcceptedParts(replies, at, reasks, sb, w, b, budget, inWindow, kept, outB);
    RoundsUnique(sa, sb, StartOf(replies(at + reasks), evts, |inWindow|), replies, at + reasks + 1, w, PromptLen(0, inWindow, kept), evts,
                 budget, b.omission, outA, outB);
  }

  lemma OneReason(
    replies: Replies, at: nat, reasks: nat, w: Wording, prompt: nat, budget: int, most: int, evts: seq<Event>, a: Failure, b: Failure)
    requires var none := NoneAccepted(replies, at, reasks, w, prompt, budget, most, evts, a); none
    requires var none := NoneAccepted(replies, at, reasks, w, prompt, budget, most, evts, b); none
    ensures a == b
  {
  }

  // A window.

  /** Which narratives fit is decided. */
  lemma KeptUnique(
    system: nat, inWindow: seq<Event>, ns: seq<Narrative>, budget: int,
    keptA: seq<Narrative>, unfittedA: seq<int>, keptB: seq<Narrative>, unfittedB: seq<int>)
    requires KeptAsFit(system, inWindow, ns, budget, keptA, unfittedA) && KeptAsFit(system, inWindow, ns, budget, keptB, unfittedB)
    ensures keptA == keptB && unfittedA == unfittedB
  {
    var test := Fitting(system, inWindow, budget);
    var a :| KeptBy(test, ns, a, keptA, unfittedA);
    var b :| KeptBy(test, ns, b, keptB, unfittedB);
    GreedyUnique(test, ns, a, b, |ns|);
    assert a[..|ns|] == a && b[..|ns|] == b;
  }

  lemma CalledUnique(
    replies: Replies, at: nat, na: nat, nb: nat, w: Wording, b: Budgets, budget: int, evts: seq<Event>, ns: seq<Narrative>, win: TimeRange,
    keptA: seq<Narrative>, unfittedA: seq<int>, ra: nat, sa: seq<Round>, outA: Outcome<seq<ClusterResult>>,
    keptB: seq<Narrative>, unfittedB: seq<int>, rb: nat, sb: seq<Round>, outB: Outcome<seq<ClusterResult>>)
    requires CalledEnds(replies, at, na, w, b, budget, evts, ns, win, keptA, unfittedA, ra, sa, outA)
    requires CalledEnds(replies, at, nb, w, b, budget, evts, ns, win, keptB, unfittedB, rb, sb, outB)
    ensures keptA == keptB && unfittedA == unfittedB && ra == rb && sa == sb && na == nb && outA == outB
  {
    KeptUnique(w.clusterSystem, Within(evts, win), Relevant(ns, win), budget, keptA, unfittedA, keptB, unfittedB);
    if UniqueKeys(Within(evts, win) + Eligible(keptA)) {
      CallUnique(replies, at, ra, rb, sa, sb, w, b, budget, Within(evts, win), keptA, outA, outB);
    }
  }

  /** However a window ends, the replies decide it: how it is cut, what each call reads, and the outcome. */
  lemma {:induction false} WindowUnique(
    p: Plan, q: Plan, replies: Replies, at: nat, na: nat, nb: nat, w: Wording, b: Budgets, budget: int, evts: seq<Event>,
    ns: seq<Narrative>, win: TimeRange, outA: Outcome<seq<ClusterResult>>, outB: Outcome<seq<ClusterResult>>)
    requires WindowEnds(p, replies, at, na, w, b, budget, evts, ns, win, outA)
    requires WindowEnds(q, replies, at, nb, w, b, budget, evts, ns, win, outB)
    ensures p == q && na == nb && outA == outB
  {
    match p
    case Called(kept, unfitted, reasks, states) =>
      CalledUnique(replies, at, na, nb, w, b, budget, evts, ns, win, kept, unfitted, reasks, states, outA,
                   q.kept, q.unfitted, q.reasks, q.states, outB);
    case Stuck =>
    case Cut(first, one, mid, second, two, end) =>
      WindowUnique(first, q.first, replies, at, mid, q.mid, w, b, budget, evts, ns, FirstHalf(win), one, q.one);
      if one.Done? {
        WindowUnique(second, q.second, replies, mid, end, q.end, w, b, budget, evts, ns, SecondHalf(win), two, q.two);
      }
  }

  // The disputes.

  lemma VerdictsUnique(rulings: seq<Ruling>, ds: seq<Dispute>, a: seq<Verdict>, b: seq<Verdict>)
    requires Complete(rulings, ds) && VerdictsOf(rulings, ds, a) && VerdictsOf(rulings, ds, b)
    ensures a == b
  {
    forall d | 0 <= d < |ds| ensures a[d] == b[d] {
      assert Answers(rulings, d);
      var t :| 0 <= t < |rulings| && rulings[t].eventIndex == Some(d);
      assert Sound(rulings[t], ds);
    }
  }

  /** A batch answered was not answered before, nor had it failed before. */
  lemma AnsweredUnique(
    replies: Replies, from: nat, ta: nat, tb: nat, w: Wording, rs: seq<ClusterResult>, budget: int, most: int, batch: seq<Dispute>,
    va: seq<Verdict>, vb: seq<Verdict>)
    requires DisputePass.BatchAnswered(replies, from, ta, w, rs, budget, most, batch, va)
    requires DisputePass.BatchAnswered(replies, from, tb, w, rs, budget, most, batch, vb)
    ensures ta == tb && va == vb
  {
    AnsweredFirst(replies, from, ta, tb, w, rs, budget, most, batch, va, vb);
    AnsweredFirst(replies, from, tb, ta, w, rs, budget, most, batch, vb, va);
    VerdictsUnique(replies(ta - 1).body.rulings, batch, va, vb);
  }

  lemma AnsweredFirst(
    replies: Replies, from: nat, ta: nat, tb: nat, w: Wording, rs: seq<ClusterResult>, budget: int, most: int, batch: seq<Dispute>,
    va: seq<Verdict>, vb: seq<Verdict>)
    requires DisputePass.BatchAnswered(replies, from, ta, w, rs, budget, most, batch, va)
    requires DisputePass.BatchAnswered(replies, from, tb, w, rs, budget, most, batch, vb)
    ensures ta >= tb
  {
    assert !DisputePass.Refused(replies(ta - 1), batch);
  }

  lemma NotBoth(
    replies: Replies, from: nat, ta: nat, tb: nat, w: Wording, rs: seq<ClusterResult>, budget: int, most: int, batch: seq<Dispute>,
    vs: seq<Verdict>, why: Failure)
    requires DisputePass.BatchAnswered(replies, from, ta, w, rs, budget, most, batch, vs)
    ensures !DisputePass.BatchFailed(replies, from, tb, w, rs, budget, most, batch, why)
  {
    if ta > tb {
      assert why == DisputeOverBudget && from < tb ==> DisputePass.AskFits(replies, from, tb, w, rs, budget, batch);
    }
    assert !DisputePass.Refused(replies(ta - 1), batch);
  }

  lemma FailedUnique(
    replies: Replies, from: nat, ta: nat, tb: nat, w: Wording, rs: seq<ClusterResult>, budget: int, most: int, batch: seq<Dispute>,
    a: Failure, b: Failure)
    requires DisputePass.BatchFailed(replies, from, ta, w, rs, budget, most, batch, a)
    requires DisputePass.BatchFailed(replies, from, tb, w, rs, budget, most, batch, b)
    ensures ta == tb && a == b
  {
    FailedFirst(replies, from, ta, tb, w, rs, budget, most, batch, a, b);
    FailedFirst(replies, from, tb, ta, w, rs, budget, most, batch, b, a);
  }

  lemma FailedFirst(
    replies: Replies, from: nat, ta: nat, tb: nat, w: Wording, rs: seq<ClusterResult>, budget: int, most: int, batch: seq<Dispute>,
    a: Failure, b: Failure)
    requires DisputePass.BatchFailed(replies, from, ta, w, rs, budget, most, batch, a)
    requires DisputePass.BatchFailed(replies, from, tb, w, rs, budget, most, batch, b)
    ensures ta >= tb
  {
  }

  /** The answers to the first n batches, and where each ends, are decided. */
  lemma {:induction false} BatchesUnique(
    replies: Replies, at: nat, w: Wording, rs: seq<ClusterResult>, budget: int, most: int, batches: seq<seq<Dispute>>,
    ea: seq<nat>, aa: seq<seq<Verdict>>, eb: seq<nat>, ab: seq<seq<Verdict>>, n: nat)
    requires DisputePass.BatchesAnswered(replies, at, w, rs, budget, most, batches, ea, aa)
    requires DisputePass.BatchesAnswered(replies, at, w, rs, budget, most, batches, eb, ab)
    requires n <= |ea| && n <= |eb|
    ensures ea[..n] == eb[..n] && aa[..n] == ab[..n] && DisputePass.AskedFrom(at, ea, n) == DisputePass.AskedFrom(at, eb, n)
  {
    if n > 0 {
      BatchesUnique(replies, at, w, rs, budget, most, batches, ea, aa, eb, ab, n - 1);
      DisputePass.AnsweredAt(replies, at, w, rs, budget, most, batches, ea, aa, n - 1);
      DisputePass.AnsweredAt(replies, at, w, rs, budget, most, batches, eb, ab, n - 1);
      AnsweredUnique(replies, DisputePass.AskedFrom(at, ea, n - 1), ea[n - 1], eb[n - 1], w, rs, budget, most, batches[n - 1],
                     aa[n - 1], ab[n - 1]);
      assert ea[..n] == ea[..n - 1] + [ea[n - 1]] && eb[..n] == eb[..n - 1] + [eb[n - 1]];
      assert aa[..n] == aa[..n - 1] + [aa[n - 1]] && ab[..n] == ab[..n - 1] + [ab[n - 1]];
    }
  }

  /** As many batches are answered. */
  lemma AsManyAnswered(
    replies: Replies, at: nat, na: nat, w: Wording, rs: seq<ClusterResult>, budget: int, most: int, batches: seq<seq<Dispute>>,
    ea: seq<nat>, aa: seq<seq<Verdict>>, why: Failure, eb: seq<nat>, ab: seq<seq<Verdict>>)
    requires DisputePass.BatchesAnswered(replies, at, w, rs, budget, most, batches, ea, aa) && |aa| < |batches|
    requires DisputePass.BatchFailed(replies, DisputePass.AskedFrom(at, ea, |ea|), na, w, rs, budget, most, batches[|aa|], why)
    requires DisputePass.BatchesAnswered(replies, at, w, rs, budget, most, batches, eb, ab)
    ensures |ab| <= |aa|
  {
    if |ab| > |aa| {
      BatchesUnique(replies, at, w, rs, budget, most, batches, ea, aa, eb, ab, |aa|);
      DisputePass.AnsweredAt(replies, at, w, rs, budget, most, batches, eb, ab, |aa|);
      NotBoth(replies, DisputePass.AskedFrom(at, eb, |aa|), eb[|aa|], na, w, rs, budget, most, batches[|aa|], ab[|aa|], why);
    }
  }

  /** How a dispute pass ends is decided by the replies. */
  lemma DisputesUnique(
    replies: Replies, at: nat, na: nat, nb: nat, w: Wording, rs: seq<ClusterResult>, budget: int, most: int,
    a: DisputePass.Asked, b: DisputePass.Asked, outA: Outcome<seq<ClusterResult>>, outB: Outcome<seq<ClusterResult>>)
    requires DisputePass.DisputesEnd(replies, at, na, w, rs, budget, most, a, outA)
    requires DisputePass.DisputesEnd(replies, at, nb, w, rs, budget, most, b, outB)
    ensures na == nb && outA == outB
  {
    if most > 0 {
      TightUnique(w, rs, budget, DisputesOf(rs), a.batches, b.batches);
      if DisputePass.AllBatchesFit(w, rs, budget, a.batches) {
        AskedUnique(replies, at, na, nb, w, rs, budget, most, a, b, outA, outB);
      }
    }
  }

  lemma AskedUnique(
    replies: Replies, at: nat, na: nat, nb: nat, w: Wording, rs: seq<ClusterResult>, budget: int, most: int,
    a: DisputePass.Asked, b: DisputePass.Asked, outA: Outcome<seq<ClusterResult>>, outB: Outcome<seq<ClusterResult>>)
    requires most > 0 && a.batches == b.batches && DisputePass.AllBatchesFit(w, rs, budget, a.batches)
    requires DisputePass.DisputesEnd(replies, at, na, w, rs, budget, most, a, outA)
    requires DisputePass.DisputesEnd(replies, at, nb, w, rs, budget, most, b, outB)
    ensures na == nb && outA == outB
  {
    var batches := a.batches;
    if |a.answers| < |batches| {
      AsManyAnswered(replies, at, na, w, rs, budget, most, batches, a.ends, a.answers, outA.reason, b.ends, b.answers);
    }
    if |b.answers| < |batches| {
      AsManyAnswered(replies, at, nb, w, rs, budget, most, batches, b.ends, b.answers, outB.reason, a.ends, a.answers);
    }
    var n := |a.answers|;
    assert |b.answers| == n;
    BatchesUnique(replies, at, w, rs, budget, most, batches, a.ends, a.answers, b.ends, b.answers, n);
    assert a.answers[..n] == a.answers && b.answers[..n] == b.answers;
    if n < |batches| {
      FailedUnique(replies, DisputePass.AskedFrom(at, a.ends, n), na, nb, w, rs, budget, most, batches[n], outA.reason, outB.reason);
    }
  }

  // The pass.

  /** The groups left apart are named in one way. */
  lemma ConflictsUnique(
    rs: seq<ClusterResult>, group: seq<int>, a: seq<PRJoin.Conflict>, la: seq<int>, b: seq<PRJoin.Conflict>, lb: seq<int>)
    requires |group| == |rs| && PRJoinFacts.ConflictsName(rs, group, a, la) && PRJoinFacts.ConflictsName(rs, group, b, lb)
    ensures a == b
  {
    AscendingSame(la, lb);
    forall t | 0 <= t < |a| ensures a[t] == b[t] {
      assert PRJoinFacts.NamesGroup(rs, group, la[t], a[t]) && PRJoinFacts.NamesGroup(rs, group, lb[t], b[t]);
      Ordering.AscendingUnique(a[t].pullRequests, b[t].pullRequests);
    }
  }

  lemma {:induction false} AscendingSame(a: seq<int>, b: seq<int>)
    requires forall t, u :: 0 <= t < u < |a| ==> a[t] < a[u]
    requires forall t, u :: 0 <= t < u < |b| ==> b[t] < b[u]
    requires forall x :: x in a <==> x in b
    ensures a == b
  {
    assert (a != [] ==> a[0] in a) && (b != [] ==> b[0] in b);
    if a != [] && b != [] {
      assert a[0] == b[0];
      forall x ensures x in a[1..] <==> x in b[1..] {
        assert x in a <==> x == a[0] || x in a[1..];
        assert x in b <==> x == b[0] || x in b[1..];
      }
      AscendingSame(a[1..], b[1..]);
      assert a == [a[0]] + a[1..] && b == [b[0]] + b[1..];
    }
  }

  /**
   * A pass is decided by its replies: two passes over one input that read the same replies
   * come to the same outcome, by the same calls, with the same joins and the same conflicts.
   */
  lemma PassUnique(
    t: Pass.Trace, u: Pass.Trace, replies: Replies, na: nat, nb: nat, w: Wording, b: Budgets, budget: int, evts: seq<Event>,
    ns: seq<Narrative>, win: TimeRange, outA: Outcome<seq<ClusterResult>>, outB: Outcome<seq<ClusterResult>>,
    joinsA: nat, joinsB: nat, conflictsA: seq<PRJoin.Conflict>, conflictsB: seq<PRJoin.Conflict>)
    requires Pass.PassEnds(t, replies, na, w, b, budget, evts, ns, win, outA, joinsA, conflictsA)
    requires Pass.PassEnds(u, replies, nb, w, b, budget, evts, ns, win, outB, joinsB, conflictsB)
    ensures t.plan == u.plan && na == nb && outA == outB && joinsA == joinsB && conflictsA == conflictsB
  {
    WindowUnique(t.plan, u.plan, replies, 0, t.mid, u.mid, w, b, budget, evts, ns, win, t.clustered, u.clustered);
    if t.clustered.Done? {
      var rs := t.clustered.value;
      JoinUnique(rs, t.group, t.joined, joinsA, conflictsA, u.group, u.joined, joinsB, conflictsB);
      SettledUnique(t, u, replies, na, nb, w, b, budget, outA, outB);
    }
  }

  lemma JoinUnique(
    rs: seq<ClusterResult>, ga: seq<int>, ja: seq<ClusterResult>, na: nat, ca: seq<PRJoin.Conflict>,
    gb: seq<int>, jb: seq<ClusterResult>, nb: nat, cb: seq<PRJoin.Conflict>)
    requires Pass.JoinedByPR(rs, ga, ja, na, ca) && Pass.JoinedByPR(rs, gb, jb, nb, cb)
    ensures ja == jb && na == nb && ca == cb
  {
    PRGroups.GroupLabelsUnique(rs, ga, gb);
    var la :| PRJoinFacts.ConflictsName(rs, ga, ca, la);
    var lb :| PRJoinFacts.ConflictsName(rs, gb, cb, lb);
    ConflictsUnique(rs, ga, ca, la, cb, lb);
  }

  lemma SettledUnique(
    t: Pass.Trace, u: Pass.Trace, replies: Replies, na: nat, nb: nat, w: Wording, b: Budgets, budget: int,
    outA: Outcome<seq<ClusterResult>>, outB: Outcome<seq<ClusterResult>>)
    requires t.joined == u.joined && t.mid == u.mid
    requires Pass.SettledEnds(t, replies, na, w, b, budget, outA) && Pass.SettledEnds(u, replies, nb, w, b, budget, outB)
    ensures na == nb && outA == outB
  {
    if DisputesOf(t.joined) != [] {
      DisputesUnique(replies, t.mid, na, nb, w, t.joined, budget, b.dispute, t.asked, u.asked, outA, outB);
    }
  }
}
