/** The dispute pass: asking which claimant owns each disputed event, batch by batch, and applying the answers. */
module DisputePass {
  import opened Events
  import opened Clusters
  import opened Regrouping
  import opened Oracle
  import opened Prompts
  import opened Disputes
  import opened DisputeFacts
  import opened Batching

  /** One sound verdict for each dispute asked. */
  ghost predicate Judged(ds: seq<Dispute>, vs: seq<Verdict>) {
    |vs| == |ds| && forall d :: 0 <= d < |ds| ==> vs[d].position in ds[d].claimants && InUnit(vs[d].confidence)
  }

  /** An accepted reply judges every dispute. */
  lemma CompleteJudges(rulings: seq<Ruling>, ds: seq<Dispute>, vs: seq<Verdict>)
    requires Complete(rulings, ds) && VerdictsOf(rulings, ds, vs)
    ensures Judged(ds, vs)
  {
    forall d | 0 <= d < |ds| ensures vs[d].position in ds[d].claimants && InUnit(vs[d].confidence) {
      assert Answers(rulings, d);
      var t :| 0 <= t < |rulings| && rulings[t].eventIndex == Some(d);
      assert Sound(rulings[t], ds);
    }
  }

  lemma {:induction false} JudgedConcat(a: seq<Dispute>, va: seq<Verdict>, b: seq<Dispute>, vb: seq<Verdict>)
    requires Judged(a, va) && Judged(b, vb)
    ensures Judged(a + b, va + vb)
  {
  }

  /** The reply is an answer, and not a complete one for the batch. */
  ghost predicate Refused(reply: Reply, batch: seq<Dispute>) {
    reply.Answer? && !(reply.body.Rulings? && Complete(reply.body.rulings, batch))
  }

  ghost predicate AllRefused(replies: Replies, from: nat, to: int, batch: seq<Dispute>) {
    forall t: nat :: from <= t < to ==> Refused(replies(t), batch)
  }

  /** Asking the batch for the reply numbered t, quoting the refusal before it if it is not the first, fits the budget. */
  ghost predicate AskFits(
    replies: Replies, from: nat, t: nat, w: Wording, rs: seq<ClusterResult>, budget: int, batch: seq<Dispute>)
  {
    t <= from || Tokens(BatchLen(w, rs, batch) + w.disputeRefusal + Quoted(replies(t - 1))) <= budget
  }

  /** The batch was asked until its first complete reply, which says vs. */
  ghost predicate BatchAnswered(
    replies: Replies, from: nat, to: nat, w: Wording, rs: seq<ClusterResult>, budget: int, maxCalls: int,
    batch: seq<Dispute>, vs: seq<Verdict>)
  {
    && from < to <= from + AtLeastZero(maxCalls)
    && AllRefused(replies, from, to - 1, batch)
    && (forall t: nat :: from <= t < to ==> AskFits(replies, from, t, w, rs, budget, batch))
    && var last := replies(to - 1);
       last.Answer? && last.body.Rulings? && Complete(last.body.rulings, batch) && VerdictsOf(last.body.rulings, batch, vs)
  }

  /** The batch was asked as often as its budgets allow, or until no answer came. */
  ghost predicate BatchFailed(
    replies: Replies, from: nat, to: nat, w: Wording, rs: seq<ClusterResult>, budget: int, maxCalls: int,
    batch: seq<Dispute>, why: Failure)
  {
    && from <= to <= from + AtLeastZero(maxCalls)
    && (forall t: nat :: from <= t < to ==> AskFits(replies, from, t, w, rs, budget, batch))
    && match why
       case CallFailed => from < to && AllRefused(replies, from, to - 1, batch) && replies(to - 1).NoAnswer?
       case ReaskBudgetSpent => to == from + AtLeastZero(maxCalls) && AllRefused(replies, from, to, batch)
       case DisputeOverBudget =>
         && from < to < from + AtLeastZero(maxCalls) && AllRefused(replies, from, to, batch)
         && !AskFits(replies, from, to, w, rs, budget, batch)
       case _ => false
  }

  /**
   * One batch asked up to maxCalls times, each re-ask quoting the latest refusal. The batch's
   * verdicts are the last reply's, whole, or there are none.
   */
  method AskDisputeBatch(replies: Replies, at: nat, w: Wording, rs: seq<ClusterResult>, budget: int, maxCalls: int, batch: seq<Dispute>)
    returns (out: Outcome<seq<Verdict>>, calls: nat, next: nat)
    requires maxCalls > 0
    ensures at <= next <= at + maxCalls && calls <= next - at
    ensures out.Done? ==> calls == next - at && Judged(batch, out.value)
    ensures out.Done? ==> BatchAnswered(replies, at, next, w, rs, budget, maxCalls, batch, out.value)
    ensures out.Failed? ==> BatchFailed(replies, at, next, w, rs, budget, maxCalls, batch, out.reason)
    ensures calls == if out == Failed(CallFailed) then next - at - 1 else next - at
  {
    next, calls := at, 0;
    var refusal: nat := 0;
    for call := 1 to maxCalls + 1
      invariant next == at + call - 1 && calls == call - 1
      invariant call > 1 ==> refusal == Quoted(replies(next - 1))
      invariant AllRefused(replies, at, next, batch)
      invariant forall t: nat :: at <= t < next ==> AskFits(replies, at, t, w, rs, budget, batch)
    {
      if call > 1 {
        if Tokens(BatchLen(w, rs, batch) + w.disputeRefusal + refusal) > budget {
          return Failed(DisputeOverBudget), calls, next;
        }
      }
      var reply := replies(next);
      next := next + 1;
      if reply.NoAnswer? {
        return Failed(CallFailed), calls, next;
      }
      calls := calls + 1;
      var verdicts := ParseDisputeResponse(reply.body, batch);
      if verdicts.Some? {
        CompleteJudges(reply.body.rulings, batch, verdicts.value);
        return Done(verdicts.value), calls, next;
      }
      refusal := reply.size + reply.reasonSize;
    }
    return Failed(ReaskBudgetSpent), calls, next;
  }

  /** Where asking batch b starts: after the last reply to the batch before it. */
  ghost function AskedFrom(at: nat, ends: seq<nat>, b: nat): nat
    requires b <= |ends|
  {
    if b == 0 then at else ends[b - 1]
  }

  /** Each batch was answered in turn, the b-th up to ends[b]. */
  ghost predicate BatchesAnswered(
    replies: Replies, at: nat, w: Wording, rs: seq<ClusterResult>, budget: int, maxCalls: int,
    batches: seq<seq<Dispute>>, ends: seq<nat>, answers: seq<seq<Verdict>>)
  {
    && |ends| == |answers| <= |batches|
    && forall b {:trigger answers[b]} :: 0 <= b < |ends| ==>
         BatchAnswered(replies, AskedFrom(at, ends, b), ends[b], w, rs, budget, maxCalls, batches[b], answers[b])
  }

  /** The first batches answered, with their verdicts one after another. */
  ghost predicate SoFar(
    replies: Replies, at: nat, w: Wording, rs: seq<ClusterResult>, budget: int, maxCalls: int,
    batches: seq<seq<Dispute>>, ends: seq<nat>, answers: seq<seq<Verdict>>, verdicts: seq<Verdict>)
  {
    && BatchesAnswered(replies, at, w, rs, budget, maxCalls, batches, ends, answers)
    && verdicts == Concat(answers) && Judged(Concat(batches[..|ends|]), verdicts)
  }

  lemma SoFarMore(
    replies: Replies, at: nat, w: Wording, rs: seq<ClusterResult>, budget: int, maxCalls: int,
    batches: seq<seq<Dispute>>, ends: seq<nat>, answers: seq<seq<Verdict>>, verdicts: seq<Verdict>, to: nat, vs: seq<Verdict>)
    requires SoFar(replies, at, w, rs, budget, maxCalls, batches, ends, answers, verdicts) && |ends| < |batches|
    requires BatchAnswered(replies, AskedFrom(at, ends, |ends|), to, w, rs, budget, maxCalls, batches[|ends|], vs)
    requires Judged(batches[|ends|], vs)
    ensures SoFar(replies, at, w, rs, budget, maxCalls, batches, ends + [to], answers + [vs], verdicts + vs)
  {
    assert (answers + [vs])[..|answers|] == answers;
    assert batches[..|ends| + 1][..|ends|] == batches[..|ends|];
    JudgedConcat(Concat(batches[..|ends|]), verdicts, batches[|ends|], vs);
    AnsweredMore(replies, at, w, rs, budget, maxCalls, batches, ends, answers, to, vs);
  }

  lemma AnsweredMore(
    replies: Replies, at: nat, w: Wording, rs: seq<ClusterResult>, budget: int, maxCalls: int,
    batches: seq<seq<Dispute>>, ends: seq<nat>, answers: seq<seq<Verdict>>, to: nat, vs: seq<Verdict>)
    requires BatchesAnswered(replies, at, w, rs, budget, maxCalls, batches, ends, answers) && |ends| < |batches|
    requires BatchAnswered(replies, AskedFrom(at, ends, |ends|), to, w, rs, budget, maxCalls, batches[|ends|], vs)
    ensures BatchesAnswered(replies, at, w, rs, budget, maxCalls, batches, ends + [to], answers + [vs])
  {
    var ends', answers' := ends + [to], answers + [vs];
    forall b {:trigger answers'[b]} | 0 <= b < |ends'|
      ensures BatchAnswered(replies, AskedFrom(at, ends', b), ends'[b], w, rs, budget, maxCalls, batches[b], answers'[b])
    {
      assert AskedFrom(at, ends', b) == AskedFrom(at, ends, b);
      if b < |ends| { AnsweredAt(replies, at, w, rs, budget, maxCalls, batches, ends, answers, b); }
    }
  }

  lemma AnsweredAt(
    replies: Replies, at: nat, w: Wording, rs: seq<ClusterResult>, budget: int, maxCalls: int,
    batches: seq<seq<Dispute>>, ends: seq<nat>, answers: seq<seq<Verdict>>, b: nat)
    requires BatchesAnswered(replies, at, w, rs, budget, maxCalls, batches, ends, answers) && b < |ends|
    ensures BatchAnswered(replies, AskedFrom(at, ends, b), ends[b], w, rs, budget, maxCalls, batches[b], answers[b])
  {
  }

  /** Every batch asked in turn: no verdict is applied until every batch has answered. */
  method AskAll(replies: Replies, at: nat, w: Wording, rs: seq<ClusterResult>, budget: int, maxCalls: int,
                ds: seq<Dispute>, batches: seq<seq<Dispute>>)
    returns (out: Outcome<seq<Verdict>>, calls: nat, reasks: nat, next: nat, ghost ends: seq<nat>, ghost answers: seq<seq<Verdict>>)
    requires maxCalls > 0 && Concat(batches) == ds
    ensures at <= next <= at + |batches| * maxCalls && calls <= next - at && reasks <= calls
    ensures out.Done? ==> Judged(ds, out.value) && calls == next - at && reasks == calls - |batches|
    ensures BatchesAnswered(replies, at, w, rs, budget, maxCalls, batches, ends, answers)
    ensures out.Done? ==> |answers| == |batches| && out.value == Concat(answers) && next == AskedFrom(at, ends, |ends|)
    ensures out.Failed? ==>
              && |answers| < |batches|
              && BatchFailed(replies, AskedFrom(at, ends, |ends|), next, w, rs, budget, maxCalls, batches[|answers|], out.reason)
  {
    var verdicts: seq<Verdict> := [];
    calls, reasks, next, ends, answers := 0, 0, at, [], [];
    for b := 0 to |batches|
      invariant at <= next <= at + b * maxCalls && calls == next - at && calls == reasks + b
      invariant |ends| == b && next == AskedFrom(at, ends, b)
      invariant SoFar(replies, at, w, rs, budget, maxCalls, batches, ends, answers, verdicts)
    {
      var given, more;
      given, more, next := AskDisputeBatch(replies, next, w, rs, budget, maxCalls, batches[b]);
      calls := calls + more;
      reasks := reasks + if more > 0 then more - 1 else 0;
      Product(b, maxCalls, |batches|);
      if given.Failed? {
        return Failed(given.reason), calls, reasks, next, ends, answers;
      }
      SoFarMore(replies, at, w, rs, budget, maxCalls, batches, ends, answers, verdicts, next, given.value);
      verdicts := verdicts + given.value;
      ends, answers := ends + [next], answers + [given.value];
    }
    assert batches[..|batches|] == batches;
    return Done(verdicts), calls, reasks, next, ends, answers;
  }

  lemma Product(b: nat, m: int, n: nat)
    requires b < n && m > 0
    ensures b * m + m == (b + 1) * m <= n * m
  {
  }

  /** Whether every batch's prompt fits, before any is sent. */
  method AllFit(w: Wording, rs: seq<ClusterResult>, budget: int, batches: seq<seq<Dispute>>) returns (fit: bool)
    ensures fit <==> forall b :: 0 <= b < |batches| ==> Fits(w, rs, budget, batches[b])
  {
    for b := 0 to |batches|
      invariant forall c :: 0 <= c < b ==> Fits(w, rs, budget, batches[c])
    {
      if Tokens(BatchLen(w, rs, batches[b])) > budget {
        return false;
      }
    }
    return true;
  }

  /** What was asked: the batches, where the replies to each end, and the verdicts read from them. */
  datatype Asked = Asked(batches: seq<seq<Dispute>>, ends: seq<nat>, answers: seq<seq<Verdict>>)

  /** The batches are the greedy ones, each answered in turn as far as it went. */
  ghost predicate AskedInTurn(
    replies: Replies, at: nat, w: Wording, rs: seq<ClusterResult>, budget: int, maxCalls: int, ds: seq<Dispute>, a: Asked)
  {
    && Packing(w, rs, budget, ds, a.batches) && Tight(w, rs, budget, a.batches)
    && BatchesAnswered(replies, at, w, rs, budget, maxCalls, a.batches, a.ends, a.answers)
  }

  ghost predicate AllBatchesFit(w: Wording, rs: seq<ClusterResult>, budget: int, batches: seq<seq<Dispute>>) {
    forall b :: 0 <= b < |batches| ==> Fits(w, rs, budget, batches[b])
  }

  /** Every batch was answered, and the answers' verdicts leave a New cluster without work or make the outcome. */
  ghost predicate Settles(
    replies: Replies, at: nat, next: nat, rs: seq<ClusterResult>, ds: seq<Dispute>, a: Asked, out: Outcome<seq<ClusterResult>>)
  {
    && |a.ends| == |a.answers| == |a.batches| && next == AskedFrom(at, a.ends, |a.ends|)
    && var verdicts := Concat(a.answers);
       && Ruled(rs, ds, verdicts)
       && var settled := SettleAll(rs, ds, verdicts);
          out == if exists pos :: 0 <= pos < |settled| && Hollow(settled[pos]) then Failed(NewClusterEmptied) else Done(settled)
  }

  /** How a dispute pass that has something to ask ends. */
  ghost predicate DisputesEnd(
    replies: Replies, at: nat, next: nat, w: Wording, rs: seq<ClusterResult>, budget: int, maxCalls: int,
    a: Asked, out: Outcome<seq<ClusterResult>>)
  {
    if maxCalls <= 0 then next == at && out == Failed(DisputesNotAsked)
    else
      && AskedInTurn(replies, at, w, rs, budget, maxCalls, DisputesOf(rs), a)
      && if !AllBatchesFit(w, rs, budget, a.batches) then next == at && out == Failed(DisputeOverBudget)
         else if |a.answers| < |a.batches| then
           out.Failed? && BatchFailed(replies, AskedFrom(at, a.ends, |a.ends|), next, w, rs, budget, maxCalls, a.batches[|a.answers|], out.reason)
         else Settles(replies, at, next, rs, DisputesOf(rs), a, out)
  }

  /** Nothing may be asked. */
  lemma EndsUnasked(
    replies: Replies, at: nat, w: Wording, rs: seq<ClusterResult>, budget: int, maxCalls: int, a: Asked)
    requires maxCalls <= 0
    ensures var ended := DisputesEnd(replies, at, at, w, rs, budget, maxCalls, a, Failed(DisputesNotAsked)); ended
  {
  }

  /** Some batch does not fit, and none is sent. */
  lemma EndsUnsent(
    replies: Replies, at: nat, w: Wording, rs: seq<ClusterResult>, budget: int, maxCalls: int, batches: seq<seq<Dispute>>)
    requires maxCalls > 0 && !AllBatchesFit(w, rs, budget, batches)
    requires Packing(w, rs, budget, DisputesOf(rs), batches) && Tight(w, rs, budget, batches)
    ensures var ended := DisputesEnd(replies, at, at, w, rs, budget, maxCalls, Asked(batches, [], []), Failed(DisputeOverBudget)); ended
  {
  }

  /** Every batch was sent until one failed. */
  lemma EndsFailed(
    replies: Replies, at: nat, next: nat, w: Wording, rs: seq<ClusterResult>, budget: int, maxCalls: int, a: Asked, why: Failure)
    requires maxCalls > 0 && AllBatchesFit(w, rs, budget, a.batches)
    requires Packing(w, rs, budget, DisputesOf(rs), a.batches) && Tight(w, rs, budget, a.batches)
    requires BatchesAnswered(replies, at, w, rs, budget, maxCalls, a.batches, a.ends, a.answers) && |a.answers| < |a.batches|
    requires BatchFailed(replies, AskedFrom(at, a.ends, |a.ends|), next, w, rs, budget, maxCalls, a.batches[|a.answers|], why)
    ensures var ended := DisputesEnd(replies, at, next, w, rs, budget, maxCalls, a, Failed(why)); ended
  {
  }

  /** Every batch was answered. */
  lemma EndsAnswered(
    replies: Replies, at: nat, next: nat, w: Wording, rs: seq<ClusterResult>, budget: int, maxCalls: int, a: Asked,
    out: Outcome<seq<ClusterResult>>)
    requires maxCalls > 0 && AllBatchesFit(w, rs, budget, a.batches)
    requires Packing(w, rs, budget, DisputesOf(rs), a.batches) && Tight(w, rs, budget, a.batches)
    requires BatchesAnswered(replies, at, w, rs, budget, maxCalls, a.batches, a.ends, a.answers) && |a.answers| == |a.batches|
    requires Settles(replies, at, next, rs, DisputesOf(rs), a, out)
    ensures var ended := DisputesEnd(replies, at, next, w, rs, budget, maxCalls, a, out); ended
  {
  }

  /** The verdicts of every batch applied. */
  method ApplyVerdicts(rs: seq<ClusterResult>, ds: seq<Dispute>, verdicts: seq<Verdict>, ghost replies: Replies, ghost at: nat,
                       ghost next: nat, ghost a: Asked)
    returns (out: Outcome<seq<ClusterResult>>, resolutions: seq<Resolution>)
    requires ds == DisputesOf(rs) && Judged(ds, verdicts) && verdicts == Concat(a.answers)
    requires |a.ends| == |a.answers| == |a.batches| && next == AskedFrom(at, a.ends, |a.ends|)
    ensures Settles(replies, at, next, rs, ds, a, out) && |resolutions| == |ds|
    ensures out.Done? ==> forall pos :: 0 <= pos < |out.value| ==> !Hollow(out.value[pos])
  {
    DisputesExactly(rs);
    ClaimantsReal(rs, ds);
    out, resolutions := ApplyDisputeAnswers(rs, ds, verdicts);
  }

  /** The batches, which all fit, asked and their verdicts applied. */
  method AskAndApply(replies: Replies, at: nat, w: Wording, rs: seq<ClusterResult>, budget: int, maxCalls: int,
                     ds: seq<Dispute>, batches: seq<seq<Dispute>>)
    returns (out: Outcome<seq<ClusterResult>>, calls: nat, reasks: nat, next: nat, resolutions: seq<Resolution>, ghost asked: Asked)
    requires maxCalls > 0 && ds == DisputesOf(rs) && Packing(w, rs, budget, ds, batches) && Tight(w, rs, budget, batches)
    requires AllBatchesFit(w, rs, budget, batches)
    ensures at <= next <= at + |ds| * maxCalls && calls <= next - at && reasks <= calls
    ensures var ended := DisputesEnd(replies, at, next, w, rs, budget, maxCalls, asked, out); ended
    ensures out.Done? ==> |resolutions| == |ds| && forall pos :: 0 <= pos < |out.value| ==> !Hollow(out.value[pos])
    ensures out.Done? ==> Ruled(rs, ds, Concat(asked.answers)) && out.value == SettleAll(rs, ds, Concat(asked.answers))
  {
    var answers;
    ghost var ends, given;
    BatchesBounded(batches);
    ProductMonotone(|batches|, |ds|, maxCalls);
    answers, calls, reasks, next, ends, given := AskAll(replies, at, w, rs, budget, maxCalls, ds, batches);
    asked := Asked(batches, ends, given);
    resolutions := [];
    if answers.Failed? {
      EndsFailed(replies, at, next, w, rs, budget, maxCalls, asked, answers.reason);
      return Failed(answers.reason), calls, reasks, next, resolutions, asked;
    }
    out, resolutions := ApplyVerdicts(rs, ds, answers.value, replies, at, next, asked);
    EndsAnswered(replies, at, next, w, rs, budget, maxCalls, asked, out);
  }

  /**
   * The dispute pass. With no dispute it changes nothing and asks nothing. Otherwise it
   * succeeds only by applying one verdict per disputed event, each read from its batch's
   * first complete reply, and leaves every New cluster with work of its own.
   */
  method ResolveDisputes(replies: Replies, at: nat, w: Wording, rs: seq<ClusterResult>, budget: int, maxCalls: int)
    returns (out: Outcome<seq<ClusterResult>>, stats: Stats, next: nat, resolutions: seq<Resolution>, ghost asked: Asked)
    ensures DisputesOf(rs) == [] ==> out == Done(rs) && next == at && stats == NOTHING
    ensures DisputesOf(rs) != [] ==> var ended := DisputesEnd(replies, at, next, w, rs, budget, maxCalls, asked, out); ended
    ensures out.Done? && DisputesOf(rs) != [] ==>
              && Ruled(rs, DisputesOf(rs), Concat(asked.answers))
              && out.value == SettleAll(rs, DisputesOf(rs), Concat(asked.answers))
              && (forall pos :: 0 <= pos < |out.value| ==> !Hollow(out.value[pos]))
              && |resolutions| == |DisputesOf(rs)|
    ensures at <= next <= at + |DisputesOf(rs)| * AtLeastZero(maxCalls)
    ensures stats == NOTHING.(calls := stats.calls, disputed := |DisputesOf(rs)|, disputeCalls := stats.calls, disputeReasks := stats.disputeReasks)
    ensures stats.calls <= next - at && stats.disputeReasks <= stats.calls
  {
    stats, next, resolutions, asked := NOTHING, at, [], Asked([], [], []);
    var ds := FindDisputes(rs);
    if |ds| == 0 {
      return Done(rs), stats, next, resolutions, asked;
    }
    stats := stats.(disputed := |ds|);
    if maxCalls <= 0 {
      EndsUnasked(replies, at, w, rs, budget, maxCalls, asked);
      return Failed(DisputesNotAsked), stats, next, resolutions, asked;
    }
    var batches := BatchDisputes(w, rs, budget, ds);
    asked := Asked(batches, [], []);
    var fit := AllFit(w, rs, budget, batches);
    if !fit {
      EndsUnsent(replies, at, w, rs, budget, maxCalls, batches);
      return Failed(DisputeOverBudget), stats, next, resolutions, asked;
    }
    var calls, reasks;
    out, calls, reasks, next, resolutions, asked := AskAndApply(replies, at, w, rs, budget, maxCalls, ds, batches);
    stats := stats.(calls := calls, disputeCalls := calls, disputeReasks := reasks);
  }

  lemma ProductMonotone(a: nat, b: nat, m: nat)
    requires a <= b
    ensures a * m <= b * m
  {
  }

  lemma ClaimantsReal(rs: seq<ClusterResult>, ds: seq<Dispute>)
    requires forall d :: 0 <= d < |ds| ==> ds[d].claimants == Claimants(rs, ds[d].event.key, |rs|)
    ensures ClaimantsIn(rs, ds)
    ensures forall d, t, u :: 0 <= d < |ds| && 0 <= t < u < |ds[d].claimants| ==> ds[d].claimants[t] < ds[d].claimants[u]
  {
    forall d | 0 <= d < |ds|
      ensures forall t :: 0 <= t < |ds[d].claimants| ==> 0 <= ds[d].claimants[t] < |rs|
      ensures forall t, u :: 0 <= t < u < |ds[d].claimants| ==> ds[d].claimants[t] < ds[d].claimants[u]
    {
      ClaimantsExactly(rs, ds[d].event.key, |rs|);
    }
  }
}
