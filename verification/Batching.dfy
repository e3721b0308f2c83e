/** Packing disputes, in order, into as few prompts as fit. */
module Batching {
  import opened Events
  import opened Clusters
  import opened Disputes
  import opened Prompts

  /** A dispute's block at `index` of its batch: its number, then everything else. */
  function BlockLen(w: Wording, rs: seq<ClusterResult>, index: nat, d: Dispute): nat {
    Digits(index) + w.dispute(rs, d.event, d.claimants)
  }

  /** The blocks of a batch, each under its own number in it. */
  function BlocksLen(w: Wording, rs: seq<ClusterResult>, batch: seq<Dispute>): nat {
    if batch == [] then 0
    else BlocksLen(w, rs, batch[..|batch| - 1]) + BlockLen(w, rs, |batch| - 1, batch[|batch| - 1])
  }

  /** A batch's whole prompt. */
  function BatchLen(w: Wording, rs: seq<ClusterResult>, batch: seq<Dispute>): nat {
    w.disputeSystem + w.disputeHeading + BlocksLen(w, rs, batch)
  }

  predicate Fits(w: Wording, rs: seq<ClusterResult>, budget: int, batch: seq<Dispute>) {
    Tokens(BatchLen(w, rs, batch)) <= budget
  }

  function Concat<T>(batches: seq<seq<T>>): seq<T> {
    if batches == [] then [] else Concat(batches[..|batches| - 1]) + batches[|batches| - 1]
  }

  /** Non-empty, in order, none lost; one over budget only when it is a single dispute. */
  ghost predicate Packing(w: Wording, rs: seq<ClusterResult>, budget: int, ds: seq<Dispute>, batches: seq<seq<Dispute>>) {
    && Concat(batches) == ds
    && (forall b :: 0 <= b < |batches| ==> batches[b] != [] && (|batches[b]| == 1 || Fits(w, rs, budget, batches[b])))
  }

  lemma {:induction false} DigitsMonotone(a: nat, b: nat)
    requires a <= b
    ensures Digits(a) <= Digits(b)
    decreases b
  {
    if b >= 10 {
      DigitsMonotone(a / 10, b / 10);
    }
  }

  /** Fewer disputes, later in the list or not, make no longer a prompt. */
  lemma {:induction false} BlocksShrink(w: Wording, rs: seq<ClusterResult>, batch: seq<Dispute>, lo: nat, hi: nat)
    requires lo <= hi <= |batch|
    ensures BlocksLen(w, rs, batch[lo..hi]) <= BlocksLen(w, rs, batch[..hi])
    decreases hi
  {
    if lo < hi {
      BlocksShrink(w, rs, batch, lo, hi - 1);
      assert batch[lo..hi][..hi - lo - 1] == batch[lo..hi - 1];
      assert batch[..hi][..hi - 1] == batch[..hi - 1];
      DigitsMonotone(hi - lo - 1, hi - 1);
    }
  }

  lemma {:induction false} BlocksGrow(w: Wording, rs: seq<ClusterResult>, batch: seq<Dispute>, hi: nat)
    requires hi <= |batch|
    ensures BlocksLen(w, rs, batch[..hi]) <= BlocksLen(w, rs, batch)
    decreases |batch|
  {
    if hi < |batch| {
      BlocksGrow(w, rs, batch[..|batch| - 1], hi);
      assert batch[..|batch| - 1][..hi] == batch[..hi];
    } else {
      assert batch[..hi] == batch;
    }
  }

  /** Any run of a batch that fits, fits. */
  lemma PartFits(w: Wording, rs: seq<ClusterResult>, budget: int, batch: seq<Dispute>, lo: nat, hi: nat)
    requires lo <= hi <= |batch| && Fits(w, rs, budget, batch)
    ensures Fits(w, rs, budget, batch[lo..hi])
  {
    BlocksShrink(w, rs, batch, lo, hi);
    BlocksGrow(w, rs, batch, hi);
    TokensMonotone(BatchLen(w, rs, batch[lo..hi]), BatchLen(w, rs, batch));
  }

  /** The disputes before i packed: closed batches up to start, and an open one from there. */
  ghost predicate Packed(w: Wording, rs: seq<ClusterResult>, budget: int, ds: seq<Dispute>, batches: seq<seq<Dispute>>, start: nat, i: nat)
    requires start <= i <= |ds|
  {
    && Packing(w, rs, budget, ds[..start], batches)
    && Tight(w, rs, budget, batches + [ds[start..i]])
    && (start == i ==> i == 0 && batches == [])
    && (i > start + 1 ==> Fits(w, rs, budget, ds[start..i]))
  }

  lemma CloseBatch(w: Wording, rs: seq<ClusterResult>, budget: int, ds: seq<Dispute>, batches: seq<seq<Dispute>>, start: nat, i: nat)
    requires start < i < |ds| && Packed(w, rs, budget, ds, batches, start, i)
    requires !Fits(w, rs, budget, ds[start..i + 1])
    ensures Packed(w, rs, budget, ds, batches + [ds[start..i]], i, i + 1)
  {
    var closed := batches + [ds[start..i]];
    assert ds[start..i + 1] == ds[start..i] + [ds[i]];
    TightMore(w, rs, budget, closed, ds[i]);
    assert ds[i..i + 1] == [ds[i]];
    assert closed[..|batches|] == batches;
    assert ds[..i] == ds[..start] + ds[start..i];
  }

  lemma GrowBatch(w: Wording, rs: seq<ClusterResult>, budget: int, ds: seq<Dispute>, batches: seq<seq<Dispute>>, start: nat, i: nat)
    requires start <= i < |ds| && Packed(w, rs, budget, ds, batches, start, i)
    requires i > start ==> Fits(w, rs, budget, ds[start..i + 1])
    ensures Packed(w, rs, budget, ds, batches, start, i + 1)
  {
    assert ds[start..i + 1] == ds[start..i] + [ds[i]];
    TightGrow(w, rs, budget, batches, ds[start..i], ds[i]);
  }

  lemma BatchLenMore(w: Wording, rs: seq<ClusterResult>, ds: seq<Dispute>, start: nat, i: nat)
    requires start <= i < |ds|
    ensures BatchLen(w, rs, ds[start..i + 1]) == BatchLen(w, rs, ds[start..i]) + BlockLen(w, rs, i - start, ds[i])
  {
    assert ds[start..i + 1][..i - start] == ds[start..i];
  }

  /** The disputes before i packed, with the open batch's length. */
  ghost predicate Filling(
    w: Wording, rs: seq<ClusterResult>, budget: int, ds: seq<Dispute>, batches: seq<seq<Dispute>>, start: nat, size: nat, i: nat)
  {
    start <= i <= |ds| && size == BatchLen(w, rs, ds[start..i]) && Packed(w, rs, budget, ds, batches, start, i)
  }

  lemma NothingPacked(w: Wording, rs: seq<ClusterResult>, budget: int, ds: seq<Dispute>)
    ensures Filling(w, rs, budget, ds, [], 0, w.disputeSystem + w.disputeHeading, 0)
  {
    assert ds[0..0] == [];
  }

  /** The next dispute: a batch closed and another opened with it, or one more in the open batch. */
  lemma FillingMore(
    w: Wording, rs: seq<ClusterResult>, budget: int, ds: seq<Dispute>, batches: seq<seq<Dispute>>, start: nat, size: nat, i: nat)
    requires i < |ds| && Filling(w, rs, budget, ds, batches, start, size, i)
    ensures var n := BlockLen(w, rs, i - start, ds[i]);
            if i > start && Tokens(size + n) > budget then
              Filling(w, rs, budget, ds, batches + [ds[start..i]], i, w.disputeSystem + w.disputeHeading + BlockLen(w, rs, 0, ds[i]), i + 1)
            else Filling(w, rs, budget, ds, batches, start, size + n, i + 1)
  {
    var n := BlockLen(w, rs, i - start, ds[i]);
    BatchLenMore(w, rs, ds, start, i);
    if i > start && Tokens(size + n) > budget {
      CloseBatch(w, rs, budget, ds, batches, start, i);
      BatchLenMore(w, rs, ds, i, i);
      assert ds[i..i] == [];
    } else {
      GrowBatch(w, rs, budget, ds, batches, start, i);
    }
  }

  lemma CloseLast(w: Wording, rs: seq<ClusterResult>, budget: int, ds: seq<Dispute>, batches: seq<seq<Dispute>>, start: nat)
    requires start <= |ds| && Packed(w, rs, budget, ds, batches, start, |ds|)
    ensures ds == [] ==> batches + [ds[start..]] == [[]]
    ensures ds != [] ==> Packing(w, rs, budget, ds, batches + [ds[start..]]) && Tight(w, rs, budget, batches + [ds[start..]])
  {
    var closed := batches + [ds[start..]];
    assert closed[..|batches|] == batches;
    assert ds == ds[..start] + ds[start..] && ds[start..|ds|] == ds[start..];
  }

  /**
   * Greedy batches of the disputes, one call each. The running size is each batch's rendered
   * length, so a batch is over budget only when it is one dispute that does not fit alone.
   */
  method BatchDisputes(w: Wording, rs: seq<ClusterResult>, budget: int, ds: seq<Dispute>) returns (batches: seq<seq<Dispute>>)
    ensures ds == [] ==> batches == [[]]
    ensures ds != [] ==> Packing(w, rs, budget, ds, batches) && Tight(w, rs, budget, batches)
  {
    batches := [];
    var fixed := w.disputeSystem + w.disputeHeading;
    var start: nat, size: nat := 0, fixed;
    NothingPacked(w, rs, budget, ds);
    for i := 0 to |ds|
      invariant Filling(w, rs, budget, ds, batches, start, size, i)
    {
      var n := BlockLen(w, rs, i - start, ds[i]);
      FillingMore(w, rs, budget, ds, batches, start, size, i);
      if i > start && Tokens(size + n) > budget {
        batches := batches + [ds[start..i]];
        start, size := i, fixed;
        n := BlockLen(w, rs, 0, ds[i]);
      }
      size := size + n;
    }
    CloseLast(w, rs, budget, ds, batches, start);
    return batches + [ds[start..]];
  }

  /** No batch but the last could have taken the first dispute of the next. */
  ghost predicate Tight(w: Wording, rs: seq<ClusterResult>, budget: int, batches: seq<seq<Dispute>>) {
    forall b :: 0 <= b < |batches| - 1 && batches[b + 1] != [] ==> !Fits(w, rs, budget, batches[b] + [batches[b + 1][0]])
  }

  lemma TightMore(w: Wording, rs: seq<ClusterResult>, budget: int, batches: seq<seq<Dispute>>, d: Dispute)
    requires batches != [] && Tight(w, rs, budget, batches) && !Fits(w, rs, budget, batches[|batches| - 1] + [d])
    ensures Tight(w, rs, budget, batches + [[d]])
  {
  }

  lemma TightGrow(w: Wording, rs: seq<ClusterResult>, budget: int, batches: seq<seq<Dispute>>, last: seq<Dispute>, d: Dispute)
    requires Tight(w, rs, budget, batches + [last]) && (last == [] ==> batches == [])
    ensures Tight(w, rs, budget, batches + [last + [d]])
  {
    var more := batches + [last + [d]];
    forall b | 0 <= b < |more| - 1 && more[b + 1] != [] ensures !Fits(w, rs, budget, more[b] + [more[b + 1][0]]) {
      assert (batches + [last])[b] == more[b];
      assert (batches + [last])[b + 1] != [] && (batches + [last])[b + 1][0] == more[b + 1][0];
    }
  }

  /** Where the first b batches end. */
  ghost function End(batches: seq<seq<Dispute>>, b: nat): nat
    requires b <= |batches|
  {
    |Concat(batches[..b])|
  }

  lemma EndStep(batches: seq<seq<Dispute>>, b: nat)
    requires b < |batches|
    ensures End(batches, b + 1) == End(batches, b) + |batches[b]|
  {
    assert batches[..b + 1][..b] == batches[..b];
  }

  lemma {:induction false} BatchAt(batches: seq<seq<Dispute>>, b: nat, n: nat)
    requires b < n <= |batches|
    ensures End(batches, b) <= End(batches, b + 1) <= |Concat(batches[..n])|
    ensures Concat(batches[..n])[End(batches, b)..End(batches, b + 1)] == batches[b]
    decreases n
  {
    assert batches[..n][..n - 1] == batches[..n - 1];
    if b < n - 1 {
      BatchAt(batches, b, n - 1);
      var a := Concat(batches[..n - 1]);
      assert Concat(batches[..n])[..|a|] == a;
      assert Concat(batches[..n])[End(batches, b)..End(batches, b + 1)] == a[End(batches, b)..End(batches, b + 1)];
    } else {
      EndStep(batches, b);
    }
  }

  /** Batch b is the run of ds between its two ends. */
  lemma BatchIs(ds: seq<Dispute>, batches: seq<seq<Dispute>>, b: nat)
    requires Concat(batches) == ds && b < |batches|
    ensures End(batches, b) <= End(batches, b + 1) <= |ds| && batches[b] == ds[End(batches, b)..End(batches, b + 1)]
  {
    BatchAt(batches, b, |batches|);
    assert batches[..|batches|] == batches;
  }

  /** A run inside a batch of two or more fits, as the batch does. */
  lemma RunFits(w: Wording, rs: seq<ClusterResult>, budget: int, ds: seq<Dispute>, e: nat, e': nat, g: nat, g': nat)
    requires e <= g < g' < e' <= |ds|
    requires |ds[e..e']| == 1 || Fits(w, rs, budget, ds[e..e'])
    ensures Fits(w, rs, budget, ds[g..g' + 1])
  {
    PartFits(w, rs, budget, ds[e..e'], g - e, g' + 1 - e);
    RunOfRun(ds, e, e', g, g' + 1);
  }

  lemma RunOfRun(ds: seq<Dispute>, e: nat, e': nat, g: nat, h: nat)
    requires e <= g <= h <= e' <= |ds|
    ensures ds[e..e'][g - e..h - e] == ds[g..h]
  {
    forall t | 0 <= t < h - g ensures ds[e..e'][g - e..h - e][t] == ds[g..h][t] {
    }
  }

  lemma AheadByOne(w: Wording, rs: seq<ClusterResult>, budget: int, ds: seq<Dispute>, e: nat, e': nat, g: nat, g': nat)
    requires e <= g < g' < |ds| && e <= e' <= |ds|
    requires |ds[e..e']| == 1 || Fits(w, rs, budget, ds[e..e'])
    requires !Fits(w, rs, budget, ds[g..g' + 1])
    ensures e' <= g'
  {
    if g' < e' { RunFits(w, rs, budget, ds, e, e', g, g'); }
  }

  /** Where a batch of a packing starts and ends, and that it keeps the limits. */
  lemma BatchKeeps(w: Wording, rs: seq<ClusterResult>, budget: int, ds: seq<Dispute>, batches: seq<seq<Dispute>>, b: nat)
    requires Packing(w, rs, budget, ds, batches) && b < |batches|
    ensures End(batches, b) <= End(batches, b + 1) <= |ds|
    ensures var run := ds[End(batches, b)..End(batches, b + 1)]; |run| == 1 || Fits(w, rs, budget, run)
  {
    BatchIs(ds, batches, b);
  }

  /** A closed batch could not have taken the next dispute. */
  lemma NoRoom(w: Wording, rs: seq<ClusterResult>, budget: int, ds: seq<Dispute>, tight: seq<seq<Dispute>>, b: nat)
    requires Packing(w, rs, budget, ds, tight) && Tight(w, rs, budget, tight) && b + 1 < |tight|
    ensures End(tight, b) < End(tight, b + 1) < |ds|
    ensures !Fits(w, rs, budget, ds[End(tight, b)..End(tight, b + 1) + 1])
  {
    BatchIs(ds, tight, b);
    BatchIs(ds, tight, b + 1);
    EndStep(tight, b);
    EndStep(tight, b + 1);
    assert tight[b] + [tight[b + 1][0]] == ds[End(tight, b)..End(tight, b + 1) + 1];
  }

  /** Greedy stays ahead: after as many batches it has packed at least as many disputes. */
  lemma {:induction false} StaysAhead(w: Wording, rs: seq<ClusterResult>, budget: int, ds: seq<Dispute>,
                                      tight: seq<seq<Dispute>>, other: seq<seq<Dispute>>, b: nat)
    requires Packing(w, rs, budget, ds, tight) && Tight(w, rs, budget, tight) && Packing(w, rs, budget, ds, other)
    requires b < |tight| && b <= |other|
    ensures End(other, b) <= End(tight, b)
    decreases b
  {
    if b > 0 {
      StaysAhead(w, rs, budget, ds, tight, other, b - 1);
      BatchKeeps(w, rs, budget, ds, other, b - 1);
      NoRoom(w, rs, budget, ds, tight, b - 1);
      AheadByOne(w, rs, budget, ds, End(other, b - 1), End(other, b), End(tight, b - 1), End(tight, b));
    }
  }

  /** No order-preserving packing within the same limits uses fewer batches. */
  lemma FewestBatches(w: Wording, rs: seq<ClusterResult>, budget: int, ds: seq<Dispute>,
                      tight: seq<seq<Dispute>>, other: seq<seq<Dispute>>)
    requires Packing(w, rs, budget, ds, tight) && Tight(w, rs, budget, tight) && Packing(w, rs, budget, ds, other)
    ensures |tight| <= |other|
  {
    if |other| < |tight| {
      StaysAhead(w, rs, budget, ds, tight, other, |other|);
      assert other[..|other|] == other;
      BatchIs(ds, tight, |other|);
      EndStep(tight, |other|);
    }
  }

  /** Only one packing within the limits leaves no batch able to take the next dispute. */
  lemma TightUnique(w: Wording, rs: seq<ClusterResult>, budget: int, ds: seq<Dispute>, a: seq<seq<Dispute>>, b: seq<seq<Dispute>>)
    requires Packing(w, rs, budget, ds, a) && Tight(w, rs, budget, a)
    requires Packing(w, rs, budget, ds, b) && Tight(w, rs, budget, b)
    ensures a == b
  {
    FewestBatches(w, rs, budget, ds, a, b);
    FewestBatches(w, rs, budget, ds, b, a);
    forall n | 0 <= n < |a| ensures a[n] == b[n] {
      SameEnd(w, rs, budget, ds, a, b, n);
      SameEnd(w, rs, budget, ds, a, b, n + 1);
      BatchIs(ds, a, n);
      BatchIs(ds, b, n);
    }
  }

  lemma SameEnd(w: Wording, rs: seq<ClusterResult>, budget: int, ds: seq<Dispute>, a: seq<seq<Dispute>>, b: seq<seq<Dispute>>, n: nat)
    requires Packing(w, rs, budget, ds, a) && Tight(w, rs, budget, a)
    requires Packing(w, rs, budget, ds, b) && Tight(w, rs, budget, b)
    requires |a| == |b| && n <= |a|
    ensures End(a, n) == End(b, n)
  {
    if n < |a| {
      StaysAhead(w, rs, budget, ds, a, b, n);
      StaysAhead(w, rs, budget, ds, b, a, n);
    } else {
      assert a[..n] == a && b[..n] == b;
    }
  }

  /** There are no more batches than disputes. */
  lemma {:induction false} BatchesBounded(batches: seq<seq<Dispute>>)
    requires forall b :: 0 <= b < |batches| ==> batches[b] != []
    ensures |batches| <= |Concat(batches)|
  {
    if batches != [] { BatchesBounded(batches[..|batches| - 1]); }
  }
}
