/**
 * The untrusted model, and what a pass counts. A pass is proved correct for every Oracle:
 * the n-th reply may be anything at all, whatever it was asked.
 */
module Oracle {

  datatype Option<+T> = None | Some(value: T)

  /** One element of a clustering or omission reply, as decoded: nothing about it is checked yet. */
  datatype Item = Item(
    kind: string,
    position: Option<int>,
    narrativeID: int,
    title: string,
    summary: string,
    confidence: Option<real>,
    eventIndices: seq<int>,
    contextIndices: seq<int>)

  /** One element of a dispute reply, as decoded. */
  datatype Ruling = Ruling(rationale: string, eventIndex: Option<int>, position: Option<int>, confidence: Option<real>)

  datatype Body =
    | Unreadable
    | Items(items: seq<Item>)
    | Rulings(rulings: seq<Ruling>)
    | Story(same: bool, title: string, summary: string)

  /**
   * What one call brings back: nothing (a transport error), or a body. `size` is the body's
   * length and `reasonSize` the length of the parser's reason for refusing it, if it does:
   * a re-ask quotes both, so both count towards the next prompt.
   */
  datatype Reply = NoAnswer | Answer(body: Body, size: nat, reasonSize: nat)

  type Replies = nat -> Reply

  /** A budget: a negative one allows nothing. */
  function AtLeastZero(n: int): nat {
    if n > 0 then n else 0
  }

  /** What a re-ask quotes of a refused reply: its body and the reason. */
  function Quoted(r: Reply): nat {
    if r.Answer? then r.size + r.reasonSize else 0
  }

  /** Every call from one to just before another brings something back. */
  ghost predicate AllAnswer(replies: Replies, from: nat, to: int) {
    forall t: nat :: from <= t < to ==> replies(t).Answer?
  }

  /** Why a pass fails. */
  datatype Failure =
    | NoPromptBudget
    | NumberedTwice
    | CallFailed
    | ReaskBudgetSpent
    | ReaskOverBudget
    | EventsUnplaced
    | NotNumbered
    | Irreducible
    | StoryUnreadable
    | DisputesNotAsked
    | DisputeOverBudget
    | NewClusterEmptied

  datatype Outcome<+T> = Done(value: T) | Failed(reason: Failure)

  /** What a pass spent and did. */
  datatype Stats = Stats(
    calls: nat,
    splits: nat,
    mergeChecks: nat,
    clusterReasks: nat,
    omitted: nat,
    recovered: int,
    omissionReasks: nat,
    disputed: nat,
    disputeCalls: nat,
    disputeReasks: nat,
    joins: nat,
    unfitted: seq<int>)
  {
    /** Both spendings together: counters add, and an unfitted narrative is named once. */
    function Plus(o: Stats): Stats {
      Stats(calls + o.calls, splits + o.splits, mergeChecks + o.mergeChecks,
            clusterReasks + o.clusterReasks, omitted + o.omitted, recovered + o.recovered,
            omissionReasks + o.omissionReasks, disputed + o.disputed,
            disputeCalls + o.disputeCalls, disputeReasks + o.disputeReasks, joins + o.joins,
            Union(unfitted, o.unfitted))
    }
  }

  const NOTHING := Stats(0, 0, 0, 0, 0, 0, 0, 0, 0, 0, 0, [])

  /** The ids of a then b, each once, at its first place. */
  function Union(a: seq<int>, b: seq<int>): seq<int> {
    if b == [] then a else FirstOccurrences(a + b)
  }

  /** Each id at its first place. */
  function FirstOccurrences(ids: seq<int>): seq<int> {
    FirstUpTo(ids, |ids|)
  }

  function FirstUpTo(ids: seq<int>, n: nat): seq<int>
    requires n <= |ids|
  {
    if n == 0 then []
    else
      var before := FirstUpTo(ids, n - 1);
      if ids[n - 1] in before then before else before + [ids[n - 1]]
  }

  lemma {:induction false} FirstUpToExactly(ids: seq<int>, n: nat)
    requires n <= |ids|
    ensures forall id :: id in FirstUpTo(ids, n) <==> id in ids[..n]
    ensures forall i, j :: 0 <= i < j < |FirstUpTo(ids, n)| ==> FirstUpTo(ids, n)[i] != FirstUpTo(ids, n)[j]
  {
    if n > 0 {
      FirstUpToExactly(ids, n - 1);
      assert ids[..n] == ids[..n - 1] + [ids[n - 1]];
    }
  }

  lemma FirstOccurrencesExactly(ids: seq<int>)
    ensures forall id :: id in FirstOccurrences(ids) <==> id in ids
    ensures forall i, j :: 0 <= i < j < |FirstOccurrences(ids)| ==> FirstOccurrences(ids)[i] != FirstOccurrences(ids)[j]
  {
    FirstUpToExactly(ids, |ids|);
    assert ids[..|ids|] == ids;
  }

  /** A merge of two lists of ids names exactly the ids of both, and none twice unless a already did. */
  lemma UnionExactly(a: seq<int>, b: seq<int>)
    ensures forall id :: id in Union(a, b) <==> id in a || id in b
    ensures b != [] ==> forall i, j :: 0 <= i < j < |Union(a, b)| ==> Union(a, b)[i] != Union(a, b)[j]
  {
    FirstOccurrencesExactly(a + b);
  }
}
