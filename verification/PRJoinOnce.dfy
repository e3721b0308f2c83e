/** Joining by pull request is not idempotent when an event has two claimants: a join can settle it. */
module PRJoinOnce {
  import opened Events
  import opened Clusters
  import opened PRGroups
  import PRJoin

  function Work(id: string, pr: string): Event {
    Event(EventKey("s", id), 0, pr, 0)
  }

  function NewOf(evts: seq<Event>): ClusterResult {
    ClusterResult(New, 0, "", "", evts, [], 1.0, map[])
  }

  /**
   * Two clusters share pull request P, and both claim an event of pull request Q. A third holds
   * Q too, but the first two do not hold it while it is disputed between them.
   */
  function Three(): seq<ClusterResult> {
    [NewOf([Work("p0", "P"), Work("e", "Q")]), NewOf([Work("p1", "P"), Work("e", "Q")]), NewOf([Work("q", "Q")])]
  }

  const FIRST := [0, 0, 2]

  lemma ThreeKeys()
    ensures Keys(Three()[0].events) == {Work("p0", "P").key, Work("e", "Q").key}
    ensures Keys(Three()[1].events) == {Work("p1", "P").key, Work("e", "Q").key}
    ensures Keys(Three()[2].events) == {Work("q", "Q").key}
    ensures AllWellFormed(Three())
  {
    var rs := Three();
    assert Work("p0", "P") in rs[0].events && Work("e", "Q") in rs[0].events;
    assert Work("p1", "P") in rs[1].events && Work("e", "Q") in rs[1].events;
    assert Work("q", "Q") in rs[2].events;
    assert forall i :: 0 <= i < 3 ==> Keys(rs[i].context) == {};
  }

  lemma ThreeClaims(rs: seq<ClusterResult>, k: EventKey)
    requires |rs| == 3
    ensures Claims(rs, k, 3) ==
            (if rs[0].Holds(k) then 1 else 0) + (if rs[1].Holds(k) then 1 else 0) + (if rs[2].Holds(k) then 1 else 0)
  {
    assert Claims(rs, k, 2) == Claims(rs, k, 1) + if rs[1].Holds(k) then 1 else 0;
    assert Claims(rs, k, 1) == Claims(rs, k, 0) + if rs[0].Holds(k) then 1 else 0;
  }

  lemma ThreeHold(i: nat, pr: string)
    requires i < 3
    ensures HoldsPR(Three(), i, pr) <==> if i < 2 then pr == "P" else pr == "Q"
  {
    var rs := Three();
    ThreeKeys();
    var own, e := if i == 0 then Work("p0", "P") else if i == 1 then Work("p1", "P") else Work("q", "Q"), Work("e", "Q");
    ThreeClaims(rs, own.key);
    ThreeClaims(rs, e.key);
    assert own in rs[i].events;
    assert forall x :: x in rs[i].events ==> x == own || x == e;
  }

  lemma FirstLabels()
    ensures GroupLabels(Three(), FIRST)
  {
    var rs := Three();
    forall i, j, pr | Shares(rs, i, j, pr) ensures FIRST[i] == FIRST[j] {
      ThreeHold(i, pr);
      ThreeHold(j, pr);
    }
    ThreeHold(0, "P");
    ThreeHold(1, "P");
    assert Shares(rs, 1, 0, "P");
  }

  /** The first join: the two clusters become one, which alone claims the event of Q. */
  function Two(): seq<ClusterResult> {
    var rs := Three();
    [Absorb(rs[0], rs[1].events, rs[1].context, By(rs[1])), rs[2]]
  }

  lemma NoNarratives(rs: seq<ClusterResult>, idxs: seq<int>)
    requires PRJoin.Within(rs, idxs) && forall i :: 0 <= i < |rs| ==> rs[i].kind == New
    ensures PRJoin.NarrativesIn(rs, idxs) == {}
  {
  }

  lemma FirstGroups()
    ensures GroupOf(FIRST, 0, 3) == [0, 1] && GroupOf(FIRST, 2, 3) == [2]
  {
    assert GroupOf(FIRST, 0, 1) == [0] && GroupOf(FIRST, 0, 2) == [0, 1];
    assert GroupOf(FIRST, 2, 1) == [] && GroupOf(FIRST, 2, 2) == [];
  }

  lemma Taken(rs: seq<ClusterResult>)
    requires |rs| >= 2
    ensures PRJoin.TakeGroup(rs, [0, 1], 0, 2) == Absorb(rs[0], rs[1].events, rs[1].context, By(rs[1]))
  {
    assert PRJoin.TakeGroup(rs, [0, 1], 0, 1) == rs[0];
  }

  lemma FirstPlaces(rs: seq<ClusterResult>)
    requires |rs| == 3 && forall i :: 0 <= i < 3 ==> rs[i].kind == New
    ensures PRJoin.Owner(rs, FIRST, 0) == 0 && PRJoin.Owner(rs, FIRST, 1) == 0 && PRJoin.Owner(rs, FIRST, 2) == 2
    ensures PRJoin.JoinAt(rs, FIRST, 0) == Absorb(rs[0], rs[1].events, rs[1].context, By(rs[1]))
    ensures PRJoin.JoinAt(rs, FIRST, 2) == rs[2]
  {
    FirstGroups();
    NoNarratives(rs, [0, 1]);
    PRJoin.FirstExtendExactly(rs, [0, 1]);
    Taken(rs);
  }

  /** Two clusters of a group joined, and the one apart left. */
  lemma JoinPair(rs: seq<ClusterResult>)
    requires |rs| == 3 && forall i :: 0 <= i < 3 ==> rs[i].kind == New
    ensures PRJoin.JoinedUpTo(rs, FIRST, 3) == [PRJoin.JoinAt(rs, FIRST, 0), PRJoin.JoinAt(rs, FIRST, 2)]
  {
    FirstPlaces(rs);
    assert PRJoin.JoinedUpTo(rs, FIRST, 0) == [];
    assert PRJoin.JoinedUpTo(rs, FIRST, 1) == [PRJoin.JoinAt(rs, FIRST, 0)];
    assert PRJoin.JoinedUpTo(rs, FIRST, 2) == PRJoin.JoinedUpTo(rs, FIRST, 1);
  }

  lemma FirstJoin()
    ensures PRJoin.JoinedUpTo(Three(), FIRST, 3) == Two()
  {
    FirstPlaces(Three());
    JoinPair(Three());
  }

  lemma TwoClaims(rs: seq<ClusterResult>, k: EventKey)
    requires |rs| == 2
    ensures Claims(rs, k, 2) == (if rs[0].Holds(k) then 1 else 0) + (if rs[1].Holds(k) then 1 else 0)
  {
    assert Claims(rs, k, 1) == Claims(rs, k, 0) + if rs[0].Holds(k) then 1 else 0;
  }

  lemma TwoMembers()
    ensures Two()[0].Holds(Work("e", "Q").key) && !Two()[0].Holds(Work("q", "Q").key) && Work("e", "Q") in Two()[0].events
    ensures Two()[1].Holds(Work("q", "Q").key) && !Two()[1].Holds(Work("e", "Q").key) && Work("q", "Q") in Two()[1].events
  {
    var rs := Three();
    ThreeKeys();
    AbsorbPlaces(rs[0], rs[1].events, rs[1].context, By(rs[1]));
    assert Work("e", "Q") in rs[0].events;
  }

  lemma TwoHold()
    ensures HoldsPR(Two(), 0, "Q") && HoldsPR(Two(), 1, "Q")
  {
    TwoMembers();
    TwoClaims(Two(), Work("e", "Q").key);
    TwoClaims(Two(), Work("q", "Q").key);
  }

  lemma SecondLabels()
    ensures GroupLabels(Two(), [0, 0])
  {
    TwoHold();
    PairLabels(Two(), "Q");
  }

  lemma PairLabels(rs: seq<ClusterResult>, pr: string)
    requires |rs| == 2 && HoldsPR(rs, 0, pr) && HoldsPR(rs, 1, pr)
    ensures GroupLabels(rs, [0, 0])
  {
    assert Shares(rs, 1, 0, pr);
  }

  lemma PairJoins(rs: seq<ClusterResult>)
    requires |rs| == 2 && forall i :: 0 <= i < 2 ==> rs[i].kind == New
    ensures |PRJoin.JoinedUpTo(rs, [0, 0], 2)| == 1
  {
    assert GroupOf([0, 0], 0, 2) == [0, 1] by { assert GroupOf([0, 0], 0, 1) == [0]; }
    NoNarratives(rs, [0, 1]);
    assert |PRJoin.JoinedUpTo(rs, [0, 0], 1)| == 1;
  }

  lemma SecondJoin()
    ensures |PRJoin.JoinedUpTo(Two(), [0, 0], 2)| == 1
  {
    PairJoins(Two());
  }

  /** Some clusters join again once joined. */
  lemma JoinTwiceCanDiffer()
    ensures exists rs, group, group' :: JoinsAgain(rs, group, group')
  {
    ThreeKeys();
    FirstLabels();
    FirstJoin();
    SecondLabels();
    SecondJoin();
    assert JoinsAgain(Three(), FIRST, [0, 0]);
  }

  /** Joining the joined clusters changes them. */
  ghost predicate JoinsAgain(rs: seq<ClusterResult>, group: seq<int>, group': seq<int>) {
    && AllWellFormed(rs) && GroupLabels(rs, group)
    && var out := PRJoin.JoinedUpTo(rs, group, |rs|);
       GroupLabels(out, group') && PRJoin.JoinedUpTo(out, group', |out|) != out
  }
}
