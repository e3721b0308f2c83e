/** The issues a narrative might be attributed to: gathered from every mention, ranked and cut. */
module Candidates {
  import opened Oracle
  import opened Ordering

  datatype Provenance = Reviewer | Branch | SCMCommand | JiraEvent | Corroborated | ProseFirst | ProseLater

  /** Strongest first. */
  function Rank(p: Provenance): int {
    match p
    case Reviewer => -1
    case Branch => 0
    case SCMCommand => 1
    case JiraEvent => 2
    case Corroborated => 3
    case ProseFirst => 4
    case ProseLater => 5
  }

  datatype Candidate = Candidate(key: string, provenance: Provenance, connection: string)

  /** One mention of an issue. */
  type Mention = Candidate

  /**
   * What an event's artifacts and summary name, as extracted: the issue it is about, keys in its
   * branch, in its authoring commands and in its prose, and the GitHub references its author
   * linked or merely cited, its own pull request left out.
   */
  datatype Naming = Naming(
    issueKey: string,
    connection: string,
    branchKeys: seq<string>,
    scmKeys: seq<string>,
    ticketKeys: seq<string>,
    authored: seq<string>,
    cited: seq<string>)

  function Each(keys: seq<string>, p: Provenance): (ms: seq<Mention>)
    ensures |ms| == |keys|
  {
    seq(|keys|, i requires 0 <= i < |keys| => Candidate(keys[i], p, ""))
  }

  /** References in prose: only the first of them, and only when nothing came before, is a first mention. */
  function Prose(keys: seq<string>, before: nat): (ms: seq<Mention>)
    ensures |ms| == |keys|
  {
    seq(|keys|, i requires 0 <= i < |keys| =>
      Candidate(keys[i], if i == 0 && before == 0 then ProseFirst else ProseLater, ""))
  }

  /** Every mention in an event, in the order they are considered. */
  function MentionsOf(e: Naming): seq<Mention> {
    (if e.issueKey == "" then [] else [Candidate(e.issueKey, JiraEvent, e.connection)])
    + Each(e.branchKeys, Branch) + Each(e.scmKeys, SCMCommand) + Prose(e.ticketKeys, 0)
    + Each(e.authored, SCMCommand) + Prose(e.cited, |e.ticketKeys|)
  }

  function AllMentions(evts: seq<Naming>): seq<Mention> {
    if evts == [] then [] else AllMentions(evts[..|evts| - 1]) + MentionsOf(evts[|evts| - 1])
  }

  /** What is on record for a key once one more mention of it is seen. */
  function Better(held: Candidate, m: Mention): Candidate {
    if Rank(m.provenance) < Rank(held.provenance)
    then m.(connection := if m.connection == "" then held.connection else m.connection)
    else if held.connection == "" && m.connection != "" then held.(connection := m.connection)
    else held
  }

  function Upserted(best: map<string, Candidate>, m: Mention): map<string, Candidate> {
    best[m.key := if m.key in best then Better(best[m.key], m) else m]
  }

  function Best(ms: seq<Mention>): map<string, Candidate> {
    if ms == [] then map[] else Upserted(Best(ms[..|ms| - 1]), ms[|ms| - 1])
  }

  /** c is the strongest mention of its key among ms, and has a connection if any of them does. */
  ghost predicate Strongest(ms: seq<Mention>, c: Candidate) {
    && (exists m :: m in ms && m.key == c.key && m.provenance == c.provenance)
    && (forall m :: m in ms && m.key == c.key ==> Rank(c.provenance) <= Rank(m.provenance))
    && (c.connection == "" ==> forall m :: m in ms && m.key == c.key ==> m.connection == "")
    && (c.connection != "" ==> exists m :: m in ms && m.key == c.key && m.connection == c.connection)
  }

  /** best holds each key mentioned in ms, at its strongest. */
  ghost predicate Records(best: map<string, Candidate>, ms: seq<Mention>) {
    && (forall m :: m in ms ==> m.key in best)
    && (forall k :: k in best ==> best[k].key == k && Strongest(ms, best[k]))
  }

  /** The record holds each key mentioned, at its strongest. */
  lemma {:induction false} BestExactly(ms: seq<Mention>)
    ensures Records(Best(ms), ms)
  {
    if ms != [] {
      var n := |ms| - 1;
      BestExactly(ms[..n]);
      assert ms == ms[..n] + [ms[n]];
      UpsertRecords(Best(ms[..n]), ms[..n], ms[n]);
    }
  }

  lemma UnderOwnKey(ms: seq<Mention>)
    ensures forall k :: k in Best(ms) ==> Best(ms)[k].key == k
  {
    BestExactly(ms);
  }

  /** One more mention leaves a record of it and every one before, and touches no other key. */
  lemma UpsertRecords(best: map<string, Candidate>, ms: seq<Mention>, m: Mention)
    requires Records(best, ms)
    ensures Records(Upserted(best, m), ms + [m])
    ensures Upserted(best, m).Keys == best.Keys + {m.key}
    ensures forall k :: k in best && k != m.key ==> Upserted(best, m)[k] == best[k]
  {
    var next, more := Upserted(best, m), ms + [m];
    forall k | k in next ensures next[k].key == k && Strongest(more, next[k]) {
      StrongestMore(best, ms, m, k);
    }
    forall x | x in more ensures x.key in next {
      assert x in ms || x == m;
    }
  }

  lemma StrongestMore(best: map<string, Candidate>, ms: seq<Mention>, m: Mention, k: string)
    requires Records(best, ms) && k in Upserted(best, m)
    ensures Upserted(best, m)[k].key == k && Strongest(ms + [m], Upserted(best, m)[k])
  {
    var more := ms + [m];
    assert m == more[|ms|];
    assert forall x :: x in more <==> x in ms || x == m;
  }

  // Ranking.

  /** What stands for no time at all: the zero time, 1 January of year 1. */
  const NO_TIME: int := -62135596800_000000000

  function LastActive(activity: map<string, int>, key: string): int {
    if key in activity then activity[key] else NO_TIME
  }

  /** A prose mention of an issue known to be active counts for more. */
  function Promoted(c: Candidate, activity: map<string, int>): Candidate {
    if c.key in activity && (c.provenance == ProseFirst || c.provenance == ProseLater)
    then c.(provenance := Corroborated) else c
  }

  /** a ranks strictly ahead of b. */
  predicate Ahead(a: Candidate, b: Candidate, activity: map<string, int>) {
    if a.provenance != b.provenance then Rank(a.provenance) < Rank(b.provenance)
    else if a.provenance == Corroborated && LastActive(activity, a.key) != LastActive(activity, b.key)
    then LastActive(activity, a.key) > LastActive(activity, b.key)
    else Before(a.key, b.key)
  }

  lemma RankInjective(a: Provenance, b: Provenance)
    requires Rank(a) == Rank(b)
    ensures a == b
  {
  }

  /** Ahead is a strict total order on candidates of different keys. */
  lemma AheadIsOrder(a: Candidate, b: Candidate, c: Candidate, activity: map<string, int>)
    ensures !Ahead(a, a, activity)
    ensures Ahead(a, b, activity) && Ahead(b, c, activity) ==> Ahead(a, c, activity)
    ensures a.key != b.key ==> (Ahead(a, b, activity) <==> !Ahead(b, a, activity))
  {
    BeforeIrreflexive(a.key);
    if Before(a.key, b.key) && Before(b.key, c.key) { BeforeTransitive(a.key, b.key, c.key); }
    BeforeTotal(a.key, b.key);
    if Before(a.key, b.key) && Before(b.key, a.key) { BeforeTransitive(a.key, b.key, a.key); }
  }

  ghost predicate InOrder(cs: seq<Candidate>, activity: map<string, int>) {
    forall i, j :: 0 <= i < j < |cs| ==> Ahead(cs[i], cs[j], activity)
  }

  ghost predicate DistinctKeys(cs: seq<Candidate>) {
    forall i, j :: 0 <= i < j < |cs| ==> cs[i].key != cs[j].key
  }

  // The stages.

  method Upsert(best: map<string, Candidate>, m: Mention) returns (next: map<string, Candidate>)
    ensures next == Upserted(best, m)
  {
    if m.key !in best {
      return best[m.key := m];
    }
    var existing := best[m.key];
    if Rank(m.provenance) < Rank(existing.provenance) {
      var connection := if m.connection == "" then existing.connection else m.connection;
      next := best[m.key := m.(connection := connection)];
    } else if existing.connection == "" && m.connection != "" {
      next := best[m.key := existing.(connection := m.connection)];
    } else {
      next := best;
      assert best[m.key := existing] == best;
    }
  }

  lemma BestMore(ms: seq<Mention>, m: Mention)
    ensures Best(ms + [m]) == Upserted(Best(ms), m)
  {
    assert (ms + [m])[..|ms + [m]| - 1] == ms;
  }

  lemma AllMentionsMore(evts: seq<Naming>, e: Naming)
    ensures AllMentions(evts + [e]) == AllMentions(evts) + MentionsOf(e)
  {
    assert (evts + [e])[..|evts + [e]| - 1] == evts;
  }

  method UpsertAll(held: map<string, Candidate>, ghost seen: seq<Mention>, ms: seq<Mention>) returns (best: map<string, Candidate>)
    requires held == Best(seen)
    ensures best == Best(seen + ms)
  {
    best := held;
    assert seen + ms[..0] == seen;
    for j := 0 to |ms|
      invariant best == Best(seen + ms[..j])
    {
      assert seen + ms[..j + 1] == (seen + ms[..j]) + [ms[j]];
      BestMore(seen + ms[..j], ms[j]);
      best := Upsert(best, ms[j]);
    }
    assert ms[..|ms|] == ms;
  }

  method GatherBest(evts: seq<Naming>) returns (best: map<string, Candidate>)
    ensures best == Best(AllMentions(evts))
  {
    best := map[];
    for i := 0 to |evts|
      invariant best == Best(AllMentions(evts[..i]))
    {
      assert evts[..i + 1] == evts[..i] + [evts[i]];
      AllMentionsMore(evts[..i], evts[i]);
      var ms := MentionsOf(evts[i]);
      best := UpsertAll(best, AllMentions(evts[..i]), ms);
    }
    assert evts[..|evts|] == evts;
  }

  /** The record's candidates, each once, in whatever order the map yields them. */
  method Values(best: map<string, Candidate>) returns (out: seq<Candidate>)
    requires forall k :: k in best ==> best[k].key == k
    ensures DistinctKeys(out)
    ensures forall c :: c in out <==> c.key in best && best[c.key] == c
  {
    out := [];
    var left := best.Keys;
    while left != {}
      invariant left <= best.Keys && DistinctKeys(out)
      invariant forall c :: c in out <==> c.key in best && best[c.key] == c && c.key !in left
      decreases left
    {
      var k :| k in left;
      forall i | 0 <= i < |out| ensures out[i].key != k {
        assert out[i] in out;
      }
      out := out + [best[k]];
      left := left - {k};
    }
  }

  /** Relabels, in place, the prose candidates that have activity. */
  method PromoteCorroborated(cs: array<Candidate>, activity: map<string, int>)
    modifies cs
    ensures forall i :: 0 <= i < cs.Length ==> cs[i] == Promoted(old(cs[i]), activity)
  {
    for i := 0 to cs.Length
      invariant forall k :: 0 <= k < i ==> cs[k] == Promoted(old(cs[k]), activity)
      invariant forall k :: i <= k < cs.Length ==> cs[k] == old(cs[k])
    {
      cs[i] := Promoted(cs[i], activity);
    }
  }

  /** Sorts: the same candidates, strongest first. */
  method RankCandidates(cs: seq<Candidate>, activity: map<string, int>) returns (out: seq<Candidate>)
    requires DistinctKeys(cs)
    ensures InOrder(out, activity) && |out| == |cs|
    ensures forall c :: c in out <==> c in cs
  {
    out := [];
    for i := 0 to |cs|
      invariant InOrder(out, activity) && |out| == i
      invariant forall c :: c in out <==> c in cs[..i]
    {
      assert forall k :: 0 <= k < |out| ==> out[k] in out;
      assert cs[..i + 1] == cs[..i] + [cs[i]];
      out := Insert(out, cs[i], activity);
    }
    assert cs[..|cs|] == cs;
  }

  /** c put where everything before it is ahead of it, and the next is not. */
  lemma InsertedInOrder(cs: seq<Candidate>, at: nat, c: Candidate, activity: map<string, int>)
    requires InOrder(cs, activity) && at <= |cs| && forall i :: 0 <= i < |cs| ==> cs[i].key != c.key
    requires forall k :: 0 <= k < at ==> Ahead(cs[k], c, activity)
    requires at < |cs| ==> !Ahead(cs[at], c, activity)
    ensures InOrder(cs[..at] + [c] + cs[at..], activity)
  {
    forall k | at <= k < |cs| ensures Ahead(c, cs[k], activity) {
      AheadIsOrder(c, cs[at], cs[k], activity);
      assert k > at ==> Ahead(cs[at], cs[k], activity);
    }
  }

  method Insert(cs: seq<Candidate>, c: Candidate, activity: map<string, int>) returns (out: seq<Candidate>)
    requires InOrder(cs, activity) && forall i :: 0 <= i < |cs| ==> cs[i].key != c.key
    ensures InOrder(out, activity) && |out| == |cs| + 1
    ensures forall x :: x in out <==> x in cs || x == c
  {
    var at := 0;
    while at < |cs| && Ahead(cs[at], c, activity)
      invariant 0 <= at <= |cs| && forall k :: 0 <= k < at ==> Ahead(cs[k], c, activity)
    {
      at := at + 1;
    }
    InsertedInOrder(cs, at, c, activity);
    out := cs[..at] + [c] + cs[at..];
    assert cs == cs[..at] + cs[at..];
  }

  /** The candidates whose key is not excluded, in order. */
  function Kept(cs: seq<Candidate>, excluded: string -> bool): seq<Candidate> {
    if cs == [] then []
    else
      var n := |cs| - 1;
      if excluded(cs[n].key) then Kept(cs[..n], excluded) else Kept(cs[..n], excluded) + [cs[n]]
  }

  method DropExcluded(cs: seq<Candidate>, excluded: string -> bool) returns (out: seq<Candidate>)
    ensures out == Kept(cs, excluded)
  {
    out := [];
    for i := 0 to |cs|
      invariant out == Kept(cs[..i], excluded)
    {
      assert cs[..i + 1][..i] == cs[..i];
      if !excluded(cs[i].key) {
        out := out + [cs[i]];
      }
    }
    assert cs[..|cs|] == cs;
  }

  lemma {:induction false} KeptExactly(cs: seq<Candidate>, excluded: string -> bool, activity: map<string, int>)
    ensures forall c :: c in Kept(cs, excluded) <==> c in cs && !excluded(c.key)
    ensures InOrder(cs, activity) ==> InOrder(Kept(cs, excluded), activity)
  {
    if cs != [] {
      var n := |cs| - 1;
      KeptExactly(cs[..n], excluded, activity);
      assert cs == cs[..n] + [cs[n]];
      var init := Kept(cs[..n], excluded);
      if InOrder(cs, activity) {
        forall k | 0 <= k < |init| ensures Ahead(init[k], cs[n], activity) {
          assert init[k] in init;
          var i :| 0 <= i < n && cs[i] == init[k];
        }
      }
    }
  }

  /** full ranks every key mentioned and not excluded, each at its strongest, promoted if active. */
  ghost predicate Ranked(ms: seq<Mention>, excluded: string -> bool, activity: map<string, int>, full: seq<Candidate>) {
    && InOrder(full, activity)
    && forall c :: c in full <==> c.key in Best(ms) && !excluded(c.key) && c == Promoted(Best(ms)[c.key], activity)
  }

  function Head(cs: seq<Candidate>, limit: int): seq<Candidate> {
    if limit > 0 && |cs| > limit then cs[..limit] else cs
  }

  /** out is the head of such a ranking. */
  ghost predicate Gathered(
    ms: seq<Mention>, excluded: string -> bool, limit: int, activity: map<string, int>, out: seq<Candidate>)
  {
    exists full :: Ranked(ms, excluded, activity, full) && out == Head(full, limit)
  }

  method GatherCandidates(evts: seq<Naming>, excluded: string -> bool, limit: int, activity: map<string, int>)
    returns (out: seq<Candidate>)
    ensures Gathered(AllMentions(evts), excluded, limit, activity, out)
  {
    var best := GatherBest(evts);
    UnderOwnKey(AllMentions(evts));
    var listed := Values(best);
    var cs := new Candidate[|listed|](i requires 0 <= i < |listed| => listed[i]);
    PromoteCorroborated(cs, activity);
    assert DistinctKeys(cs[..]);
    var ranked := RankCandidates(cs[..], activity);
    PromotedBest(best, listed, cs[..], activity);
    out := DropExcluded(ranked, excluded);
    KeptExactly(ranked, excluded, activity);
    assert Ranked(AllMentions(evts), excluded, activity, out);
    if limit > 0 && |out| > limit {
      out := out[..limit];
    }
  }

  lemma PromotedBest(best: map<string, Candidate>, listed: seq<Candidate>, cs: seq<Candidate>, activity: map<string, int>)
    requires forall k :: k in best ==> best[k].key == k
    requires forall c :: c in listed <==> c.key in best && best[c.key] == c
    requires |cs| == |listed| && forall i :: 0 <= i < |cs| ==> cs[i] == Promoted(listed[i], activity)
    ensures forall c :: c in cs <==> c.key in best && c == Promoted(best[c.key], activity)
  {
    forall c ensures c in cs <==> c.key in best && c == Promoted(best[c.key], activity) {
      PromotedAll(listed, cs, activity, c);
    }
  }

  lemma PromotedAll(listed: seq<Candidate>, cs: seq<Candidate>, activity: map<string, int>, c: Candidate)
    requires |cs| == |listed| && forall i :: 0 <= i < |cs| ==> cs[i] == Promoted(listed[i], activity)
    ensures c in cs <==> exists x :: x in listed && c == Promoted(x, activity)
  {
    if c in cs {
      var i :| 0 <= i < |cs| && cs[i] == c;
      assert listed[i] in listed;
    }
    if x :| x in listed && c == Promoted(x, activity) {
      var i :| 0 <= i < |listed| && listed[i] == x;
      assert cs[i] == c;
    }
  }
}
