/** What the candidate list does and does not depend on. */
module CandidateFacts {
  import opened Oracle
  import opened Ordering
  import opened Candidates

  /** The candidate without its connection: its key and how strongly it was mentioned. */
  function Bare(c: Candidate): Candidate {
    c.(connection := "")
  }

  function AllBare(cs: seq<Candidate>): (bs: seq<Candidate>)
    ensures |bs| == |cs| && forall i :: 0 <= i < |cs| ==> bs[i] == Bare(cs[i])
  {
    seq(|cs|, i requires 0 <= i < |cs| => Bare(cs[i]))
  }

  ghost predicate SameEvents(a: seq<Naming>, b: seq<Naming>) {
    forall e :: e in a <==> e in b
  }

  ghost predicate SameMentions(a: seq<Mention>, b: seq<Mention>) {
    forall m :: m in a <==> m in b
  }

  lemma {:induction false} AllMentionsExactly(evts: seq<Naming>)
    ensures forall m :: m in AllMentions(evts) <==> exists e :: e in evts && m in MentionsOf(e)
  {
    if evts != [] {
      var n := |evts| - 1;
      AllMentionsExactly(evts[..n]);
      assert evts == evts[..n] + [evts[n]];
    }
  }

  lemma SameEventsMention(a: seq<Naming>, b: seq<Naming>)
    requires SameEvents(a, b)
    ensures SameMentions(AllMentions(a), AllMentions(b))
  {
    AllMentionsExactly(a);
    AllMentionsExactly(b);
  }

  /** The same mentions, in any order, put the same keys on record, equally strong. */
  lemma SameBest(a: seq<Mention>, b: seq<Mention>)
    requires SameMentions(a, b)
    ensures forall k :: k in Best(a) <==> k in Best(b)
    ensures forall k :: k in Best(a) ==> Bare(Best(a)[k]) == Bare(Best(b)[k])
    ensures forall k :: k in Best(a) ==> (Best(a)[k].connection == "" <==> Best(b)[k].connection == "")
  {
    BestExactly(a);
    BestExactly(b);
    forall k ensures k in Best(a) <==> k in Best(b) {
      if k in Best(a) {
        var m :| m in a && m.key == k;
        assert m in b;
      }
      if k in Best(b) {
        var m :| m in b && m.key == k;
        assert m in a;
      }
    }
    forall k | k in Best(a)
      ensures Bare(Best(a)[k]) == Bare(Best(b)[k]) && (Best(a)[k].connection == "" <==> Best(b)[k].connection == "")
    {
      SameStrongest(a, b, Best(a)[k], Best(b)[k]);
    }
  }

  lemma SameStrongest(a: seq<Mention>, b: seq<Mention>, c: Candidate, d: Candidate)
    requires SameMentions(a, b) && c.key == d.key && Strongest(a, c) && Strongest(b, d)
    ensures Bare(c) == Bare(d) && (c.connection == "" <==> d.connection == "")
  {
    var x :| x in a && x.key == c.key && x.provenance == c.provenance;
    var y :| y in b && y.key == d.key && y.provenance == d.provenance;
    assert x in b && y in a;
    RankInjective(c.provenance, d.provenance);
  }

  lemma BareAhead(a: Candidate, b: Candidate, activity: map<string, int>)
    ensures Ahead(Bare(a), Bare(b), activity) <==> Ahead(a, b, activity)
  {
  }

  lemma HeadAhead(s: seq<Candidate>, t: seq<Candidate>, activity: map<string, int>)
    requires InOrder(s, activity) && s != [] && t != [] && (forall x :: x in t ==> x in s)
    ensures s[0] == t[0] || Ahead(s[0], t[0], activity)
  {
    assert t[0] in s;
  }

  /** A ranked list is the only one of its candidates. */
  lemma {:induction false} InOrderUnique(s: seq<Candidate>, t: seq<Candidate>, activity: map<string, int>)
    requires InOrder(s, activity) && InOrder(t, activity) && (forall x :: x in s <==> x in t)
    ensures s == t
  {
    assert t != [] ==> t[0] in s;
    if s != [] {
      assert s[0] in t;
      HeadAhead(s, t, activity);
      HeadAhead(t, s, activity);
      AheadIsOrder(s[0], t[0], s[0], activity);
      assert s[0] == t[0];
      forall x ensures x in s[1..] <==> x in t[1..] {
        AheadIsOrder(s[0], s[0], s[0], activity);
        assert x in s <==> x == s[0] || x in s[1..];
        assert x in t <==> x == t[0] || x in t[1..];
      }
      InOrderUnique(s[1..], t[1..], activity);
      assert s == [s[0]] + s[1..] && t == [t[0]] + t[1..];
    }
  }

  lemma BareExactly(cs: seq<Candidate>)
    ensures forall x :: x in AllBare(cs) <==> exists c :: c in cs && x == Bare(c)
  {
    forall x ensures x in AllBare(cs) <==> exists c :: c in cs && x == Bare(c) {
      if x in AllBare(cs) {
        var i :| 0 <= i < |cs| && AllBare(cs)[i] == x;
        assert cs[i] in cs;
      }
      if c :| c in cs && x == Bare(c) {
        var i :| 0 <= i < |cs| && cs[i] == c;
        assert AllBare(cs)[i] == x;
      }
    }
  }

  lemma BareInOrder(cs: seq<Candidate>, activity: map<string, int>)
    requires InOrder(cs, activity)
    ensures InOrder(AllBare(cs), activity)
  {
    forall i, j | 0 <= i < j < |cs| ensures Ahead(AllBare(cs)[i], AllBare(cs)[j], activity) {
      BareAhead(cs[i], cs[j], activity);
    }
  }

  /** Rankings of the same mentions list the same keys, equally strong, in the same order. */
  lemma SameRanking(
    a: seq<Mention>, b: seq<Mention>, excluded: string -> bool, activity: map<string, int>,
    s: seq<Candidate>, t: seq<Candidate>)
    requires SameMentions(a, b) && Ranked(a, excluded, activity, s) && Ranked(b, excluded, activity, t)
    ensures AllBare(s) == AllBare(t)
  {
    BareSubset(a, b, excluded, activity, s, t);
    BareSubset(b, a, excluded, activity, t, s);
    BareInOrder(s, activity);
    BareInOrder(t, activity);
    InOrderUnique(AllBare(s), AllBare(t), activity);
  }

  lemma BareSubset(
    a: seq<Mention>, b: seq<Mention>, excluded: string -> bool, activity: map<string, int>,
    s: seq<Candidate>, t: seq<Candidate>)
    requires SameMentions(a, b) && Ranked(a, excluded, activity, s) && Ranked(b, excluded, activity, t)
    ensures forall x :: x in AllBare(s) ==> x in AllBare(t)
  {
    SameBest(a, b);
    BareExactly(s);
    BareExactly(t);
    BestExactly(a);
    BestExactly(b);
    forall x | x in AllBare(s) ensures x in AllBare(t) {
      var c :| c in s && x == Bare(c);
      var d := Promoted(Best(b)[c.key], activity);
      assert Bare(d) == Bare(c);
      assert d in t;
    }
  }

  /**
   * The keys gathered and their strengths, in order and after the cut, depend only on which
   * events were seen: not on their order or repetition, nor on how a map is walked.
   */
  lemma OrderIrrelevant(
    a: seq<Naming>, b: seq<Naming>, excluded: string -> bool, limit: int, activity: map<string, int>,
    out: seq<Candidate>, out': seq<Candidate>)
    requires SameEvents(a, b)
    requires Gathered(AllMentions(a), excluded, limit, activity, out)
    requires Gathered(AllMentions(b), excluded, limit, activity, out')
    ensures AllBare(out) == AllBare(out')
  {
    SameEventsMention(a, b);
    var s :| Ranked(AllMentions(a), excluded, activity, s) && out == Head(s, limit);
    var t :| Ranked(AllMentions(b), excluded, activity, t) && out' == Head(t, limit);
    SameRanking(AllMentions(a), AllMentions(b), excluded, activity, s, t);
    assert AllBare(Head(s, limit)) == Head(AllBare(s), limit);
    assert AllBare(Head(t, limit)) == Head(AllBare(t), limit);
  }

  /** Every key gathered is as strong as its strongest mention, or promoted from prose; none is excluded. */
  lemma GatheredStrongest(
    ms: seq<Mention>, excluded: string -> bool, limit: int, activity: map<string, int>, out: seq<Candidate>, c: Candidate)
    requires Gathered(ms, excluded, limit, activity, out) && c in out
    ensures !excluded(c.key)
    ensures exists d :: Strongest(ms, d) && c == Promoted(d, activity)
    ensures c.connection == "" <==> forall m :: m in ms && m.key == c.key ==> m.connection == ""
  {
    BestExactly(ms);
    var full :| Ranked(ms, excluded, activity, full) && out == Head(full, limit);
    assert c in full;
  }

  /** Whatever is cut, every key kept ranks ahead of it, and the limit is met exactly when something is cut. */
  lemma CutNeverOutranks(
    ms: seq<Mention>, excluded: string -> bool, limit: int, activity: map<string, int>, out: seq<Candidate>,
    cut: Candidate)
    requires Gathered(ms, excluded, limit, activity, out)
    requires cut.key in Best(ms) && !excluded(cut.key) && cut == Promoted(Best(ms)[cut.key], activity) && cut !in out
    ensures limit > 0 && |out| == limit && forall c :: c in out ==> Ahead(c, cut, activity)
  {
    var full :| Ranked(ms, excluded, activity, full) && out == Head(full, limit);
    assert cut in full;
    var j :| 0 <= j < |full| && full[j] == cut;
    assert forall i :: 0 <= i < |out| ==> out[i] in out;
    assert j >= |out|;
    forall c | c in out ensures Ahead(c, cut, activity) {
      var i :| 0 <= i < |out| && out[i] == c;
    }
  }

  // What a candidate's strength says, in the provenances' own terms.

  /** Strongest first. */
  const STRENGTHS: seq<Provenance> := [Reviewer, Branch, SCMCommand, JiraEvent, Corroborated, ProseFirst, ProseLater]

  /** p is at least as strong as q. */
  ghost predicate AtLeast(p: Provenance, q: Provenance) {
    exists a, b :: 0 <= a <= b < |STRENGTHS| && STRENGTHS[a] == p && STRENGTHS[b] == q
  }

  lemma StrengthAt(a: nat)
    requires a < |STRENGTHS|
    ensures Rank(STRENGTHS[a]) == a - 1
  {
  }

  /** The ranks are the order of the provenances. */
  lemma StrengthExactly(p: Provenance, q: Provenance)
    ensures AtLeast(p, q) <==> Rank(p) <= Rank(q)
  {
    if AtLeast(p, q) {
      var a, b :| 0 <= a <= b < |STRENGTHS| && STRENGTHS[a] == p && STRENGTHS[b] == q;
      StrengthAt(a);
      StrengthAt(b);
    } else {
      assert STRENGTHS[Rank(p) + 1] == p && STRENGTHS[Rank(q) + 1] == q;
    }
  }

  /** The keys in an event's prose, Jira keys before GitHub references. */
  function ProseKeys(e: Naming): seq<string> {
    e.ticketKeys + e.cited
  }

  /** The event names k in this way. */
  ghost predicate NamesAs(e: Naming, k: string, p: Provenance) {
    match p
    case Branch => k in e.branchKeys
    case SCMCommand => k in e.scmKeys || k in e.authored
    case JiraEvent => k == e.issueKey != ""
    case ProseFirst => ProseKeys(e) != [] && k == ProseKeys(e)[0]
    case ProseLater => ProseKeys(e) != [] && k in ProseKeys(e)[1..]
    case _ => false
  }

  lemma EachExactly(keys: seq<string>, p: Provenance, m: Mention)
    ensures m in Each(keys, p) <==> m.key in keys && m.provenance == p && m.connection == ""
  {
    if m.key in keys && m.provenance == p && m.connection == "" {
      var i :| 0 <= i < |keys| && keys[i] == m.key;
      assert Each(keys, p)[i] == m;
    }
  }

  lemma ProseExactly(e: Naming, m: Mention)
    ensures m in Prose(e.ticketKeys, 0) + Prose(e.cited, |e.ticketKeys|) <==>
            m.provenance in {ProseFirst, ProseLater} && NamesAs(e, m.key, m.provenance) && m.connection == ""
  {
    var keys, all := ProseKeys(e), Prose(e.ticketKeys, 0) + Prose(e.cited, |e.ticketKeys|);
    assert forall i :: 0 <= i < |all| ==> all[i] == Candidate(keys[i], if i == 0 then ProseFirst else ProseLater, "");
    if m.provenance == ProseFirst && NamesAs(e, m.key, ProseFirst) && m.connection == "" {
      assert all[0] == m;
    }
    if m.provenance == ProseLater && NamesAs(e, m.key, ProseLater) && m.connection == "" {
      var i :| 0 <= i < |keys[1..]| && keys[1..][i] == m.key;
      assert all[i + 1] == m;
    }
    if m in all {
      var i :| 0 <= i < |all| && all[i] == m;
      if i > 0 { assert keys[1..][i - 1] == m.key; }
    }
  }

  /** What an event mentions is what it names, as it names it; only the issue it is about has a connection. */
  lemma MentionsExactly(e: Naming, m: Mention)
    ensures m in MentionsOf(e) <==>
            NamesAs(e, m.key, m.provenance) && m.connection == if m.provenance == JiraEvent then e.connection else ""
  {
    EachExactly(e.branchKeys, Branch, m);
    EachExactly(e.scmKeys, SCMCommand, m);
    EachExactly(e.authored, SCMCommand, m);
    ProseExactly(e, m);
    var about := if e.issueKey == "" then [] else [Candidate(e.issueKey, JiraEvent, e.connection)];
    assert m in about <==> m.provenance == JiraEvent && NamesAs(e, m.key, JiraEvent) && m.connection == e.connection;
    assert m in MentionsOf(e) <==>
      m in about || m in Each(e.branchKeys, Branch) || m in Each(e.scmKeys, SCMCommand) || m in Each(e.authored, SCMCommand)
      || m in Prose(e.ticketKeys, 0) + Prose(e.cited, |e.ticketKeys|);
  }

  /** Some event names k in this way. */
  ghost predicate NamedAs(evts: seq<Naming>, k: string, p: Provenance) {
    exists e :: e in evts && NamesAs(e, k, p)
  }

  ghost predicate SomehowNamed(evts: seq<Naming>, k: string) {
    exists p :: NamedAs(evts, k, p)
  }

  lemma NamedMentioned(evts: seq<Naming>, k: string, p: Provenance)
    ensures NamedAs(evts, k, p) <==> exists m :: m in AllMentions(evts) && m.key == k && m.provenance == p
  {
    AllMentionsExactly(evts);
    if NamedAs(evts, k, p) {
      var e :| e in evts && NamesAs(e, k, p);
      var m := Candidate(k, p, if p == JiraEvent then e.connection else "");
      MentionsExactly(e, m);
      assert m in AllMentions(evts) && m.key == k && m.provenance == p;
    }
    if m :| m in AllMentions(evts) && m.key == k && m.provenance == p {
      var e :| e in evts && m in MentionsOf(e);
      MentionsExactly(e, m);
    }
  }

  /** The strongest way the events name k, where some do. */
  ghost function StrongestNaming(evts: seq<Naming>, k: string): Provenance {
    if NamedAs(evts, k, Branch) then Branch
    else if NamedAs(evts, k, SCMCommand) then SCMCommand
    else if NamedAs(evts, k, JiraEvent) then JiraEvent
    else if NamedAs(evts, k, ProseFirst) then ProseFirst
    else ProseLater
  }

  /** The same, but a key only found in prose counts for more when its issue is known to be active. */
  ghost function StrengthOf(evts: seq<Naming>, activity: map<string, int>, k: string): Provenance {
    var p := StrongestNaming(evts, k);
    if (p == ProseFirst || p == ProseLater) && k in activity then Corroborated else p
  }

  lemma RecordedNaming(evts: seq<Naming>, k: string)
    ensures k in Best(AllMentions(evts)) <==> SomehowNamed(evts, k)
    ensures k in Best(AllMentions(evts)) ==> Best(AllMentions(evts))[k].provenance == StrongestNaming(evts, k)
  {
    var ms := AllMentions(evts);
    BestExactly(ms);
    if p :| NamedAs(evts, k, p) {
      NamedMentioned(evts, k, p);
    }
    if k in Best(ms) {
      var c := Best(ms)[k];
      NamedMentioned(evts, k, c.provenance);
      NoneStronger(evts, c);
    }
  }

  /** A key's record is as strong as its strongest naming. */
  lemma NoneStronger(evts: seq<Naming>, c: Candidate)
    requires Strongest(AllMentions(evts), c) && NamedAs(evts, c.key, c.provenance)
    ensures c.provenance == StrongestNaming(evts, c.key)
  {
    var p := StrongestNaming(evts, c.key);
    NamedMentioned(evts, c.key, p);
    if NamedAs(evts, c.key, p) {
      var m :| m in AllMentions(evts) && m.key == c.key && m.provenance == p;
      assert Rank(c.provenance) <= Rank(p);
    }
  }

  /** Every key gathered is recorded as strongly as the events name it, and no more. */
  lemma GatheredAsNamed(
    evts: seq<Naming>, excluded: string -> bool, limit: int, activity: map<string, int>, out: seq<Candidate>, c: Candidate)
    requires Gathered(AllMentions(evts), excluded, limit, activity, out) && c in out
    ensures SomehowNamed(evts, c.key) && c.provenance == StrengthOf(evts, activity, c.key)
  {
    var full :| Ranked(AllMentions(evts), excluded, activity, full) && out == Head(full, limit);
    assert c in full;
    UnderOwnKey(AllMentions(evts));
    RecordedNaming(evts, c.key);
  }

  /** Promotion never demotes, and touches only what was found in prose. */
  lemma PromotionStrengthens(c: Candidate, activity: map<string, int>)
    ensures AtLeast(Promoted(c, activity).provenance, c.provenance)
    ensures Promoted(c, activity) != c ==> c.provenance in {ProseFirst, ProseLater} && c.key in activity
  {
    StrengthExactly(Promoted(c, activity).provenance, c.provenance);
  }

  /**
   * What is returned is in order: stronger provenances first; among keys corroborated by an
   * active issue the latest activity first; and otherwise by key.
   */
  lemma GatheredInOrder(
    evts: seq<Naming>, excluded: string -> bool, limit: int, activity: map<string, int>, out: seq<Candidate>, i: nat, j: nat)
    requires Gathered(AllMentions(evts), excluded, limit, activity, out) && i < j < |out|
    ensures AtLeast(out[i].provenance, out[j].provenance)
    ensures out[i].provenance == out[j].provenance ==>
              if out[i].provenance == Corroborated then
                && out[i].key in activity && out[j].key in activity
                && activity[out[i].key] >= activity[out[j].key]
                && (activity[out[i].key] == activity[out[j].key] ==> Before(out[i].key, out[j].key))
              else Before(out[i].key, out[j].key)
  {
    GatheredAhead(AllMentions(evts), excluded, limit, activity, out, i, j);
    StrengthExactly(out[i].provenance, out[j].provenance);
    GatheredAsNamed(evts, excluded, limit, activity, out, out[i]);
    GatheredAsNamed(evts, excluded, limit, activity, out, out[j]);
  }

  lemma GatheredAhead(
    ms: seq<Mention>, excluded: string -> bool, limit: int, activity: map<string, int>, out: seq<Candidate>, i: nat, j: nat)
    requires Gathered(ms, excluded, limit, activity, out) && i < j < |out|
    ensures Ahead(out[i], out[j], activity)
  {
    var full :| Ranked(ms, excluded, activity, full) && out == Head(full, limit);
    assert out[i] == full[i] && out[j] == full[j];
  }

  /** A key that is named, not excluded and not returned was cut at the limit, and everything returned is at least as strong. */
  lemma CutIsWeaker(
    evts: seq<Naming>, excluded: string -> bool, limit: int, activity: map<string, int>, out: seq<Candidate>, k: string)
    requires Gathered(AllMentions(evts), excluded, limit, activity, out)
    requires SomehowNamed(evts, k) && !excluded(k) && !KeyWithin(out, |out|, k)
    ensures limit > 0 && |out| == limit
    ensures forall c :: c in out ==> AtLeast(c.provenance, StrengthOf(evts, activity, k))
  {
    var ms := AllMentions(evts);
    RecordedNaming(evts, k);
    UnderOwnKey(ms);
    var cut := Promoted(Best(ms)[k], activity);
    CutNeverOutranks(ms, excluded, limit, activity, out, cut);
    forall c | c in out ensures AtLeast(c.provenance, StrengthOf(evts, activity, k)) {
      StrengthExactly(c.provenance, cut.provenance);
    }
  }

  /** No key a branch names is cut while one no branch names is returned. */
  lemma BranchNotCut(
    evts: seq<Naming>, excluded: string -> bool, limit: int, activity: map<string, int>, out: seq<Candidate>, k: string)
    requires Gathered(AllMentions(evts), excluded, limit, activity, out)
    requires NamedAs(evts, k, Branch) && !excluded(k) && !KeyWithin(out, |out|, k)
    ensures forall c :: c in out ==> NamedAs(evts, c.key, Branch)
  {
    CutIsWeaker(evts, excluded, limit, activity, out, k);
    forall c | c in out ensures NamedAs(evts, c.key, Branch) {
      StrengthExactly(c.provenance, Branch);
      GatheredAsNamed(evts, excluded, limit, activity, out, c);
    }
  }

  // Connections: which one is kept does depend on the order.

  /** The first connection a mention of k names, "" when none does. */
  function FirstConnection(ms: seq<Mention>, k: string): string {
    if ms == [] then ""
    else
      var n := |ms| - 1;
      var before := FirstConnection(ms[..n], k);
      if before == "" && ms[n].key == k then ms[n].connection else before
  }

  /** Only the event an issue is about names its connection. */
  ghost predicate OnlyJiraConnects(ms: seq<Mention>) {
    forall m :: m in ms && m.connection != "" ==> m.provenance == JiraEvent
  }

  lemma MentionConnects(e: Naming, m: Mention)
    requires m in MentionsOf(e) && m.connection != ""
    ensures m.provenance == JiraEvent && e.issueKey == m.key != "" && e.connection == m.connection
  {
  }

  lemma MentionsConnect(evts: seq<Naming>)
    ensures OnlyJiraConnects(AllMentions(evts))
  {
    AllMentionsExactly(evts);
    forall m | m in AllMentions(evts) && m.connection != "" ensures m.provenance == JiraEvent {
      var e :| e in evts && m in MentionsOf(e);
      MentionConnects(e, m);
    }
  }

  lemma {:induction false} ConnectionIsFirst(ms: seq<Mention>, k: string)
    requires OnlyJiraConnects(ms)
    ensures (if k in Best(ms) then Best(ms)[k].connection else "") == FirstConnection(ms, k)
    ensures k in Best(ms) && Best(ms)[k].connection != "" ==> Rank(Best(ms)[k].provenance) <= Rank(JiraEvent)
  {
    if ms != [] {
      var n := |ms| - 1;
      assert ms[n] in ms;
      ConnectionIsFirst(ms[..n], k);
    }
  }

  /** No two events about issue k name different connections. */
  ghost predicate AgreeOn(evts: seq<Naming>, k: string) {
    forall e, f :: e in evts && f in evts && Names(e, k) && Names(f, k) ==> e.connection == f.connection
  }

  /** The event is about issue k and names its connection. */
  predicate Names(e: Naming, k: string) {
    e.issueKey == k != "" && e.connection != ""
  }

  /** The same events, each as often, in any order. */
  ghost predicate Reordered(evts: seq<Naming>, other: seq<Naming>) {
    multiset(evts) == multiset(other)
  }

  lemma ReorderedSame(evts: seq<Naming>, other: seq<Naming>)
    requires Reordered(evts, other)
    ensures SameEvents(evts, other)
  {
    assert forall e :: e in evts <==> e in multiset(evts);
    assert forall e :: e in other <==> e in multiset(other);
  }

  /** One of the events moved to the front. */
  lemma ToFront(evts: seq<Naming>, e: Naming) returns (rest: seq<Naming>)
    requires e in evts
    ensures Reordered(evts, [e] + rest)
  {
    var i :| 0 <= i < |evts| && evts[i] == e;
    rest := evts[..i] + evts[i + 1..];
    assert evts == evts[..i] + [e] + evts[i + 1..];
  }

  lemma ConnectedMention(evts: seq<Naming>, m: Mention)
    requires m in AllMentions(evts) && m.connection != ""
    ensures exists e :: e in evts && e.issueKey == m.key != "" && e.connection == m.connection
  {
    AllMentionsExactly(evts);
    var e :| e in evts && m in MentionsOf(e);
    MentionConnects(e, m);
  }

  /** Where events agree, any two connections mentioned for one issue are one. */
  lemma OneConnection(evts: seq<Naming>, other: seq<Naming>, m: Mention, n: Mention)
    requires AgreeOn(evts, m.key) && SameEvents(evts, other)
    requires m in AllMentions(evts) && n in AllMentions(other) && m.key == n.key && m.connection != "" && n.connection != ""
    ensures m.connection == n.connection
  {
    ConnectedMention(evts, m);
    ConnectedMention(other, n);
    var e :| e in evts && e.issueKey == m.key != "" && e.connection == m.connection;
    var f :| f in other && f.issueKey == n.key != "" && f.connection == n.connection;
    assert Names(e, m.key) && Names(f, m.key);
  }

  lemma SameConnection(evts: seq<Naming>, other: seq<Naming>, c: Candidate, d: Candidate)
    requires AgreeOn(evts, c.key) && SameEvents(evts, other) && c.key == d.key
    requires Strongest(AllMentions(evts), c) && Strongest(AllMentions(other), d) && (c.connection == "" <==> d.connection == "")
    ensures c.connection == d.connection
  {
    if c.connection != "" {
      var m :| m in AllMentions(evts) && m.key == c.key && m.connection == c.connection;
      var n :| n in AllMentions(other) && n.key == d.key && n.connection == d.connection;
      OneConnection(evts, other, m, n);
    }
  }

  /** Where the events about k agree, its record is the same in every order. */
  lemma AgreeingSettles(evts: seq<Naming>, other: seq<Naming>, k: string)
    requires AgreeOn(evts, k) && SameEvents(evts, other) && k in Best(AllMentions(evts))
    ensures k in Best(AllMentions(other)) && Best(AllMentions(other))[k] == Best(AllMentions(evts))[k]
  {
    var a, b := AllMentions(evts), AllMentions(other);
    SameEventsMention(evts, other);
    SameBest(a, b);
    BestExactly(a);
    BestExactly(b);
    SameConnection(evts, other, Best(a)[k], Best(b)[k]);
  }

  lemma {:induction false} LeadingConnection(e: Naming, evts: seq<Naming>)
    requires e.issueKey != "" && e.connection != ""
    ensures FirstConnection(AllMentions([e] + evts), e.issueKey) == e.connection
  {
    var all := [e] + evts;
    if evts == [] {
      var ms := MentionsOf(e);
      assert AllMentions(all) == ms by { assert all[..0] == [] && all[0] == e; }
      LeadingMention(ms, e.issueKey);
    } else {
      var n := |evts| - 1;
      LeadingConnection(e, evts[..n]);
      assert all[..|all| - 1] == [e] + evts[..n];
      FirstConnectionStays(AllMentions([e] + evts[..n]), MentionsOf(evts[n]), e.issueKey);
    }
  }

  lemma {:induction false} LeadingMention(ms: seq<Mention>, k: string)
    requires ms != [] && ms[0].key == k && ms[0].connection != ""
    ensures FirstConnection(ms, k) == ms[0].connection
  {
    if |ms| > 1 {
      LeadingMention(ms[..|ms| - 1], k);
    } else {
      assert ms[..0] == [];
    }
  }

  lemma {:induction false} FirstConnectionStays(a: seq<Mention>, b: seq<Mention>, k: string)
    requires FirstConnection(a, k) != ""
    ensures FirstConnection(a + b, k) == FirstConnection(a, k)
  {
    if b == [] {
      assert a + b == a;
    } else {
      FirstConnectionStays(a, b[..|b| - 1], k);
      assert (a + b)[..|a + b| - 1] == a + b[..|b| - 1];
    }
  }

  /** The connection of an event listed first is the one kept. */
  lemma LeadingBest(e: Naming, evts: seq<Naming>)
    requires e.issueKey != "" && e.connection != ""
    ensures var best := Best(AllMentions([e] + evts)); e.issueKey in best && best[e.issueKey].connection == e.connection
  {
    LeadingConnection(e, evts);
    MentionsConnect([e] + evts);
    ConnectionIsFirst(AllMentions([e] + evts), e.issueKey);
  }

  // What is returned, and when that depends on the order.

  /** The keys that rank ahead of k. */
  ghost function KeysAhead(ms: seq<Mention>, excluded: string -> bool, activity: map<string, int>, k: string): set<string>
    requires k in Best(ms)
  {
    set j | j in Best(ms) && !excluded(j) && Ahead(Promoted(Best(ms)[j], activity), Promoted(Best(ms)[k], activity), activity)
  }

  /** k is mentioned, not excluded, and not cut: fewer than limit of the keys not excluded rank ahead of it. */
  ghost predicate Returned(ms: seq<Mention>, excluded: string -> bool, limit: int, activity: map<string, int>, k: string) {
    k in Best(ms) && !excluded(k) && (limit <= 0 || |KeysAhead(ms, excluded, activity, k)| < limit)
  }

  lemma RankedKey(ms: seq<Mention>, excluded: string -> bool, activity: map<string, int>, full: seq<Candidate>, i: nat)
    requires Ranked(ms, excluded, activity, full) && i < |full|
    ensures full[i].key in Best(ms) && !excluded(full[i].key) && full[i] == Promoted(Best(ms)[full[i].key], activity)
  {
    assert full[i] in full;
  }

  function KeysBefore(cs: seq<Candidate>, n: nat): set<string>
    requires n <= |cs|
  {
    if n == 0 then {} else KeysBefore(cs, n - 1) + {cs[n - 1].key}
  }

  predicate KeyWithin(cs: seq<Candidate>, n: nat, k: string)
    requires n <= |cs|
  {
    exists i :: 0 <= i < n && cs[i].key == k
  }

  lemma {:induction false} KeysBeforeHolds(cs: seq<Candidate>, n: nat, k: string)
    requires n <= |cs|
    ensures k in KeysBefore(cs, n) <==> KeyWithin(cs, n, k)
  {
    if n > 0 {
      KeysBeforeHolds(cs, n - 1, k);
      assert KeyWithin(cs, n, k) <==> KeyWithin(cs, n - 1, k) || cs[n - 1].key == k;
    }
  }

  lemma {:induction false} KeysBeforeSize(cs: seq<Candidate>, n: nat)
    requires n <= |cs| && DistinctKeys(cs)
    ensures |KeysBefore(cs, n)| == n
  {
    if n > 0 {
      KeysBeforeSize(cs, n - 1);
      KeysBeforeHolds(cs, n - 1, cs[n - 1].key);
    }
  }

  lemma RankedDistinct(ms: seq<Mention>, excluded: string -> bool, activity: map<string, int>, full: seq<Candidate>)
    requires Ranked(ms, excluded, activity, full)
    ensures DistinctKeys(full)
  {
    forall i, j | 0 <= i < j < |full| ensures full[i].key != full[j].key {
      RankedKey(ms, excluded, activity, full, i);
      RankedKey(ms, excluded, activity, full, j);
      AheadIsOrder(full[i], full[i], full[i], activity);
    }
  }

  /** A key's place in the ranking is how many keys rank ahead of it. */
  lemma PlaceInRanking(
    ms: seq<Mention>, excluded: string -> bool, activity: map<string, int>, full: seq<Candidate>, j: nat)
    requires Ranked(ms, excluded, activity, full) && j < |full| && full[j].key in Best(ms)
    ensures |KeysAhead(ms, excluded, activity, full[j].key)| == j
  {
    var ahead := KeysAhead(ms, excluded, activity, full[j].key);
    RankedDistinct(ms, excluded, activity, full);
    KeysBeforeSize(full, j);
    RankedKey(ms, excluded, activity, full, j);
    forall k ensures k in ahead <==> k in KeysBefore(full, j) {
      KeysBeforeHolds(full, j, k);
      if k in ahead {
        KeyAheadBefore(ms, excluded, activity, full, j, k);
      }
      if KeyWithin(full, j, k) {
        var i :| 0 <= i < j && full[i].key == k;
        RankedKey(ms, excluded, activity, full, i);
      }
    }
    assert ahead == KeysBefore(full, j);
  }

  lemma AheadEarlier(cs: seq<Candidate>, activity: map<string, int>, i: nat, j: nat)
    requires InOrder(cs, activity) && i < |cs| && j < |cs| && Ahead(cs[i], cs[j], activity)
    ensures i < j
  {
    AheadIsOrder(cs[i], cs[j], cs[i], activity);
  }

  /** Where a key not excluded is listed. */
  lemma ListedAt(
    ms: seq<Mention>, excluded: string -> bool, activity: map<string, int>, full: seq<Candidate>, k: string) returns (j: nat)
    requires Ranked(ms, excluded, activity, full) && k in Best(ms) && !excluded(k)
    ensures j < |full| && full[j].key == k && full[j] == Promoted(Best(ms)[k], activity)
  {
    BestExactly(ms);
    assert Promoted(Best(ms)[k], activity) in full;
    j :| j < |full| && full[j] == Promoted(Best(ms)[k], activity);
  }

  lemma KeyAheadBefore(
    ms: seq<Mention>, excluded: string -> bool, activity: map<string, int>, full: seq<Candidate>, j: nat, k: string)
    requires Ranked(ms, excluded, activity, full) && j < |full| && full[j].key in Best(ms)
    requires k in KeysAhead(ms, excluded, activity, full[j].key)
    ensures KeyWithin(full, j, k)
  {
    RankedKey(ms, excluded, activity, full, j);
    var i := ListedAt(ms, excluded, activity, full, k);
    AheadEarlier(full, activity, i, j);
  }

  /** Where a key not excluded stands in the ranking. */
  lemma StandsAt(
    ms: seq<Mention>, excluded: string -> bool, activity: map<string, int>, full: seq<Candidate>, k: string) returns (j: nat)
    requires Ranked(ms, excluded, activity, full) && k in Best(ms) && !excluded(k)
    ensures j < |full| && full[j].key == k && |KeysAhead(ms, excluded, activity, k)| == j
  {
    j := ListedAt(ms, excluded, activity, full, k);
    PlaceInRanking(ms, excluded, activity, full, j);
  }

  /** The keys returned are the ones mentioned, not excluded and not cut. */
  lemma ReturnedExactly(
    ms: seq<Mention>, excluded: string -> bool, limit: int, activity: map<string, int>, out: seq<Candidate>, k: string)
    requires Gathered(ms, excluded, limit, activity, out)
    ensures Returned(ms, excluded, limit, activity, k) <==> KeyWithin(out, |out|, k)
  {
    var full: seq<Candidate> :| Ranked(ms, excluded, activity, full) && out == Head(full, limit);
    if k in Best(ms) && !excluded(k) {
      var j := StandsAt(ms, excluded, activity, full, k);
      RankedDistinct(ms, excluded, activity, full);
      assert j < |out| ==> out[j].key == k;
      if KeyWithin(out, |out|, k) {
        var i :| 0 <= i < |out| && out[i].key == k;
        assert full[i].key == full[j].key;
        assert i == j;
      }
    }
    if KeyWithin(out, |out|, k) {
      var i :| 0 <= i < |out| && out[i].key == k;
      RankedKey(ms, excluded, activity, full, i);
    }
  }

  /** The list another order of the events returns. */
  ghost function Reread(out: seq<Candidate>, ms: seq<Mention>, activity: map<string, int>): (r: seq<Candidate>)
    requires forall i :: 0 <= i < |out| ==> out[i].key in Best(ms)
    ensures |r| == |out| && forall i :: 0 <= i < |out| ==> r[i] == Promoted(Best(ms)[out[i].key], activity)
  {
    seq(|out|, i requires 0 <= i < |out| => Promoted(Best(ms)[out[i].key], activity))
  }

  /** Another order records each key ranked, equally strong. */
  lemma RankedAlike(
    a: seq<Mention>, b: seq<Mention>, excluded: string -> bool, activity: map<string, int>, full: seq<Candidate>, i: nat)
    requires SameMentions(a, b) && Ranked(a, excluded, activity, full) && i < |full|
    ensures full[i].key in Best(b) && !excluded(full[i].key)
    ensures var d := Promoted(Best(b)[full[i].key], activity); d.key == full[i].key && Bare(d) == Bare(full[i])
  {
    RankedKey(a, excluded, activity, full, i);
    SameBest(a, b);
    BestExactly(b);
  }

  lemma RereadInOrder(
    a: seq<Mention>, b: seq<Mention>, excluded: string -> bool, activity: map<string, int>, full: seq<Candidate>)
    requires SameMentions(a, b) && Ranked(a, excluded, activity, full)
    requires forall i :: 0 <= i < |full| ==> full[i].key in Best(b)
    ensures InOrder(Reread(full, b, activity), activity)
  {
    var r := Reread(full, b, activity);
    forall i, j | 0 <= i < j < |r| ensures Ahead(r[i], r[j], activity) {
      RankedAlike(a, b, excluded, activity, full, i);
      RankedAlike(a, b, excluded, activity, full, j);
      BareAhead(full[i], full[j], activity);
      BareAhead(r[i], r[j], activity);
    }
  }

  lemma RereadHolds(
    a: seq<Mention>, b: seq<Mention>, excluded: string -> bool, activity: map<string, int>, full: seq<Candidate>, c: Candidate)
    requires SameMentions(a, b) && Ranked(a, excluded, activity, full)
    requires forall i :: 0 <= i < |full| ==> full[i].key in Best(b)
    ensures c in Reread(full, b, activity) <==>
            c.key in Best(b) && !excluded(c.key) && c == Promoted(Best(b)[c.key], activity)
  {
    var r := Reread(full, b, activity);
    if c in r {
      var i :| 0 <= i < |r| && r[i] == c;
      RankedAlike(a, b, excluded, activity, full, i);
    }
    if c.key in Best(b) && !excluded(c.key) && c == Promoted(Best(b)[c.key], activity) {
      SameBest(a, b);
      var i := StandsAt(a, excluded, activity, full, c.key);
      assert r[i] == c;
    }
  }

  lemma RankedAgain(
    a: seq<Mention>, b: seq<Mention>, excluded: string -> bool, activity: map<string, int>, full: seq<Candidate>)
    requires SameMentions(a, b) && Ranked(a, excluded, activity, full)
    requires forall i :: 0 <= i < |full| ==> full[i].key in Best(b)
    ensures Ranked(b, excluded, activity, Reread(full, b, activity))
  {
    RereadInOrder(a, b, excluded, activity, full);
    forall c
      ensures c in Reread(full, b, activity) <==>
              c.key in Best(b) && !excluded(c.key) && c == Promoted(Best(b)[c.key], activity)
    {
      RereadHolds(a, b, excluded, activity, full, c);
    }
  }

  lemma RereadHead(full: seq<Candidate>, out: seq<Candidate>, limit: int, ms: seq<Mention>, activity: map<string, int>)
    requires out == Head(full, limit) && forall i :: 0 <= i < |full| ==> full[i].key in Best(ms)
    ensures forall i :: 0 <= i < |out| ==> out[i].key in Best(ms)
    ensures Reread(out, ms, activity) == Head(Reread(full, ms, activity), limit)
  {
  }

  /** Another order of the events returns the same keys, each as that order records it. */
  lemma GatheredAgain(
    evts: seq<Naming>, other: seq<Naming>, excluded: string -> bool, limit: int, activity: map<string, int>, out: seq<Candidate>)
    requires Reordered(evts, other) && Gathered(AllMentions(evts), excluded, limit, activity, out)
    ensures forall i :: 0 <= i < |out| ==> out[i].key in Best(AllMentions(other))
    ensures Gathered(AllMentions(other), excluded, limit, activity, Reread(out, AllMentions(other), activity))
  {
    ReorderedSame(evts, other);
    SameEventsMention(evts, other);
    MentionsGatheredAgain(AllMentions(evts), AllMentions(other), excluded, limit, activity, out);
  }

  lemma MentionsGatheredAgain(
    a: seq<Mention>, b: seq<Mention>, excluded: string -> bool, limit: int, activity: map<string, int>, out: seq<Candidate>)
    requires SameMentions(a, b) && Gathered(a, excluded, limit, activity, out)
    ensures forall i :: 0 <= i < |out| ==> out[i].key in Best(b)
    ensures Gathered(b, excluded, limit, activity, Reread(out, b, activity))
  {
    var full: seq<Candidate> :| Ranked(a, excluded, activity, full) && out == Head(full, limit);
    forall i | 0 <= i < |full| ensures full[i].key in Best(b) {
      RankedAlike(a, b, excluded, activity, full, i);
    }
    RankedAgain(a, b, excluded, activity, full);
    RereadHead(full, out, limit, b, activity);
  }

  lemma GatheredRecord(
    ms: seq<Mention>, excluded: string -> bool, limit: int, activity: map<string, int>, out: seq<Candidate>, i: nat)
    requires Gathered(ms, excluded, limit, activity, out) && i < |out|
    ensures out[i].key in Best(ms) && out[i] == Promoted(Best(ms)[out[i].key], activity)
    ensures Returned(ms, excluded, limit, activity, out[i].key)
  {
    var full :| Ranked(ms, excluded, activity, full) && out == Head(full, limit);
    RankedKey(ms, excluded, activity, full, i);
    assert out[i] in out;
    ReturnedExactly(ms, excluded, limit, activity, out, out[i].key);
  }

  /** Every order of the events returns this list, connections included. */
  ghost predicate OrderFree(
    evts: seq<Naming>, excluded: string -> bool, limit: int, activity: map<string, int>, out: seq<Candidate>)
  {
    forall other, out' :: Reordered(evts, other) && Gathered(AllMentions(other), excluded, limit, activity, out') ==> out' == out
  }

  lemma AgreeingReturnsSame(
    evts: seq<Naming>, other: seq<Naming>, excluded: string -> bool, limit: int, activity: map<string, int>,
    out: seq<Candidate>, out': seq<Candidate>)
    requires forall k :: Returned(AllMentions(evts), excluded, limit, activity, k) ==> AgreeOn(evts, k)
    requires Reordered(evts, other)
    requires Gathered(AllMentions(evts), excluded, limit, activity, out)
    requires Gathered(AllMentions(other), excluded, limit, activity, out')
    ensures out' == out
  {
    ReorderedSame(evts, other);
    OrderIrrelevant(evts, other, excluded, limit, activity, out, out');
    assert |out| == |AllBare(out)| == |AllBare(out')| == |out'|;
    forall i | 0 <= i < |out| ensures out'[i] == out[i] {
      GatheredRecord(AllMentions(evts), excluded, limit, activity, out, i);
      GatheredRecord(AllMentions(other), excluded, limit, activity, out', i);
      assert AllBare(out)[i] == AllBare(out')[i];
      AgreeingSettles(evts, other, out[i].key);
    }
  }

  lemma RereadLeads(out: seq<Candidate>, e: Naming, rest: seq<Naming>, activity: map<string, int>, i: nat)
    requires forall j :: 0 <= j < |out| ==> out[j].key in Best(AllMentions([e] + rest))
    requires i < |out| && Names(e, out[i].key)
    ensures Reread(out, AllMentions([e] + rest), activity)[i].connection == e.connection
  {
    LeadingBest(e, rest);
  }

  /** If every order returns this list, a key in it has the connection of each event that names one. */
  lemma OrderFreeConnection(
    evts: seq<Naming>, excluded: string -> bool, limit: int, activity: map<string, int>, out: seq<Candidate>, e: Naming, i: nat)
    requires Gathered(AllMentions(evts), excluded, limit, activity, out) && OrderFree(evts, excluded, limit, activity, out)
    requires i < |out| && e in evts && Names(e, out[i].key)
    ensures out[i].connection == e.connection
  {
    var rest := ToFront(evts, e);
    GatheredAgain(evts, [e] + rest, excluded, limit, activity, out);
    RereadLeads(out, e, rest, activity, i);
  }

  /**
   * What is returned does not depend on the order of the events exactly when no two events
   * name different connections for an issue that is neither excluded nor cut.
   */
  lemma OrderFreeExactly(
    evts: seq<Naming>, excluded: string -> bool, limit: int, activity: map<string, int>, out: seq<Candidate>)
    requires Gathered(AllMentions(evts), excluded, limit, activity, out)
    ensures OrderFree(evts, excluded, limit, activity, out) <==>
            forall k :: Returned(AllMentions(evts), excluded, limit, activity, k) ==> AgreeOn(evts, k)
  {
    if forall k :: Returned(AllMentions(evts), excluded, limit, activity, k) ==> AgreeOn(evts, k) {
      forall other, out' | Reordered(evts, other) && Gathered(AllMentions(other), excluded, limit, activity, out')
        ensures out' == out
      {
        AgreeingReturnsSame(evts, other, excluded, limit, activity, out, out');
      }
    }
    if OrderFree(evts, excluded, limit, activity, out) {
      forall k | Returned(AllMentions(evts), excluded, limit, activity, k) ensures AgreeOn(evts, k) {
        OrderFreeAgrees(evts, excluded, limit, activity, out, k);
      }
    }
  }

  lemma OrderFreeAgrees(
    evts: seq<Naming>, excluded: string -> bool, limit: int, activity: map<string, int>, out: seq<Candidate>, k: string)
    requires Gathered(AllMentions(evts), excluded, limit, activity, out) && OrderFree(evts, excluded, limit, activity, out)
    requires Returned(AllMentions(evts), excluded, limit, activity, k)
    ensures AgreeOn(evts, k)
  {
    ReturnedExactly(AllMentions(evts), excluded, limit, activity, out, k);
    var i :| 0 <= i < |out| && out[i].key == k;
    forall e, f | e in evts && f in evts && Names(e, k) && Names(f, k) ensures e.connection == f.connection {
      OrderFreeConnection(evts, excluded, limit, activity, out, e, i);
      OrderFreeConnection(evts, excluded, limit, activity, out, f, i);
    }
  }

  // And it can.

  function About(key: string, connection: string): Naming {
    Naming(key, connection, [], [], [], [], [])
  }

  function Found(key: string, connection: string): Candidate {
    Candidate(key, JiraEvent, connection)
  }

  lemma PairMentions(key: string, first: string, second: string)
    requires key != ""
    ensures AllMentions([About(key, first), About(key, second)]) == [Found(key, first), Found(key, second)]
  {
    var a, b := About(key, first), About(key, second);
    assert MentionsOf(a) == [Found(key, first)] && MentionsOf(b) == [Found(key, second)];
    AllMentionsMore([], a);
    AllMentionsMore([a], b);
    assert [] + [a] == [a] && [a] + [b] == [a, b];
  }

  lemma PairBest(c: Candidate, d: Candidate)
    requires c.key == d.key && c.provenance == d.provenance && c.connection != ""
    ensures Best([c, d]) == map[c.key := c]
  {
    BestMore([], c);
    BestMore([c], d);
    assert [] + [c] == [c] && [c] + [d] == [c, d];
  }

  lemma PairGathered(key: string, first: string, second: string)
    requires key != "" && first != ""
    ensures Gathered(AllMentions([About(key, first), About(key, second)]), _ => false, 0, map[], [Found(key, first)])
  {
    PairMentions(key, first, second);
    PairBest(Found(key, first), Found(key, second));
    var full := [Found(key, first)];
    assert Ranked([Found(key, first), Found(key, second)], _ => false, map[], full);
    assert full == Head(full, 0);
  }

  /** Two events about one issue on two connections, listed one way and the other, return different lists. */
  lemma TwoOrdersDiffer(key: string, first: string, second: string)
    requires key != "" && first != "" && second != "" && first != second
    ensures var a, b := [About(key, first), About(key, second)], [About(key, second), About(key, first)];
            && Reordered(a, b)
            && Gathered(AllMentions(a), _ => false, 0, map[], [Found(key, first)])
            && Gathered(AllMentions(b), _ => false, 0, map[], [Found(key, second)])
            && [Found(key, first)] != [Found(key, second)]
  {
    PairGathered(key, first, second);
    PairGathered(key, second, first);
    var x, y := About(key, first), About(key, second);
    assert multiset([x, y]) == multiset([y, x]);
    assert [Found(key, first)][0].connection != [Found(key, second)][0].connection;
  }

  /** For one, PAAS-1 seen on the connections "east" and "west". */
  lemma ConnectionDependsOnOrder()
    ensures var a, b := [About("PAAS-1", "east"), About("PAAS-1", "west")], [About("PAAS-1", "west"), About("PAAS-1", "east")];
            && Reordered(a, b)
            && Gathered(AllMentions(a), _ => false, 0, map[], [Found("PAAS-1", "east")])
            && Gathered(AllMentions(b), _ => false, 0, map[], [Found("PAAS-1", "west")])
            && [Found("PAAS-1", "east")] != [Found("PAAS-1", "west")]
  {
    assert "east"[0] != "west"[0];
    TwoOrdersDiffer("PAAS-1", "east", "west");
  }
}
