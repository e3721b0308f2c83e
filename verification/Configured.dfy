/** What a configuration the validator accepts is, said of the configuration as a whole. */
module Configured {
  import opened Oracle
  import opened Text
  import opened Scopes
  import opened Trackers
  import opened Routing

  // Connections and names.

  /** A remote connection's endpoint names a host; a local one has none. */
  ghost predicate Reachable(conn: Connection) {
    if conn.kind == LOCAL then conn.endpoint == ""
    else (conn.kind == JIRA || conn.kind == GITHUB) && conn.endpoint != "" && Host(conn) != ""
  }

  ghost predicate ConnectionsGood(cs: seq<Connection>) {
    && (forall i :: 0 <= i < |cs| ==> cs[i].name != "" && Reachable(cs[i]))
    && (forall i, j :: 0 <= i < j < |cs| ==> cs[i].name != cs[j].name)
  }

  ghost predicate NamesGood(ts: seq<Tracker>) {
    && (forall i :: 0 <= i < |ts| ==> ts[i].name != "")
    && (forall i, j :: 0 <= i < j < |ts| ==> ts[i].name != ts[j].name)
  }

  lemma ConnectionsExactly(cs: seq<Connection>)
    ensures ConnectionsGood(cs) <==> forall p :: !ConnectionProblem(cs, p)
  {
    if ConnectionsGood(cs) {
      forall p ensures !ConnectionProblem(cs, p) {
        if ConnectionProblem(cs, p) && p.DuplicateConnection? { TakenBefore(cs, p.at); }
      }
    }
    if forall p :: !ConnectionProblem(cs, p) {
      forall i | 0 <= i < |cs| ensures cs[i].name != "" && Reachable(cs[i]) {
        NothingWrongAt(cs, i);
      }
      forall i, j | 0 <= i < j < |cs| ensures cs[i].name != cs[j].name {
        assert !ConnectionProblem(cs, DuplicateConnection(j)) && !ConnectionProblem(cs, NamelessConnection(j));
        KindsExactly(cs[..j]);
        assert cs[..j][i] == cs[i];
      }
    }
  }

  /** A name on record before i is some earlier connection's. */
  lemma TakenBefore(cs: seq<Connection>, i: nat)
    requires i < |cs| && cs[i].name in Kinds(cs[..i])
    ensures exists j :: 0 <= j < i && cs[j].name == cs[i].name
  {
    KindsExactly(cs[..i]);
    var c :| c in cs[..i] && c.name == cs[i].name && c.kind == Kinds(cs[..i])[cs[i].name];
    var j :| 0 <= j < i && cs[..i][j] == c;
  }

  lemma NothingWrongAt(cs: seq<Connection>, i: nat)
    requires i < |cs| && forall p :: !ConnectionProblem(cs, p)
    ensures cs[i].name != "" && Reachable(cs[i])
  {
    assert !ConnectionProblem(cs, NamelessConnection(i)) && !ConnectionProblem(cs, NoEndpoint(i));
    assert !ConnectionProblem(cs, NotAURL(i)) && !ConnectionProblem(cs, LocalEndpoint(i)) && !ConnectionProblem(cs, UnknownKind(i));
  }

  lemma NamesExactly(ts: seq<Tracker>)
    ensures NamesGood(ts) <==> forall p :: !NameProblem(ts, p)
  {
    if forall p :: !NameProblem(ts, p) {
      forall i | 0 <= i < |ts| ensures ts[i].name != "" {
        assert !NameProblem(ts, NamelessTracker(i));
      }
      forall i, j | 0 <= i < j < |ts| ensures ts[i].name != ts[j].name {
        assert !NameProblem(ts, DuplicateTracker(j)) && !NameProblem(ts, NamelessTracker(j));
      }
    }
  }

  // One tracker.

  /** A tracker lists no sink, or the one there is, where it can write worklogs. */
  ghost predicate SinksGood(t: Tracker, kind: string) {
    t.sinks.None? || t.sinks.value == [] || (t.sinks.value == [WORKLOG] && kind == JIRA && t.writableScopes != [])
  }

  lemma SinksExactly(i: nat, t: Tracker, kind: string)
    ensures SinksGood(t, kind) <==> forall p :: !SinkProblem(i, t, kind, p)
  {
    if t.sinks.Some? && t.sinks.value != [] {
      var sinks := t.sinks.value;
      if forall p :: !SinkProblem(i, t, kind, p) {
        assert !SinkProblem(i, t, kind, SinksWithoutJira(i)) && !SinkProblem(i, t, kind, SinksWithoutWrites(i));
        assert !SinkProblem(i, t, kind, SinkTwice(i, WORKLOG));
        forall s | s in sinks ensures s == WORKLOG {
          assert !SinkProblem(i, t, kind, UnknownSink(i, s));
        }
        OneSink(sinks, WORKLOG);
      }
    }
  }

  /** A list of one value, not twice, holds it alone. */
  lemma OneSink(sinks: seq<string>, sink: string)
    requires sinks != [] && (forall s :: s in sinks ==> s == sink) && multiset(sinks)[sink] < 2
    ensures sinks == [sink]
  {
    assert sinks[0] in sinks;
    if |sinks| > 1 {
      assert sinks[1] in sinks;
      TwoAlike(sinks);
    }
  }

  lemma TwoAlike(s: seq<string>)
    requires |s| > 1 && s[0] == s[1]
    ensures multiset(s)[s[0]] >= 2
  {
    assert s == [s[0]] + [s[1]] + s[2..];
  }

  /** A tracker's own scopes, writes, default, queries and sinks agree with each other and with its connection's kind. */
  ghost predicate OwnGood(t: Tracker, kind: string) {
    && t.scopes != [] && (forall s :: s in t.scopes ==> ScopeOK(s, kind))
    && (t.writableScopes != [] ==> HasWriter(kind)) && (forall s :: s in t.writableScopes ==> s in t.scopes)
    && (t.defaultScope != "" ==> t.defaultScope in t.writableScopes)
    && (t.queries != [] ==> kind == JIRA) && SinksGood(t, kind)
  }

  lemma OwnExactly(i: nat, t: Tracker, kind: string)
    ensures OwnGood(t, kind) <==> forall p :: !TrackerProblem(i, t, kind, p)
  {
    SinksExactly(i, t, kind);
    if forall p :: !TrackerProblem(i, t, kind, p) {
      NothingElseWrong(i, t, kind);
      assert forall p :: !TrackerProblem(i, t, kind, p) ==> !SinkProblem(i, t, kind, p);
    }
    if OwnGood(t, kind) {
      forall p ensures !TrackerProblem(i, t, kind, p) {
        assert !SinkProblem(i, t, kind, p) && !OwnProblem(i, t, kind, p);
      }
    }
  }

  lemma NothingElseWrong(i: nat, t: Tracker, kind: string)
    requires forall p :: !TrackerProblem(i, t, kind, p)
    ensures t.scopes != [] && (forall s :: s in t.scopes ==> ScopeOK(s, kind))
    ensures (t.writableScopes != [] ==> HasWriter(kind)) && (forall s :: s in t.writableScopes ==> s in t.scopes)
    ensures (t.defaultScope != "" ==> t.defaultScope in t.writableScopes) && (t.queries != [] ==> kind == JIRA)
  {
    assert !TrackerProblem(i, t, kind, NoScopes(i)) && !TrackerProblem(i, t, kind, NoWriter(i));
    assert !TrackerProblem(i, t, kind, UnwritableDefault(i)) && !TrackerProblem(i, t, kind, QueriesWithoutJira(i));
    forall s | s in t.scopes ensures ScopeOK(s, kind) {
      assert !TrackerProblem(i, t, kind, BadScope(i, s));
    }
    forall s | s in t.writableScopes ensures s in t.scopes {
      assert !TrackerProblem(i, t, kind, UnreadableWritable(i, s));
    }
  }

  // Trackers naming each other.

  /** A tracker of that name takes creates, in its default scope. */
  ghost predicate TakesCreates(ts: seq<Tracker>, name: string) {
    var t := TrackerByName(ts, name); t.Some? && t.value.writableScopes != [] && t.value.defaultScope != ""
  }

  ghost predicate MirrorsGood(ts: seq<Tracker>, t: Tracker) {
    forall name :: name in t.mirrorTo ==> name != t.name && TakesCreates(ts, name)
  }

  lemma MirrorsExactly(ts: seq<Tracker>, i: nat, t: Tracker)
    ensures MirrorsGood(ts, t) <==> forall p :: !MirrorProblem(ts, i, t, t.mirrorTo, p)
  {
    if forall p :: !MirrorProblem(ts, i, t, t.mirrorTo, p) {
      forall name | name in t.mirrorTo ensures name != t.name && TakesCreates(ts, name) {
        assert !MirrorProblem(ts, i, t, t.mirrorTo, MirrorsItself(i)) && !MirrorProblem(ts, i, t, t.mirrorTo, MirrorUnknown(i, name));
        assert !MirrorProblem(ts, i, t, t.mirrorTo, MirrorReadOnly(i, name));
        assert !MirrorProblem(ts, i, t, t.mirrorTo, MirrorWithoutDefault(i, name));
      }
    }
  }

  lemma DefaultsExactly(ts: seq<Tracker>, names: seq<string>)
    ensures (forall name :: name in names ==> TakesCreates(ts, name)) <==> forall p :: !DefaultProblem(ts, names, p)
  {
    if forall p :: !DefaultProblem(ts, names, p) {
      forall name | name in names ensures TakesCreates(ts, name) {
        assert !DefaultProblem(ts, names, DestinationUnknown(name)) && !DefaultProblem(ts, names, DestinationReadOnly(name));
        assert !DefaultProblem(ts, names, DestinationWithoutDefault(name));
      }
    }
  }

  // Queries.

  /** Two queries of one connection are named alike: the a-th of tracker i and a later one, the b-th of tracker j. */
  ghost predicate QueriedTwice(kinds: map<string, string>, ts: seq<Tracker>, i: int, a: int, j: int, b: int) {
    && 0 <= i <= j < |ts| && 0 <= a < |ts[i].queries| && 0 <= b < |ts[j].queries| && (i == j ==> a < b)
    && ReadByJira(kinds, ts[i]) && ReadByJira(kinds, ts[j]) && ts[i].connection == ts[j].connection
    && ts[i].queries[a] == ts[j].queries[b]
  }

  lemma QueriesExactly(kinds: map<string, string>, ts: seq<Tracker>)
    ensures (forall i, a, j, b :: !QueriedTwice(kinds, ts, i, a, j, b)) <==> forall p :: !QueryProblem(kinds, ts, p)
  {
    if i, a, j, b :| QueriedTwice(kinds, ts, i, a, j, b) {
      TwiceIsProblem(kinds, ts, i, a, j, b);
    }
    if p :| QueryProblem(kinds, ts, p) {
      var i, a, b := ProblemIsTwice(kinds, ts, p);
    }
  }

  lemma TwiceIsProblem(kinds: map<string, string>, ts: seq<Tracker>, i: int, a: int, j: int, b: int)
    requires QueriedTwice(kinds, ts, i, a, j, b)
    ensures QueryProblem(kinds, ts, QueryTwice(j, ts[j].queries[b]))
  {
    var qs := ts[j].queries;
    assert qs[..|qs|] == qs;
    if i == j {
      assert qs == qs[..a] + [qs[a]] + qs[a + 1..b] + [qs[b]] + qs[b + 1..];
    }
  }

  lemma ProblemIsTwice(kinds: map<string, string>, ts: seq<Tracker>, p: Problem) returns (i: int, a: int, b: int)
    requires QueryProblem(kinds, ts, p)
    ensures QueriedTwice(kinds, ts, i, a, p.at, b)
  {
    var qs := ts[p.at].queries;
    assert qs[..|qs|] == qs;
    b :| 0 <= b < |qs| && qs[b] == p.query;
    if QueriedBefore(kinds, ts, p.at, p.query) {
      i :| 0 <= i < p.at && ReadByJira(kinds, ts[i]) && ts[i].connection == ts[p.at].connection && p.query in ts[i].queries;
      a :| 0 <= a < |ts[i].queries| && ts[i].queries[a] == p.query;
    } else {
      i := p.at;
      a, b := TwoPlaces(qs, p.query);
    }
  }

  lemma {:induction false} TwoPlaces(s: seq<string>, x: string) returns (a: nat, b: nat)
    requires multiset(s)[x] >= 2
    ensures a < b < |s| && s[a] == x && s[b] == x
  {
    var n := |s| - 1;
    assert s == s[..n] + [s[n]];
    if s[n] == x {
      b := n;
      assert x in multiset(s[..n]);
      a :| 0 <= a < n && s[..n][a] == x;
    } else {
      a, b := TwoPlaces(s[..n], x);
    }
  }

  // The whole.

  /** The tracker's connection is configured, and it agrees with its kind and with the trackers it mirrors to. */
  ghost predicate TrackerGood(c: Config, t: Tracker) {
    && ConnectionOf(c, t).Some? && OwnGood(t, ConnectionOf(c, t).value.kind) && MirrorsGood(c.trackers, t)
  }

  /** No scope belongs to two trackers. */
  ghost predicate NoneShared(ts: seq<Tracker>) {
    forall i, j, scope :: 0 <= i < j < |ts| ==> !(ts[i].Contains(scope) && ts[j].Contains(scope))
  }

  /** Everything a configuration must be but for whose scopes are whose. */
  ghost predicate GoodButScopes(c: Config) {
    && ConnectionsGood(c.connections) && NamesGood(c.trackers)
    && (forall i :: 0 <= i < |c.trackers| ==> TrackerGood(c, c.trackers[i]))
    && (forall i, a, j, b :: !QueriedTwice(Kinds(c.connections), c.trackers, i, a, j, b))
    && (forall name :: name in c.defaultTicketIn ==> TakesCreates(c.trackers, name))
  }

  /** The kind on record for a tracker's connection is its connection's. */
  lemma KindIs(c: Config, t: Tracker)
    requires ConnectionsGood(c.connections)
    ensures t.connection in Kinds(c.connections) <==> ConnectionOf(c, t).Some?
    ensures ConnectionOf(c, t).Some? ==> Kinds(c.connections)[t.connection] == ConnectionOf(c, t).value.kind
  {
    var cs := c.connections;
    KindsExactly(cs);
    if ConnectionOf(c, t).Some? {
      var d :| d in cs && d.name == t.connection && d.kind == Kinds(cs)[t.connection];
      OneOfAName(cs, ConnectionOf(c, t).value, d);
    }
  }

  lemma OneOfAName(cs: seq<Connection>, a: Connection, b: Connection)
    requires ConnectionsGood(cs) && a in cs && b in cs && a.name == b.name
    ensures a == b
  {
    var i :| 0 <= i < |cs| && cs[i] == a;
    var j :| 0 <= j < |cs| && cs[j] == b;
  }

  lemma PlacedExactly(c: Config)
    requires ConnectionsGood(c.connections)
    ensures (forall i :: 0 <= i < |c.trackers| ==> TrackerGood(c, c.trackers[i])) <==> forall p :: !PlacedProblem(c, p)
  {
    if forall p :: !PlacedProblem(c, p) {
      forall i | 0 <= i < |c.trackers| ensures TrackerGood(c, c.trackers[i]) {
        NothingPlacedWrong(c, i);
      }
    }
    if forall i :: 0 <= i < |c.trackers| ==> TrackerGood(c, c.trackers[i]) {
      forall p ensures !PlacedProblem(c, p) {
        if PlacedProblem(c, p) { PlacedWrongAt(c, p); }
      }
    }
  }

  lemma NothingPlacedWrong(c: Config, i: nat)
    requires ConnectionsGood(c.connections) && i < |c.trackers| && forall p :: !PlacedProblem(c, p)
    ensures TrackerGood(c, c.trackers[i])
  {
    var t := c.trackers[i];
    KindIs(c, t);
    assert !PlacedProblem(c, UnknownConnection(i));
    var kind := Kinds(c.connections)[t.connection];
    OwnExactly(i, t, kind);
    MirrorsExactly(c.trackers, i, t);
    forall p ensures !TrackerProblem(i, t, kind, p) && !MirrorProblem(c.trackers, i, t, t.mirrorTo, p) {
      assert !PlacedProblem(c, p);
    }
  }

  lemma PlacedWrongAt(c: Config, p: Problem)
    requires ConnectionsGood(c.connections) && PlacedProblem(c, p)
    ensures exists i :: 0 <= i < |c.trackers| && !TrackerGood(c, c.trackers[i])
  {
    var t := c.trackers[p.at];
    KindIs(c, t);
    if t.connection in Kinds(c.connections) {
      OwnExactly(p.at, t, Kinds(c.connections)[t.connection]);
      MirrorsExactly(c.trackers, p.at, t);
    }
  }

  /** With everything else good, only overlapping scopes can be wrong. */
  lemma GoodExactly(c: Config)
    ensures GoodButScopes(c) <==> OnlyOverlaps(c)
  {
    ConnectionsExactly(c.connections);
    NamesExactly(c.trackers);
    QueriesExactly(Kinds(c.connections), c.trackers);
    DefaultsExactly(c.trackers, c.defaultTicketIn);
    if ConnectionsGood(c.connections) { PlacedExactly(c); }
    if OnlyOverlaps(c) {
      NoOtherProblem(c);
    }
  }

  lemma NoOtherProblem(c: Config)
    requires OnlyOverlaps(c)
    ensures forall p :: !ConnectionProblem(c.connections, p)
    ensures forall p :: !NameProblem(c.trackers, p)
    ensures forall p :: !PlacedProblem(c, p)
    ensures forall p :: !QueryProblem(Kinds(c.connections), c.trackers, p)
    ensures forall p :: !DefaultProblem(c.trackers, c.defaultTicketIn, p)
  {
    forall p
      ensures !ConnectionProblem(c.connections, p) && !NameProblem(c.trackers, p) && !PlacedProblem(c, p)
      ensures !QueryProblem(Kinds(c.connections), c.trackers, p) && !DefaultProblem(c.trackers, c.defaultTicketIn, p)
    {
      if !p.Overlap? { assert !IsProblem(c, p); }
    }
  }

  /**
   * The validator accepts a configuration exactly when its connections are named apart and
   * reachable, its trackers named apart, each agreeing with its connection's kind and with
   * itself, mirroring and ticketing only where creates are taken, no query name read twice on a
   * connection, and no scope in two trackers.
   */
  lemma ValidExactly(c: Config)
    ensures Valid(c) <==> GoodButScopes(c) && NoneShared(c.trackers)
  {
    GoodExactly(c);
    if Valid(c) {
      forall i, j, scope | 0 <= i < j < |c.trackers| ensures !(c.trackers[i].Contains(scope) && c.trackers[j].Contains(scope)) {
        OneOwner(c, i, j, scope);
      }
    } else if OnlyOverlaps(c) {
      var p :| IsProblem(c, p);
      OverlapShares(c, p);
    }
  }

  lemma OverlapShares(c: Config, p: Problem)
    requires OnlyOverlaps(c) && IsProblem(c, p)
    ensures !NoneShared(c.trackers)
  {
    var a, b := c.trackers[p.at], c.trackers[p.other];
    ScopesGood(c, a, p.scope);
    ScopesGood(c, b, p.otherScope);
    var scope := SharedScope(p.scope, p.otherScope);
    Covers(a, p.scope, scope);
    Covers(b, p.otherScope, scope);
  }
}
