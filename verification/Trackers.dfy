/** The tracker model: connections, the trackers on them, and every problem a configuration can have. */
module Trackers {
  import opened Oracle
  import opened Text
  import opened Scopes

  const JIRA := "jira"
  const GITHUB := "github"
  const LOCAL := "local"

  /** The only attribution sink there is. */
  const WORKLOG := "worklog"

  /** WHO and WHERE. `urlHost` is the host an absolute endpoint URL names, "" for any other endpoint. */
  datatype Connection = Connection(name: string, kind: string, endpoint: string, urlHost: string)

  /**
   * WHAT: the scopes a tracker owns, those unjira may write to, where else its work may be
   * ticketed, the names of the queries it is read by, and its attribution sinks if it lists them.
   */
  datatype Tracker = Tracker(
    name: string,
    connection: string,
    scopes: seq<string>,
    writableScopes: seq<string>,
    defaultScope: string,
    mirrorTo: seq<string>,
    queries: seq<string>,
    sinks: Option<seq<string>>)
  {
    predicate Contains(scope: string) {
      exists i :: 0 <= i < |scopes| && ScopeMatches(scopes[i], scope)
    }

    predicate Writable(scope: string) {
      exists i :: 0 <= i < |writableScopes| && ScopeMatches(writableScopes[i], scope)
    }
  }

  datatype Config = Config(connections: seq<Connection>, trackers: seq<Tracker>, defaultTicketIn: seq<string>)

  predicate HasWriter(kind: string) {
    kind == JIRA || kind == LOCAL
  }

  /** The kind's scopes are owner/repo paths; every other kind's are project keys. */
  predicate RepoKind(kind: string) {
    kind == GITHUB
  }

  /** The host a connection serves. */
  function Host(c: Connection): string {
    if c.kind == GITHUB && c.urlHost == "api.github.com" then "github.com" else c.urlHost
  }

  /** The first connection of that name. */
  function ConnectionByName(cs: seq<Connection>, name: string): (c: Option<Connection>)
    ensures c.Some? ==> c.value in cs && c.value.name == name
    ensures c.None? ==> forall x :: x in cs ==> x.name != name
  {
    if cs == [] then None else if cs[0].name == name then Some(cs[0]) else ConnectionByName(cs[1..], name)
  }

  /** The first tracker of that name. */
  function TrackerByName(ts: seq<Tracker>, name: string): (t: Option<Tracker>)
    ensures t.Some? ==> t.value in ts && t.value.name == name
    ensures t.None? ==> forall x :: x in ts ==> x.name != name
  {
    if ts == [] then None else if ts[0].name == name then Some(ts[0]) else TrackerByName(ts[1..], name)
  }

  /** The kind on record for each connection name: a repeated name keeps its last kind. */
  function Kinds(cs: seq<Connection>): map<string, string> {
    if cs == [] then map[] else Kinds(cs[..|cs| - 1])[cs[|cs| - 1].name := cs[|cs| - 1].kind]
  }

  /** Some connection has that name and kind. */
  predicate Listed(cs: seq<Connection>, name: string, kind: string) {
    exists c :: c in cs && c.name == name && c.kind == kind
  }

  /** The kinds on record are those of the connections listed. */
  lemma {:induction false} KindsExactly(cs: seq<Connection>)
    ensures forall name :: name in Kinds(cs) ==> Listed(cs, name, Kinds(cs)[name])
    ensures forall c :: c in cs ==> c.name in Kinds(cs)
  {
    if cs != [] {
      var n := |cs| - 1;
      KindsExactly(cs[..n]);
      assert cs == cs[..n] + [cs[n]];
      forall name | name in Kinds(cs) ensures Listed(cs, name, Kinds(cs)[name]) {
        if name != cs[n].name {
          assert Listed(cs[..n], name, Kinds(cs[..n])[name]);
        }
      }
    }
  }

  /** One thing wrong with a configuration, and where. */
  datatype Problem =
    | NamelessConnection(at: nat)
    | DuplicateConnection(at: nat)
    | NoEndpoint(at: nat)
    | NotAURL(at: nat)
    | LocalEndpoint(at: nat)
    | UnknownKind(at: nat)
    | NamelessTracker(at: nat)
    | DuplicateTracker(at: nat)
    | UnknownConnection(at: nat)
    | NoScopes(at: nat)
    | BadScope(at: nat, scope: string)
    | NoWriter(at: nat)
    | UnreadableWritable(at: nat, scope: string)
    | UnwritableDefault(at: nat)
    | QueriesWithoutJira(at: nat)
    | SinksWithoutJira(at: nat)
    | SinksWithoutWrites(at: nat)
    | UnknownSink(at: nat, sink: string)
    | SinkTwice(at: nat, sink: string)
    | QueryTwice(at: nat, query: string)
    | MirrorsItself(at: nat)
    | MirrorUnknown(at: nat, target: string)
    | MirrorReadOnly(at: nat, target: string)
    | MirrorWithoutDefault(at: nat, target: string)
    | Overlap(at: nat, other: nat, scope: string, otherScope: string)
    | DestinationUnknown(target: string)
    | DestinationReadOnly(target: string)
    | DestinationWithoutDefault(target: string)

  /** p is wrong with connection p.at, given the connections before it. */
  predicate ConnectionProblem(cs: seq<Connection>, p: Problem) {
    match p
    case NamelessConnection(i) => i < |cs| && cs[i].name == ""
    case DuplicateConnection(i) => i < |cs| && cs[i].name != "" && cs[i].name in Kinds(cs[..i])
    case NoEndpoint(i) => i < |cs| && (cs[i].kind == JIRA || cs[i].kind == GITHUB) && cs[i].endpoint == ""
    case NotAURL(i) =>
      i < |cs| && (cs[i].kind == JIRA || cs[i].kind == GITHUB) && cs[i].endpoint != "" && Host(cs[i]) == ""
    case LocalEndpoint(i) => i < |cs| && cs[i].kind == LOCAL && cs[i].endpoint != ""
    case UnknownKind(i) => i < |cs| && cs[i].kind !in {JIRA, GITHUB, LOCAL}
    case _ => false
  }

  /** p is wrong with tracker p.at's name. */
  predicate NameProblem(ts: seq<Tracker>, p: Problem) {
    match p
    case NamelessTracker(i) => i < |ts| && ts[i].name == ""
    case DuplicateTracker(i) => i < |ts| && ts[i].name != "" && exists j :: 0 <= j < i && ts[j].name == ts[i].name
    case _ => false
  }

  predicate ScopeOK(scope: string, kind: string) {
    if RepoKind(kind) then RepoScope(scope) else ProjectScope(scope)
  }

  /** p is wrong with the attribution sinks the i-th tracker, t, lists. */
  predicate SinkProblem(i: nat, t: Tracker, kind: string, p: Problem) {
    t.sinks.Some?
    && var sinks := t.sinks.value;
       match p
       case SinksWithoutJira(at) => at == i && sinks != [] && kind != JIRA
       case SinksWithoutWrites(at) => at == i && sinks != [] && t.writableScopes == []
       case UnknownSink(at, s) => at == i && s in sinks && s != WORKLOG
       case SinkTwice(at, s) => at == i && s == WORKLOG && multiset(sinks)[s] >= 2
       case _ => false
  }

  /** Tracker t is read by the jira collector. */
  predicate ReadByJira(kinds: map<string, string>, t: Tracker) {
    t.connection in kinds && kinds[t.connection] == JIRA
  }

  /** An earlier tracker read by jira on the same connection has a query of that name. */
  predicate QueriedBefore(kinds: map<string, string>, ts: seq<Tracker>, at: nat, query: string)
    requires at < |ts|
  {
    exists j :: 0 <= j < at && ReadByJira(kinds, ts[j]) && ts[j].connection == ts[at].connection && query in ts[j].queries
  }

  /** One of tracker at's first m queries takes the name of one before it on the connection. */
  predicate QueryRepeats(kinds: map<string, string>, ts: seq<Tracker>, at: nat, m: nat, query: string)
    requires at < |ts| && m <= |ts[at].queries|
  {
    && ReadByJira(kinds, ts[at]) && query in ts[at].queries[..m]
    && (QueriedBefore(kinds, ts, at, query) || multiset(ts[at].queries[..m])[query] >= 2)
  }

  /** p is a query name used twice on a connection. */
  predicate QueryProblem(kinds: map<string, string>, ts: seq<Tracker>, p: Problem) {
    p.QueryTwice? && p.at < |ts| && QueryRepeats(kinds, ts, p.at, |ts[p.at].queries|, p.query)
  }

  /** p is wrong with tracker t, the i-th, on a connection of that kind. */
  predicate TrackerProblem(i: nat, t: Tracker, kind: string, p: Problem) {
    SinkProblem(i, t, kind, p) || OwnProblem(i, t, kind, p)
  }

  predicate OwnProblem(i: nat, t: Tracker, kind: string, p: Problem) {
    match p
    case NoScopes(at) => at == i && t.scopes == []
    case BadScope(at, s) => at == i && s in t.scopes && !ScopeOK(s, kind)
    case NoWriter(at) => at == i && t.writableScopes != [] && !HasWriter(kind)
    case UnreadableWritable(at, w) => at == i && w in t.writableScopes && w !in t.scopes
    case UnwritableDefault(at) => at == i && t.defaultScope != "" && t.defaultScope !in t.writableScopes
    case QueriesWithoutJira(at) => at == i && t.queries != [] && kind != JIRA
    case _ => false
  }

  /** p is wrong with where the i-th tracker, t, mirrors to. */
  predicate MirrorProblem(ts: seq<Tracker>, i: nat, t: Tracker, names: seq<string>, p: Problem) {
    match p
    case MirrorsItself(at) => at == i && t.name in names
    case MirrorUnknown(at, name) => at == i && name in names && name != t.name && TrackerByName(ts, name).None?
    case MirrorReadOnly(at, name) =>
      (at == i && name in names && name != t.name
       && TrackerByName(ts, name).Some? && TrackerByName(ts, name).value.writableScopes == [])
    case MirrorWithoutDefault(at, name) =>
      (at == i && name in names && name != t.name && TrackerByName(ts, name).Some?
       && TrackerByName(ts, name).value.writableScopes != [] && TrackerByName(ts, name).value.defaultScope == "")
    case _ => false
  }

  /** p is wrong with a default destination. */
  predicate DefaultProblem(ts: seq<Tracker>, names: seq<string>, p: Problem) {
    match p
    case DestinationUnknown(name) => name in names && TrackerByName(ts, name).None?
    case DestinationReadOnly(name) =>
      name in names && TrackerByName(ts, name).Some? && TrackerByName(ts, name).value.writableScopes == []
    case DestinationWithoutDefault(name) =>
      (name in names && TrackerByName(ts, name).Some?
       && TrackerByName(ts, name).value.writableScopes != [] && TrackerByName(ts, name).value.defaultScope == "")
    case _ => false
  }

  /** Both connections are configured and their scopes share a key space. */
  predicate Comparable(kinds: map<string, string>, a: Tracker, b: Tracker) {
    a.connection in kinds && b.connection in kinds && RepoKind(kinds[a.connection]) == RepoKind(kinds[b.connection])
  }

  /** p is two trackers claiming one scope. */
  predicate OverlapProblem(kinds: map<string, string>, ts: seq<Tracker>, p: Problem) {
    match p
    case Overlap(i, j, sa, sb) =>
      (i < j < |ts| && Comparable(kinds, ts[i], ts[j])
       && sa in ts[i].scopes && sb in ts[j].scopes && ScopesOverlap(sa, sb))
    case _ => false
  }

  /** p is wrong with tracker p.at, its connection known or not. */
  predicate PlacedProblem(c: Config, p: Problem) {
    match p
    case UnknownConnection(i) => i < |c.trackers| && c.trackers[i].connection !in Kinds(c.connections)
    case NamelessConnection(_) | DuplicateConnection(_) | NoEndpoint(_) | NotAURL(_) | LocalEndpoint(_)
    | UnknownKind(_) | NamelessTracker(_) | DuplicateTracker(_) | Overlap(_, _, _, _) | QueryTwice(_, _)
    | DestinationUnknown(_) | DestinationReadOnly(_) | DestinationWithoutDefault(_) => false
    case _ =>
      (p.at < |c.trackers| && c.trackers[p.at].connection in Kinds(c.connections)
       && (TrackerProblem(p.at, c.trackers[p.at], Kinds(c.connections)[c.trackers[p.at].connection], p)
           || MirrorProblem(c.trackers, p.at, c.trackers[p.at], c.trackers[p.at].mirrorTo, p)))
  }

  /** p is wrong with the configuration. */
  predicate IsProblem(c: Config, p: Problem) {
    || ConnectionProblem(c.connections, p)
    || NameProblem(c.trackers, p)
    || PlacedProblem(c, p)
    || OverlapProblem(Kinds(c.connections), c.trackers, p)
    || QueryProblem(Kinds(c.connections), c.trackers, p)
    || DefaultProblem(c.trackers, c.defaultTicketIn, p)
  }

  /** Nothing is wrong with the configuration. */
  ghost predicate Valid(c: Config) {
    forall p :: !IsProblem(c, p)
  }

  method ValidateConnection(cs: seq<Connection>, i: nat, seen: map<string, string>) returns (errs: seq<Problem>)
    requires i < |cs| && seen == Kinds(cs[..i])
    ensures forall p :: p in errs <==> ConnectionProblem(cs, p) && p.at == i
  {
    errs := [];
    var conn := cs[i];
    if conn.name == "" {
      errs := errs + [NamelessConnection(i)];
    } else if conn.name in seen {
      errs := errs + [DuplicateConnection(i)];
    }
    if conn.kind == JIRA || conn.kind == GITHUB {
      if conn.endpoint == "" {
        errs := errs + [NoEndpoint(i)];
      } else if Host(conn) == "" {
        errs := errs + [NotAURL(i)];
      }
    } else if conn.kind == LOCAL {
      if conn.endpoint != "" {
        errs := errs + [LocalEndpoint(i)];
      }
    } else {
      errs := errs + [UnknownKind(i)];
    }
  }

  method ValidateConnections(cs: seq<Connection>) returns (errs: seq<Problem>, kinds: map<string, string>)
    ensures kinds == Kinds(cs)
    ensures forall p :: p in errs <==> ConnectionProblem(cs, p)
  {
    errs, kinds := [], map[];
    for i := 0 to |cs|
      invariant kinds == Kinds(cs[..i])
      invariant forall p :: p in errs <==> ConnectionProblem(cs, p) && p.at < i
    {
      var more := ValidateConnection(cs, i, kinds);
      errs := errs + more;
      assert cs[..i + 1][..i] == cs[..i];
      kinds := kinds[cs[i].name := cs[i].kind];
    }
    assert cs[..|cs|] == cs;
  }

  method ValidateNames(ts: seq<Tracker>) returns (errs: seq<Problem>)
    ensures forall p :: p in errs <==> NameProblem(ts, p)
  {
    errs := [];
    var names: set<string> := {};
    for i := 0 to |ts|
      invariant forall n :: n in names <==> exists j :: 0 <= j < i && ts[j].name == n
      invariant forall p :: p in errs <==> NameProblem(ts, p) && p.at < i
    {
      if ts[i].name == "" {
        errs := errs + [NamelessTracker(i)];
      } else if ts[i].name in names {
        errs := errs + [DuplicateTracker(i)];
      }
      names := names + {ts[i].name};
    }
  }

  method ValidateTracker(i: nat, t: Tracker, kind: string) returns (errs: seq<Problem>)
    ensures forall p :: p in errs <==> TrackerProblem(i, t, kind, p)
  {
    errs := if t.scopes == [] then [NoScopes(i)] else [];
    for k := 0 to |t.scopes|
      invariant forall p :: p in errs <==> (
                  || (p == NoScopes(i) && t.scopes == [])
                  || (p.BadScope? && p.at == i && p.scope in t.scopes[..k] && !ScopeOK(p.scope, kind)))
    {
      if !ScopeOK(t.scopes[k], kind) {
        errs := errs + [BadScope(i, t.scopes[k])];
      }
    }
    var more := WritableProblems(i, t, kind);
    var sinks := ValidateAttributionSinks(i, t, kind);
    errs := errs + more + sinks;
  }

  method ValidateAttributionSinks(i: nat, t: Tracker, kind: string) returns (errs: seq<Problem>)
    ensures forall p :: p in errs <==> SinkProblem(i, t, kind, p)
  {
    errs := [];
    if t.sinks.None? {
      return;
    }
    var sinks := t.sinks.value;
    if sinks != [] && kind != JIRA {
      errs := errs + [SinksWithoutJira(i)];
    }
    if sinks != [] && t.writableScopes == [] {
      errs := errs + [SinksWithoutWrites(i)];
    }
    ghost var before := errs;
    var seen: multiset<string> := multiset{};
    for k := 0 to |sinks|
      invariant seen == multiset(sinks[..k])
      invariant forall p :: p in errs <==> p in before || SinkListed(i, sinks[..k], p)
    {
      assert sinks[..k + 1] == sinks[..k] + [sinks[k]];
      seen := seen + multiset{sinks[k]};
      if sinks[k] != WORKLOG {
        errs := errs + [UnknownSink(i, sinks[k])];
      } else if seen[sinks[k]] == 2 {
        errs := errs + [SinkTwice(i, sinks[k])];
      }
    }
    assert sinks[..|sinks|] == sinks;
  }

  /** p is a sink listed that is unknown, or known and listed before. */
  predicate SinkListed(i: nat, sinks: seq<string>, p: Problem) {
    match p
    case UnknownSink(at, s) => at == i && s in sinks && s != WORKLOG
    case SinkTwice(at, s) => at == i && s == WORKLOG && multiset(sinks)[s] >= 2
    case _ => false
  }

  predicate NamedBy(kinds: map<string, string>, ts: seq<Tracker>, i: nat, conn: string, q: string)
    requires i <= |ts|
  {
    exists j :: 0 <= j < i && ReadByJira(kinds, ts[j]) && ts[j].connection == conn && q in ts[j].queries
  }

  /** seen holds each query name of the first i trackers read by jira, by connection. */
  ghost predicate NamesSeen(kinds: map<string, string>, ts: seq<Tracker>, i: nat, seen: set<(string, string)>)
    requires i <= |ts|
  {
    forall conn, q :: (conn, q) in seen <==> NamedBy(kinds, ts, i, conn, q)
  }

  /** One tracker's queries, after the earlier trackers'. */
  method QueryNamesOf(kinds: map<string, string>, ts: seq<Tracker>, i: nat, before: set<(string, string)>)
    returns (errs: seq<Problem>, seen: set<(string, string)>)
    requires i < |ts| && ReadByJira(kinds, ts[i]) && NamesSeen(kinds, ts, i, before)
    ensures forall p :: p in errs <==> QueryProblem(kinds, ts, p) && p.at == i
    ensures NamesSeen(kinds, ts, i + 1, seen)
  {
    errs, seen := [], before;
    var t := ts[i];
    for k := 0 to |t.queries|
      invariant forall conn, q :: (conn, q) in seen <==> (conn, q) in before || (conn == t.connection && q in t.queries[..k])
      invariant forall p :: p in errs <==> p.QueryTwice? && p.at == i && QueryRepeats(kinds, ts, i, k, p.query)
    {
      QueryStep(kinds, ts, i, k, before);
      var key := (t.connection, t.queries[k]);
      if key in seen {
        errs := errs + [QueryTwice(i, t.queries[k])];
      } else {
        seen := seen + {key};
      }
    }
    assert t.queries[..|t.queries|] == t.queries;
    NamesMore(kinds, ts, i, before, seen);
  }

  lemma NamesMore(kinds: map<string, string>, ts: seq<Tracker>, i: nat, before: set<(string, string)>, seen: set<(string, string)>)
    requires i < |ts| && ReadByJira(kinds, ts[i]) && NamesSeen(kinds, ts, i, before)
    requires forall conn, q :: (conn, q) in seen <==> (conn, q) in before || (conn == ts[i].connection && q in ts[i].queries)
    ensures NamesSeen(kinds, ts, i + 1, seen)
  {
    forall conn, q
      ensures NamedBy(kinds, ts, i + 1, conn, q) <==>
              NamedBy(kinds, ts, i, conn, q) || (conn == ts[i].connection && q in ts[i].queries)
    {
      if j :| 0 <= j < i + 1 && ReadByJira(kinds, ts[j]) && ts[j].connection == conn && q in ts[j].queries {
        assert j < i ==> NamedBy(kinds, ts, i, conn, q);
      }
    }
  }

  /** One more of tracker i's queries: it repeats a name exactly when the name is already taken. */
  lemma QueryStep(kinds: map<string, string>, ts: seq<Tracker>, i: nat, k: nat, before: set<(string, string)>)
    requires i < |ts| && ReadByJira(kinds, ts[i]) && NamesSeen(kinds, ts, i, before) && k < |ts[i].queries|
    ensures var q := ts[i].queries[k];
            forall x :: QueryRepeats(kinds, ts, i, k + 1, x) <==>
              QueryRepeats(kinds, ts, i, k, x)
              || (x == q && ((ts[i].connection, q) in before || q in ts[i].queries[..k]))
    ensures ts[i].queries[..k + 1] == ts[i].queries[..k] + [ts[i].queries[k]]
  {
    var qs, q := ts[i].queries, ts[i].queries[k];
    assert qs[..k + 1] == qs[..k] + [q];
    assert NamedBy(kinds, ts, i, ts[i].connection, q) <==> QueriedBefore(kinds, ts, i, q);
    forall x
      ensures QueryRepeats(kinds, ts, i, k + 1, x) <==>
              QueryRepeats(kinds, ts, i, k, x) || (x == q && (QueriedBefore(kinds, ts, i, q) || q in qs[..k]))
    {
      OneMore(qs[..k], q, x);
    }
  }

  lemma OneMore(s: seq<string>, q: string, x: string)
    ensures multiset(s + [q])[x] == multiset(s)[x] + if x == q then 1 else 0
    ensures x in s <==> multiset(s)[x] >= 1
  {
  }

  method ValidateQueryNames(kinds: map<string, string>, ts: seq<Tracker>) returns (errs: seq<Problem>)
    ensures forall p :: p in errs <==> QueryProblem(kinds, ts, p)
  {
    errs := [];
    var seen: set<(string, string)> := {};
    for i := 0 to |ts|
      invariant NamesSeen(kinds, ts, i, seen)
      invariant forall p :: p in errs <==> QueryProblem(kinds, ts, p) && p.at < i
    {
      if ReadByJira(kinds, ts[i]) {
        var more;
        more, seen := QueryNamesOf(kinds, ts, i, seen);
        errs := errs + more;
      }
    }
  }

  method WritableProblems(i: nat, t: Tracker, kind: string) returns (errs: seq<Problem>)
    ensures forall p :: p in errs <==> OwnProblem(i, t, kind, p) && !p.NoScopes? && !p.BadScope?
  {
    errs := if t.writableScopes != [] && !HasWriter(kind) then [NoWriter(i)] else [];
    for k := 0 to |t.writableScopes|
      invariant forall p :: p in errs <==> (
                  || (p == NoWriter(i) && t.writableScopes != [] && !HasWriter(kind))
                  || (p.UnreadableWritable? && p.at == i && p.scope in t.writableScopes[..k] && p.scope !in t.scopes))
    {
      if t.writableScopes[k] !in t.scopes {
        errs := errs + [UnreadableWritable(i, t.writableScopes[k])];
      }
    }
    if t.defaultScope != "" && t.defaultScope !in t.writableScopes {
      errs := errs + [UnwritableDefault(i)];
    }
    if t.queries != [] && kind != JIRA {
      errs := errs + [QueriesWithoutJira(i)];
    }
  }

  method ValidateMirrorTo(ts: seq<Tracker>, i: nat, t: Tracker) returns (errs: seq<Problem>)
    ensures forall p :: p in errs <==> MirrorProblem(ts, i, t, t.mirrorTo, p)
  {
    errs := [];
    for k := 0 to |t.mirrorTo|
      invariant forall p :: p in errs <==> MirrorProblem(ts, i, t, t.mirrorTo[..k], p)
    {
      var name := t.mirrorTo[k];
      assert t.mirrorTo[..k + 1] == t.mirrorTo[..k] + [name];
      var target := TrackerByName(ts, name);
      if name == t.name {
        errs := errs + [MirrorsItself(i)];
      } else if target.None? {
        errs := errs + [MirrorUnknown(i, name)];
      } else if target.value.writableScopes == [] {
        errs := errs + [MirrorReadOnly(i, name)];
      } else if target.value.defaultScope == "" {
        errs := errs + [MirrorWithoutDefault(i, name)];
      }
    }
    assert t.mirrorTo[..|t.mirrorTo|] == t.mirrorTo;
  }

  method ValidateDefaultTicketIn(ts: seq<Tracker>, names: seq<string>) returns (errs: seq<Problem>)
    ensures forall p :: p in errs <==> DefaultProblem(ts, names, p)
  {
    errs := [];
    for k := 0 to |names|
      invariant forall p :: p in errs <==> DefaultProblem(ts, names[..k], p)
    {
      var target := TrackerByName(ts, names[k]);
      assert names[..k + 1] == names[..k] + [names[k]];
      if target.None? {
        errs := errs + [DestinationUnknown(names[k])];
      } else if target.value.writableScopes == [] {
        errs := errs + [DestinationReadOnly(names[k])];
      } else if target.value.defaultScope == "" {
        errs := errs + [DestinationWithoutDefault(names[k])];
      }
    }
    assert names[..|names|] == names;
  }

  /** p names scopes of a and b, the i-th and j-th trackers, that overlap. */
  predicate Clash(i: nat, j: nat, sas: seq<string>, sbs: seq<string>, p: Problem) {
    p.Overlap? && p.at == i && p.other == j && p.scope in sas && p.otherScope in sbs && ScopesOverlap(p.scope, p.otherScope)
  }

  method ScopeClashes(i: nat, j: nat, sas: seq<string>, sbs: seq<string>) returns (errs: seq<Problem>)
    ensures forall p :: p in errs <==> Clash(i, j, sas, sbs, p)
  {
    errs := [];
    for x := 0 to |sas|
      invariant forall p :: p in errs <==> Clash(i, j, sas[..x], sbs, p)
    {
      ghost var before := errs;
      for y := 0 to |sbs|
        invariant forall p :: p in errs <==> p in before || Clash(i, j, [sas[x]], sbs[..y], p)
      {
        assert sbs[..y + 1] == sbs[..y] + [sbs[y]];
        if ScopesOverlap(sas[x], sbs[y]) {
          errs := errs + [Overlap(i, j, sas[x], sbs[y])];
        }
      }
      assert sbs[..|sbs|] == sbs;
      assert sas[..x + 1] == sas[..x] + [sas[x]];
    }
    assert sas[..|sas|] == sas;
  }

  method ValidateScopeOverlap(kinds: map<string, string>, ts: seq<Tracker>) returns (errs: seq<Problem>)
    ensures forall p :: p in errs <==> OverlapProblem(kinds, ts, p)
  {
    errs := [];
    for i := 0 to |ts|
      invariant forall p :: p in errs <==> OverlapProblem(kinds, ts, p) && p.at < i
    {
      for j := i + 1 to |ts|
        invariant forall p :: p in errs <==> OverlapProblem(kinds, ts, p) && (p.at < i || (p.at == i && p.other < j))
      {
        if Comparable(kinds, ts[i], ts[j]) {
          var more := ScopeClashes(i, j, ts[i].scopes, ts[j].scopes);
          errs := errs + more;
        }
      }
    }
  }

  method ValidatePlaced(c: Config, kinds: map<string, string>) returns (errs: seq<Problem>)
    requires kinds == Kinds(c.connections)
    ensures forall p :: p in errs <==> PlacedProblem(c, p)
  {
    errs := [];
    for i := 0 to |c.trackers|
      invariant forall p :: p in errs <==> PlacedProblem(c, p) && p.at < i
    {
      var t := c.trackers[i];
      if t.connection !in kinds {
        errs := errs + [UnknownConnection(i)];
      } else {
        var own := ValidateTracker(i, t, kinds[t.connection]);
        var mirrored := ValidateMirrorTo(c.trackers, i, t);
        errs := errs + own + mirrored;
      }
    }
  }

  /** Every problem is found, and nothing else is reported. */
  method ValidateTrackers(c: Config) returns (errs: seq<Problem>)
    ensures forall p :: p in errs <==> IsProblem(c, p)
    ensures errs == [] <==> Valid(c)
  {
    var kinds;
    errs, kinds := ValidateConnections(c.connections);
    var names := ValidateNames(c.trackers);
    var placed := ValidatePlaced(c, kinds);
    var overlaps := ValidateScopeOverlap(kinds, c.trackers);
    var queries := ValidateQueryNames(kinds, c.trackers);
    var defaults := ValidateDefaultTicketIn(c.trackers, c.defaultTicketIn);
    errs := errs + names + placed + overlaps + queries + defaults;
    assert errs != [] ==> errs[0] in errs;
  }
}
