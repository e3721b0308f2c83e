/** Routing under a configuration the validator accepts: which tracker owns a scope, and where work may be ticketed. */
module Routing {
  import opened Oracle
  import opened Text
  import opened Scopes
  import opened Trackers
  import opened Ordering

  /** The first tracker that covers scope. */
  function FirstCovering(ts: seq<Tracker>, scope: string): (t: Option<Tracker>)
    ensures t.Some? ==> t.value in ts && t.value.Contains(scope)
    ensures t.None? ==> forall x :: x in ts ==> !x.Contains(scope)
  {
    if ts == [] then None else if ts[0].Contains(scope) then Some(ts[0]) else FirstCovering(ts[1..], scope)
  }

  function TrackerForScope(c: Config, scope: string): Option<Tracker> {
    if scope == "" then None else FirstCovering(c.trackers, scope)
  }

  function ConnectionOf(c: Config, t: Tracker): Option<Connection> {
    ConnectionByName(c.connections, t.connection)
  }

  /** Nothing is wrong with the configuration but scopes that overlap. */
  ghost predicate OnlyOverlaps(c: Config) {
    forall p :: IsProblem(c, p) ==> p.Overlap?
  }

  // What a valid configuration keeps.

  lemma NamesDiffer(c: Config, i: nat, j: nat)
    requires OnlyOverlaps(c) && i < j < |c.trackers|
    ensures c.trackers[i].name != c.trackers[j].name && c.trackers[j].name != ""
  {
    assert !IsProblem(c, NamelessTracker(j));
    assert !IsProblem(c, DuplicateTracker(j));
  }

  /** A name finds the one tracker that has it. */
  lemma NameFinds(c: Config, t: Tracker)
    requires OnlyOverlaps(c) && t in c.trackers
    ensures TrackerByName(c.trackers, t.name) == Some(t)
  {
    var found := TrackerByName(c.trackers, t.name);
    var i :| 0 <= i < |c.trackers| && c.trackers[i] == t;
    var j :| 0 <= j < |c.trackers| && c.trackers[j] == found.value;
    if i < j { NamesDiffer(c, i, j); }
    if j < i { NamesDiffer(c, j, i); }
  }

  /** The kind on record for a tracker's connection is its connection's. */
  lemma KindOfConnection(c: Config, t: Tracker)
    requires OnlyOverlaps(c) && t in c.trackers
    ensures t.connection in Kinds(c.connections)
    ensures ConnectionOf(c, t).Some? && ConnectionOf(c, t).value.kind == Kinds(c.connections)[t.connection]
  {
    var i :| 0 <= i < |c.trackers| && c.trackers[i] == t;
    assert !IsProblem(c, UnknownConnection(i));
    KindsExactly(c.connections);
    assert Listed(c.connections, t.connection, Kinds(c.connections)[t.connection]);
    var found := ConnectionOf(c, t).value;
    var d :| d in c.connections && d.name == t.connection && d.kind == Kinds(c.connections)[t.connection];
    ConnectionUnique(c, found, d);
  }

  /** Two connections of one name are a problem. */
  lemma NamesakesInvalid(c: Config, i: nat, j: nat)
    requires i < j < |c.connections| && c.connections[i].name == c.connections[j].name
    ensures IsProblem(c, NamelessConnection(j)) || IsProblem(c, DuplicateConnection(j))
  {
    var cs := c.connections;
    KindsExactly(cs[..j]);
    assert cs[i] in cs[..j];
  }

  lemma ConnectionUnique(c: Config, a: Connection, b: Connection)
    requires OnlyOverlaps(c) && a in c.connections && b in c.connections && a.name == b.name
    ensures a == b
  {
    var i :| 0 <= i < |c.connections| && c.connections[i] == a;
    var j :| 0 <= j < |c.connections| && c.connections[j] == b;
    if i < j { NamesakesInvalid(c, i, j); }
    if j < i { NamesakesInvalid(c, j, i); }
  }

  lemma ScopesGood(c: Config, t: Tracker, scope: string)
    requires OnlyOverlaps(c) && t in c.trackers && scope in t.scopes
    ensures t.connection in Kinds(c.connections)
    ensures GoodScope(scope) && (RepoScope(scope) <==> RepoKind(Kinds(c.connections)[t.connection]))
  {
    KindOfConnection(c, t);
    var i :| 0 <= i < |c.trackers| && c.trackers[i] == t;
    assert !IsProblem(c, BadScope(i, scope));
    assert ScopeOK(scope, Kinds(c.connections)[t.connection]);
    GoodSlash(scope);
  }

  /** Scopes of two trackers covering one scope are an overlap the validator reports. */
  lemma CommonIsProblem(c: Config, i: nat, j: nat, sa: string, sb: string, scope: string)
    requires OnlyOverlaps(c) && i < j < |c.trackers| && sa in c.trackers[i].scopes && sb in c.trackers[j].scopes
    requires CoveredByBoth(sa, sb, scope)
    ensures IsProblem(c, Overlap(i, j, sa, sb))
  {
    ScopesGood(c, c.trackers[i], sa);
    ScopesGood(c, c.trackers[j], sb);
    GoodCommon(sa, sb, scope);
  }

  /** Scopes of two trackers do not cover one scope. */
  lemma NoneCovered(c: Config, i: nat, j: nat, sa: string, sb: string, scope: string)
    requires Valid(c) && i < j < |c.trackers| && sa in c.trackers[i].scopes && sb in c.trackers[j].scopes
    ensures !CoveredByBoth(sa, sb, scope)
  {
    if CoveredByBoth(sa, sb, scope) {
      CommonIsProblem(c, i, j, sa, sb, scope);
    }
  }

  /** No scope belongs to two trackers. */
  lemma OneOwner(c: Config, i: nat, j: nat, scope: string)
    requires Valid(c) && i < j < |c.trackers|
    ensures !(c.trackers[i].Contains(scope) && c.trackers[j].Contains(scope))
  {
    var a, b := c.trackers[i], c.trackers[j];
    if a.Contains(scope) && b.Contains(scope) {
      var x :| 0 <= x < |a.scopes| && ScopeMatches(a.scopes[x], scope);
      var y :| 0 <= y < |b.scopes| && ScopeMatches(b.scopes[y], scope);
      NoneCovered(c, i, j, a.scopes[x], b.scopes[y], scope);
    }
  }

  lemma OwnersEqual(c: Config, a: Tracker, b: Tracker, scope: string)
    requires Valid(c) && a in c.trackers && b in c.trackers && a.Contains(scope) && b.Contains(scope)
    ensures a == b
  {
    var i :| 0 <= i < |c.trackers| && c.trackers[i] == a;
    var j :| 0 <= j < |c.trackers| && c.trackers[j] == b;
    if i < j { OneOwner(c, i, j, scope); }
    if j < i { OneOwner(c, j, i, scope); }
  }

  /** A scope routes to t exactly when t covers it, wherever t is listed. */
  lemma RoutesExactly(c: Config, t: Tracker, scope: string)
    requires Valid(c)
    ensures TrackerForScope(c, scope) == Some(t) <==> scope != "" && t in c.trackers && t.Contains(scope)
  {
    if scope != "" && t in c.trackers && t.Contains(scope) {
      OwnersEqual(c, t, TrackerForScope(c, scope).value, scope);
    }
  }

  /** Listing the same trackers in another order changes no route. */
  lemma OrderOfTrackersIrrelevant(c: Config, d: Config, scope: string)
    requires Valid(c) && (forall t :: t in c.trackers <==> t in d.trackers)
    ensures TrackerForScope(c, scope) == TrackerForScope(d, scope)
  {
    var r := TrackerForScope(d, scope);
    if r.Some? { RoutesExactly(c, r.value, scope); }
  }

  /** The same trackers, each as often, in any order. */
  ghost predicate Relisted(c: Config, d: Config) {
    multiset(c.trackers) == multiset(d.trackers)
  }

  /** However the trackers are listed, every scope routes to the same one. */
  ghost predicate RoutesSettled(c: Config) {
    forall ts, scope :: Relisted(c, c.(trackers := ts)) ==> TrackerForScope(c.(trackers := ts), scope) == TrackerForScope(c, scope)
  }

  /** Listed first, a tracker takes what it covers. */
  lemma ListedFirst(c: Config, i: nat, scope: string) returns (ts: seq<Tracker>)
    requires i < |c.trackers| && scope != "" && c.trackers[i].Contains(scope)
    ensures Relisted(c, c.(trackers := ts)) && TrackerForScope(c.(trackers := ts), scope) == Some(c.trackers[i])
  {
    ts := [c.trackers[i]] + c.trackers[..i] + c.trackers[i + 1..];
    assert c.trackers == c.trackers[..i] + [c.trackers[i]] + c.trackers[i + 1..];
    assert ts[0] == c.trackers[i];
  }

  /** Two scopes that overlap cover some scope an issue could have. */
  lemma SharedScope(a: string, b: string) returns (scope: string)
    requires GoodScope(a) && GoodScope(b) && ScopesOverlap(a, b)
    ensures CoveredByBoth(a, b, scope) && scope != ""
  {
    OverlapMeansCommon(a, b);
    scope :| CoveredByBoth(a, b, scope);
    CoversSomething(a, scope);
  }

  /**
   * An overlap the validator reports makes routing depend on the order: some scope routes to
   * whichever of the two trackers is listed first.
   */
  lemma OverlapBreaksRouting(c: Config, i: nat, j: nat, sa: string, sb: string)
    returns (scope: string, ts: seq<Tracker>, us: seq<Tracker>)
    requires OnlyOverlaps(c) && IsProblem(c, Overlap(i, j, sa, sb))
    ensures Relisted(c, c.(trackers := ts)) && Relisted(c, c.(trackers := us))
    ensures TrackerForScope(c.(trackers := ts), scope) != TrackerForScope(c.(trackers := us), scope)
  {
    var a, b := c.trackers[i], c.trackers[j];
    ScopesGood(c, a, sa);
    ScopesGood(c, b, sb);
    scope := SharedScope(sa, sb);
    Covers(a, sa, scope);
    Covers(b, sb, scope);
    ts := ListedFirst(c, i, scope);
    us := ListedFirst(c, j, scope);
    NamesDiffer(c, i, j);
  }

  lemma Covers(t: Tracker, pattern: string, scope: string)
    requires pattern in t.scopes && ScopeMatches(pattern, scope)
    ensures t.Contains(scope)
  {
    var i :| 0 <= i < |t.scopes| && t.scopes[i] == pattern;
  }

  /** With nothing else wrong, routing is independent of the order exactly when the validator reports no overlap. */
  lemma RoutesSettledExactly(c: Config)
    requires OnlyOverlaps(c)
    ensures RoutesSettled(c) <==> Valid(c)
  {
    if Valid(c) {
      forall ts, scope | Relisted(c, c.(trackers := ts))
        ensures TrackerForScope(c.(trackers := ts), scope) == TrackerForScope(c, scope)
      {
        assert forall t :: t in c.trackers <==> t in multiset(c.trackers);
        assert forall t :: t in ts <==> t in multiset(ts);
        OrderOfTrackersIrrelevant(c, c.(trackers := ts), scope);
      }
    } else {
      var p :| IsProblem(c, p);
      var scope, ts, us := OverlapBreaksRouting(c, p.at, p.other, p.scope, p.otherScope);
    }
  }

  /** Whether unjira may write to a scope, and on whose tracker. */
  datatype Writability = Writability(writable: bool, untracked: bool, tracker: string)

  function ProjectWritability(c: Config, scope: string): Writability {
    var t := TrackerForScope(c, scope);
    if t.None? then Writability(false, true, "") else Writability(t.value.Writable(scope), false, t.value.name)
  }

  /** Only a tracker with a writer is ever writable. */
  lemma WritableHasWriter(c: Config, scope: string)
    requires Valid(c) && ProjectWritability(c, scope).writable
    ensures var t := TrackerForScope(c, scope).value;
            ConnectionOf(c, t).Some? && HasWriter(ConnectionOf(c, t).value.kind)
  {
    var t := TrackerForScope(c, scope).value;
    KindOfConnection(c, t);
    var i :| 0 <= i < |c.trackers| && c.trackers[i] == t;
    assert !IsProblem(c, NoWriter(i));
    assert t.writableScopes != [];
  }

  // Destinations of untracked work.

  datatype Destination = Destination(tracker: string, scope: string)

  datatype Plan = Plan(destinations: seq<Destination>, location: string, ambiguous: seq<string>)

  /** t takes the repository: right key space, right host, scope covered. */
  predicate Takes(c: Config, t: Tracker, repo: string) {
    var cut, conn := Cut(repo, '/'), ConnectionOf(c, t);
    && cut.Some? && conn.Some? && RepoKind(conn.value.kind)
    && EqualFold(Host(conn.value), cut.value.0) && t.Contains(cut.value.1)
  }

  function FirstTaking(c: Config, ts: seq<Tracker>, repo: string): (t: Option<Tracker>)
    ensures t.Some? ==> t.value in ts && Takes(c, t.value, repo)
    ensures t.None? ==> forall x :: x in ts ==> !Takes(c, x, repo)
  {
    if ts == [] then None else if Takes(c, ts[0], repo) then Some(ts[0]) else FirstTaking(c, ts[1..], repo)
  }

  /** The name of the tracker a host-qualified repository is in the scope of. */
  function TrackerForRepo(c: Config, repo: string): Option<string> {
    var t := FirstTaking(c, c.trackers, repo);
    if t.None? then None else Some(t.value.name)
  }

  /** A repository is some tracker's work exactly when that tracker takes it. */
  lemma TakesExactly(c: Config, t: Tracker, repo: string)
    requires Valid(c) && t in c.trackers
    ensures TrackerForRepo(c, repo) == Some(t.name) <==> Takes(c, t, repo)
  {
    var first := FirstTaking(c, c.trackers, repo);
    if Takes(c, t, repo) {
      OwnersEqual(c, t, first.value, Cut(repo, '/').value.1);
    }
    if first.Some? && first.value.name == t.name {
      NameFinds(c, t);
      NameFinds(c, first.value);
    }
  }

  /** The trackers some repositories are the work of. */
  function Located(c: Config, repos: set<string>): set<string> {
    set r | r in repos && TrackerForRepo(c, r).Some? :: TrackerForRepo(c, r).value
  }

  predicate NamedTracker(ds: seq<Destination>, name: string) {
    exists d :: d in ds && d.tracker == name
  }

  /** No tracker is a destination twice. */
  ghost predicate Distinct(ds: seq<Destination>) {
    forall i, j :: 0 <= i < j < |ds| ==> ds[i].tracker != ds[j].tracker
  }

  /** The default scopes of the trackers named, each once, in the order first named. */
  function Named(c: Config, names: seq<string>): seq<Destination> {
    if names == [] then []
    else
      var n := |names| - 1;
      var init, t := Named(c, names[..n]), TrackerByName(c.trackers, names[n]);
      if t.Some? && t.value.defaultScope != "" && !NamedTracker(init, names[n])
      then init + [Destination(names[n], t.value.defaultScope)] else init
  }

  /** d is a create in the default scope of one of the named trackers. */
  ghost predicate Allowed(c: Config, names: seq<string>, d: Destination) {
    && d.tracker in names && TrackerByName(c.trackers, d.tracker).Some?
    && d.scope == TrackerByName(c.trackers, d.tracker).value.defaultScope != ""
  }

  lemma {:induction false} NamedExactly(c: Config, names: seq<string>)
    ensures Distinct(Named(c, names))
    ensures forall d :: d in Named(c, names) <==> Allowed(c, names, d)
  {
    if names != [] {
      var n := |names| - 1;
      NamedExactly(c, names[..n]);
      assert names == names[..n] + [names[n]];
      var init := Named(c, names[..n]);
      assert forall k :: 0 <= k < |init| ==> init[k] in init;
    }
  }

  /** The create the location itself takes, if it takes any. */
  function Home(t: Tracker): seq<Destination> {
    if t.writableScopes != [] && t.defaultScope != "" then [Destination(t.name, t.defaultScope)] else []
  }

  /**
   * Work located in one tracker's scope may be ticketed there and where that tracker mirrors
   * to, and nowhere else. Work in no tracker's scope, or in several, goes where the defaults say.
   */
  function PlanFor(c: Config, located: seq<string>): Plan {
    if |located| == 1 then
      var t := TrackerByName(c.trackers, located[0]);
      if t.None? then Plan([], "", []) else Plan(Home(t.value) + Named(c, t.value.mirrorTo), t.value.name, [])
    else Plan(Named(c, c.defaultTicketIn), "", located)
  }

  /** located lists, in order, the trackers the repositories are the work of. */
  ghost predicate LocatedIn(c: Config, repos: set<string>, located: seq<string>) {
    Ascending(located) && forall n :: n in located <==> n in Located(c, repos)
  }

  method DestinationsNamed(c: Config, names: seq<string>) returns (out: seq<Destination>)
    ensures out == Named(c, names)
  {
    out := [];
    for i := 0 to |names|
      invariant out == Named(c, names[..i])
    {
      assert names[..i + 1][..i] == names[..i];
      var t := TrackerByName(c.trackers, names[i]);
      if t.Some? && t.value.defaultScope != "" && !NamedTracker(out, names[i]) {
        out := out + [Destination(t.value.name, t.value.defaultScope)];
      }
    }
    assert names[..|names|] == names;
  }

  method LocatedNames(c: Config, repos: seq<string>) returns (located: seq<string>)
    ensures LocatedIn(c, (set r | r in repos), located)
  {
    var names: set<string> := {};
    for i := 0 to |repos|
      invariant names == Located(c, (set r | r in repos[..i]))
    {
      assert repos[..i + 1] == repos[..i] + [repos[i]];
      var name := TrackerForRepo(c, repos[i]);
      if name.Some? {
        names := names + {name.value};
      }
    }
    assert repos[..|repos|] == repos;
    located := Sorted(names);
  }

  /** Some list of the trackers the repositories are the work of gives this plan. */
  ghost predicate PlanOf(c: Config, repos: set<string>, plan: Plan) {
    exists located :: LocatedIn(c, repos, located) && plan == PlanFor(c, located)
  }

  method UntrackedDestinations(c: Config, repos: seq<string>) returns (plan: Plan)
    ensures PlanOf(c, (set r | r in repos), plan)
  {
    var located := LocatedNames(c, repos);
    plan := Plan([], "", []);
    if |located| == 1 {
      var t := TrackerByName(c.trackers, located[0]);
      if t.Some? {
        var mirrored := DestinationsNamed(c, t.value.mirrorTo);
        plan := Plan(Home(t.value) + mirrored, t.value.name, []);
      }
    } else {
      var defaults := DestinationsNamed(c, c.defaultTicketIn);
      plan := Plan(defaults, "", located);
    }
    assert plan == PlanFor(c, located);
  }

  /** The plan depends on which repositories were worked in, not on their order or repetition. */
  lemma PlanUnique(c: Config, repos: set<string>, p: Plan, q: Plan)
    requires PlanOf(c, repos, p) && PlanOf(c, repos, q)
    ensures p == q
  {
    var a :| LocatedIn(c, repos, a) && p == PlanFor(c, a);
    var b :| LocatedIn(c, repos, b) && q == PlanFor(c, b);
    AscendingUnique(a, b);
  }

  /** A tracker with a default scope may be written to there. */
  lemma DefaultWritable(c: Config, t: Tracker)
    requires Valid(c) && t in c.trackers && t.defaultScope != ""
    ensures ProjectWritability(c, t.defaultScope) == Writability(true, false, t.name) && t.writableScopes != []
  {
    var i :| 0 <= i < |c.trackers| && c.trackers[i] == t;
    assert !IsProblem(c, UnwritableDefault(i)) && !IsProblem(c, UnreadableWritable(i, t.defaultScope));
    KindOfConnection(c, t);
    assert t.defaultScope in t.scopes && t.defaultScope in t.writableScopes;
    MatchesItself(t.defaultScope);
    assert t.Contains(t.defaultScope) && t.Writable(t.defaultScope);
    RoutesExactly(c, t, t.defaultScope);
  }

  /** Every destination of a plan may be written to, on the tracker it names. */
  lemma DestinationsWritable(c: Config, located: seq<string>, d: Destination)
    requires Valid(c) && d in PlanFor(c, located).destinations
    ensures ProjectWritability(c, d.scope) == Writability(true, false, d.tracker)
  {
    var names := c.defaultTicketIn;
    if |located| == 1 {
      var t := TrackerByName(c.trackers, located[0]).value;
      if d in Home(t) {
        DefaultWritable(c, t);
      }
      names := t.mirrorTo;
    }
    NamedExactly(c, names);
    if Allowed(c, names, d) {
      DefaultWritable(c, TrackerByName(c.trackers, d.tracker).value);
    }
  }

  /** A valid tracker does not mirror to itself. */
  lemma NotItsOwnMirror(c: Config, t: Tracker)
    requires Valid(c) && t in c.trackers
    ensures t.name !in t.mirrorTo
  {
    var i :| 0 <= i < |c.trackers| && c.trackers[i] == t;
    KindOfConnection(c, t);
    assert !IsProblem(c, MirrorsItself(i));
  }

  /** A plan names no tracker twice. */
  lemma DestinationsDistinct(c: Config, located: seq<string>)
    requires Valid(c)
    ensures Distinct(PlanFor(c, located).destinations)
  {
    NamedExactly(c, c.defaultTicketIn);
    if |located| == 1 && TrackerByName(c.trackers, located[0]).Some? {
      var t := TrackerByName(c.trackers, located[0]).value;
      NotItsOwnMirror(c, t);
      NamedExactly(c, t.mirrorTo);
      var named := Named(c, t.mirrorTo);
      assert forall k :: 0 <= k < |named| ==> named[k] in named;
    }
  }

  lemma MirrorKnown(c: Config, t: Tracker, name: string)
    requires Valid(c) && t in c.trackers && name in t.mirrorTo
    ensures name != t.name && TrackerByName(c.trackers, name).Some?
  {
    NotItsOwnMirror(c, t);
    var i :| 0 <= i < |c.trackers| && c.trackers[i] == t;
    KindOfConnection(c, t);
    assert !IsProblem(c, MirrorUnknown(i, name));
  }

  lemma MirrorWritable(c: Config, t: Tracker, name: string)
    requires Valid(c) && t in c.trackers && name in t.mirrorTo
    ensures TrackerByName(c.trackers, name).Some? && TrackerByName(c.trackers, name).value.writableScopes != []
  {
    MirrorKnown(c, t, name);
    var i :| 0 <= i < |c.trackers| && c.trackers[i] == t;
    KindOfConnection(c, t);
    assert !IsProblem(c, MirrorReadOnly(i, name));
  }

  /** Every tracker a valid one mirrors to can be created in. */
  lemma MirrorsReady(c: Config, t: Tracker, name: string)
    requires Valid(c) && t in c.trackers && name in t.mirrorTo
    ensures TrackerByName(c.trackers, name).Some? && TrackerByName(c.trackers, name).value.defaultScope != ""
  {
    MirrorKnown(c, t, name);
    MirrorWritable(c, t, name);
    var i :| 0 <= i < |c.trackers| && c.trackers[i] == t;
    KindOfConnection(c, t);
    assert !IsProblem(c, MirrorWithoutDefault(i, name));
  }

  /** Naming a list of trackers that can all be created in reaches exactly those. */
  lemma NamedReaches(c: Config, names: seq<string>, name: string)
    requires name in names ==> TrackerByName(c.trackers, name).Some? && TrackerByName(c.trackers, name).value.defaultScope != ""
    ensures NamedTracker(Named(c, names), name) <==> name in names
  {
    NamedExactly(c, names);
    if name in names {
      assert Allowed(c, names, Destination(name, TrackerByName(c.trackers, name).value.defaultScope));
    }
  }

  /** Work in one tracker's scope is ticketed there, if it takes creates, and at each tracker it mirrors to: nowhere else. */
  lemma DeniedByDefault(c: Config, located: seq<string>, name: string)
    requires Valid(c) && |located| == 1 && TrackerByName(c.trackers, located[0]).Some?
    ensures var t := TrackerByName(c.trackers, located[0]).value;
            NamedTracker(PlanFor(c, located).destinations, name)
            <==> name in t.mirrorTo || (name == t.name && t.defaultScope != "")
  {
    var t := TrackerByName(c.trackers, located[0]).value;
    if name in t.mirrorTo {
      MirrorsReady(c, t, name);
    }
    NamedReaches(c, t.mirrorTo, name);
    if t.defaultScope != "" {
      DefaultWritable(c, t);
    }
    var home, named := Home(t), Named(c, t.mirrorTo);
    assert PlanFor(c, located).destinations == home + named;
    assert NamedTracker(home + named, name) <==> NamedTracker(home, name) || NamedTracker(named, name);
    assert NamedTracker(home, name) <==> home != [] && home[0].tracker == name;
  }
}
