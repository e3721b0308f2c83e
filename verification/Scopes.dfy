/** Scopes, the issue keys they cover, and when two of them cover a common issue. */
module Scopes {
  import opened Oracle
  import opened Text
  import opened PullRequest

  predicate Upper(c: char) { 'A' <= c <= 'Z' }
  predicate Digit(c: char) { '0' <= c <= '9' }

  /** A project key: an upper-case letter, then upper-case letters and digits. */
  predicate ProjectScope(s: string) {
    s != "" && Upper(s[0]) && forall i :: 0 <= i < |s| ==> Upper(s[i]) || Digit(s[i])
  }

  /** One owner's or repository's name. */
  predicate RepoSegment(s: string) {
    s != "" && forall i :: 0 <= i < |s| ==> 'a' <= s[i] <= 'z' || Upper(s[i]) || Digit(s[i]) || s[i] in "._-"
  }

  /** owner/repo with a literal owner, and a repository name or "*". */
  predicate RepoScope(s: string) {
    var cut := Cut(s, '/');
    cut.Some? && RepoSegment(cut.value.0) && (cut.value.1 == "*" || RepoSegment(cut.value.1))
  }

  function OwnerOf(s: string): string
    requires RepoScope(s)
  {
    Cut(s, '/').value.0
  }

  function RepoOf(s: string): string
    requires RepoScope(s)
  {
    Cut(s, '/').value.1
  }

  /** pattern, a configured scope, covers scope. */
  predicate ScopeMatches(pattern: string, scope: string) {
    if '/' !in pattern then pattern == scope
    else
      var ps, ss := Split(pattern, '/'), Split(scope, '/');
      |ps| == |ss| && forall i :: 0 <= i < |ps| ==> ps[i] == "*" || EqualFold(ps[i], ss[i])
  }

  /** Some issue could route to both a and b. */
  predicate ScopesOverlap(a: string, b: string) {
    if ('/' in a) != ('/' in b) then false
    else if '/' !in a then a == b
    else
      var ps, qs := Split(a, '/'), Split(b, '/');
      |ps| == |qs| && forall i :: 0 <= i < |ps| ==> ps[i] == "*" || qs[i] == "*" || EqualFold(ps[i], qs[i])
  }

  /** s is covered by both. */
  ghost predicate CoveredByBoth(a: string, b: string, s: string) {
    ScopeMatches(a, s) && ScopeMatches(b, s)
  }

  lemma MatchesItself(s: string)
    ensures ScopeMatches(s, s)
  {
  }

  /** Nothing matches both of two scopes that do not overlap. */
  lemma CommonMeansOverlap(a: string, b: string, s: string)
    requires CoveredByBoth(a, b, s)
    ensures ScopesOverlap(a, b)
  {
    assert '/' in s <==> |Split(s, '/')| > 1;
    assert '/' in a <==> |Split(a, '/')| > 1;
    assert '/' in b <==> |Split(b, '/')| > 1;
  }

  /** The segments two overlapping repository scopes agree on, "*" read as whatever the other says. */
  function Agreed(ps: seq<string>, qs: seq<string>): (s: seq<string>)
    requires |ps| == |qs|
    ensures |s| == |ps|
  {
    seq(|ps|, i requires 0 <= i < |ps| => if ps[i] == "*" then qs[i] else ps[i])
  }

  lemma OverlapMeansCommon(a: string, b: string)
    requires ScopesOverlap(a, b)
    ensures exists s :: CoveredByBoth(a, b, s)
  {
    if '/' !in a {
      assert CoveredByBoth(a, b, a);
    } else {
      var ps, qs := Split(a, '/'), Split(b, '/');
      SplitJoin(Agreed(ps, qs), '/');
      assert CoveredByBoth(a, b, Join(Agreed(ps, qs), '/'));
    }
  }

  /** Two scopes overlap exactly when some string is covered by both. */
  lemma OverlapExactly(a: string, b: string)
    ensures ScopesOverlap(a, b) <==> exists s :: CoveredByBoth(a, b, s)
  {
    if ScopesOverlap(a, b) { OverlapMeansCommon(a, b); }
    if s :| CoveredByBoth(a, b, s) { CommonMeansOverlap(a, b, s); }
  }

  /** An issue key, parsed: the scope it routes by and its number. */
  datatype IssueRef = IssueRef(scope: string, number: nat)

  /** A number as the keys spell it: digits only, and no overflow. */
  function KeyNumber(s: string): Option<nat> {
    if s == "" || !AllDigits(s) || Value(s) > MAX_INT then None else Some(Value(s))
  }

  /** <PROJECT>-<NUMBER>, or <owner>/<repo>#<NUMBER> with its scope folded; anything else is refused. */
  function ParseIssueKey(key: string): Option<IssueRef> {
    if ProjectShaped(Cut(key, '-')) then
      var (project, number) := Cut(key, '-').value;
      var n := KeyNumber(number);
      if n.Some? then Some(IssueRef(project, n.value)) else None
    else if RepoShaped(Cut(key, '#')) then
      var (path, number) := Cut(key, '#').value;
      var n := KeyNumber(number);
      if n.Some? then Some(IssueRef(Lower(path), n.value)) else None
    else None
  }

  /** A project key before the dash and digits after it. */
  predicate ProjectShaped(cut: Option<(string, string)>) {
    cut.Some? && ProjectScope(cut.value.0) && cut.value.1 != "" && AllDigits(cut.value.1)
  }

  /** A repository's path before the hash, and digits after it. */
  predicate RepoShaped(cut: Option<(string, string)>) {
    cut.Some? && RepoPath(cut.value.0) && cut.value.1 != "" && AllDigits(cut.value.1)
  }

  /** Two repository segments with a slash between. */
  predicate RepoPath(path: string) {
    var cut := Cut(path, '/');
    cut.Some? && RepoSegment(cut.value.0) && RepoSegment(cut.value.1)
  }

  /** The issue key routes to both scopes. */
  ghost predicate RoutesToBoth(a: string, b: string, key: string) {
    var ref := ParseIssueKey(key);
    ref.Some? && CoveredByBoth(a, b, ref.value.scope)
  }

  /** A scope the validator lets through. */
  predicate GoodScope(s: string) {
    ProjectScope(s) || RepoScope(s)
  }

  lemma SegmentHasNoSlash(s: string)
    requires RepoSegment(s) || s == "*"
    ensures '/' !in s && '#' !in s
  {
  }

  /** Two parts, put together and cut. */
  lemma TwoParts(a: string, b: string)
    requires '/' !in a && '/' !in b
    ensures Cut(a + ['/'] + b, '/') == Some((a, b)) && Split(a + ['/'] + b, '/') == [a, b]
  {
    CutAt(a, b, '/');
    assert Split(b, '/') == [b];
  }

  lemma ScopeParts(s: string)
    requires RepoScope(s)
    ensures Split(s, '/') == [OwnerOf(s), RepoOf(s)] && '/' in s && OwnerOf(s) != "*"
  {
    SegmentHasNoSlash(OwnerOf(s));
    SegmentHasNoSlash(RepoOf(s));
    TwoParts(OwnerOf(s), RepoOf(s));
  }

  lemma FoldedPath(owner: string, repo: string)
    requires '/' !in owner && '/' !in repo
    ensures Lower(owner + ['/'] + repo) == Lower(owner) + ['/'] + Lower(repo)
    ensures '/' !in Lower(owner) && '/' !in Lower(repo)
  {
    LowerConcat(owner + ['/'], repo);
    LowerConcat(owner, ['/']);
  }

  /** A path of two names splits into them, folded or not. */
  lemma PathParts(owner: string, repo: string)
    requires RepoSegment(owner) && RepoSegment(repo)
    ensures RepoPath(owner + ['/'] + repo)
    ensures Split(Lower(owner + ['/'] + repo), '/') == [Lower(owner), Lower(repo)]
  {
    SegmentHasNoSlash(owner);
    SegmentHasNoSlash(repo);
    TwoParts(owner, repo);
    FoldedPath(owner, repo);
    TwoParts(Lower(owner), Lower(repo));
  }

  lemma OneDigit()
    ensures KeyNumber("1") == Some(1) && AllDigits("1")
  {
    assert Value("1"[..0]) == 0;
  }

  /** A key with a hash is not a project's. */
  lemma HashMeansRepo(key: string)
    requires '#' in key
    ensures !ProjectShaped(Cut(key, '-'))
  {
    var cut := Cut(key, '-');
    if cut.Some? {
      assert '#' in cut.value.0 || '#' in cut.value.1;
    }
  }

  lemma RepoKey(owner: string, repo: string)
    requires RepoSegment(owner) && RepoSegment(repo)
    ensures var path := owner + ['/'] + repo; ParseIssueKey(path + ['#'] + "1") == Some(IssueRef(Lower(path), 1))
  {
    var path := owner + ['/'] + repo;
    var key := path + ['#'] + "1";
    PathParts(owner, repo);
    SegmentHasNoSlash(owner);
    SegmentHasNoSlash(repo);
    CutAt(path, "1", '#');
    assert key[|path|] == '#';
    HashMeansRepo(key);
    OneDigit();
  }

  lemma ProjectKey(scope: string)
    requires ProjectScope(scope)
    ensures ParseIssueKey(scope + ['-'] + "1") == Some(IssueRef(scope, 1))
  {
    CutAt(scope, "1", '-');
    OneDigit();
  }

  /** A repository both scopes cover. */
  function CommonRepo(a: string, b: string): (repo: string)
    requires RepoScope(a) && RepoScope(b)
    ensures RepoSegment(repo)
  {
    if RepoOf(a) != "*" then RepoOf(a) else if RepoOf(b) != "*" then RepoOf(b) else "x"
  }

  /** Two names cover a scope of two parts. */
  lemma CoversPath(pattern: string, owner: string, repo: string, scope: string)
    requires RepoScope(pattern) && Split(scope, '/') == [Lower(owner), Lower(repo)]
    requires EqualFold(OwnerOf(pattern), owner) && (RepoOf(pattern) == "*" || EqualFold(RepoOf(pattern), repo))
    ensures ScopeMatches(pattern, scope)
  {
    ScopeParts(pattern);
    LowerTwice(owner);
    LowerTwice(repo);
  }

  /** Overlapping repository scopes have one owner, and repositories that agree. */
  lemma SameOwner(a: string, b: string)
    requires RepoScope(a) && RepoScope(b) && ScopesOverlap(a, b)
    ensures EqualFold(OwnerOf(a), OwnerOf(b)) && (RepoOf(a) == "*" || RepoOf(b) == "*" || EqualFold(RepoOf(a), RepoOf(b)))
  {
    ScopeParts(a);
    ScopeParts(b);
    var ps, qs := [OwnerOf(a), RepoOf(a)], [OwnerOf(b), RepoOf(b)];
    assert ps[0] != "*" && qs[0] != "*";
    assert ps[1] == "*" || qs[1] == "*" || EqualFold(ps[1], qs[1]);
  }

  lemma CommonIssue(a: string, b: string)
    requires RepoScope(a) && RepoScope(b) && ScopesOverlap(a, b)
    ensures RoutesToBoth(a, b, OwnerOf(a) + ['/'] + CommonRepo(a, b) + ['#'] + "1")
  {
    var owner, repo := OwnerOf(a), CommonRepo(a, b);
    SameOwner(a, b);
    PathParts(owner, repo);
    RepoKey(owner, repo);
    CoversPath(a, owner, repo, Lower(owner + ['/'] + repo));
    CoversPath(b, owner, repo, Lower(owner + ['/'] + repo));
  }

  lemma SharedIssueOverlaps(a: string, b: string, key: string)
    requires RoutesToBoth(a, b, key)
    ensures ScopesOverlap(a, b)
  {
    CommonMeansOverlap(a, b, ParseIssueKey(key).value.scope);
  }

  lemma OverlapShares(a: string, b: string) returns (key: string)
    requires GoodScope(a) && GoodScope(b) && ScopesOverlap(a, b)
    ensures RoutesToBoth(a, b, key)
  {
    GoodSlash(a);
    GoodSlash(b);
    if RepoScope(a) {
      key := OwnerOf(a) + ['/'] + CommonRepo(a, b) + ['#'] + "1";
      CommonIssue(a, b);
    } else {
      key := a + ['-'] + "1";
      ProjectKey(a);
    }
  }

  /** Two configured scopes overlap exactly when some issue key routes to both. */
  lemma OverlapMeansSharedIssue(a: string, b: string)
    requires GoodScope(a) && GoodScope(b)
    ensures ScopesOverlap(a, b) <==> exists key :: RoutesToBoth(a, b, key)
  {
    if key :| RoutesToBoth(a, b, key) {
      SharedIssueOverlaps(a, b, key);
    }
    if ScopesOverlap(a, b) {
      var key := OverlapShares(a, b);
    }
  }

  /** The two syntaxes cannot be confused. */
  lemma GoodSlash(s: string)
    requires GoodScope(s)
    ensures '/' in s <==> RepoScope(s)
    ensures RepoScope(s) <==> !ProjectScope(s)
  {
  }

  /** Two configured scopes covering one scope are of one syntax and overlap. */
  lemma GoodCommon(a: string, b: string, s: string)
    requires GoodScope(a) && GoodScope(b) && CoveredByBoth(a, b, s)
    ensures ScopesOverlap(a, b) && (RepoScope(a) <==> RepoScope(b))
  {
    CommonMeansOverlap(a, b, s);
    GoodSlash(a);
    GoodSlash(b);
  }

  /** A configured scope does not cover the empty one. */
  lemma CoversSomething(pattern: string, scope: string)
    requires GoodScope(pattern) && ScopeMatches(pattern, scope)
    ensures scope != ""
  {
    GoodSlash(pattern);
    if RepoScope(pattern) {
      ScopeParts(pattern);
      assert '/' in scope;
    }
  }
}
