/** The one spelling of a pull request's identity, and the strict reader of it. */
module PullRequest {
  import opened Oracle
  import opened Text

  function DigitChar(d: nat): char
    requires d < 10
  {
    '0' + d as char
  }

  /** n in decimal, without leading zeros. */
  function Decimal(n: nat): (s: string)
    ensures s != "" && forall i :: 0 <= i < |s| ==> '0' <= s[i] <= '9'
  {
    if n < 10 then [DigitChar(n)] else Decimal(n / 10) + [DigitChar(n % 10)]
  }

  predicate AllDigits(s: string) {
    forall i :: 0 <= i < |s| ==> '0' <= s[i] <= '9'
  }

  function Value(s: string): nat
    requires AllDigits(s)
  {
    if s == "" then 0 else 10 * Value(s[..|s| - 1]) + (s[|s| - 1] - '0') as nat
  }

  /** A decimal int: an optional sign, digits, and no overflow. */
  function ParseInt(s: string): Option<int> {
    var signed := s != "" && (s[0] == '-' || s[0] == '+');
    var digits := if signed then s[1..] else s;
    if digits == "" || !AllDigits(digits) then None
    else
      var size: int := Value(digits);
      var n := if signed && s[0] == '-' then -size else size;
      if -MAX_INT - 1 <= n <= MAX_INT then Some(n) else None
  }

  /** n as strconv writes it. */
  function Itoa(n: int): string {
    if n < 0 then "-" + Decimal(-n) else Decimal(n)
  }

  /** The identity of pull request number on host/owner/repo. */
  function PullRequestRef(host: string, owner: string, repo: string, number: int): string {
    Lower(host + "/" + owner + "/" + repo) + "#" + Itoa(number)
  }

  /** A non-empty name that could not be mistaken for more than one. */
  predicate Segment(s: string) {
    s != "" && '/' !in s && '#' !in s
  }

  /** s when the number and segments read from it spell it again, "" otherwise. */
  function Reread(s: string, number: Option<int>, segments: seq<string>): string {
    if number.None? || number.value <= 0 || |segments| != 3 || "" in segments then ""
    else if PullRequestRef(segments[0], segments[1], segments[2], number.value) != s then ""
    else s
  }

  /** s when it is an identity PullRequestRef writes, "" otherwise. */
  function PullRequestOf(s: string): string {
    match Cut(s, '#')
    case None => ""
    case Some((path, number)) => ReadParts(s, path, number)
  }

  /** s when the path and number it was cut into spell it again, "" otherwise. */
  function ReadParts(s: string, path: string, number: string): string {
    Reread(s, ParseInt(number), Split(path, '/'))
  }

  lemma {:induction false} ValueOfDecimal(n: nat)
    ensures Value(Decimal(n)) == n
  {
    if n >= 10 {
      ValueOfDecimal(n / 10);
      assert Decimal(n)[..|Decimal(n)| - 1] == Decimal(n / 10);
    } else {
      assert Decimal(n)[..0] == "";
    }
  }

  lemma ParseItoa(n: nat)
    requires n <= MAX_INT
    ensures ParseInt(Itoa(n)) == Some(n)
  {
    ValueOfDecimal(n);
    assert '0' <= Decimal(n)[0] <= '9';
  }

  lemma LowerSegment(s: string)
    requires Segment(s)
    ensures Segment(Lower(s))
  {
  }

  /** The three segments, folded, joined by slashes. */
  lemma RefParts(host: string, owner: string, repo: string)
    ensures Lower(host + "/" + owner + "/" + repo) == Join([Lower(host), Lower(owner), Lower(repo)], '/')
  {
    var parts := [Lower(host), Lower(owner), Lower(repo)];
    assert parts[1..] == [Lower(owner), Lower(repo)];
    assert parts[1..][1..] == [Lower(repo)];
    assert Join(parts[1..], '/') == Lower(owner) + ['/'] + Lower(repo);
    LowerConcat(host + "/" + owner + "/", repo);
    LowerConcat(host + "/" + owner, "/");
    LowerConcat(host + "/", owner);
    LowerConcat(host, "/");
    assert Lower("/") == ['/'];
  }

  /** Where an identity's path ends, and what its path and number are. */
  lemma RefCut(host: string, owner: string, repo: string, n: nat)
    requires Segment(host) && Segment(owner) && Segment(repo)
    ensures var s, path := PullRequestRef(host, owner, repo, n), Lower(host + "/" + owner + "/" + repo);
            && Cut(s, '#') == Some((path, Itoa(n)))
            && Split(path, '/') == [Lower(host), Lower(owner), Lower(repo)]
  {
    var s, path := PullRequestRef(host, owner, repo, n), Lower(host + "/" + owner + "/" + repo);
    assert '#' !in path by {
      var whole := host + "/" + owner + "/" + repo;
      forall i | 0 <= i < |path| ensures path[i] != '#' {
        assert whole[i] in whole;
        assert whole[i] in host || whole[i] == '/' || whole[i] in owner || whole[i] in repo;
      }
    }
    CutAt(path, Itoa(n), '#');
    assert s == path + ['#'] + Itoa(n);
    RefParts(host, owner, repo);
    LowerSegment(host);
    LowerSegment(owner);
    LowerSegment(repo);
    SplitJoin([Lower(host), Lower(owner), Lower(repo)], '/');
  }

  /** Folding before writing changes nothing. */
  lemma RefOfFolded(host: string, owner: string, repo: string, n: int)
    ensures PullRequestRef(Lower(host), Lower(owner), Lower(repo), n) == PullRequestRef(host, owner, repo, n)
  {
    RefParts(host, owner, repo);
    RefParts(Lower(host), Lower(owner), Lower(repo));
    LowerTwice(host);
    LowerTwice(owner);
    LowerTwice(repo);
  }

  /** Names that spell s again are read. */
  lemma RereadSame(s: string, host: string, owner: string, repo: string, n: int)
    requires n > 0 && host != "" && owner != "" && repo != "" && PullRequestRef(host, owner, repo, n) == s
    ensures Reread(s, Some(n), [host, owner, repo]) == s
  {
  }

  /** What the writer spells, the reader returns unchanged. */
  lemma ReadsWhatIsWritten(host: string, owner: string, repo: string, n: int)
    requires Segment(host) && Segment(owner) && Segment(repo) && 0 < n <= MAX_INT
    ensures PullRequestOf(PullRequestRef(host, owner, repo, n)) == PullRequestRef(host, owner, repo, n) != ""
  {
    RefCut(host, owner, repo, n);
    ParseItoa(n);
    RefOfFolded(host, owner, repo, n);
    RereadSame(PullRequestRef(host, owner, repo, n), Lower(host), Lower(owner), Lower(repo), n);
  }

  /** s is an identity of some real pull request. */
  ghost predicate IsRef(s: string) {
    exists host, owner, repo, n ::
      Segment(host) && Segment(owner) && Segment(repo) && 0 < n <= MAX_INT && s == PullRequestRef(host, owner, repo, n)
  }

  /** What is read again is an identity, when its names could not be mistaken. */
  lemma RereadIsRef(s: string, number: Option<int>, segments: seq<string>)
    requires Reread(s, number, segments) != "" && number.Some? && number.value <= MAX_INT
    requires forall t :: 0 <= t < |segments| ==> '/' !in segments[t] && '#' !in segments[t]
    ensures IsRef(s)
  {
    forall t | 0 <= t < 3 ensures Segment(segments[t]) {
      assert segments[t] in segments;
    }
    assert s == PullRequestRef(segments[0], segments[1], segments[2], number.value);
  }

  lemma ParseIntBounded(s: string)
    ensures ParseInt(s).Some? ==> ParseInt(s).value <= MAX_INT
  {
  }

  /** No part of a path without '#' has one, nor a slash. */
  lemma PartsOfPath(path: string)
    requires '#' !in path
    ensures forall t :: 0 <= t < |Split(path, '/')| ==> '/' !in Split(path, '/')[t] && '#' !in Split(path, '/')[t]
  {
    forall t | 0 <= t < |Split(path, '/')| ensures '#' !in Split(path, '/')[t] {
      PartOfPath(path, t);
    }
  }

  lemma ReadFrom(s: string, path: string, number: string)
    requires '#' !in path && ReadParts(s, path, number) != ""
    ensures IsRef(s)
  {
    PartsOfPath(path);
    ParseIntBounded(number);
    RereadIsRef(s, ParseInt(number), Split(path, '/'));
  }

  /** Only an identity is read. */
  lemma ReadIsRef(s: string)
    requires PullRequestOf(s) != ""
    ensures IsRef(s)
  {
    var (path, number) := Cut(s, '#').value;
    ReadFrom(s, path, number);
  }

  /** And it is read as it stands. */
  lemma ReadUnchanged(s: string)
    ensures PullRequestOf(s) == "" || PullRequestOf(s) == s
  {
  }

  /** The reader accepts exactly what the writer writes. */
  lemma AcceptsExactlyRefs(s: string)
    ensures PullRequestOf(s) == (if IsRef(s) then s else "")
  {
    if IsRef(s) {
      var host, owner, repo, n :|
        Segment(host) && Segment(owner) && Segment(repo) && 0 < n <= MAX_INT && s == PullRequestRef(host, owner, repo, n);
      ReadsWhatIsWritten(host, owner, repo, n);
    }
    if PullRequestOf(s) != "" {
      ReadIsRef(s);
      ReadUnchanged(s);
    }
  }

  /** A part of a path without '#' has none. */
  lemma {:induction false} PartOfPath(path: string, t: nat)
    requires t < |Split(path, '/')| && '#' !in path
    ensures '#' !in Split(path, '/')[t]
    decreases |path|
  {
    match Cut(path, '/')
    case None =>
    case Some((head, tail)) =>
      assert '#' !in head && '#' !in tail;
      if t > 0 {
        PartOfPath(tail, t - 1);
      }
  }

  lemma DecimalInjective(a: nat, b: nat)
    requires Decimal(a) == Decimal(b)
    ensures a == b
  {
    ValueOfDecimal(a);
    ValueOfDecimal(b);
  }

  /** Two pull requests have one identity exactly when they are the same number of the same folded repository. */
  lemma SameRef(h1: string, o1: string, r1: string, n1: int, h2: string, o2: string, r2: string, n2: int)
    requires Segment(h1) && Segment(o1) && Segment(r1) && 0 < n1 <= MAX_INT
    requires Segment(h2) && Segment(o2) && Segment(r2) && 0 < n2 <= MAX_INT
    ensures PullRequestRef(h1, o1, r1, n1) == PullRequestRef(h2, o2, r2, n2) <==>
            EqualFold(h1, h2) && EqualFold(o1, o2) && EqualFold(r1, r2) && n1 == n2
  {
    RefParts(h1, o1, r1);
    RefParts(h2, o2, r2);
    if PullRequestRef(h1, o1, r1, n1) == PullRequestRef(h2, o2, r2, n2) {
      RefCut(h1, o1, r1, n1);
      RefCut(h2, o2, r2, n2);
      var a, b := [Lower(h1), Lower(o1), Lower(r1)], [Lower(h2), Lower(o2), Lower(r2)];
      assert a == b;
      assert a[0] == b[0] && a[1] == b[1] && a[2] == b[2];
      DecimalInjective(n1, n2);
    }
  }
}
