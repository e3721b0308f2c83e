/** The little of string handling the identities and scopes below rest on. Letters are ASCII letters. */
module Text {
  import opened Oracle

  /** The largest number an int holds. */
  const MAX_INT := 0x7fff_ffff_ffff_ffff

  function LowerChar(c: char): char {
    if 'A' <= c <= 'Z' then c - 'A' + 'a' else c
  }

  function Lower(s: string): (l: string)
    ensures |l| == |s|
    ensures forall i :: 0 <= i < |s| ==> l[i] == LowerChar(s[i])
  {
    seq(|s|, i requires 0 <= i < |s| => LowerChar(s[i]))
  }

  lemma LowerConcat(a: string, b: string)
    ensures Lower(a + b) == Lower(a) + Lower(b)
  {
  }

  lemma LowerTwice(s: string)
    ensures Lower(Lower(s)) == Lower(s)
  {
  }

  /** Where c first occurs in s, or |s|. */
  function Index(s: string, c: char): (i: nat)
    ensures i <= |s| && c !in s[..i] && (i < |s| ==> s[i] == c)
  {
    if s == "" || s[0] == c then 0
    else
      var i := Index(s[1..], c);
      assert s[..i + 1] == [s[0]] + s[1..][..i];
      i + 1
  }

  lemma CutAt(head: string, tail: string, c: char)
    requires c !in head
    ensures Cut(head + [c] + tail, c) == Some((head, tail))
  {
    var s := head + [c] + tail;
    assert s[..|head|] == head && s[|head|] == c && s[|head| + 1..] == tail;
    IndexUnique(s, c, |head|);
  }

  lemma {:induction false} IndexUnique(s: string, c: char, i: nat)
    requires i < |s| && s[i] == c && c !in s[..i]
    ensures Index(s, c) == i
  {
    if i > 0 {
      assert s[..i] == [s[0]] + s[1..][..i - 1];
      IndexUnique(s[1..], c, i - 1);
    }
  }

  /** s cut at the first c: what comes before it and what comes after. */
  function Cut(s: string, c: char): (cut: Option<(string, string)>)
    ensures cut.None? <==> c !in s
    ensures cut.Some? ==> s == cut.value.0 + [c] + cut.value.1 && c !in cut.value.0
  {
    var i := Index(s, c);
    if i == |s| then
      assert s[..i] == s;
      None
    else
      assert s[i] in s;
      Some((s[..i], s[i + 1..]))
  }

  /** s cut at every c. */
  function Split(s: string, c: char): (parts: seq<string>)
    ensures |parts| >= 1
    ensures forall t :: 0 <= t < |parts| ==> c !in parts[t]
    ensures c in s <==> |parts| > 1
    decreases |s|
  {
    match Cut(s, c)
    case None => [s]
    case Some((head, tail)) => [head] + Split(tail, c)
  }

  /** The parts put back with c between them. */
  function Join(parts: seq<string>, c: char): string {
    if parts == [] then "" else if |parts| == 1 then parts[0] else parts[0] + [c] + Join(parts[1..], c)
  }

  lemma JoinCons(head: string, parts: seq<string>, c: char)
    requires parts != []
    ensures Join([head] + parts, c) == head + [c] + Join(parts, c)
  {
    assert ([head] + parts)[1..] == parts;
  }

  /** Putting the parts of a string back gives the string. */
  lemma {:induction false} JoinSplit(s: string, c: char)
    ensures Join(Split(s, c), c) == s
    decreases |s|
  {
    match Cut(s, c)
    case None =>
    case Some((head, tail)) =>
      JoinSplit(tail, c);
      JoinCons(head, Split(tail, c), c);
  }

  /** Cutting a join of parts without c gives the parts. */
  lemma {:induction false} SplitJoin(parts: seq<string>, c: char)
    requires parts != [] && forall t :: 0 <= t < |parts| ==> c !in parts[t]
    ensures Split(Join(parts, c), c) == parts
    decreases |parts|
  {
    var s := Join(parts, c);
    if |parts| == 1 {
      assert Split(s, c) == [s];
      assert parts == [parts[0]];
    } else {
      CutAt(parts[0], Join(parts[1..], c), c);
      SplitJoin(parts[1..], c);
      assert parts == [parts[0]] + parts[1..];
    }
  }

  /** Two strings equal when letter case is ignored. */
  predicate EqualFold(a: string, b: string) {
    Lower(a) == Lower(b)
  }
}
