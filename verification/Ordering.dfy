/** The order of strings, and sorting a set of them. */
module Ordering {

  /** a comes strictly before b, character by character. */
  predicate Before(a: string, b: string) {
    if b == "" then false
    else if a == "" then true
    else a[0] < b[0] || (a[0] == b[0] && Before(a[1..], b[1..]))
  }

  /** Where a and b first differ a's character is the smaller, or a is all of b's beginning. */
  ghost predicate FirstDiffers(a: string, b: string, n: nat) {
    n <= |a| && n < |b| && a[..n] == b[..n] && (n < |a| ==> a[n] < b[n])
  }

  /** One string comes before another exactly when it is a proper beginning of it, or smaller where they first differ. */
  lemma {:induction false} BeforeExactly(a: string, b: string)
    ensures Before(a, b) <==> exists n: nat :: FirstDiffers(a, b, n)
  {
    if b != "" {
      if a == "" {
        assert FirstDiffers(a, b, 0);
      } else {
        BeforeExactly(a[1..], b[1..]);
        if a[0] < b[0] { assert FirstDiffers(a, b, 0); }
        if a[0] == b[0] && Before(a[1..], b[1..]) {
          var n: nat :| FirstDiffers(a[1..], b[1..], n);
          assert a[..n + 1] == [a[0]] + a[1..][..n] && b[..n + 1] == [b[0]] + b[1..][..n];
          assert FirstDiffers(a, b, n + 1);
        }
        if n: nat :| FirstDiffers(a, b, n) {
          DiffersLater(a, b, n);
        }
      }
    }
  }

  lemma DiffersLater(a: string, b: string, n: nat)
    requires a != "" && FirstDiffers(a, b, n)
    ensures a[0] < b[0] || (a[0] == b[0] && exists m: nat :: FirstDiffers(a[1..], b[1..], m))
  {
    if n > 0 {
      assert a[0] == a[..n][0] && b[0] == b[..n][0];
      assert a[1..][..n - 1] == a[..n][1..] && b[1..][..n - 1] == b[..n][1..];
      assert FirstDiffers(a[1..], b[1..], n - 1);
    }
  }

  lemma {:induction false} BeforeIrreflexive(a: string)
    ensures !Before(a, a)
  {
    if a != "" { BeforeIrreflexive(a[1..]); }
  }

  lemma {:induction false} BeforeTransitive(a: string, b: string, c: string)
    requires Before(a, b) && Before(b, c)
    ensures Before(a, c)
  {
    if a != "" && a[0] == b[0] && b[0] == c[0] {
      BeforeTransitive(a[1..], b[1..], c[1..]);
    }
  }

  lemma {:induction false} BeforeTotal(a: string, b: string)
    ensures a == b || Before(a, b) || Before(b, a)
  {
    if a != "" && b != "" && a[0] == b[0] {
      BeforeTotal(a[1..], b[1..]);
      assert a == [a[0]] + a[1..] && b == [b[0]] + b[1..];
    }
  }

  ghost predicate Ascending(s: seq<string>) {
    forall i, j :: 0 <= i < j < |s| ==> Before(s[i], s[j])
  }

  /** A sorted list holds each of its strings once and is the only one holding exactly those. */
  lemma {:induction false} AscendingUnique(s: seq<string>, t: seq<string>)
    requires Ascending(s) && Ascending(t) && (forall x :: x in s <==> x in t)
    ensures s == t
  {
    assert forall i :: 0 <= i < |s| ==> s[i] in t;
    assert forall i :: 0 <= i < |t| ==> t[i] in s;
    if s != [] && t != [] {
      AscendingHead(s, t);
      AscendingHead(t, s);
      if Before(s[0], t[0]) { BeforeTransitive(s[0], t[0], s[0]); BeforeIrreflexive(s[0]); }
      assert s[0] == t[0] by { BeforeTotal(s[0], t[0]); BeforeIrreflexive(s[0]); }
      forall x ensures x in s[1..] <==> x in t[1..] {
        if x in s[1..] || x in t[1..] {
          assert x in s && x in t;
          BeforeIrreflexive(s[0]);
        }
      }
      AscendingUnique(s[1..], t[1..]);
      assert s == [s[0]] + s[1..] && t == [t[0]] + t[1..];
    }
  }

  lemma AscendingHead(s: seq<string>, t: seq<string>)
    requires Ascending(s) && s != [] && t != [] && (forall x :: x in t ==> x in s)
    ensures s[0] == t[0] || Before(s[0], t[0])
  {
    assert t[0] in s;
  }

  method LeastOf(s: set<string>) returns (m: string)
    requires s != {}
    ensures m in s && forall x :: x in s && x != m ==> Before(m, x)
  {
    m :| m in s;
    var left := s - {m};
    while left != {}
      invariant left <= s && m in s && m !in left
      invariant forall x :: x in s && x !in left && x != m ==> Before(m, x)
      decreases left
    {
      var y :| y in left;
      BeforeTotal(m, y);
      if Before(y, m) {
        forall x | x in s && x !in left - {y} && x != y ensures Before(y, x) {
          if x != m {
            BeforeTransitive(y, m, x);
          }
        }
        m := y;
      }
      left := left - {y};
    }
  }

  /** The strings of a set in ascending order, whatever order the set yields them in. */
  method Sorted(s: set<string>) returns (out: seq<string>)
    ensures Ascending(out)
    ensures forall x :: x in out <==> x in s
  {
    out := [];
    var left := s;
    while left != {}
      invariant left <= s && Ascending(out)
      invariant forall x :: x in out <==> x in s && x !in left
      invariant forall x, y :: x in out && y in left ==> Before(x, y)
      decreases left
    {
      var m := LeastOf(left);
      out := out + [m];
      left := left - {m};
    }
  }
}
