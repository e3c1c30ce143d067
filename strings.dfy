/** Substring, prefix and list-of-links predicates shared by the Java services and the Go client. */
module Strings {

  /** A copy of pat starts at position i of s. */
  predicate OccursAt(s: string, pat: string, i: nat) {
    i + |pat| <= |s| && s[i..i + |pat|] == pat
  }

  /** pat occurs somewhere in s (Java's String.contains). */
  predicate Occurs(s: string, pat: string) {
    exists i: nat | i <= |s| :: OccursAt(s, pat, i)
  }

  /** s begins with p (Java's String.startsWith). */
  predicate StartsWith(s: string, p: string) {
    |p| <= |s| && s[..|p|] == p
  }

  /** No link appears twice. */
  predicate NoDuplicates(s: seq<string>) {
    forall i, j :: 0 <= i < j < |s| ==> s[i] != s[j]
  }

  /** a is b with some elements left out and the rest in their order. */
  predicate SubseqOf(a: seq<string>, b: seq<string>)
    decreases |b|
  {
    if b == [] then a == []
    else (a != [] && a[0] == b[0] && SubseqOf(a[1..], b[1..])) || SubseqOf(a, b[1..])
  }

  lemma {:induction false} SubseqOfSelf(a: seq<string>)
    ensures SubseqOf(a, a)
  {
    if a != [] {
      SubseqOfSelf(a[1..]);
    }
  }

  /** Splicing one element out leaves a subsequence. */
  lemma {:induction false} SubseqOfSplice(s: seq<string>, i: nat)
    requires i < |s|
    ensures SubseqOf(s[..i] + s[i + 1..], s)
  {
    if i == 0 {
      assert s[..i] + s[i + 1..] == s[1..];
      SubseqOfSelf(s[1..]);
    } else {
      SubseqOfSplice(s[1..], i - 1);
      var a := s[..i] + s[i + 1..];
      assert a[0] == s[0];
      assert a[1..] == s[1..][..i - 1] + s[1..][i..];
    }
  }

  lemma {:induction false} SubseqOfTrans(a: seq<string>, b: seq<string>, c: seq<string>)
    requires SubseqOf(a, b) && SubseqOf(b, c)
    ensures SubseqOf(a, c)
    decreases |c|
  {
    if c != [] {
      if SubseqOf(b, c[1..]) {
        SubseqOfTrans(a, b, c[1..]);
      } else {
        assert b != [] && b[0] == c[0] && SubseqOf(b[1..], c[1..]);
        if a != [] && a[0] == b[0] && SubseqOf(a[1..], b[1..]) {
          SubseqOfTrans(a[1..], b[1..], c[1..]);
        } else {
          SubseqOfTrans(a, b[1..], c[1..]);
        }
      }
    }
  }

  /**
   * The candidates not yet seen, each at its first occurrence, in the order of
   * the candidates: what appending "if not already present" adds to a list.
   */
  function Fresh(seen: seq<string>, cands: seq<string>): (r: seq<string>)
    ensures forall x :: x in r <==> x in cands && x !in seen
    ensures NoDuplicates(r)
    ensures SubseqOf(r, cands)
    decreases |cands|
  {
    if cands == [] then []
    else if cands[0] in seen then Fresh(seen, cands[1..])
    else
      var rest := Fresh(seen + [cands[0]], cands[1..]);
      var r := [cands[0]] + rest;
      assert r[1..] == rest;
      assert cands[0] !in rest;
      assert forall i, j :: 0 < i < j < |r| ==> r[i] == rest[i - 1] && r[j] == rest[j - 1];
      r
  }
}
