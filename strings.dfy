/** Case-insensitive suffix matching and the ordering JavaScript's default
    `Array.prototype.sort` uses for strings. */
module Strings {

  /** ASCII lower-casing of one character; every other character is kept.
      A case-insensitive regular expression without the `u` flag folds only
      ASCII letters onto the ASCII letters of the pattern. */
  function LowerChar(c: char): char {
    if 'A' <= c <= 'Z' then (c as int + 32) as char else c
  }

  function Lower(s: string): (r: string)
    ensures |r| == |s|
    ensures forall i :: 0 <= i < |s| ==> r[i] == LowerChar(s[i])
  {
    seq(|s|, i requires 0 <= i < |s| => LowerChar(s[i]))
  }

  /** `s` ends with `suffix`, letters compared without regard to case.
      `suffix` is written in lower case, as the allow-list is. */
  predicate EndsWithIgnoringCase(s: string, suffix: string) {
    |suffix| <= |s| && Lower(s[|s| - |suffix|..]) == suffix
  }

  /** Position `i` of a case-insensitive suffix match, one character at a time. */
  lemma EndsWithAt(s: string, suffix: string, i: nat)
    requires EndsWithIgnoringCase(s, suffix) && i < |suffix|
    ensures LowerChar(s[|s| - |suffix| + i]) == suffix[i]
  {
    assert Lower(s[|s| - |suffix|..])[i] == suffix[i];
  }

  /** Lower-casing commutes with taking a suffix. */
  lemma LowerSuffix(s: string, k: nat)
    requires k <= |s|
    ensures Lower(s[k..]) == Lower(s)[k..]
  {
  }

  /** Two names that agree up to case agree on every case-insensitive suffix test. */
  lemma EndsWithIgnoresCase(s: string, t: string, suffix: string)
    requires Lower(s) == Lower(t)
    ensures EndsWithIgnoringCase(s, suffix) == EndsWithIgnoringCase(t, suffix)
  {
    if |suffix| <= |s| {
      LowerSuffix(s, |s| - |suffix|);
      LowerSuffix(t, |t| - |suffix|);
    }
  }

  /** Lexicographic order on strings, a proper prefix sorting first: the order of
      JavaScript's default `sort` on strings. */
  predicate LexLe(a: string, b: string)
    decreases |a|
  {
    |a| == 0 || (|b| > 0 && (a[0] < b[0] || (a[0] == b[0] && LexLe(a[1..], b[1..]))))
  }

  lemma {:induction false} LexLeReflexive(a: string)
    ensures LexLe(a, a)
    decreases |a|
  {
    if |a| > 0 {
      LexLeReflexive(a[1..]);
    }
  }

  lemma {:induction false} LexLeTotal(a: string, b: string)
    ensures LexLe(a, b) || LexLe(b, a)
    decreases |a|
  {
    if |a| > 0 && |b| > 0 && a[0] == b[0] {
      LexLeTotal(a[1..], b[1..]);
    }
  }

  lemma {:induction false} LexLeAntisymmetric(a: string, b: string)
    requires LexLe(a, b) && LexLe(b, a)
    ensures a == b
    decreases |a|
  {
    if |a| > 0 {
      LexLeAntisymmetric(a[1..], b[1..]);
      assert a == [a[0]] + a[1..];
      assert b == [b[0]] + b[1..];
    }
  }

  lemma {:induction false} LexLeTransitive(a: string, b: string, c: string)
    requires LexLe(a, b) && LexLe(b, c)
    ensures LexLe(a, c)
    decreases |a|
  {
    if |a| > 0 && a[0] == b[0] && b[0] == c[0] {
      LexLeTransitive(a[1..], b[1..], c[1..]);
    }
  }

  /** A common prefix does not change how two strings compare. */
  lemma {:induction false} LexLeCommonPrefix(p: string, a: string, b: string)
    ensures LexLe(p + a, p + b) == LexLe(a, b)
    decreases |p|
  {
    if |p| > 0 {
      assert (p + a)[0] == p[0] == (p + b)[0];
      assert (p + a)[1..] == p[1..] + a;
      assert (p + b)[1..] == p[1..] + b;
      LexLeCommonPrefix(p[1..], a, b);
      assert LexLe(p + a, p + b) == LexLe(p[1..] + a, p[1..] + b);
    } else {
      assert p + a == a && p + b == b;
    }
  }
}
