/** JavaScript's default `sort` on an array of strings, as insertion sort under
    the lexicographic order of module Strings. With a total order the sorted
    permutation of a list is unique, so any sorting algorithm gives this result. */
module Sorting {
  import opened Strings

  predicate Sorted(s: seq<string>) {
    forall i, j :: 0 <= i < j < |s| ==> LexLe(s[i], s[j])
  }

  function Insert(x: string, s: seq<string>): seq<string> {
    if s == [] then [x]
    else if LexLe(x, s[0]) then [x] + s
    else [s[0]] + Insert(x, s[1..])
  }

  /** A sorted list stays sorted when an element no larger than all of it goes in front. */
  lemma ConsSorted(y: string, t: seq<string>)
    requires Sorted(t)
    requires forall k :: 0 <= k < |t| ==> LexLe(y, t[k])
    ensures Sorted([y] + t)
  {
    var r := [y] + t;
    forall i, j | 0 <= i < j < |r| ensures LexLe(r[i], r[j]) {
      if i == 0 {
        assert r[j] == t[j - 1];
      } else {
        assert r[i] == t[i - 1] && r[j] == t[j - 1];
      }
    }
  }

  /** Inserting into a sorted list keeps it sorted and adds exactly `x`. */
  lemma {:induction false} InsertSorted(x: string, s: seq<string>)
    requires Sorted(s)
    ensures Sorted(Insert(x, s))
    ensures multiset(Insert(x, s)) == multiset(s) + multiset{x}
  {
    if s == [] {
    } else if LexLe(x, s[0]) {
      forall k | 0 <= k < |s| ensures LexLe(x, s[k]) {
        if k > 0 {
          LexLeTransitive(x, s[0], s[k]);
        }
      }
      ConsSorted(x, s);
    } else {
      var t := Insert(x, s[1..]);
      InsertSorted(x, s[1..]);
      LexLeTotal(x, s[0]);
      assert s == [s[0]] + s[1..];
      forall k | 0 <= k < |t| ensures LexLe(s[0], t[k]) {
        assert t[k] in multiset(t);
        if t[k] != x {
          assert t[k] in multiset(s[1..]);
          var m :| 0 <= m < |s[1..]| && s[1..][m] == t[k];
          assert s[m + 1] == t[k];
        }
      }
      ConsSorted(s[0], t);
    }
  }

  function Sort(s: seq<string>): (r: seq<string>)
    ensures Sorted(r)
    ensures multiset(r) == multiset(s)
  {
    if s == [] then []
    else
      var rest := Sort(s[1..]);
      InsertSorted(s[0], rest);
      assert s == [s[0]] + s[1..];
      Insert(s[0], rest)
  }

  /** Prefixing every string of a list with `p`. */
  function Prefixed(p: string, s: seq<string>): (r: seq<string>)
    ensures |r| == |s|
    ensures forall i {:trigger r[i]} :: 0 <= i < |s| ==> r[i] == p + s[i]
  {
    if s == [] then [] else [p + s[0]] + Prefixed(p, s[1..])
  }

  /** `p + f` is among the prefixed strings exactly when `f` is among the originals. */
  lemma InPrefixed(p: string, s: seq<string>, f: string)
    ensures p + f in Prefixed(p, s) <==> f in s
  {
    if p + f in Prefixed(p, s) {
      var i :| 0 <= i < |s| && Prefixed(p, s)[i] == p + f;
      assert (p + f)[|p|..] == f && (p + s[i])[|p|..] == s[i];
    }
  }

  lemma PrefixedAppend(p: string, s: seq<string>, t: seq<string>)
    ensures Prefixed(p, s + t) == Prefixed(p, s) + Prefixed(p, t)
  {
  }

  /** A common prefix does not change where an element is inserted. */
  lemma {:induction false} InsertPrefixed(p: string, x: string, s: seq<string>)
    ensures Insert(p + x, Prefixed(p, s)) == Prefixed(p, Insert(x, s))
  {
    if s != [] {
      LexLeCommonPrefix(p, x, s[0]);
      assert Prefixed(p, s)[1..] == Prefixed(p, s[1..]);
      if !LexLe(x, s[0]) {
        InsertPrefixed(p, x, s[1..]);
      }
    }
  }

  /** Sorting after prefixing gives the same list as prefixing after sorting. */
  lemma {:induction false} SortPrefixed(p: string, s: seq<string>)
    ensures Sort(Prefixed(p, s)) == Prefixed(p, Sort(s))
  {
    if s != [] {
      var ps := Prefixed(p, s);
      assert ps[0] == p + s[0];
      assert ps[1..] == Prefixed(p, s[1..]);
      SortPrefixed(p, s[1..]);
      InsertPrefixed(p, s[0], Sort(s[1..]));
    }
  }
}
