/**
 * Python's ordering of file names (`sorted()` on paths of one directory):
 * lexicographic comparison by code point.
 */
module NameOrder {

  /** `a <= b` on Python strings. */
  predicate LexLe(a: string, b: string)
    decreases |a|
  {
    |a| == 0 || (|b| > 0 && (a[0] < b[0] || (a[0] == b[0] && LexLe(a[1..], b[1..]))))
  }

  lemma {:induction false} LexLeTotal(a: string, b: string)
    ensures LexLe(a, b) || LexLe(b, a)
    decreases |a|
  {
    if |a| > 0 && |b| > 0 && a[0] == b[0] {
      LexLeTotal(a[1..], b[1..]);
    }
  }

  lemma {:induction false} LexLeTransitive(a: string, b: string, c: string)
    requires LexLe(a, b) && LexLe(b, c)
    ensures LexLe(a, c)
    decreases |a|
  {
    if |a| > 0 && a[0] == b[0] && b[0] == c[0] {
      LexLeTransitive(a[1..], b[1..], c[1..]);
    }
  }

  predicate Sorted(s: seq<string>) {
    forall i, j :: 0 <= i < j < |s| ==> LexLe(s[i], s[j])
  }

  function Insert(x: string, s: seq<string>): (r: seq<string>)
    ensures multiset(r) == multiset(s) + multiset{x}
    ensures Sorted(s) ==> Sorted(r)
  {
    if |s| == 0 then [x]
    else if LexLe(x, s[0]) then
      var r := [x] + s;
      assert Sorted(s) ==> Sorted(r) by {
        if Sorted(s) { InsertFrontSorted(x, s); }
      }
      r
    else
      var tail := Insert(x, s[1..]);
      var r := [s[0]] + tail;
      assert s == [s[0]] + s[1..];
      assert Sorted(s) ==> Sorted(r) by {
        if Sorted(s) { InsertBehindSorted(x, s, tail); }
      }
      r
  }

  /** A name at most the first of a sorted list keeps it sorted when put in front. */
  lemma InsertFrontSorted(x: string, s: seq<string>)
    requires Sorted(s) && |s| > 0 && LexLe(x, s[0])
    ensures Sorted([x] + s)
  {
    var r := [x] + s;
    forall j | 0 < j < |r| ensures LexLe(x, r[j]) {
      if j > 1 { LexLeTransitive(x, s[0], s[j - 1]); }
    }
  }

  /** A sorted rearrangement of the rest plus a name after the head stays sorted behind the head. */
  lemma InsertBehindSorted(x: string, s: seq<string>, tail: seq<string>)
    requires Sorted(s) && |s| > 0 && !LexLe(x, s[0])
    requires Sorted(tail) && multiset(tail) == multiset(s[1..]) + multiset{x}
    ensures Sorted([s[0]] + tail)
  {
    LexLeTotal(x, s[0]);
    forall j | 0 <= j < |tail| ensures LexLe(s[0], tail[j]) {
      assert tail[j] in multiset(tail);
      if tail[j] != x {
        assert tail[j] in multiset(s[1..]);
        var k :| 0 <= k < |s[1..]| && s[1..][k] == tail[j];
        assert LexLe(s[0], s[k + 1]);
      }
    }
    var r := [s[0]] + tail;
    forall i, j | 0 <= i < j < |r| ensures LexLe(r[i], r[j]) {
      if i > 0 { assert r[i] == tail[i - 1] && r[j] == tail[j - 1]; }
    }
  }

  /** `sorted(names)`: an insertion sort, sorted and a permutation of its input. */
  function SortNames(s: seq<string>): (r: seq<string>)
    ensures Sorted(r)
    ensures multiset(r) == multiset(s)
  {
    if |s| == 0 then [] else
      assert s == s[..|s| - 1] + [s[|s| - 1]];
      Insert(s[|s| - 1], SortNames(s[..|s| - 1]))
  }

  /** The first sorted name is at most every name, the last at least every name. */
  lemma SortedEnds(s: seq<string>)
    requires |s| >= 1
    ensures var r := SortNames(s); |r| == |s| && forall x :: x in s ==> LexLe(r[0], x) && LexLe(x, r[|r| - 1])
  {
    var r := SortNames(s);
    assert |r| == |multiset(r)| == |multiset(s)| == |s|;
    forall x | x in s ensures LexLe(r[0], x) && LexLe(x, r[|r| - 1]) {
      assert x in multiset(s);
      assert x in multiset(r);
      var k :| 0 <= k < |r| && r[k] == x;
      if k > 0 { assert LexLe(r[0], r[k]); } else { LexLeTotal(x, x); }
      if k < |r| - 1 { assert LexLe(r[k], r[|r| - 1]); } else { LexLeTotal(x, x); }
    }
  }
}
