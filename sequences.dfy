/** Library sequence operations the source relies on: `sorted(by:)`, key order, subsequences. */
module Sequences {

  ghost predicate SortedBy<T>(s: seq<T>, key: T -> real)
  {
    forall i, j | 0 <= i < j < |s| :: key(s[i]) <= key(s[j])
  }

  ghost predicate DistinctKeys<T>(s: seq<T>, key: T -> real)
  {
    forall i, j | 0 <= i < j < |s| :: key(s[i]) != key(s[j])
  }

  ghost predicate Distinct<K>(s: seq<K>)
  {
    forall i, j | 0 <= i < j < |s| :: s[i] != s[j]
  }

  /** Index of the first element of `s` whose key is not smaller than that of `x`. */
  function InsertionPoint<T>(x: T, s: seq<T>, key: T -> real): (k: nat)
    requires SortedBy(s, key)
    ensures k <= |s|
    ensures forall i | 0 <= i < k :: key(s[i]) < key(x)
    ensures forall i | k <= i < |s| :: key(x) <= key(s[i])
  {
    if |s| == 0 || key(x) <= key(s[0]) then 0
    else 1 + InsertionPoint(x, s[1..], key)
  }

  /** Inserts `x` before the first element whose key is not smaller. */
  function InsertBy<T>(x: T, s: seq<T>, key: T -> real): (r: seq<T>)
    requires SortedBy(s, key)
    ensures SortedBy(r, key)
    ensures multiset(r) == multiset(s) + multiset{x}
    ensures |r| == |s| + 1
  {
    var k := InsertionPoint(x, s, key);
    assert s == s[..k] + s[k..];
    s[..k] + [x] + s[k..]
  }

  /** A stable insertion sort by an ascending key: the model of `sorted { key($0) < key($1) }`. */
  function SortBy<T>(s: seq<T>, key: T -> real): (r: seq<T>)
    ensures SortedBy(r, key)
    ensures multiset(r) == multiset(s)
    ensures |r| == |s|
  {
    if |s| == 0 then []
    else
      assert s == [s[0]] + s[1..];
      InsertBy(s[0], SortBy(s[1..], key), key)
  }

  lemma InsertKeepsDistinctKeys<T>(x: T, s: seq<T>, key: T -> real)
    requires SortedBy(s, key) && DistinctKeys(s, key)
    requires forall y | y in s :: key(y) != key(x)
    ensures DistinctKeys(InsertBy(x, s, key), key)
  {
    var k := InsertionPoint(x, s, key);
    var r := InsertBy(x, s, key);
    assert forall i | 0 <= i < |r| :: (i < k ==> r[i] == s[i]) && (i == k ==> r[i] == x) && (i > k ==> r[i] == s[i - 1]);
  }

  /** Sorting a sequence whose keys are pairwise different keeps them pairwise different. */
  lemma {:induction false} SortKeepsDistinctKeys<T>(s: seq<T>, key: T -> real)
    requires DistinctKeys(s, key)
    ensures DistinctKeys(SortBy(s, key), key)
  {
    if |s| > 0 {
      var tail := SortBy(s[1..], key);
      SortKeepsDistinctKeys(s[1..], key);
      forall y | y in tail ensures key(y) != key(s[0]) {
        assert y in multiset(tail);
        var j :| 0 <= j < |s[1..]| && s[1..][j] == y;
        assert s[j + 1] == y;
      }
      InsertKeepsDistinctKeys(s[0], tail, key);
    }
  }

  /** The keys of `s` in order of first appearance: a fixed order for a Swift dictionary. */
  function FirstAppearance(s: seq<int>): (r: seq<int>)
    ensures Distinct(r)
    ensures forall k :: k in r <==> k in s
  {
    if |s| == 0 then []
    else
      var p := FirstAppearance(s[..|s| - 1]);
      assert forall k :: k in s <==> k in s[..|s| - 1] || k == s[|s| - 1] by {
        assert s == s[..|s| - 1] + [s[|s| - 1]];
      }
      if s[|s| - 1] in p then p else p + [s[|s| - 1]]
  }

  /** `a` is `b` with some elements left out, the rest in their original order. */
  ghost predicate IsSubsequence<T>(a: seq<T>, b: seq<T>)
    decreases |b|
  {
    |a| == 0 ||
    (|b| > 0 &&
      ((a[|a| - 1] == b[|b| - 1] && IsSubsequence(a[..|a| - 1], b[..|b| - 1])) ||
       IsSubsequence(a, b[..|b| - 1])))
  }

  lemma SubsequenceExtend<T>(a: seq<T>, b: seq<T>, x: T)
    requires IsSubsequence(a, b)
    ensures IsSubsequence(a, b + [x])
    ensures IsSubsequence(a + [x], b + [x])
  {
    assert (b + [x])[..|b|] == b;
    assert (a + [x])[..|a|] == a;
  }
}
