/** The store's `.sort({createdAt: -1})`: records ordered newest first by a timestamp key. */
module Ordering {
  import opened Common

  /** Timestamps never increase from one record to the next. */
  predicate NewestFirst<T>(s: seq<T>, key: T -> int) {
    forall i :: 0 < i < |s| ==> key(s[i - 1]) >= key(s[i])
  }

  /** The step-wise order is the order between any two positions. */
  lemma {:induction false} NewestFirstPairwise<T>(s: seq<T>, key: T -> int, i: int, j: int)
    requires NewestFirst(s, key)
    requires 0 <= i <= j < |s|
    ensures key(s[i]) >= key(s[j])
    decreases j - i
  {
    if i < j {
      NewestFirstPairwise(s, key, i, j - 1);
    }
  }

  /** A record no older than the head of a newest-first list can go in front of it. */
  lemma NewestFirstCons<T>(h: T, t: seq<T>, key: T -> int)
    requires NewestFirst(t, key)
    requires t != [] ==> key(h) >= key(t[0])
    ensures NewestFirst([h] + t, key)
  {
    var r := [h] + t;
    forall i | 0 < i < |r| ensures key(r[i - 1]) >= key(r[i]) {
      if i > 1 {
        assert r[i - 1] == t[i - 2] && r[i] == t[i - 1];
      }
    }
  }

  /** Places `x` in front of the first record that is not newer than it. */
  function InsertNewest<T>(x: T, s: seq<T>, key: T -> int): (r: seq<T>)
    requires NewestFirst(s, key)
    ensures NewestFirst(r, key)
    ensures multiset(r) == multiset(s) + multiset{x}
    ensures r[0] == x || (s != [] && r[0] == s[0])
    decreases |s|
  {
    if s == [] || key(s[0]) <= key(x) then
      NewestFirstCons(x, s, key);
      [x] + s
    else
      var tl := s[1..];
      assert NewestFirst(tl, key) by {
        forall i | 0 < i < |tl| ensures key(tl[i - 1]) >= key(tl[i]) {
          assert tl[i - 1] == s[i] && tl[i] == s[i + 1];
        }
      }
      var t := InsertNewest(x, tl, key);
      assert tl != [] ==> key(s[0]) >= key(tl[0]);
      NewestFirstCons(s[0], t, key);
      assert s == [s[0]] + tl;
      assert multiset([s[0]] + t) == multiset{s[0]} + multiset(t);
      assert multiset(s) == multiset{s[0]} + multiset(tl);
      [s[0]] + t
  }

  /** A newest-first arrangement of the records of `s` (an insertion sort). */
  function SortNewestFirst<T>(s: seq<T>, key: T -> int): (r: seq<T>)
    ensures NewestFirst(r, key)
    ensures multiset(r) == multiset(s)
    ensures |r| == |s|
    decreases |s|
  {
    if s == [] then []
    else
      var r := InsertNewest(s[0], SortNewestFirst(s[1..], key), key);
      assert s == [s[0]] + s[1..];
      assert |r| == |multiset(r)| == |multiset(s)| == |s|;
      r
  }

  /** A query with a filter and a newest-first sort: exactly the records of `s` that satisfy
      `p`, each as often as in `s`, newest first. */
  function SelectNewest<T(==,!new)>(s: seq<T>, p: T -> bool, key: T -> int): (r: seq<T>)
    ensures NewestFirst(r, key)
    ensures forall x :: multiset(r)[x] == if p(x) then multiset(s)[x] else 0
    ensures forall x :: x in r ==> x in s && p(x)
    ensures forall i :: 0 <= i < |s| && p(s[i]) ==> s[i] in r
  {
    var f := Filter(s, p);
    FilterMultiset(s, p);
    var r := SortNewestFirst(f, key);
    forall x | x in r
      ensures x in s && p(x)
    {
      assert multiset(r)[x] > 0;
    }
    forall i | 0 <= i < |s| && p(s[i])
      ensures s[i] in r
    {
      assert multiset(s)[s[i]] > 0;
      assert multiset(r)[s[i]] > 0;
    }
    r
  }
}
