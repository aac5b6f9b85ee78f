/**
  Sorting by a count, largest first. pandas' default sort is not stable, so
  what is promised about a sorted table is only that it is a permutation of
  its input whose counts never increase; the order among equal counts is not.
 */
module Ordering {
  import opened Counting

  ghost predicate NonIncreasing<T>(s: seq<T>, key: T -> nat) {
    forall i, j :: 0 <= i < j < |s| ==> key(s[i]) >= key(s[j])
  }

  /** Inserts x into a table already sorted by key, before the first entry whose key is not larger. */
  function Insert<T>(x: T, s: seq<T>, key: T -> nat): (r: seq<T>)
    requires NonIncreasing(s, key)
    ensures NonIncreasing(r, key)
    ensures multiset(r) == multiset(s) + multiset{x}
    ensures |r| == |s| + 1
  {
    if s == [] || key(x) >= key(s[0]) then [x] + s
    else
      var tail := Insert(x, s[1..], key);
      assert s == [s[0]] + s[1..];
      assert multiset(tail) == multiset(s[1..] + [x]);
      BoundedPermutation(tail, s[1..] + [x], key, key(s[0]));
      [s[0]] + tail
  }

  /** A permutation of a table whose keys are all at most b has all its keys at most b. */
  lemma BoundedPermutation<T>(t: seq<T>, u: seq<T>, key: T -> nat, b: nat)
    requires multiset(t) == multiset(u)
    requires forall k :: 0 <= k < |u| ==> key(u[k]) <= b
    ensures forall k :: 0 <= k < |t| ==> key(t[k]) <= b
  {
    forall k | 0 <= k < |t|
      ensures key(t[k]) <= b
    {
      assert t[k] in multiset(u);
      var m :| 0 <= m < |u| && u[m] == t[k];
    }
  }

  /** An insertion sort by key, largest first: one of the orders pandas' `sort_values(ascending=False)` may produce. */
  function SortDesc<T>(s: seq<T>, key: T -> nat): (r: seq<T>)
    ensures NonIncreasing(r, key)
    ensures multiset(r) == multiset(s)
    ensures |r| == |s|
  {
    if s == [] then []
    else
      assert s == [s[0]] + s[1..];
      Insert(s[0], SortDesc(s[1..], key), key)
  }

  /** Sorting neither adds nor drops a value. */
  lemma SortSameElements<T>(s: seq<T>, key: T -> nat)
    ensures forall x :: x in SortDesc(s, key) <==> x in s
  {
    var r := SortDesc(s, key);
    forall x
      ensures x in r <==> x in s
    {
      assert x in r <==> x in multiset(r);
      assert x in s <==> x in multiset(s);
    }
  }

  /** The total of key over s. */
  function SumBy<T>(s: seq<T>, key: T -> nat): nat {
    if s == [] then 0 else SumBy(s[..|s| - 1], key) + key(s[|s| - 1])
  }

  lemma {:induction false} SumByPrepend<T>(x: T, s: seq<T>, key: T -> nat)
    ensures SumBy([x] + s, key) == key(x) + SumBy(s, key)
    decreases |s|
  {
    if s != [] {
      var front := s[..|s| - 1];
      SumByPrepend(x, front, key);
      assert ([x] + s)[..|s|] == [x] + front;
    }
  }

  lemma {:induction false} SumByInsert<T>(x: T, s: seq<T>, key: T -> nat)
    requires NonIncreasing(s, key)
    ensures SumBy(Insert(x, s, key), key) == key(x) + SumBy(s, key)
    decreases |s|
  {
    SumByPrepend(x, s, key);
    if s != [] && key(x) < key(s[0]) {
      var tail := Insert(x, s[1..], key);
      assert Insert(x, s, key) == [s[0]] + tail;
      SumByInsert(x, s[1..], key);
      SumByPrepend(s[0], tail, key);
      SumByPrepend(s[0], s[1..], key);
      assert [s[0]] + s[1..] == s;
    }
  }

  /** Sorting keeps the total of the sorted-on counts. */
  lemma {:induction false} SumBySort<T>(s: seq<T>, key: T -> nat)
    ensures SumBy(SortDesc(s, key), key) == SumBy(s, key)
    decreases |s|
  {
    if s != [] {
      SumBySort(s[1..], key);
      SumByInsert(s[0], SortDesc(s[1..], key), key);
      SumByPrepend(s[0], s[1..], key);
      assert [s[0]] + s[1..] == s;
    }
  }

  /** A permutation of a sequence without repeated values has none either. */
  lemma SortKeepsNoDups<T>(s: seq<T>, key: T -> nat)
    requires NoDups(s)
    ensures NoDups(SortDesc(s, key))
  {
    var r := SortDesc(s, key);
    forall i, j | 0 <= i < j < |r|
      ensures r[i] != r[j]
    {
      if r[i] == r[j] {
        RepeatCountsTwice(r, i, j);
        NoDupsCountAtMostOne(s, r[i]);
      }
    }
  }

  /** A value at two positions of r occurs at least twice in r's multiset. */
  lemma RepeatCountsTwice<T>(r: seq<T>, i: nat, j: nat)
    requires i < j < |r| && r[i] == r[j]
    ensures multiset(r)[r[i]] >= 2
  {
    assert r == r[..j] + r[j..];
    assert r[i] == r[..j][i];
    assert r[j] == r[j..][0];
    assert multiset(r) == multiset(r[..j]) + multiset(r[j..]);
  }

  lemma {:induction false} NoDupsCountAtMostOne<T>(s: seq<T>, x: T)
    requires NoDups(s)
    ensures multiset(s)[x] <= 1
    decreases |s|
  {
    if s != [] {
      var tail := s[1..];
      assert s == [s[0]] + tail;
      NoDupsCountAtMostOne(tail, x);
      if s[0] == x {
        assert x !in tail by {
          forall k | 0 <= k < |tail| ensures tail[k] != x {
            assert s[k + 1] == tail[k];
          }
        }
      }
    }
  }
}
