/**
  Occurrence counts and first-occurrence de-duplication: the arithmetic behind
  `nunique`, `groupby(...).count` and `value_counts`.
 */
module Counting {

  /** No value occurs twice in s. */
  ghost predicate NoDups<T>(s: seq<T>) {
    forall i, j :: 0 <= i < j < |s| ==> s[i] != s[j]
  }

  /** The number of positions of xs that hold x. */
  function Occ<T(==)>(xs: seq<T>, x: T): (n: nat)
    ensures n <= |xs|
    ensures n == 0 <==> x !in xs
  {
    if xs == [] then 0
    else Occ(xs[..|xs| - 1], x) + (if xs[|xs| - 1] == x then 1 else 0)
  }

  /** The distinct values of xs, each once, in the order of their first occurrence. */
  function Distinct<T(==)>(xs: seq<T>): (d: seq<T>)
    ensures NoDups(d)
    ensures forall k :: 0 <= k < |d| ==> d[k] in xs
    ensures forall k :: 0 <= k < |xs| ==> xs[k] in d
    ensures |d| <= |xs|
  {
    if xs == [] then []
    else
      var front := Distinct(xs[..|xs| - 1]);
      var last := xs[|xs| - 1];
      if last in front then front else front + [last]
  }

  /** The total of the occurrence counts in xs of the keys ks. */
  function SumOcc<T(==)>(xs: seq<T>, ks: seq<T>): nat {
    if ks == [] then 0
    else SumOcc(xs, ks[..|ks| - 1]) + Occ(xs, ks[|ks| - 1])
  }

  /** Appending x to xs adds one to the total exactly when x is one of the (distinct) keys. */
  lemma {:induction false} SumOccAppend<T>(xs: seq<T>, x: T, ks: seq<T>)
    requires NoDups(ks)
    ensures SumOcc(xs + [x], ks) == SumOcc(xs, ks) + (if x in ks then 1 else 0)
    decreases |ks|
  {
    assert (xs + [x])[..|xs|] == xs;
    if ks != [] {
      var front := ks[..|ks| - 1];
      SumOccAppend(xs, x, front);
      assert ks == front + [ks[|ks| - 1]];
      assert x == ks[|ks| - 1] ==> x !in front;
    }
  }

  /** Counting every value of xs against distinct keys that cover xs accounts for all of xs. */
  lemma {:induction false} SumOccCovers<T>(xs: seq<T>, ks: seq<T>)
    requires NoDups(ks)
    requires forall k :: 0 <= k < |xs| ==> xs[k] in ks
    ensures SumOcc(xs, ks) == |xs|
    decreases |xs|
  {
    if xs == [] {
      SumOccOfEmpty(xs, ks);
    } else {
      var front := xs[..|xs| - 1];
      SumOccCovers(front, ks);
      SumOccAppend(front, xs[|xs| - 1], ks);
      assert front + [xs[|xs| - 1]] == xs;
    }
  }

  lemma {:induction false} SumOccOfEmpty<T>(xs: seq<T>, ks: seq<T>)
    requires xs == []
    ensures SumOcc(xs, ks) == 0
    decreases |ks|
  {
    if ks != [] {
      SumOccOfEmpty(xs, ks[..|ks| - 1]);
    }
  }

  /** The distinct values of xs account for every position of xs. */
  lemma SumOccDistinct<T>(xs: seq<T>)
    ensures SumOcc(xs, Distinct(xs)) == |xs|
  {
    SumOccCovers(xs, Distinct(xs));
  }
}
