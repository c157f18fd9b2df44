/** Weighted sums over sequences: every counter of the delivery model is one of these. */
module Sums {

  /** The total weight of the elements of `s`. */
  ghost function Sum<T>(s: seq<T>, weight: T -> int): int {
    if s == [] then 0 else Sum(s[..|s| - 1], weight) + weight(s[|s| - 1])
  }

  lemma SumAppend<T>(s: seq<T>, x: T, weight: T -> int)
    ensures Sum(s + [x], weight) == Sum(s, weight) + weight(x)
  {
    assert (s + [x])[..|s|] == s;
  }

  lemma {:induction false} SumUpdate<T>(s: seq<T>, i: nat, x: T, weight: T -> int)
    requires i < |s|
    ensures Sum(s[i := x], weight) == Sum(s, weight) - weight(s[i]) + weight(x)
  {
    var n := |s| - 1;
    if i == n {
      assert s[i := x][..n] == s[..n];
    } else {
      assert s[i := x][..n] == s[..n][i := x];
      SumUpdate(s[..n], i, x, weight);
    }
  }

  /** A sum of 0/1 weights lies between 0 and the length. */
  lemma {:induction false} SumBounds<T>(s: seq<T>, weight: T -> int)
    requires forall x :: x in s ==> 0 <= weight(x) <= 1
    ensures 0 <= Sum(s, weight) <= |s|
  {
    if s != [] {
      SumBounds(s[..|s| - 1], weight);
    }
  }

  /** One element of weight zero leaves room for at most |s| - 1. */
  lemma {:induction false} SumBelow<T>(s: seq<T>, i: nat, weight: T -> int)
    requires i < |s| && weight(s[i]) == 0
    requires forall x :: x in s ==> 0 <= weight(x) <= 1
    ensures 0 <= Sum(s, weight) <= |s| - 1
  {
    var n := |s| - 1;
    if i < n {
      SumBelow(s[..n], i, weight);
    } else {
      SumBounds(s[..n], weight);
    }
  }

  /** A sum of non-negative weights is at least each of its terms. */
  lemma {:induction false} SumAtLeast<T>(s: seq<T>, i: nat, weight: T -> int)
    requires i < |s|
    requires forall x :: x in s ==> 0 <= weight(x)
    ensures Sum(s, weight) >= weight(s[i])
    ensures Sum(s, weight) >= 0
  {
    var n := |s| - 1;
    if i < n {
      SumAtLeast(s[..n], i, weight);
    } else {
      SumNonNegative(s[..n], weight);
    }
  }

  lemma {:induction false} SumNonNegative<T>(s: seq<T>, weight: T -> int)
    requires forall x :: x in s ==> 0 <= weight(x)
    ensures Sum(s, weight) >= 0
  {
    if s != [] {
      SumNonNegative(s[..|s| - 1], weight);
    }
  }

  lemma {:induction false} SumZero<T>(s: seq<T>, weight: T -> int)
    requires forall x :: x in s ==> weight(x) == 0
    ensures Sum(s, weight) == 0
  {
    if s != [] {
      SumZero(s[..|s| - 1], weight);
    }
  }

  lemma {:induction false} SumPlus<T>(s: seq<T>, f: T -> int, g: T -> int, h: T -> int)
    requires forall x :: x in s ==> h(x) == f(x) + g(x)
    ensures Sum(s, h) == Sum(s, f) + Sum(s, g)
  {
    if s != [] {
      SumPlus(s[..|s| - 1], f, g, h);
    }
  }

  lemma {:induction false} SumCapped<T>(s: seq<T>, weight: T -> int, cap: nat)
    requires forall x :: x in s ==> weight(x) <= cap
    ensures Sum(s, weight) <= cap * |s|
  {
    if s != [] {
      SumCapped(s[..|s| - 1], weight, cap);
    }
  }
}
