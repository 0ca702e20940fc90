/** Sums and prefix sums of integer sequences, the arithmetic vocabulary the
    partition planner is specified in. */
module Sums {

  /** Sum of all entries, peeled from the right so that `Sum(s[..n+1])`
      unfolds to `Sum(s[..n]) + s[n]`. */
  function Sum(s: seq<int>): int
  {
    if |s| == 0 then 0 else Sum(s[..|s| - 1]) + s[|s| - 1]
  }

  /** `std::min` on `int`. */
  function Min(a: int, b: int): int
  {
    if a <= b then a else b
  }

  predicate AllNonNegative(s: seq<int>)
  {
    forall i :: 0 <= i < |s| ==> s[i] >= 0
  }

  /** One more element of the prefix adds that element. */
  lemma SumPrefixStep(s: seq<int>, n: int)
    requires 0 <= n < |s|
    ensures Sum(s[..n + 1]) == Sum(s[..n]) + s[n]
  {
    assert s[..n + 1][..n] == s[..n];
  }

  /** The prefix of full length is the whole sequence. */
  lemma SumFullPrefix(s: seq<int>)
    ensures Sum(s[..|s|]) == Sum(s)
  {
    assert s[..|s|] == s;
  }

  /** With non-negative entries, longer prefixes never have smaller sums. */
  lemma {:induction false} PrefixSumMonotone(s: seq<int>, i: int, j: int)
    requires AllNonNegative(s)
    requires 0 <= i <= j <= |s|
    ensures Sum(s[..i]) <= Sum(s[..j])
    decreases j - i
  {
    if i < j {
      PrefixSumMonotone(s, i, j - 1);
      SumPrefixStep(s, j - 1);
    }
  }

  /** Entry-wise scaling by `k` scales the sum by `k`. */
  lemma {:induction false} SumScaled(s: seq<int>, t: seq<int>, k: int)
    requires |s| == |t|
    requires forall i :: 0 <= i < |s| ==> t[i] == s[i] * k
    ensures Sum(t) == Sum(s) * k
    decreases |s|
  {
    if |s| > 0 {
      var n := |s| - 1;
      SumScaled(s[..n], t[..n], k);
      assert Sum(t) == Sum(s[..n]) * k + s[n] * k;
    }
  }
}
