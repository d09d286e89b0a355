/**
 Finite sums over sequences of reals, and the fact that such a sum does not
 depend on the order of its terms. The aggregator's weighted sums and weight
 totals are instances of these.
 */
module Sums {

  /** The sum of a sequence of reals, first element first. */
  function Sum(xs: seq<real>): real
  {
    if |xs| == 0 then 0.0 else xs[0] + Sum(xs[1..])
  }

  /** The sum of `f` over the elements of `s`, first element first. */
  function SumBy<T>(s: seq<T>, f: T -> real): real
  {
    if |s| == 0 then 0.0 else f(s[0]) + SumBy(s[1..], f)
  }

  /** Taking one term out of a sum: the rest of the sequence keeps its order. */
  lemma {:induction false} SumByRemove<T>(s: seq<T>, f: T -> real, k: nat)
    requires k < |s|
    ensures SumBy(s, f) == f(s[k]) + SumBy(s[..k] + s[k + 1..], f)
  {
    if k == 0 {
      assert s[..0] + s[1..] == s[1..];
    } else {
      var rest := s[..k] + s[k + 1..];
      SumByRemove(s[1..], f, k - 1);
      assert rest[0] == s[0];
      assert rest[1..] == s[1..][..k - 1] + s[1..][k..];
    }
  }

  /** A sum is the same over any reordering of its terms. */
  lemma {:induction false} SumByPermutation<T>(a: seq<T>, b: seq<T>, f: T -> real)
    requires multiset(a) == multiset(b)
    ensures SumBy(a, f) == SumBy(b, f)
  {
    if |a| == 0 {
      assert |b| == |multiset(b)| == 0;
    } else {
      var k := PermutationTail(a, b);
      SumByPermutation(a[1..], b[..k] + b[k + 1..], f);
      SumByRemove(b, f, k);
    }
  }

  /** Removing the element at index `k` removes one occurrence of it from the multiset. */
  lemma MultisetRemove<T>(s: seq<T>, k: nat)
    requires k < |s|
    ensures multiset(s[..k] + s[k + 1..]) == multiset(s) - multiset{s[k]}
  {
    assert s == s[..k] + [s[k]] + s[k + 1..];
    assert multiset(s) == multiset(s[..k]) + multiset{s[k]} + multiset(s[k + 1..]);
  }

  /** The first element of `a` sits at some index `k` of its permutation
      `b`, and the rest of `a` is a permutation of `b` without index `k`. */
  lemma PermutationTail<T>(a: seq<T>, b: seq<T>) returns (k: nat)
    requires |a| > 0 && multiset(a) == multiset(b)
    ensures k < |b| && b[k] == a[0]
    ensures multiset(a[1..]) == multiset(b[..k] + b[k + 1..])
  {
    assert a[0] in multiset(b);
    k :| 0 <= k < |b| && b[k] == a[0];
    MultisetRemove(b, k);
    MultisetRemove(a, 0);
    assert a[..0] + a[1..] == a[1..];
  }
}
