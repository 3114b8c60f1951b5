/**
 Sums of multisets over a sequence, and the fact that such a sum does not
 depend on the order of the sequence. The merge stages fold task results in
 completion order; this is what makes their outcome order-independent.
 */
module Bags {

  /** The union, with multiplicities, of `f(x)` over the elements of `s`. */
  ghost function BagSum<T, U>(s: seq<T>, f: T -> multiset<U>): multiset<U>
    decreases |s|
  {
    if |s| == 0 then multiset{} else BagSum(s[..|s| - 1], f) + f(s[|s| - 1])
  }

  lemma {:induction false} BagSumConcat<T, U>(a: seq<T>, b: seq<T>, f: T -> multiset<U>)
    ensures BagSum(a + b, f) == BagSum(a, f) + BagSum(b, f)
    decreases |b|
  {
    if |b| == 0 {
      assert a + b == a;
    } else {
      assert (a + b)[..|a + b| - 1] == a + b[..|b| - 1];
      BagSumConcat(a, b[..|b| - 1], f);
    }
  }

  /** Taking out one element takes out exactly its contribution. */
  lemma BagSumRemove<T, U>(a: seq<T>, i: nat, f: T -> multiset<U>)
    requires i < |a|
    ensures BagSum(a, f) == BagSum(a[..i] + a[i + 1..], f) + f(a[i])
  {
    assert a == a[..i] + [a[i]] + a[i + 1..];
    BagSumConcat(a[..i] + [a[i]], a[i + 1..], f);
    BagSumConcat(a[..i], [a[i]], f);
    BagSumConcat(a[..i], a[i + 1..], f);
    assert BagSum([a[i]], f) == f(a[i]) by {
      assert [a[i]][..0] == [];
    }
  }

  /** Two orderings of the same elements have the same sum. */
  lemma {:induction false} BagSumPermutation<T, U>(a: seq<T>, b: seq<T>, f: T -> multiset<U>)
    requires multiset(a) == multiset(b)
    ensures BagSum(a, f) == BagSum(b, f)
    decreases |b|
  {
    if |b| > 0 {
      var x := b[|b| - 1];
      var b' := b[..|b| - 1];
      assert b == b' + [x];
      assert x in multiset(a);
      var i :| 0 <= i < |a| && a[i] == x;
      var a' := a[..i] + a[i + 1..];
      assert a == a[..i] + [a[i]] + a[i + 1..];
      assert multiset(a') == multiset(a) - multiset{x};
      assert multiset(b') == multiset(b) - multiset{x};
      BagSumPermutation(a', b', f);
      BagSumRemove(a, i, f);
    } else {
      assert |a| == |multiset(a)|;
    }
  }
}
