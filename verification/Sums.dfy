/** Sums and counts over sequences: the bookkeeping the thread models share. */
module Sums {

  /** The sum of `f` over the elements of `xs`. */
  ghost function Sum<T>(xs: seq<T>, f: T -> nat): nat {
    if |xs| == 0 then 0 else Sum(xs[..|xs| - 1], f) + f(xs[|xs| - 1])
  }

  /** Replacing one element moves the sum by the difference of its weights. */
  lemma {:induction false} SumUpdate<T>(xs: seq<T>, i: nat, v: T, f: T -> nat)
    requires i < |xs|
    ensures Sum(xs[i := v], f) + f(xs[i]) == Sum(xs, f) + f(v)
  {
    var n := |xs| - 1;
    if i == n {
      assert xs[i := v][..n] == xs[..n];
    } else {
      assert xs[i := v][..n] == xs[..n][i := v];
      SumUpdate(xs[..n], i, v, f);
    }
  }

  /** One element never outweighs the whole sum. */
  lemma {:induction false} SumAtLeast<T>(xs: seq<T>, i: nat, f: T -> nat)
    requires i < |xs|
    ensures f(xs[i]) <= Sum(xs, f)
  {
    if i < |xs| - 1 {
      SumAtLeast(xs[..|xs| - 1], i, f);
    }
  }

  /** A positive sum has an element of positive weight. */
  lemma {:induction false} SumWitness<T>(xs: seq<T>, f: T -> nat) returns (i: nat)
    requires Sum(xs, f) > 0
    ensures i < |xs| && f(xs[i]) > 0
  {
    if f(xs[|xs| - 1]) > 0 {
      i := |xs| - 1;
    } else {
      i := SumWitness(xs[..|xs| - 1], f);
    }
  }

  /** A sum with a constant weight is a product. */
  lemma {:induction false} SumConstant<T>(xs: seq<T>, f: T -> nat, c: nat)
    requires forall i :: 0 <= i < |xs| ==> f(xs[i]) == c
    ensures Sum(xs, f) == |xs| * c
  {
    if |xs| > 0 {
      SumConstant(xs[..|xs| - 1], f, c);
    }
  }
}
