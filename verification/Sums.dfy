/** Sums over sequences of naturals, and how they change with one element. */
module Sums {

  function Sum(xs: seq<nat>): nat {
    if xs == [] then 0 else Sum(xs[..|xs| - 1]) + xs[|xs| - 1]
  }

  lemma {:induction false} SumUpdate(xs: seq<nat>, i: nat, v: nat)
    requires i < |xs|
    ensures Sum(xs[i := v]) + xs[i] == Sum(xs) + v
  {
    var init := xs[..|xs| - 1];
    if i == |xs| - 1 {
      assert xs[i := v][..|xs| - 1] == init;
    } else {
      SumUpdate(init, i, v);
      assert xs[i := v][..|xs| - 1] == init[i := v];
    }
  }

  lemma {:induction false} SumOfOneHot(xs: seq<nat>, at: nat, v: nat)
    requires forall k | 0 <= k < |xs| :: xs[k] == if k == at then v else 0
    ensures Sum(xs) == if at < |xs| then v else 0
  {
    if xs == [] {
    } else {
      SumOfOneHot(xs[..|xs| - 1], at, v);
    }
  }

  /** A sum of ones and zeros reaches the length only when every element is one. */
  lemma {:induction false} SumOfFlags(xs: seq<nat>)
    requires forall k | 0 <= k < |xs| :: xs[k] <= 1
    ensures Sum(xs) <= |xs|
    ensures Sum(xs) == |xs| <==> forall k | 0 <= k < |xs| :: xs[k] == 1
    ensures Sum(xs) == 0 <==> forall k | 0 <= k < |xs| :: xs[k] == 0
  {
    if xs == [] {
    } else {
      SumOfFlags(xs[..|xs| - 1]);
    }
  }
}
