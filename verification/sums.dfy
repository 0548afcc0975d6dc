/** Sums over the threads of a program, and how they follow a change of one of them. */
module Sums {
  function Sum(xs: seq<int>): int {
    if xs == [] then 0 else xs[0] + Sum(xs[1..])
  }

  lemma {:induction false} SumUpdate(xs: seq<int>, t: nat, v: int)
    requires t < |xs|
    ensures Sum(xs[t := v]) == Sum(xs) - xs[t] + v
  {
    if t == 0 {
      assert xs[t := v][1..] == xs[1..];
    } else {
      assert xs[t := v][1..] == xs[1..][t - 1 := v];
      SumUpdate(xs[1..], t - 1, v);
    }
  }

  lemma {:induction false} SumZero(xs: seq<int>)
    requires forall t :: 0 <= t < |xs| ==> xs[t] == 0
    ensures Sum(xs) == 0
  {
    if xs != [] { SumZero(xs[1..]); }
  }

  lemma {:induction false} SumNonNegative(xs: seq<int>)
    requires forall t :: 0 <= t < |xs| ==> xs[t] >= 0
    ensures Sum(xs) >= 0
    ensures forall t :: 0 <= t < |xs| ==> xs[t] <= Sum(xs)
  {
    if xs != [] {
      SumNonNegative(xs[1..]);
      assert forall t :: 1 <= t < |xs| ==> xs[t] == xs[1..][t - 1];
    }
  }
}
