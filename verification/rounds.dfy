/** Schedules made of rounds. */
module Rounds {
  function Flat<T>(rounds: seq<seq<T>>): seq<T> {
    if rounds == [] then [] else rounds[0] + Flat(rounds[1..])
  }

  lemma {:induction false} FlatSplit<T>(rounds: seq<seq<T>>, i: nat)
    requires i <= |rounds|
    ensures Flat(rounds) == Flat(rounds[..i]) + Flat(rounds[i..])
  {
    if i > 0 {
      assert rounds[..i][1..] == rounds[1..][..i - 1] && rounds[i..] == rounds[1..][i - 1..];
      FlatSplit(rounds[1..], i - 1);
    } else {
      assert rounds[i..] == rounds;
    }
  }
}
