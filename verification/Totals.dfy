/** Sums over sequences, as measures of what is left to do. */
module Totals {
  function Total(ranks: seq<nat>): nat {
    if ranks == [] then 0 else Total(ranks[..|ranks| - 1]) + ranks[|ranks| - 1]
  }

  lemma {:induction false} TotalUpdate(ranks: seq<nat>, t: nat, rank: nat)
    requires t < |ranks|
    ensures Total(ranks[t := rank]) == Total(ranks) - ranks[t] + rank
  {
    var last := |ranks| - 1;
    if t == last {
      assert ranks[t := rank][..last] == ranks[..last];
    } else {
      assert ranks[t := rank][..last] == ranks[..last][t := rank];
      TotalUpdate(ranks[..last], t, rank);
    }
  }
}
