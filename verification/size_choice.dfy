/** The weighted choice of a message size: which entry a random number selects. */
module SizeChoice {
  import opened Basics

  /** The weight of the first i entries. */
  function Cumulative(weights: seq<int>, i: nat): int
    requires i <= |weights|
  {
    if i == 0 then 0 else Cumulative(weights, i - 1) + weights[i - 1]
  }

  /** Entry i is the first whose cumulative weight exceeds r. */
  predicate Picks(weights: seq<int>, r: nat, i: nat) {
    && i < |weights| && r < Cumulative(weights, i + 1)
    && forall j | 0 < j <= i :: Cumulative(weights, j) <= r
  }

  /** The loop; the return after it is never reached, whatever the signs of the weights. */
  method SelectIndex(weights: seq<int>, r: nat) returns (i: nat)
    requires r < Cumulative(weights, |weights|)
    ensures Picks(weights, r, i)
  {
    i := 0;
    var cumulative := 0;
    for k := 0 to |weights|
      invariant cumulative == Cumulative(weights, k)
      invariant forall j | 0 < j <= k :: Cumulative(weights, j) <= r
    {
      cumulative := cumulative + weights[k];
      if r < cumulative { return k; }
    }
    assert false;
  }

  ghost predicate NonNegative(weights: seq<int>) { forall i | 0 <= i < |weights| :: weights[i] >= 0 }

  lemma {:induction false} CumulativeGrows(weights: seq<int>, i: nat, k: nat)
    requires i <= k <= |weights| && NonNegative(weights)
    ensures Cumulative(weights, i) <= Cumulative(weights, k)
  {
    if i < k { CumulativeGrows(weights, i, k - 1); }
  }

  /** The random numbers below the total that select entry i. */
  ghost function Selecting(weights: seq<int>, i: nat): set<nat> {
    set r: nat | r < Cumulative(weights, |weights|) && Picks(weights, r, i)
  }

  lemma SelectingInterval(weights: seq<int>, i: nat, r: nat)
    requires i < |weights| && NonNegative(weights)
    ensures r in Selecting(weights, i) <==> Cumulative(weights, i) <= r < Cumulative(weights, i + 1)
  {
    CumulativeGrows(weights, i + 1, |weights|);
    if Cumulative(weights, i) <= r {
      forall j | 0 < j <= i ensures Cumulative(weights, j) <= r { CumulativeGrows(weights, j, i); }
    }
  }

  lemma SelectingSize(weights: seq<int>, i: nat)
    requires i < |weights| && NonNegative(weights)
    ensures |Selecting(weights, i)| == weights[i]
  {
    var lo, hi := Cumulative(weights, i), Cumulative(weights, i + 1);
    forall r: nat ensures r in Selecting(weights, i) <==> r in Span(lo - 1, hi - 1) {
      SelectingInterval(weights, i, r);
    }
    assert Selecting(weights, i) == Span(lo - 1, hi - 1);
    CumulativeGrows(weights, 0, i);
    SpanSize(lo - 1, hi - 1);
  }

  /** Every entry is chosen for exactly as many random numbers as its weight says, if and only if no
      weight is negative. */
  lemma ChoiceExactly(weights: seq<int>)
    ensures (forall i | 0 <= i < |weights| :: |Selecting(weights, i)| == weights[i]) <==> NonNegative(weights)
  {
    if NonNegative(weights) {
      forall i | 0 <= i < |weights| ensures |Selecting(weights, i)| == weights[i] { SelectingSize(weights, i); }
    }
  }
}
