/** Sums of counts. */
module Sums {
  ghost function Sum(c: seq<nat>): nat {
    if c == [] then 0 else Sum(c[..|c| - 1]) + c[|c| - 1]
  }

  lemma {:induction false} SumSet(c: seq<nat>, p: nat, v: nat)
    requires p < |c|
    ensures Sum(c[p := v]) == Sum(c) - c[p] + v
  {
    if p == |c| - 1 {
      assert c[p := v][..|c| - 1] == c[..|c| - 1];
    } else {
      SumSet(c[..|c| - 1], p, v);
      assert c[p := v][..|c| - 1] == c[..|c| - 1][p := v];
    }
  }

  lemma {:induction false} SumMonotone(c: seq<nat>, d: seq<nat>)
    requires |c| == |d| && forall k | 0 <= k < |c| :: d[k] <= c[k]
    ensures Sum(d) <= Sum(c)
  {
    if c != [] {
      SumMonotone(c[..|c| - 1], d[..|d| - 1]);
    }
  }
}
