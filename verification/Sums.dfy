/** Credit amounts in flight, added up. */
module Sums {
  function Sum(ns: seq<int>): int {
    if ns == [] then 0 else ns[0] + Sum(ns[1..])
  }

  lemma {:induction false} SumConcat(a: seq<int>, b: seq<int>)
    ensures Sum(a + b) == Sum(a) + Sum(b)
    decreases |a|
  {
    if a == [] {
      assert a + b == b;
    } else {
      SumConcat(a[1..], b);
      assert (a + b)[1..] == a[1..] + b;
    }
  }

  lemma {:induction false} SumAtLeast(ns: seq<int>)
    requires forall i :: 0 <= i < |ns| ==> ns[i] >= 1
    ensures Sum(ns) >= |ns|
    decreases |ns|
  {
    if ns != [] {
      SumAtLeast(ns[1..]);
    }
  }
}
