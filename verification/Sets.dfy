/** Sizes of finite sets. */
module Sets {

  lemma {:induction false} SubsetSize<T>(a: set<T>, b: set<T>)
    requires a <= b
    ensures |a| <= |b|
  {
    assert b == a + (b - a);
  }

  /** The numbers from `i` up to `j`, without `j`. */
  function Interval(i: nat, j: nat): (r: set<nat>)
    ensures forall k :: k in r <==> i <= k < j
    ensures i <= j ==> |r| == j - i
    decreases j
  {
    if j <= i then {} else Interval(i, j - 1) + {j - 1}
  }
}
