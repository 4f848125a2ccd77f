/** `shuffleArray` of shared.js: a Fisher–Yates shuffle of a copy of its
    input. The random numbers `Math.random()` would draw are passed in. */
module Shuffle {

  /** The swap partner chosen for position `i` from one draw `r` in [0, 1):
      `Math.floor(r * (i + 1))`, computed here on exact reals. */
  function SwapIndex(r: real, i: nat): (j: nat)
    requires 0.0 <= r < 1.0
    ensures j <= i
  {
    var n := (i + 1) as real;
    ScaledBelow(r, n);
    (r * n).Floor
  }

  /** A draw scaled by a positive bound stays in [0, bound). */
  lemma ScaledBelow(r: real, n: real)
    requires 0.0 <= r < 1.0 && n > 0.0
    ensures 0.0 <= r * n < n
  {
    assert n - r * n == (1.0 - r) * n;
    assert (1.0 - r) * n > 0.0;
  }

  /** Walks `i` from the last index down to 1, swapping `a[i]` with
      `a[SwapIndex(draws[k], i)]` where `k` counts the iterations so far. The
      argument itself is a value and cannot be changed. */
  method ShuffleArray<T>(arr: seq<T>, draws: seq<real>) returns (a: seq<T>)
    requires |arr| <= |draws| + 1
    requires forall k :: 0 <= k < |draws| ==> 0.0 <= draws[k] < 1.0
    ensures |a| == |arr|
    ensures multiset(a) == multiset(arr)
    ensures |arr| <= 1 ==> a == arr
  {
    a := arr;
    var i := |a| - 1;
    while i > 0
      invariant -1 <= i < |arr|
      invariant |a| == |arr|
      invariant multiset(a) == multiset(arr)
      invariant |arr| <= 1 ==> a == arr
      decreases i
    {
      var j := SwapIndex(draws[|arr| - 1 - i], i);
      var ai, aj := a[i], a[j];
      a := a[i := aj][j := ai];
      i := i - 1;
    }
  }
}
