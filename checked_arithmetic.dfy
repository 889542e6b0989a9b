/** `Enumerable.Sum` over `int`: the running total is checked and overflow throws. */
module CheckedArithmetic {
  import opened Wrappers
  import opened ScoringTypes

  /** The mathematical sum. */
  function Sum(xs: seq<int>): int
  {
    if xs == [] then 0 else Sum(xs[..|xs| - 1]) + xs[|xs| - 1]
  }

  predicate InInt32(x: int)
  {
    MinInt32 <= x <= MaxInt32
  }

  /** Adds left to right; None when a running total leaves the range of `int`. */
  function CheckedSum(xs: seq<Int32>): (r: Option<Int32>)
    ensures r.Some? ==> r.value == Sum(xs)
    ensures r.None? <==> exists k :: 0 < k <= |xs| && !InInt32(Sum(xs[..k]))
  {
    if xs == [] then Some(0)
    else
      var init := xs[..|xs| - 1];
      assert forall k :: 0 < k <= |init| ==> init[..k] == xs[..k];
      assert xs[..|xs|] == xs;
      match CheckedSum(init)
      case None => None
      case Some(total) =>
        var next := total + xs[|xs| - 1];
        if InInt32(next) then Some(next) else None
  }

  /** A sum of terms between 0 and b is between 0 and |xs| * b. */
  lemma {:induction false} SumBounds(xs: seq<int>)
    requires forall i :: 0 <= i < |xs| ==> 0 <= xs[i]
    ensures 0 <= Sum(xs)
    ensures forall k :: 0 <= k <= |xs| ==> Sum(xs[..k]) <= Sum(xs)
  {
    if xs != [] {
      var init := xs[..|xs| - 1];
      SumBounds(init);
      assert forall k :: 0 <= k <= |init| ==> init[..k] == xs[..k];
      assert xs[..|xs|] == xs;
    }
  }

  /** Termwise smaller non-negative terms give a smaller sum. */
  lemma {:induction false} SumMonotone(xs: seq<int>, ys: seq<int>)
    requires |xs| == |ys|
    requires forall i :: 0 <= i < |xs| ==> xs[i] <= ys[i]
    ensures Sum(xs) <= Sum(ys)
  {
    if xs != [] {
      SumMonotone(xs[..|xs| - 1], ys[..|ys| - 1]);
    }
  }
}
