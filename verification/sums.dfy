/** Python's `sum()` over integer and real sequences, as left folds, with the
    facts about them that the fitness and aggregation code relies on. */
module Sums {

  /** `sum(xs)` for a list of integers, folded from the left as Python does. */
  function SumInt(xs: seq<int>): int
    decreases |xs|
  {
    if |xs| == 0 then 0 else SumInt(xs[..|xs| - 1]) + xs[|xs| - 1]
  }

  /** `sum(xs)` for a list of floats (modelled as exact reals). */
  function SumReal(xs: seq<real>): real
    decreases |xs|
  {
    if |xs| == 0 then 0.0 else SumReal(xs[..|xs| - 1]) + xs[|xs| - 1]
  }

  /** The sum of a concatenation is the sum of the parts. */
  lemma {:induction false} SumRealConcat(xs: seq<real>, ys: seq<real>)
    ensures SumReal(xs + ys) == SumReal(xs) + SumReal(ys)
    decreases |ys|
  {
    if |ys| == 0 {
      assert xs + ys == xs;
    } else {
      var init := ys[..|ys| - 1];
      assert (xs + ys)[..|xs + ys| - 1] == xs + init;
      SumRealConcat(xs, init);
    }
  }

  /** A sum of values in [lo, hi] lies between |xs|*lo and |xs|*hi. */
  lemma {:induction false} SumRealBounds(xs: seq<real>, lo: real, hi: real)
    requires forall i :: 0 <= i < |xs| ==> lo <= xs[i] <= hi
    ensures (|xs| as real) * lo <= SumReal(xs) <= (|xs| as real) * hi
    decreases |xs|
  {
    if |xs| > 0 {
      var n := (|xs| - 1) as real;
      SumRealBounds(xs[..|xs| - 1], lo, hi);
      assert (|xs| as real) * lo == n * lo + lo;
      assert (|xs| as real) * hi == n * hi + hi;
    }
  }

  /** A sum of integers each at most `hi`, counted in the reals, is at most
      `|xs| * hi`. */
  lemma {:induction false} SumIntAtMost(xs: seq<int>, hi: int)
    requires forall i :: 0 <= i < |xs| ==> xs[i] <= hi
    ensures SumInt(xs) as real <= (|xs| as real) * (hi as real)
    decreases |xs|
  {
    if |xs| > 0 {
      var n := |xs| as real;
      SumIntAtMost(xs[..|xs| - 1], hi);
      assert n * (hi as real) == (n - 1.0) * (hi as real) + hi as real;
    }
  }

  /** A sum of non-negative reals is non-negative. */
  lemma {:induction false} SumRealNonNegative(xs: seq<real>)
    requires forall i :: 0 <= i < |xs| ==> 0.0 <= xs[i]
    ensures 0.0 <= SumReal(xs)
    decreases |xs|
  {
    if |xs| > 0 {
      SumRealNonNegative(xs[..|xs| - 1]);
    }
  }
}
