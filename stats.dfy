/**
 * The NumPy aggregates the tag analytics use, over exact reals: `np.mean`,
 * `np.max`, `np.min`, `np.std` (population, kept as its square) and `np.diff`.
 */
module Stats {

  function Sum(xs: seq<real>): real {
    if xs == [] then 0.0 else Sum(xs[..|xs| - 1]) + xs[|xs| - 1]
  }

  /** `np.mean` */
  function Mean(xs: seq<real>): real
    requires xs != []
  {
    Sum(xs) / |xs| as real
  }

  /** The mean of a single value is that value. */
  lemma MeanOfOne(xs: seq<real>)
    requires |xs| == 1
    ensures Mean(xs) == xs[0]
  {
    assert Sum(xs) == Sum(xs[..0]) + xs[0];
  }

  /** `np.max`: an element, and no element is larger. */
  function Max(xs: seq<real>): (m: real)
    requires xs != []
    ensures exists i :: 0 <= i < |xs| && xs[i] == m
    ensures forall i :: 0 <= i < |xs| ==> xs[i] <= m
  {
    if |xs| == 1 then xs[0]
    else
      var prior := Max(xs[..|xs| - 1]);
      assert forall i :: 0 <= i < |xs| - 1 ==> xs[..|xs| - 1][i] == xs[i];
      if xs[|xs| - 1] > prior then xs[|xs| - 1] else prior
  }

  /** `np.min`: an element, and no element is smaller. */
  function Min(xs: seq<real>): (m: real)
    requires xs != []
    ensures exists i :: 0 <= i < |xs| && xs[i] == m
    ensures forall i :: 0 <= i < |xs| ==> m <= xs[i]
  {
    if |xs| == 1 then xs[0]
    else
      var prior := Min(xs[..|xs| - 1]);
      assert forall i :: 0 <= i < |xs| - 1 ==> xs[..|xs| - 1][i] == xs[i];
      if xs[|xs| - 1] < prior then xs[|xs| - 1] else prior
  }

  /** The sum of squared deviations from `m`. */
  function SquaredDeviations(xs: seq<real>, m: real): (r: real)
    ensures r >= 0.0
  {
    if xs == [] then 0.0
    else
      var d := xs[|xs| - 1] - m;
      assert d * d >= 0.0 by {
        if d < 0.0 { assert d * d == (-d) * (-d); }
      }
      SquaredDeviations(xs[..|xs| - 1], m) + d * d
  }

  /**
   * The square of `np.std(xs)` (NumPy's default divides by `len(xs)`). A
   * standard deviation is compared with a threshold `c >= 0` through
   * `Variance(xs) > c * c`, which holds exactly when `np.std(xs) > c`.
   */
  function Variance(xs: seq<real>): (v: real)
    requires xs != []
    ensures v >= 0.0
  {
    SquaredDeviations(xs, Mean(xs)) / |xs| as real
  }

  function Abs(x: real): real {
    if x < 0.0 then -x else x
  }

  /** `np.abs` */
  function AbsAll(xs: seq<real>): (r: seq<real>)
    ensures |r| == |xs|
  {
    seq(|xs|, i requires 0 <= i < |xs| => Abs(xs[i]))
  }

  /** `np.diff`: the difference of each element and the one before it. */
  function Diff(xs: seq<real>): (d: seq<real>)
    ensures |d| == if xs == [] then 0 else |xs| - 1
  {
    if |xs| <= 1 then [] else seq(|xs| - 1, i requires 0 <= i < |xs| - 1 => xs[i + 1] - xs[i])
  }

  /** The differences telescope: they add up to the last element minus the first. */
  lemma {:induction false} SumDiff(xs: seq<real>)
    requires xs != []
    ensures Sum(Diff(xs)) == xs[|xs| - 1] - xs[0]
    decreases |xs|
  {
    if |xs| > 1 {
      var init := xs[..|xs| - 1];
      SumDiff(init);
      assert Diff(xs)[..|xs| - 2] == Diff(init);
    }
  }

  /** Values that are all the same have that value as their mean. */
  lemma {:induction false} SumConstant(xs: seq<real>, c: real)
    requires forall i :: 0 <= i < |xs| ==> xs[i] == c
    ensures Sum(xs) == |xs| as real * c
    decreases |xs|
  {
    if xs != [] {
      SumConstant(xs[..|xs| - 1], c);
    }
  }

  lemma {:induction false} SquaredDeviationsConstant(xs: seq<real>, c: real)
    requires forall i :: 0 <= i < |xs| ==> xs[i] == c
    ensures SquaredDeviations(xs, c) == 0.0
    decreases |xs|
  {
    if xs != [] {
      SquaredDeviationsConstant(xs[..|xs| - 1], c);
    }
  }

  /** Values that are all the same do not vary: `np.std` is zero. */
  lemma VarianceConstant(xs: seq<real>, c: real)
    requires xs != [] && forall i :: 0 <= i < |xs| ==> xs[i] == c
    ensures Mean(xs) == c && Variance(xs) == 0.0
  {
    SumConstant(xs, c);
    SquaredDeviationsConstant(xs, c);
  }

  /** Comparing a quotient with `c` is comparing the dividend with `c` times the divisor. */
  lemma DivCompare(a: real, n: real, c: real)
    requires n > 0.0
    ensures a / n > c <==> a > c * n
    ensures a / n < c <==> a < c * n
    ensures a / n >= c <==> a >= c * n
    ensures a / n <= c <==> a <= c * n
  {
    var q := a / n;
    assert a == q * n;
    assert q > c ==> q * n > c * n;
    assert q < c ==> q * n < c * n;
    assert q == c ==> q * n == c * n;
  }

  lemma {:induction false} SumBetween(xs: seq<real>, lo: real, hi: real)
    requires forall i :: 0 <= i < |xs| ==> lo <= xs[i] <= hi
    ensures lo * |xs| as real <= Sum(xs) <= hi * |xs| as real
    decreases |xs|
  {
    if xs != [] {
      SumBetween(xs[..|xs| - 1], lo, hi);
    }
  }

  /** A total between `n` times two bounds has its average between them. */
  lemma QuotientBetween(sum: real, n: real, lo: real, hi: real)
    requires n > 0.0 && lo * n <= sum <= hi * n
    ensures lo <= sum / n <= hi
  {
    DivCompare(sum, n, lo);
    DivCompare(sum, n, hi);
  }

  /** The mean lies between the smallest and the largest value. */
  lemma MeanBetween(xs: seq<real>)
    requires xs != []
    ensures Min(xs) <= Mean(xs) <= Max(xs)
  {
    SumBetween(xs, Min(xs), Max(xs));
    QuotientBetween(Sum(xs), |xs| as real, Min(xs), Max(xs));
  }
}
