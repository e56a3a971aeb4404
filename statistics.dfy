/** The statistics helpers of censo_qm/utilities.py over the reals: `pearson`,
    `spearman`, `calc_std_dev`, `calc_weighted_std_dev` and `isclose`.
    `math.sqrt` is a parameter; `IsSqrt` is all that is assumed of it. */
module Statistics {
  import opened Builtins
  import opened Sorting
  import opened Ranking

  /** What the model needs of `math.sqrt` on its domain. */
  ghost predicate IsSqrt(sqrt: real -> real)
  {
    forall x :: 0.0 <= x ==> 0.0 <= sqrt(x) && sqrt(x) * sqrt(x) == x
  }

  /** s[0] + ... + s[k-1]. */
  function SumTo(s: seq<real>, k: nat): real
    requires k <= |s|
  {
    if k == 0 then 0.0 else SumTo(s, k - 1) + s[k - 1]
  }

  /** `sum(s)`. */
  function Sum(s: seq<real>): real
  {
    SumTo(s, |s|)
  }

  /** The sum over i < k of `(s[i] - c) ** 2`. */
  function SqDev(s: seq<real>, c: real, k: nat): real
    requires k <= |s|
  {
    if k == 0 then 0.0 else SqDev(s, c, k - 1) + (s[k - 1] - c) * (s[k - 1] - c)
  }

  /** The sum over i < k of `a[i] * b[i]`. */
  function Dot(a: seq<real>, b: seq<real>, k: nat): real
    requires k <= |a| && k <= |b|
  {
    if k == 0 then 0.0 else Dot(a, b, k - 1) + a[k - 1] * b[k - 1]
  }

  predicate Constant(s: seq<real>)
  {
    forall i :: 0 <= i < |s| ==> s[i] == s[0]
  }

  /** `pearson(A, B)`.  The length of A is n; B is read at the indices of A and
      summed in full.  An empty A divides by zero at the mean and a one-element A at
      `1 / (n - 1)`, both outside the `try`; a B shorter than A raises IndexError in
      the numerator; a zero denominator is caught and gives 0.0. */
  function Pearson(a: seq<real>, b: seq<real>, sqrt: real -> real): (r: Result<real>)
    requires IsSqrt(sqrt)
    ensures |a| <= 1 ==> r == Err(ZeroDivisionError)
    ensures |a| >= 2 && |b| < |a| ==> r == Err(IndexError)
    ensures r.Ok? <==> |a| >= 2 && |b| >= |a|
  {
    if |a| <= 1 then Err(ZeroDivisionError)
    else if |b| < |a| then Err(IndexError)
    else Ok(Correlation(a, b, sqrt))
  }

  /** The value `pearson` computes once both means and spreads exist and B is long
      enough to be indexed at every index of A. */
  function Correlation(a: seq<real>, b: seq<real>, sqrt: real -> real): real
    requires |a| >= 2 && |b| >= |a|
  {
    CaughtRatio(Covariance(a, b, |a|), Denominator(a, b, |a|, sqrt))
  }

  /** The denominator of `pearson`: `(n - 1) * stdA * stdB`. */
  function Denominator(a: seq<real>, b: seq<real>, n: nat, sqrt: real -> real): real
    requires n >= 2
  {
    (n - 1) as real * Spread(a, n, sqrt) * Spread(b, n, sqrt)
  }

  /** `sum(s) / n`. */
  function Mean(s: seq<real>, n: nat): real
    requires n > 0
  {
    Sum(s) / n as real
  }

  /** The numerator of `pearson`: `sum(A[i] * B[i]) - n * muA * muB`. */
  function Covariance(a: seq<real>, b: seq<real>, n: nat): real
    requires 0 < n <= |a| && n <= |b|
  {
    Dot(a, b, n) - n as real * Mean(a, n) * Mean(b, n)
  }

  /** `stdA` (or `stdB`) of `pearson`, with n the length of A. */
  function Spread(s: seq<real>, n: nat, sqrt: real -> real): real
    requires n >= 2
  {
    SpreadOver(s, Mean(s, n), n as real, sqrt)
  }

  /** `num / den` inside `try`, with a zero denominator caught as 0.0. */
  function CaughtRatio(num: real, den: real): (q: real)
    ensures den != 0.0 ==> q * den == num
    ensures den == 0.0 ==> q == 0.0
  {
    if den == 0.0 then 0.0 else num / den
  }

  /** `math.sqrt((1 / (n - 1)) * sum([d * d for d in diff]))` in `pearson`. */
  function SpreadOver(s: seq<real>, mu: real, n: real, sqrt: real -> real): real
    requires n > 1.0
  {
    sqrt((1.0 / (n - 1.0)) * SqDev(s, mu, |s|))
  }

  // ---------------------------------------------------------------------------
  // Sums of squares

  /** A product is zero only when a factor is. */
  lemma ProductZero(x: real, y: real)
    requires x * y == 0.0
    ensures x == 0.0 || y == 0.0
  {
  }

  lemma ProductPositive(x: real, y: real)
    requires x > 0.0 && y > 0.0
    ensures x * y > 0.0
  {
  }

  /** The sum of squared deviations from c, multiplied out. */
  lemma {:induction false} SqDevExpand(s: seq<real>, c: real, k: nat)
    requires k <= |s|
    ensures SqDev(s, c, k) == Dot(s, s, k) - 2.0 * c * SumTo(s, k) + k as real * c * c
  {
    if k > 0 {
      SqDevExpand(s, c, k - 1);
      var x := s[k - 1];
      assert (x - c) * (x - c) == x * x - 2.0 * c * x + c * c;
      assert (k - 1) as real * c * c + c * c == k as real * c * c;
    }
  }

  lemma {:induction false} SqDevNonnegative(s: seq<real>, c: real, k: nat)
    requires k <= |s|
    ensures SqDev(s, c, k) >= 0.0
  {
    if k > 0 {
      SqDevNonnegative(s, c, k - 1);
    }
  }

  /** The squared deviations vanish exactly when every value is c. */
  lemma {:induction false} SqDevZero(s: seq<real>, c: real, k: nat)
    requires k <= |s|
    ensures SqDev(s, c, k) == 0.0 <==> forall i :: 0 <= i < k ==> s[i] == c
  {
    if k > 0 {
      SqDevZero(s, c, k - 1);
      SqDevNonnegative(s, c, k - 1);
      var d := s[k - 1] - c;
      if SqDev(s, c, k) == 0.0 {
        assert d * d == 0.0;
        ProductZero(d, d);
      }
    }
  }

  lemma {:induction false} SumOfConstant(s: seq<real>, k: nat)
    requires k <= |s| && Constant(s)
    ensures SumTo(s, k) == k as real * (if |s| == 0 then 0.0 else s[0])
  {
    if k > 0 { SumOfConstant(s, k - 1); }
  }

  /** The squared deviations from the mean vanish exactly for a constant list. */
  lemma SqDevMeanZero(s: seq<real>)
    requires |s| > 0
    ensures SqDev(s, Mean(s, |s|), |s|) == 0.0 <==> Constant(s)
  {
    var mu := Mean(s, |s|);
    SqDevZero(s, mu, |s|);
    if Constant(s) {
      SumOfConstant(s, |s|);
      assert mu == s[0];
    }
  }

  lemma {:induction false} DotSymmetric(a: seq<real>, b: seq<real>, k: nat)
    requires k <= |a| && k <= |b|
    ensures Dot(a, b, k) == Dot(b, a, k)
  {
    if k > 0 { DotSymmetric(a, b, k - 1); }
  }

  // ---------------------------------------------------------------------------
  // pearson / spearman

  /** The numerator of `pearson(A, A)` is the sum of squared deviations. */
  lemma SelfCovariance(a: seq<real>)
    requires |a| > 0
    ensures Covariance(a, a, |a|) == SqDev(a, Mean(a, |a|), |a|)
  {
    var n := |a| as real;
    var mu := Mean(a, |a|);
    SqDevExpand(a, mu, |a|);
    assert Sum(a) == n * mu;
    assert 2.0 * mu * (n * mu) == 2.0 * (n * mu * mu);
  }

  /** A list correlates perfectly with itself, unless it is constant: then the
      denominator is zero and the caught division gives 0.0. */
  lemma PearsonSelf(a: seq<real>, sqrt: real -> real)
    requires IsSqrt(sqrt) && |a| >= 2
    ensures Pearson(a, a, sqrt) == if Constant(a) then Ok(0.0) else Ok(1.0)
  {
    var mu := Mean(a, |a|);
    SelfCovariance(a);
    SpreadSquared(a, mu, |a| as real, sqrt);
    SqDevMeanZero(a);
    var sd := Spread(a, |a|, sqrt);
    var den := (|a| - 1) as real * sd * sd;
    assert den == SqDev(a, mu, |a|);
    assert Correlation(a, a, sqrt) == CaughtRatio(Covariance(a, a, |a|), den);
  }

  /** `(n - 1) * std * std` gives back the sum of squared deviations. */
  lemma SpreadSquared(s: seq<real>, mu: real, n: real, sqrt: real -> real)
    requires IsSqrt(sqrt) && n > 1.0
    ensures (n - 1.0) * SpreadOver(s, mu, n, sqrt) * SpreadOver(s, mu, n, sqrt) == SqDev(s, mu, |s|)
  {
    var q := SqDev(s, mu, |s|);
    SqDevNonnegative(s, mu, |s|);
    var inv := 1.0 / (n - 1.0);
    assert inv > 0.0;
    var x := inv * q;
    assert x >= 0.0;
    var sd := sqrt(x);
    assert sd * sd == x;
    assert (n - 1.0) * inv == 1.0;
    assert (n - 1.0) * x == q;
  }

  /** `pearson` is symmetric in lists of equal length. */
  lemma PearsonSymmetric(a: seq<real>, b: seq<real>, sqrt: real -> real)
    requires IsSqrt(sqrt) && |a| == |b|
    ensures Pearson(a, b, sqrt) == Pearson(b, a, sqrt)
  {
    if |a| >= 2 {
      var n := |a|;
      CovarianceSymmetric(a, b, n);
      var p, q := Spread(a, n, sqrt), Spread(b, n, sqrt);
      SwapLastFactors((n - 1) as real, p, q);
      assert Denominator(a, b, n, sqrt) == Denominator(b, a, n, sqrt);
    }
  }

  lemma CovarianceSymmetric(a: seq<real>, b: seq<real>, n: nat)
    requires 0 < n <= |a| && n <= |b|
    ensures Covariance(a, b, n) == Covariance(b, a, n)
  {
    DotSymmetric(a, b, n);
    SwapLastFactors(n as real, Mean(a, n), Mean(b, n));
  }

  lemma SwapLastFactors(k: real, x: real, y: real)
    ensures k * x * y == k * y * x
  {
  }

  /** `spearman(A, B)`: `pearson` of the two rank lists. */
  method Spearman(a: seq<real>, b: seq<real>, sqrt: real -> real) returns (r: Result<real>)
    requires IsSqrt(sqrt)
    ensures r == Pearson(Ranks(a), Ranks(b), sqrt)
  {
    var ra := RankData(a);
    var rb := RankData(b);
    r := Pearson(ra, rb, sqrt);
  }

  /** The rank correlation only sees the order of the values: strictly increasing
      transformations of either list leave it unchanged. */
  lemma SpearmanMonotone(a: seq<real>, b: seq<real>, f: real -> real, g: real -> real,
                         sqrt: real -> real)
    requires IsSqrt(sqrt)
    requires forall x, y :: x < y ==> f(x) < f(y)
    requires forall x, y :: x < y ==> g(x) < g(y)
    ensures Pearson(Ranks(Map(f, a)), Ranks(Map(g, b)), sqrt) == Pearson(Ranks(a), Ranks(b), sqrt)
  {
    RanksMonotone(a, f);
    RanksMonotone(b, g);
  }

  /** The ranks of a list are constant exactly when the list is. */
  lemma RanksConstant(a: seq<real>)
    ensures Constant(Ranks(a)) <==> Constant(a)
  {
    if !Constant(a) {
      var i :| 0 <= i < |a| && a[i] != a[0];
      RanksOrder(a, i, 0);
      RanksOrder(a, 0, i);
    } else {
      forall i | 0 <= i < |a| ensures Ranks(a)[i] == Ranks(a)[0] {
        RanksOrder(a, i, 0);
      }
    }
  }

  /** A list has rank correlation 1 with itself unless it is constant. */
  lemma SpearmanSelf(a: seq<real>, sqrt: real -> real)
    requires IsSqrt(sqrt) && |a| >= 2
    ensures Pearson(Ranks(a), Ranks(a), sqrt) == if Constant(a) then Ok(0.0) else Ok(1.0)
  {
    PearsonSelf(Ranks(a), sqrt);
    RanksConstant(a);
  }

  // ---------------------------------------------------------------------------
  // Standard deviations

  /** `calc_std_dev(data)`: the sample standard deviation.  Fewer than two values
      divide by zero (at the mean, or at `n - 1`). */
  function CalcStdDev(data: seq<real>, sqrt: real -> real): (r: Result<real>)
    requires IsSqrt(sqrt)
    ensures r.Ok? <==> |data| >= 2
    ensures r.Err? ==> r.error == ZeroDivisionError
    ensures r.Ok? ==> r.value >= 0.0 && r.value * r.value * (|data| - 1) as real
                                         == SqDev(data, Mean(data, |data|), |data|)
  {
    if |data| <= 1 then Err(ZeroDivisionError)
    else Ok(sqrt(SampleVariance(data)))
  }

  /** `sum([(x - mean) ** 2 for x in data]) / (n - 1)`. */
  function SampleVariance(data: seq<real>): (v: real)
    requires |data| >= 2
    ensures v >= 0.0 && v * (|data| - 1) as real == SqDev(data, Mean(data, |data|), |data|)
  {
    SqDevNonnegative(data, Mean(data, |data|), |data|);
    SqDev(data, Mean(data, |data|), |data|) / (|data| - 1) as real
  }

  /** The standard deviation is zero exactly for a constant list. */
  lemma StdDevZero(data: seq<real>, sqrt: real -> real)
    requires IsSqrt(sqrt) && |data| >= 2
    ensures CalcStdDev(data, sqrt).value == 0.0 <==> Constant(data)
  {
    SqDevMeanZero(data);
    var v := SampleVariance(data);
    var d := sqrt(v);
    assert d * d == v;
    if d == 0.0 {
      assert v == 0.0;
    }
    if v == 0.0 {
      ProductZero(d, d);
    }
    VarianceZero(v, (|data| - 1) as real, SqDev(data, Mean(data, |data|), |data|));
  }

  /** A variance that is the sum of squares over a positive count is zero exactly
      when the sum is. */
  lemma VarianceZero(v: real, dof: real, q: real)
    requires dof > 0.0 && v * dof == q
    ensures v == 0.0 <==> q == 0.0
  {
    if q == 0.0 {
      ProductZero(v, dof);
    }
  }

  /** `[1.0 for _ in range(n)]`. */
  function Ones(n: nat): (r: seq<real>)
    ensures |r| == n && forall i :: 0 <= i < n ==> r[i] == 1.0
  {
    seq(n, _ => 1.0)
  }

  /** The number of nonzero entries among w[0..k). */
  function NonZeroCount(w: seq<real>, k: nat): (m: nat)
    requires k <= |w|
    ensures m <= k
  {
    if k == 0 then 0 else NonZeroCount(w, k - 1) + (if w[k - 1] != 0.0 then 1 else 0)
  }

  /** The sum over i < k of `w[i] * (s[i] - c) ** 2`. */
  function WeightedSqDev(s: seq<real>, w: seq<real>, c: real, k: nat): real
    requires k <= |s| && k <= |w|
  {
    if k == 0 then 0.0
    else WeightedSqDev(s, w, c, k - 1) + w[k - 1] * ((s[k - 1] - c) * (s[k - 1] - c))
  }

  /** The weights `calc_weighted_std_dev` works with: unit weights when none or
      too few are given. */
  function EffectiveWeights(n: nat, weights: seq<real>): (w: seq<real>)
    ensures |w| >= n
  {
    if |weights| == 0 || |weights| < n then Ones(n) else weights
  }

  /** What `calc_weighted_std_dev(data, weights)` returns.  The mean divides by
      the sum of ALL weights; m counts the nonzero weights; the denominator
      `(m - 1) * sum(weights) / m` is zero for m == 1; `math.sqrt` of a negative
      variance (negative weights) raises ValueError. */
  function WeightedStdDev(data: seq<real>, weights: seq<real>, sqrt: real -> real): (r: Result<real>)
    requires IsSqrt(sqrt)
    ensures r.Ok? ==> r.value >= 0.0
    ensures |data| == 0 ==> r == Ok(0.0)
  {
    var n := |data|;
    if n == 0 then Ok(0.0)
    else
      var w := EffectiveWeights(n, weights);
      if Sum(w) == 0.0 then Err(ZeroDivisionError)
      else
        var m := NonZeroCount(w, |w|);
        if m == 0 then Err(ZeroDivisionError)
        else
          var den := WeightedDenominator(m, Sum(w));
          if den == 0.0 then Err(ZeroDivisionError)
          else
            var variance := WeightedVariance(data, w, den);
            if variance < 0.0 then Err(ValueError) else Ok(sqrt(variance))
  }

  /** `w_mean`: the weighted sum of the first n values over the sum of all weights. */
  function WeightedMean(data: seq<real>, w: seq<real>): real
    requires |data| <= |w| && Sum(w) != 0.0
  {
    Dot(data, w, |data|) / Sum(w)
  }

  /** `(m - 1) * sum(weights) / m`. */
  function WeightedDenominator(m: nat, sw: real): real
    requires m > 0
  {
    (m - 1) as real * sw / m as real
  }

  /** The weighted squared deviations from `w_mean` over the denominator. */
  function WeightedVariance(data: seq<real>, w: seq<real>, den: real): real
    requires |data| <= |w| && Sum(w) != 0.0 && den != 0.0
  {
    WeightedSqDev(data, w, WeightedMean(data, w), |data|) / den
  }

  /** `calc_weighted_std_dev`, with its counting loop over the weights. */
  method CalcWeightedStdDev(data: seq<real>, weights: seq<real>, sqrt: real -> real)
    returns (r: Result<real>)
    requires IsSqrt(sqrt)
    ensures r == WeightedStdDev(data, weights, sqrt)
  {
    var n := |data|;
    if n == 0 {
      return Ok(0.0);
    }
    var w := weights;
    if |weights| == 0 || |weights| < n {
      w := Ones(n);
    }
    assert w == EffectiveWeights(n, weights);
    var sw := Sum(w);
    if sw == 0.0 {
      return Err(ZeroDivisionError);
    }
    var m := CountNonZero(w);
    if m == 0 {
      return Err(ZeroDivisionError);
    }
    var den := WeightedDenominator(m, sw);
    if den == 0.0 {
      return Err(ZeroDivisionError);
    }
    var variance := WeightedVariance(data, w, den);
    if variance < 0.0 {
      r := Err(ValueError);
    } else {
      r := Ok(sqrt(variance));
    }
  }

  /** The loop of `calc_weighted_std_dev` that counts the nonzero weights. */
  method CountNonZero(w: seq<real>) returns (m: nat)
    ensures m == NonZeroCount(w, |w|)
  {
    m := 0;
    for i := 0 to |w|
      invariant m == NonZeroCount(w, i)
    {
      if w[i] != 0.0 {
        m := m + 1;
      }
    }
  }

  lemma {:induction false} OnesSums(s: seq<real>, c: real, k: nat)
    requires k <= |s|
    ensures Dot(s, Ones(|s|), k) == SumTo(s, k)
    ensures WeightedSqDev(s, Ones(|s|), c, k) == SqDev(s, c, k)
    ensures NonZeroCount(Ones(|s|), k) == k
    ensures SumTo(Ones(|s|), k) == k as real
  {
    if k > 0 { OnesSums(s, c, k - 1); }
  }

  /** With no weights, or too few, the weighted standard deviation is the plain
      sample standard deviation (including its division by zero for one value). */
  lemma WeightedStdDevUnit(data: seq<real>, weights: seq<real>, sqrt: real -> real)
    requires IsSqrt(sqrt) && |weights| < |data|
    ensures WeightedStdDev(data, weights, sqrt) == CalcStdDev(data, sqrt)
  {
    var n := |data|;
    var w := Ones(n);
    assert EffectiveWeights(n, weights) == w;
    var mean := Mean(data, n);
    OnesSums(data, mean, n);
    assert Sum(w) == n as real;
    assert WeightedMean(data, w) == mean;
    assert NonZeroCount(w, |w|) == n;
    NonZeroDenominator(n);
    if n >= 2 {
      assert WeightedVariance(data, w, (n - 1) as real) == SampleVariance(data);
    }
  }

  /** With n unit weights the denominator is n - 1. */
  lemma NonZeroDenominator(n: nat)
    requires n > 0
    ensures WeightedDenominator(n, n as real) == (n - 1) as real
  {
  }

  // ---------------------------------------------------------------------------
  // isclose

  function Abs(x: real): real { if x < 0.0 then -x else x }

  function Max(x: real, y: real): real { if x < y then y else x }

  /** `isclose(a, b, rel_tol, abs_tol)`. */
  predicate IsClose(a: real, b: real, relTol: real, absTol: real)
  {
    Abs(a - b) <= Tolerance(a, b, relTol, absTol)
  }

  /** The allowed difference: the relative tolerance scaled by the larger
      magnitude, or the absolute tolerance if that is larger. */
  function Tolerance(a: real, b: real, relTol: real, absTol: real): real
  {
    Max(relTol * Max(Abs(a), Abs(b)), absTol)
  }

  /** The defaults `rel_tol=1e-9`, `abs_tol=0.0`. */
  const RelTolDefault: real := 0.000000001
  const AbsTolDefault: real := 0.0

  /** isclose is symmetric and, for tolerances that are not negative, reflexive. */
  lemma IsCloseSymmetric(a: real, b: real, relTol: real, absTol: real)
    ensures IsClose(a, b, relTol, absTol) <==> IsClose(b, a, relTol, absTol)
    ensures relTol >= 0.0 || absTol >= 0.0 ==> IsClose(a, a, relTol, absTol)
  {
    assert Abs(a - b) == Abs(b - a);
    assert Tolerance(a, b, relTol, absTol) == Tolerance(b, a, relTol, absTol) by {
      assert Max(Abs(a), Abs(b)) == Max(Abs(b), Abs(a));
    }
    assert Abs(a - a) == 0.0;
    if relTol >= 0.0 {
      ProductNonnegative(relTol, Abs(a));
    }
  }

  lemma ProductNonnegative(x: real, y: real)
    requires x >= 0.0 && y >= 0.0
    ensures x * y >= 0.0
  {
    if x > 0.0 && y > 0.0 { ProductPositive(x, y); }
  }

  /** With no absolute tolerance and a relative tolerance below 1, nothing but 0
      is close to 0: the documented reason `abs_tol` exists. */
  lemma IsCloseToZero(a: real, relTol: real)
    requires 0.0 <= relTol < 1.0
    ensures IsClose(a, 0.0, relTol, 0.0) <==> a == 0.0
  {
    if a != 0.0 {
      var m := Abs(a);
      assert m > 0.0 && Abs(a - 0.0) == m;
      assert Tolerance(a, 0.0, relTol, 0.0) == Max(relTol * m, 0.0);
      ProductPositive(1.0 - relTol, m);
      assert relTol * m < m;
    } else {
      assert Tolerance(a, 0.0, relTol, 0.0) >= 0.0;
    }
  }
}
