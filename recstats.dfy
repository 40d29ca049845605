/** The recursive statistics of class recstat (recstats.cpp): an O(1)
    running mean, a recursive variance, their nested application to the
    series of running means, and the argument of the acceptance
    probability.  Doubles are modelled as reals.

    mean and var update one scalar through a reference; each is modelled as
    the function that returns the updated value.  seq_update updates its
    four-slot array in place and is a method on an array. */
module RecStats {
  import opened Wrappers

  /** recstat::mean: the mean of n values from the mean of the first n - 1
      and the n-th value x, mm := ((n - 1) * mm + x) / n. */
  function MeanStep(mm: real, x: real, n: int): (r: real)
    requires n >= 1
    ensures n == 1 ==> r == x
  {
    ((n - 1) as real * mm + x) / n as real
  }

  /** pow(y, 2.0). */
  function Square(y: real): (r: real)
    ensures r >= 0.0
  {
    y * y
  }

  /** recstat::var: 0 for n <= 1, otherwise
      var := (n-2)/(n-1) * var + n/(n-1)^2 * (x - mm)^2, where mm is the
      already updated mean.  A non-negative variance stays non-negative, and
      at n == 2 the prior value plays no part. */
  function VarStep(v: real, mm: real, x: real, n: int): (r: real)
    ensures n <= 1 ==> r == 0.0
    ensures n == 2 ==> r == 2.0 * Square(x - mm)
    ensures v >= 0.0 ==> r >= 0.0
  {
    if n <= 1 then 0.0
    else
      var nd, nd1, nd2 := n as real, (n - 1) as real, (n - 2) as real;
      NonNegativeTerms(nd2 / nd1, v, nd / (nd1 * nd1), Square(x - mm));
      (nd2 / nd1) * v + (nd / (nd1 * nd1)) * Square(x - mm)
  }

  lemma NonNegativeTerms(a: real, v: real, b: real, dd: real)
    requires a >= 0.0 && b >= 0.0 && dd >= 0.0
    ensures v >= 0.0 ==> a * v + b * dd >= 0.0
  {
    assert b * dd >= 0.0;
    if v >= 0.0 {
      assert a * v >= 0.0;
    }
  }

  // ---------------------------------------------------------------------
  // Reference definitions
  // ---------------------------------------------------------------------

  function Sum(xs: seq<real>): real
  {
    if |xs| == 0 then 0.0 else Sum(xs[..|xs| - 1]) + xs[|xs| - 1]
  }

  function SumSq(xs: seq<real>): real
  {
    if |xs| == 0 then 0.0 else SumSq(xs[..|xs| - 1]) + Square(xs[|xs| - 1])
  }

  /** The sum of squared deviations of the values from c. */
  function SumSqDev(xs: seq<real>, c: real): real
  {
    if |xs| == 0 then 0.0 else SumSqDev(xs[..|xs| - 1], c) + Square(xs[|xs| - 1] - c)
  }

  /** The arithmetic mean. */
  function Average(xs: seq<real>): real
    requires |xs| >= 1
  {
    Sum(xs) / |xs| as real
  }

  /** The sample variance, sum (x_i - mean)^2 / (n - 1). */
  function SampleVariance(xs: seq<real>): real
    requires |xs| >= 2
  {
    SumSqDev(xs, Average(xs)) / (|xs| - 1) as real
  }

  /** What mean and var leave behind after the values xs were fed with the
      indices 1..|xs|, starting from the prior mean m0 and variance v0. */
  function MeanVar(xs: seq<real>, m0: real, v0: real): (real, real)
  {
    if |xs| == 0 then (m0, v0)
    else
      var n := |xs|;
      var prior := MeanVar(xs[..n - 1], m0, v0);
      var m := MeanStep(prior.0, xs[n - 1], n);
      (m, VarStep(prior.1, m, xs[n - 1], n))
  }

  /** The series of running means: entry k is the mean of xs[0..k]. */
  function RunningMeans(xs: seq<real>): (ms: seq<real>)
    ensures |ms| == |xs|
  {
    if |xs| == 0 then [] else RunningMeans(xs[..|xs| - 1]) + [Average(xs)]
  }

  // ---------------------------------------------------------------------
  // The running mean and variance are the mean and the sample variance
  // ---------------------------------------------------------------------

  /** Feeding one more value into the mean of the first n values gives the
      mean of the n + 1 values. */
  lemma MeanStepExtends(xs: seq<real>, x: real)
    requires |xs| >= 1
    ensures MeanStep(Average(xs), x, |xs| + 1) == Average(xs + [x])
  {
    var n := |xs| as real;
    assert (xs + [x])[..|xs|] == xs;
    assert Sum(xs + [x]) == Sum(xs) + x;
    assert n * (Sum(xs) / n) == Sum(xs);
  }

  // The algebra of one variance step.  The lemmas take k = n - 1 and
  // nd = n (and km = n - 2) as separate reals related linearly, so that the
  // products they speak of match the terms of VarStep exactly.

  /** Multiplying out a quotient. */
  lemma DivMul(a: real, b: real)
    requires b != 0.0
    ensures b * (a / b) == a
  {
  }

  /** Cancelling a positive factor on both sides. */
  lemma CancelPositive(a: real, b: real, c: real)
    requires c > 0.0 && a * c == b * c
    ensures a == b
  {
    assert (a - b) * c == 0.0;
  }

  /** Clearing the denominators of a - p/c by the factor k c. */
  lemma ClearDenominator(a: real, p: real, c: real, k: real)
    requires c != 0.0
    ensures (a - p / c) * (k * c) == a * (k * c) - k * p
  {
    DivMul(p, c);
    assert (p / c) * (k * c) == k * (c * (p / c));
  }

  /** (k x - s)^2 - nd s^2 == nd k x^2 - k (s + x)^2 for nd == k + 1. */
  lemma VarStepPolynomial(k: real, nd: real, s: real, x: real)
    requires nd == k + 1.0
    ensures Square(k * x - s) - nd * Square(s) == nd * k * Square(x) - k * Square(s + x)
  {
    assert Square(k * x - s) == k * k * (x * x) - 2.0 * k * (x * s) + s * s;
    assert Square(s + x) == s * s + 2.0 * (x * s) + x * x;
  }

  /** One variance step scaled by k. */
  lemma VarStepScaled(km: real, k: real, nd: real, v: real, dd: real)
    requires k > 0.0 && km == k - 1.0 && nd == k + 1.0
    ensures k * ((km / k) * v + (nd / (k * k)) * dd) == km * v + (nd / k) * dd
  {
    DivMul(km, k);
    assert k * (nd / (k * k)) == nd / k;
  }

  /** The deviation from the updated mean, x - (s + x)/nd, squared and
      scaled by nd/k. */
  lemma DeviationSquared(k: real, nd: real, s: real, x: real)
    requires k > 0.0 && nd == k + 1.0
    ensures (nd / k) * Square(x - (s + x) / nd) == Square(k * x - s) / k / nd
  {
    var d := x - (s + x) / nd;
    var e := k * x - s;
    assert d == e / nd;
    assert d * d == (e * e) / (nd * nd);
    assert (nd / k) * ((e * e) / (nd * nd)) == (e * e) / k / nd;
  }

  /** Dividing ee - nd ss == nd k xx - k pp through by k nd. */
  lemma DivideIdentity(k: real, nd: real, ee: real, ss: real, xx: real, pp: real)
    requires k > 0.0 && nd == k + 1.0
    requires ee - nd * ss == nd * k * xx - k * pp
    ensures ee / k / nd - ss / k == xx - pp / nd
  {
    var lhs := ee / k / nd - ss / k;
    var rhs := xx - pp / nd;
    ClearDenominator(xx, pp, nd, k);
    assert lhs * (k * nd) == ee - nd * ss by {
      DivMul(ee / k, nd);
      DivMul(ee, k);
      ClearDenominator(ee / k / nd, ss, k, nd);
    }
    CancelPositive(lhs, rhs, k * nd);
  }

  /** The sums after one more value x:
      q - s^2/k + (k x - s)^2 / (k nd) == (q + x^2) - (s + x)^2 / nd. */
  lemma SumsExtend(k: real, nd: real, s: real, q: real, x: real)
    requires k > 0.0 && nd == k + 1.0
    ensures q - Square(s) / k + Square(k * x - s) / k / nd == (q + Square(x)) - Square(s + x) / nd
  {
    VarStepPolynomial(k, nd, s, x);
    DivideIdentity(k, nd, Square(k * x - s), Square(s), Square(x), Square(s + x));
  }

  /** One variance step: with s the sum and q the sum of squares of the
      first n - 1 values, the invariant (n - 1) * var == q - s^2 / n
      carries over from n - 1 to n. */
  lemma VarStepAlgebra(s: real, q: real, v: real, x: real, n: int)
    requires n >= 2
    requires (n - 2) as real * v == q - Square(s) / (n - 1) as real
    ensures (n - 1) as real * VarStep(v, (s + x) / n as real, x, n) == (q + Square(x)) - Square(s + x) / n as real
  {
    var m := (s + x) / n as real;
    var km, k, nd := (n - 2) as real, (n - 1) as real, n as real;
    assert VarStep(v, m, x, n) == (km / k) * v + (nd / (k * k)) * Square(x - m);
    VarStepScaled(km, k, nd, v, Square(x - m));
    DeviationSquared(k, nd, s, x);
    SumsExtend(k, nd, s, q, x);
  }

  /** The identity k * v == q - s^2 / n that ties a running variance v to
      the sum s and the sum of squares q of n values, k == n - 1. */
  predicate SumsIdentity(k: real, v: real, q: real, s: real, n: real)
  {
    n > 0.0 && k * v == q - Square(s) / n
  }

  /** One step of MeanVarSums on abstract values: the prior variance vPre
      satisfies the sum identity for n - 1 values (kPre == n - 2 and
      k == n - 1), so the updated variance v satisfies it for n values
      (kk == n - 1 and nn == n). */
  lemma SumsStep(vPre: real, sPre: real, qPre: real, x: real, n: int, kPre: real, k: real,
                 m: real, v: real, s: real, q: real, kk: real, nn: real)
    requires n >= 2 && kPre == (n - 2) as real && k == (n - 1) as real
    requires kk == (n - 1) as real && nn == n as real
    requires SumsIdentity(kPre, vPre, qPre, sPre, k)
    requires m == (sPre + x) / nn && v == VarStep(vPre, m, x, n)
    requires s == sPre + x && q == qPre + Square(x)
    ensures SumsIdentity(kk, v, q, s, nn)
  {
    VarStepAlgebra(sPre, qPre, vPre, x, n);
  }

  /** The running mean is the average, and (n - 1) times the running
      variance is the sum of squares minus the squared sum over n. */
  lemma {:induction false} MeanVarSums(xs: seq<real>, m0: real, v0: real)
    requires |xs| >= 1
    ensures MeanVar(xs, m0, v0).0 == Average(xs)
    ensures SumsIdentity((|xs| - 1) as real, MeanVar(xs, m0, v0).1, SumSq(xs), Sum(xs), |xs| as real)
  {
    var n := |xs|;
    var pre := xs[..n - 1];
    var x := xs[n - 1];
    if n == 1 {
      assert pre == [];
      assert Sum(xs) == x && SumSq(xs) == Square(x);
    } else {
      MeanVarSums(pre, m0, v0);
      var prior := MeanVar(pre, m0, v0);
      assert xs == pre + [x];
      MeanStepExtends(pre, x);
      SumsStep(prior.1, Sum(pre), SumSq(pre), x, n, (|pre| - 1) as real, |pre| as real,
               MeanVar(xs, m0, v0).0, MeanVar(xs, m0, v0).1, Sum(xs), SumSq(xs),
               (n - 1) as real, n as real);
    }
  }

  /** (x - c)^2 == x^2 - 2 c x + c^2. */
  lemma SquareShift(x: real, c: real)
    ensures Square(x - c) == Square(x) - 2.0 * (c * x) + Square(c)
  {
  }

  /** q - 2 c s + n c^2. */
  function Expansion(q: real, s: real, n: real, c: real): real
  {
    q - 2.0 * (c * s) + n * Square(c)
  }

  /** One step of SumSqDevExpands on abstract values. */
  lemma ExpandStep(dPre: real, qPre: real, sPre: real, nPre: real, x: real, c: real,
                   d: real, q: real, s: real, n: real)
    requires dPre == Expansion(qPre, sPre, nPre, c)
    requires d == dPre + Square(x - c)
    requires q == qPre + Square(x)
    requires s == sPre + x
    requires n == nPre + 1.0
    ensures d == Expansion(q, s, n, c)
  {
    SquareShift(x, c);
    assert c * s == c * sPre + c * x;
    assert n * Square(c) == nPre * Square(c) + Square(c);
  }

  /** The sum of squared deviations from c expands to q - 2 c s + n c^2. */
  lemma {:induction false} SumSqDevExpands(xs: seq<real>, c: real)
    ensures SumSqDev(xs, c) == Expansion(SumSq(xs), Sum(xs), |xs| as real, c)
  {
    if |xs| > 0 {
      var pre := xs[..|xs| - 1];
      SumSqDevExpands(pre, c);
      ExpandStep(SumSqDev(pre, c), SumSq(pre), Sum(pre), |pre| as real, xs[|xs| - 1], c,
                 SumSqDev(xs, c), SumSq(xs), Sum(xs), |xs| as real);
    }
  }

  /** At c = s / n: q - 2 c s + n c^2 == q - s^2 / n. */
  lemma ExpansionAtMean(q: real, s: real, n: real)
    requires n > 0.0
    ensures Expansion(q, s, n, s / n) == q - Square(s) / n
  {
    DivMul(s, n);
    assert n * Square(s / n) == (s / n) * s;
    assert (s / n) * s == Square(s) / n;
  }

  /** The recursive variance is the sample variance of the values fed, once
      at least two values were fed (and is 0 after one). */
  lemma MeanVarIsSampleVariance(xs: seq<real>, m0: real, v0: real)
    requires |xs| >= 1
    ensures MeanVar(xs, m0, v0).0 == Average(xs)
    ensures |xs| == 1 ==> MeanVar(xs, m0, v0).1 == 0.0
    ensures |xs| >= 2 ==> MeanVar(xs, m0, v0).1 == SampleVariance(xs)
  {
    MeanVarSums(xs, m0, v0);
    if |xs| >= 2 {
      SumSqDevExpands(xs, Average(xs));
      ExpansionAtMean(SumSq(xs), Sum(xs), |xs| as real);
      DivMul(SumSqDev(xs, Average(xs)), (|xs| - 1) as real);
      CancelPositive(MeanVar(xs, m0, v0).1, SampleVariance(xs), (|xs| - 1) as real);
    }
  }

  /** The running variance is never negative once one value was fed. */
  lemma {:induction false} MeanVarNonNegative(xs: seq<real>, m0: real, v0: real)
    requires |xs| >= 1
    ensures MeanVar(xs, m0, v0).1 >= 0.0
  {
    if |xs| >= 2 {
      MeanVarNonNegative(xs[..|xs| - 1], m0, v0);
    }
  }

  // ---------------------------------------------------------------------
  // seq_update and its fold
  // ---------------------------------------------------------------------

  /** seq_update on the values of the four slots: the mean, the variance
      (with the new mean), the mean of the running means and their
      variance, in this order, each reading the slots already updated. */
  function SeqStep(stat: seq<real>, x: real, n: int): (r: seq<real>)
    requires |stat| == 4 && n >= 1
    ensures |r| == 4
  {
    var m := MeanStep(stat[0], x, n);
    var v := VarStep(stat[1], m, x, n);
    var mm := MeanStep(stat[2], m, n);
    var vm := VarStep(stat[3], mm, m, n);
    [m, v, mm, vm]
  }

  /** recstat::seq_update: the four slots of stat are updated in place;
      anything beyond them is left alone. */
  method SeqUpdate(stat: array<real>, x: real, n: int)
    requires stat.Length >= 4 && n >= 1
    modifies stat
    ensures stat[..4] == SeqStep(old(stat[..4]), x, n)
    ensures stat[4..] == old(stat[4..])
  {
    ghost var s := stat[..4];
    stat[0] := MeanStep(stat[0], x, n);
    stat[1] := VarStep(stat[1], stat[0], x, n);
    stat[2] := MeanStep(stat[2], stat[0], n);
    stat[3] := VarStep(stat[3], stat[2], stat[0], n);
    assert stat[..4] == SeqStep(s, x, n);
  }

  /** The slots after seq_update was called with the values xs and the
      indices 1..|xs|, starting from the slots stat0. */
  function Feed(stat0: seq<real>, xs: seq<real>): (r: seq<real>)
    requires |stat0| == 4
    ensures |r| == 4
  {
    if |xs| == 0 then stat0 else SeqStep(Feed(stat0, xs[..|xs| - 1]), xs[|xs| - 1], |xs|)
  }

  /** The four slots are two nested running statistics: slots 0 and 1 the
      mean and variance of the values xs, slots 2 and 3 the mean and
      variance of the series of running means of xs. */
  lemma {:induction false} FeedIsNested(stat0: seq<real>, xs: seq<real>)
    requires |stat0| == 4
    ensures var a := MeanVar(xs, stat0[0], stat0[1]);
      var b := MeanVar(RunningMeans(xs), stat0[2], stat0[3]);
      Feed(stat0, xs) == [a.0, a.1, b.0, b.1]
  {
    if |xs| > 0 {
      var n := |xs|;
      var pre := xs[..n - 1];
      FeedIsNested(stat0, pre);
      MeanVarIsSampleVariance(xs, stat0[0], stat0[1]);
      var ms := RunningMeans(xs);
      assert ms[..n - 1] == RunningMeans(pre);
      assert ms[n - 1] == Average(xs);
    }
  }

  /** After n >= 1 updates: slot 0 is the mean of the values, slot 1 their
      sample variance (0 after one value), slot 2 the mean of the running
      means and slot 3 their sample variance (0 after one value). */
  lemma FeedStatistics(stat0: seq<real>, xs: seq<real>)
    requires |stat0| == 4 && |xs| >= 1
    ensures var r := Feed(stat0, xs);
      && r[0] == Average(xs) && r[2] == Average(RunningMeans(xs))
      && (|xs| == 1 ==> r[1] == 0.0 && r[3] == 0.0)
      && (|xs| >= 2 ==> r[1] == SampleVariance(xs) && r[3] == SampleVariance(RunningMeans(xs)))
      && r[1] >= 0.0 && r[3] >= 0.0
  {
    FeedIsNested(stat0, xs);
    MeanVarIsSampleVariance(xs, stat0[0], stat0[1]);
    MeanVarIsSampleVariance(RunningMeans(xs), stat0[2], stat0[3]);
    MeanVarNonNegative(xs, stat0[0], stat0[1]);
    MeanVarNonNegative(RunningMeans(xs), stat0[2], stat0[3]);
  }

  /** The mean of n values c is c. */
  lemma MeanOfConstant(k: real, nd: real, c: real)
    requires k >= 0.0 && nd == k + 1.0
    ensures (k * c + c) / nd == c
  {
    assert k * c + c == nd * c;
  }

  /** A constant value fed into the slots [c, 0, c, 0] leaves them there. */
  lemma SeqStepFixed(c: real, n: int)
    requires n >= 1
    ensures SeqStep([c, 0.0, c, 0.0], c, n) == [c, 0.0, c, 0.0]
  {
    MeanOfConstant((n - 1) as real, n as real, c);
    assert MeanStep(c, c, n) == c;
    assert Square(c - c) == 0.0;
  }

  /** A constant stream c leaves the slots at [c, 0, c, 0] after every
      update, whatever they held before. */
  lemma {:induction false} ConstantStream(stat0: seq<real>, c: real, n: nat)
    requires |stat0| == 4 && n >= 1
    ensures Feed(stat0, seq(n, _ => c)) == [c, 0.0, c, 0.0]
  {
    var xs := seq(n, _ => c);
    assert xs[..n - 1] == seq(n - 1, _ => c);
    if n > 1 {
      ConstantStream(stat0, c, n - 1);
      SeqStepFixed(c, n);
    }
  }

  /** After two values x1, x2 the variance of the running means is
      (x2 - x1)^2 / 8: the means are x1 and (x1 + x2) / 2. */
  lemma SecondUpdate(stat0: seq<real>, x1: real, x2: real)
    requires |stat0| == 4
    ensures Feed(stat0, [x1, x2])[3] == (x2 - x1) * (x2 - x1) / 8.0
  {
    assert [x1, x2][..1] == [x1];
    assert [x1][..0] == [];
  }

  // ---------------------------------------------------------------------
  // seq_accept_probability
  // ---------------------------------------------------------------------

  datatype StatError = VarianceNotPositive

  /** recstat::seq_accept_probability: erf(f * stat[2] / sqrt(2 * stat[3])).
      The quotient exists only for stat[3] > 0 (for stat[3] == 0 the source
      divides by zero, for stat[3] < 0 it takes the root of a negative
      number); erf and sqrt are passed in, sqrt being positive on positive
      arguments. */
  function AcceptProbability(stat: seq<real>, f: real, erf: real -> real, sqrt: real -> real): (r: Result<real, StatError>)
    requires |stat| >= 4
    requires forall y :: 0.0 < y ==> 0.0 < sqrt(y)
    ensures r.Success? <==> stat[3] > 0.0
    ensures r.Success? ==> r.value == erf(f * stat[2] / sqrt(2.0 * stat[3]))
  {
    if stat[3] > 0.0 then
      var d := sqrt(2.0 * stat[3]);
      Success(erf(f * stat[2] / d))
    else
      Failure(VarianceNotPositive)
  }

  /** The acceptance probability is undefined right after the first update,
      whatever the slots held before, since the variance of one running
      mean is 0. */
  lemma FirstUpdateUndefined(stat0: seq<real>, x: real, f: real, erf: real -> real, sqrt: real -> real)
    requires |stat0| == 4
    requires forall y :: 0.0 < y ==> 0.0 < sqrt(y)
    ensures AcceptProbability(Feed(stat0, [x]), f, erf, sqrt) == Failure(VarianceNotPositive)
  {
    assert [x][..0] == [];
  }

  /** A constant stream never yields an acceptance probability. */
  lemma ConstantStreamUndefined(stat0: seq<real>, c: real, n: nat, f: real, erf: real -> real, sqrt: real -> real)
    requires |stat0| == 4 && n >= 1
    requires forall y :: 0.0 < y ==> 0.0 < sqrt(y)
    ensures AcceptProbability(Feed(stat0, seq(n, _ => c)), f, erf, sqrt).Failure?
  {
    ConstantStream(stat0, c, n);
  }
}
