/**
 * What the CUSUM test knows of a metric: the mean and the variance of a learning
 * phase, smoothed exponentially afterwards. Floating point numbers are modelled as
 * reals; the exponential and the logarithm are parameters.
 */
module CusumLearning {
  import opened Bytes
  import opened RealArithmetic
  import Covariance

  /** cusum_learning_phase, smoothing_constant and log_variance_ewma. */
  datatype Config = Config(phase: nat, smoothing: real, logEwma: bool, exp: real -> real, log: real -> real)

  /**
   * The estimates of one metric. Until ready, mean and variance hold the sums of the n
   * values so far and of their squares; x is the value of the last update after that.
   */
  datatype Estimate = Estimate(n: nat, ready: bool, mean: real, variance: real, x: int)

  /** The value kept in an int. */
  function Narrow(x: int): int {
    (x + I32) % U32 - I32
  }

  lemma NarrowWraps(x: int, y: int)
    ensures y == Narrow(x) <==> -I32 <= y < I32 && (x - y) % U32 == 0
  {
  }

  /** The variance the learning phase ends with; a phase of one value divides by zero, which is not modelled. */
  function InitialVariance(squares: real, mean: real, phase: nat): real
    requires phase > 0
  {
    if phase == 1 then 0.0 else (squares - mean * mean / phase as real) / (phase as real - 1.0)
  }

  function SmoothedMean(mean: real, x: int, c: Config): real {
    mean * (1.0 - c.smoothing) + x as real * c.smoothing
  }

  function SmoothedVariance(variance: real, mean: real, x: int, c: Config): real {
    var square := (x as real - mean) * (x as real - mean);
    if c.logEwma then c.exp(c.log(variance) * (1.0 - c.smoothing) + c.log(square) * c.smoothing)
    else variance * (1.0 - c.smoothing) + square * c.smoothing
  }

  /** An update with the value before it: new estimates come from the old value of x. */
  function Smooth(e: Estimate, x: int, c: Config): Estimate {
    var mean := SmoothedMean(e.mean, e.x, c);
    e.(mean := mean, variance := SmoothedVariance(e.variance, mean, e.x, c), x := Narrow(x))
  }

  /** What one value does to the estimates of a metric. */
  function Next(e: Estimate, x: int, paused: bool, c: Config): Estimate
    requires c.phase > 0
  {
    if !e.ready && e.n < c.phase then
      e.(n := e.n + 1, mean := e.mean + x as real, variance := e.variance + Covariance.Signed64(x * x) as real)
    else if !e.ready then
      var mean := e.mean / c.phase as real;
      Estimate(e.n, true, mean, InitialVariance(e.variance, mean, c.phase), Narrow(x))
    else if paused then e.(x := Narrow(x))
    else Smooth(e, x, c)
  }

  datatype Log = Nothing | Saw(before: Log, x: int, paused: bool)

  function Run(log: Log, c: Config): Estimate
    requires c.phase > 0
  {
    match log
    case Nothing => Estimate(0, false, 0.0, 0.0, 0)
    case Saw(before, x, paused) => Next(Run(before, c), x, paused, c)
  }

  function Count(log: Log): (n: nat)
    ensures n == 0 <==> log.Nothing?
  {
    if log.Nothing? then 0 else Count(log.before) + 1
  }

  /** The values seen, as observations of a single metric. */
  function Rows(log: Log): (rows: Covariance.Log)
    ensures Covariance.WellFormed(rows, 1) && Covariance.Count(rows) == Count(log)
  {
    if log.Nothing? then Covariance.Nothing else Covariance.Learned(Rows(log.before), [log.x])
  }

  /** The first n values. */
  function First(log: Log, n: nat): (first: Log)
    requires n <= Count(log)
    ensures Count(first) == n
  {
    if Count(log) == n then log else First(log.before, n)
  }

  // ---------------------------------------------------------------- the learning phase

  lemma {:induction false} WhileLearning(log: Log, c: Config)
    requires c.phase > 0 && Count(log) <= c.phase
    ensures Run(log, c) == Estimate(Count(log), false, Covariance.Sum(Rows(log), 1, 0),
                                    Covariance.Products(Rows(log), 1, 0, 0), 0)
  {
    if log.Saw? { WhileLearning(log.before, c); }
  }

  /** The estimates are ready exactly when the phase is over. */
  lemma {:induction false} ReadyIff(log: Log, c: Config)
    requires c.phase > 0
    ensures Run(log, c).ready <==> Count(log) > c.phase
  {
    if log.Saw? {
      ReadyIff(log.before, c);
      if Count(log) <= c.phase + 1 { WhileLearning(log.before, c); }
    }
  }

  /** The phase ends with the mean of its values; the value that ends it is kept for the next update. */
  lemma {:induction false} InitialMean(log: Log, c: Config)
    requires c.phase > 0 && Count(log) == c.phase + 1
    ensures Run(log, c).ready && Run(log, c).mean == Covariance.Mean(Rows(log.before), 1, 0)
    ensures Run(log, c).variance == InitialVariance(Covariance.Products(Rows(log.before), 1, 0, 0), Run(log, c).mean,
                                                    c.phase)
    ensures Run(log, c).x == Narrow(log.x)
  {
    WhileLearning(log.before, c);
  }

  function Excess(mean: real, n: real): real
    requires n > 0.0
  {
    mean * mean * (n + 1.0) / n
  }

  /**
   * The variance it ends with is too large by mean^2 (phase + 1) / phase: the square of
   * the mean is taken off once instead of phase^2 times.
   */
  lemma {:induction false} InitialVarianceIs(log: Log, c: Config)
    requires c.phase > 1 && Count(log) == c.phase + 1 && Covariance.Fits(Rows(log.before), 1)
    ensures Run(log, c).variance
            == Covariance.TwoPass(Rows(log.before), 1, 0, 0) + Excess(Run(log, c).mean, c.phase as real)
  {
    var rows := Rows(log.before);
    InitialMean(log, c);
    Covariance.OnePassIsTwoPass(rows, 1, 0, 0);
    Off(c.phase, Covariance.Products(rows, 1, 0, 0), Covariance.Sum(rows, 1, 0), Run(log, c).mean);
  }

  lemma Off(phase: nat, squares: real, sum: real, m: real)
    requires phase > 1 && m == sum / phase as real
    ensures InitialVariance(squares, m, phase) == Covariance.Cov(phase, squares, sum, sum) + Excess(m, phase as real)
  {
    var n, p := phase as real, m * m;
    SquaredSum(n, m, p, sum);
    OffBy(n, squares, p, p / n, InitialVariance(squares, m, phase), Covariance.Cov(phase, squares, sum, sum));
  }

  lemma SquaredSum(n: real, m: real, p: real, sum: real)
    requires n > 0.0 && m == sum / n && p == m * m
    ensures sum * sum / n == p * n
  {
  }

  lemma OffBy(n: real, squares: real, p: real, u: real, v: real, cov: real)
    requires n > 1.0 && u == p / n && v == (squares - u) / (n - 1.0) && cov == (squares - p * n) / (n - 1.0)
    ensures v == cov + p * (n + 1.0) / n
  {
    var k := n - 1.0;
    assert u * n == p;
    QuotientIs(p * (n + 1.0), n, p + u);
    assert v * k == squares - u && cov * k == squares - p * n;
    assert (p + u) * k == p * n - u;
    QuotientIs(squares - u, k, cov + (p + u));
  }

  /** It is the variance of the values if and only if they sum to zero. */
  lemma {:induction false} InitialVarianceIff(log: Log, c: Config)
    requires c.phase > 1 && Count(log) == c.phase + 1 && Covariance.Fits(Rows(log.before), 1)
    ensures Run(log, c).variance >= Covariance.TwoPass(Rows(log.before), 1, 0, 0) >= 0.0
    ensures Run(log, c).variance == Covariance.TwoPass(Rows(log.before), 1, 0, 0)
            <==> Covariance.Sum(Rows(log.before), 1, 0) == 0.0
  {
    var rows, m, n := Rows(log.before), Run(log, c).mean, c.phase as real;
    InitialMean(log, c);
    InitialVarianceIs(log, c);
    Covariance.CovarianceMatrix(rows, 1, 0, 0);
    ExcessSign(n, m, Covariance.Sum(rows, 1, 0));
  }

  lemma ExcessSign(n: real, m: real, sum: real)
    requires n > 1.0 && m == sum / n
    ensures Excess(m, n) >= 0.0 && (Excess(m, n) == 0.0 <==> sum == 0.0)
  {
  }

  // ---------------------------------------------------------------- smoothing

  predicate Sound(c: Config) {
    c.phase > 1 && 0.0 <= c.smoothing <= 1.0
  }

  lemma SmoothSign(e: Estimate, x: int, c: Config)
    requires Sound(c) && (c.logEwma ==> forall y :: c.exp(y) >= 0.0) && e.variance >= 0.0
    ensures Smooth(e, x, c).variance >= 0.0
  {
    if !c.logEwma {
      var d := e.x as real - SmoothedMean(e.mean, e.x, c);
      MixSign(e.variance, d * d, c.smoothing, d);
    }
  }

  lemma MixSign(variance: real, square: real, a: real, d: real)
    requires variance >= 0.0 && square == d * d && 0.0 <= a <= 1.0
    ensures variance * (1.0 - a) + square * a >= 0.0
  {
    SquareSign(d, square);
    TimesNonNegative(variance, 1.0 - a);
    TimesNonNegative(square, a);
  }

  /** Whatever was paused, the variance has a root. */
  lemma {:induction false} VarianceNonNegative(log: Log, c: Config)
    requires Sound(c) && (c.logEwma ==> forall y :: c.exp(y) >= 0.0)
    requires Count(log) > c.phase && Covariance.Fits(Rows(First(log, c.phase)), 1)
    ensures Run(log, c).variance >= 0.0
  {
    if Count(log) == c.phase + 1 {
      assert First(log, c.phase) == log.before;
      InitialVarianceIff(log, c);
    } else {
      VarianceNonNegative(log.before, c);
      ReadyIff(log.before, c);
      if !log.paused { SmoothSign(Run(log.before, c), log.x, c); }
    }
  }

  /** The values that went into the mean after the learning phase. */
  function Used(log: Log, phase: nat): seq<int> {
    if Count(log) <= phase + 1 then []
    else if log.paused then Used(log.before, phase)
    else Used(log.before, phase) + [Narrow(log.before.x)]
  }

  /** What is left of v when n more have come: r^n of it. */
  function Aged(v: real, r: real, n: nat): real {
    if n == 0 then v else r * Aged(v, r, n - 1)
  }

  function Reals(xs: seq<int>): (rs: seq<real>)
    ensures |rs| == |xs|
  {
    seq(|xs|, i requires 0 <= i < |xs| => xs[i] as real)
  }

  /** The sum of the xs, each with the share a of it that its age has left. */
  function Weighted(xs: seq<real>, a: real, r: real): real {
    if xs == [] then 0.0 else Aged(a * xs[0], r, |xs| - 1) + Weighted(xs[1..], a, r)
  }

  lemma WeightedFirst(xs: seq<real>, a: real, r: real, v: real, rest: seq<real>)
    requires xs != [] && v == a * xs[0] && rest == xs[1..]
    ensures Weighted(xs, a, r) == Aged(v, r, |xs| - 1) + Weighted(rest, a, r)
  {
  }

  lemma {:induction false} WeightedGrows(xs: seq<real>, x: real, a: real, r: real, y: real)
    requires y == a * x
    ensures Weighted(xs + [x], a, r) == Weighted(xs, a, r) * r + y
  {
    if xs == [] {
      assert xs + [x] == [x] && [x][1..] == [];
    } else {
      WeightedGrows(xs[1..], x, a, r, y);
      assert (xs + [x])[1..] == xs[1..] + [x];
      FirstGrows(xs, x, a, r, a * xs[0], y, Weighted(xs[1..], a, r), Weighted(xs, a, r), Weighted(xs + [x], a, r));
    }
  }

  lemma {:induction false} FirstGrows(xs: seq<real>, x: real, a: real, r: real, v: real, y: real, w: real, t: real,
                                      t': real)
    requires xs != [] && v == a * xs[0] && (xs + [x])[1..] == xs[1..] + [x]
    requires w == Weighted(xs[1..], a, r) && Weighted(xs[1..] + [x], a, r) == w * r + y
    requires t == Weighted(xs, a, r) && t' == Weighted(xs + [x], a, r)
    ensures t' == t * r + y
  {
    WeightedFirst(xs, a, r, v, xs[1..]);
    WeightedFirst(xs + [x], a, r, v, xs[1..] + [x]);
    AgesMore(v, r, |xs| - 1, w, y, t, t');
  }

  lemma AgesMore(v: real, r: real, n: nat, w: real, y: real, t: real, t': real)
    requires t == Aged(v, r, n) + w && t' == Aged(v, r, n + 1) + (w * r + y)
    ensures t' == t * r + y
  {
    AgesBoth(Aged(v, r, n), w, r);
  }

  lemma AgesBoth(v: real, w: real, r: real)
    ensures (v + w) * r == r * v + w * r
  {
  }

  /** An initial estimate and the values after it, weighted exponentially by age. */
  function Mixed(mean: real, xs: seq<real>, a: real, r: real): real {
    Aged(mean, r, |xs|) + Weighted(xs, a, r)
  }

  lemma MixedEmpty(mean: real, a: real, r: real)
    ensures Mixed(mean, [], a, r) == mean
  {
  }

  lemma MixedGrows(mean: real, xs: seq<real>, x: real, a: real, r: real)
    ensures Mixed(mean, xs + [x], a, r) == Mixed(mean, xs, a, r) * r + a * x
  {
    WeightedGrows(xs, x, a, r, a * x);
    AgesBoth(Aged(mean, r, |xs|), Weighted(xs, a, r), r);
  }

  lemma NextMean(e: Estimate, x: int, paused: bool, c: Config)
    requires c.phase > 0 && e.ready
    ensures Next(e, x, paused, c).mean == if paused then e.mean else SmoothedMean(e.mean, e.x, c)
  {
  }

  lemma SmoothedIs(mean: real, x: int, c: Config, r: real)
    requires r == 1.0 - c.smoothing
    ensures SmoothedMean(mean, x, c) == mean * r + c.smoothing * x as real
  {
  }

  lemma MeanStep(e: Estimate, x: int, paused: bool, c: Config, mean: real, xs: seq<int>, r: real)
    requires c.phase > 0 && e.ready && r == 1.0 - c.smoothing && e.mean == Mixed(mean, Reals(xs), c.smoothing, r)
    ensures Next(e, x, paused, c).mean == Mixed(mean, Reals(if paused then xs else xs + [e.x]), c.smoothing, r)
  {
    NextMean(e, x, paused, c);
    if !paused {
      SmoothedIs(e.mean, e.x, c, r);
      MixedMore(mean, Reals(xs), e.x as real, c.smoothing, r, e.mean, SmoothedMean(e.mean, e.x, c));
      assert Reals(xs + [e.x]) == Reals(xs) + [e.x as real];
    }
  }

  lemma MixedMore(mean: real, xs: seq<real>, x: real, a: real, r: real, m: real, m': real)
    requires m == Mixed(mean, xs, a, r) && m' == m * r + a * x
    ensures m' == Mixed(mean, xs + [x], a, r)
  {
    MixedGrows(mean, xs, x, a, r);
  }

  /** The mean is the one of the learning phase and the values used since, weighted exponentially by age. */
  lemma {:induction false} MeanIsWeighted(log: Log, c: Config, r: real, mean: real)
    requires c.phase > 0 && Count(log) > c.phase && r == 1.0 - c.smoothing
    requires mean == Covariance.Mean(Rows(First(log, c.phase)), 1, 0)
    ensures Run(log, c).mean == Mixed(mean, Reals(Used(log, c.phase)), c.smoothing, r)
  {
    if Count(log) == c.phase + 1 {
      assert First(log, c.phase) == log.before;
      InitialMean(log, c);
      MixedEmpty(mean, c.smoothing, r);
    } else {
      MeanIsWeighted(log.before, c, r, mean);
      ReadyIff(log.before, c);
      LastKept(log.before, c);
      MeanStep(Run(log.before, c), log.x, log.paused, c, mean, Used(log.before, c.phase), r);
    }
  }

  lemma {:induction false} LastKept(log: Log, c: Config)
    requires c.phase > 0 && Count(log) > c.phase
    ensures Run(log, c).x == Narrow(log.x)
  {
    ReadyIff(log.before, c);
    if Count(log) == c.phase + 1 { WhileLearning(log.before, c); }
  }

  /** What is smoothed of a variance or a square: itself, or its logarithm if log_variance_ewma is set. */
  function Scale(v: real, c: Config): real {
    if c.logEwma then c.log(v) else v
  }

  /** The squared distance of a value from a mean. */
  function Distance(x: int, mean: real): real {
    (x as real - mean) * (x as real - mean)
  }

  /** Those of the values used from the means that had taken them in. */
  function Squares(log: Log, c: Config): seq<real>
    requires c.phase > 0
  {
    if Count(log) <= c.phase + 1 then []
    else if log.paused then Squares(log.before, c)
    else Squares(log.before, c) + [Scale(Distance(Narrow(log.before.x), Run(log, c).mean), c)]
  }

  lemma ScaledStep(variance: real, mean: real, x: int, c: Config, r: real, square: real)
    requires r == 1.0 - c.smoothing && (c.logEwma ==> forall y :: c.log(c.exp(y)) == y)
    requires square == Scale(Distance(x, mean), c)
    ensures Scale(SmoothedVariance(variance, mean, x, c), c) == Scale(variance, c) * r + c.smoothing * square
  {
  }

  lemma VarianceStep(e: Estimate, x: int, c: Config, r: real, square: real)
    requires c.phase > 0 && e.ready && r == 1.0 - c.smoothing && (c.logEwma ==> forall y :: c.log(c.exp(y)) == y)
    requires square == Scale(Distance(e.x, Next(e, x, false, c).mean), c)
    ensures Scale(Next(e, x, false, c).variance, c) == Scale(e.variance, c) * r + c.smoothing * square
  {
    ScaledStep(e.variance, Next(e, x, false, c).mean, e.x, c, r, square);
  }

  lemma VarianceMore(e: Estimate, x: int, c: Config, r: real, initial: real, squares: seq<real>, square: real)
    requires c.phase > 0 && e.ready && r == 1.0 - c.smoothing && (c.logEwma ==> forall y :: c.log(c.exp(y)) == y)
    requires square == Scale(Distance(e.x, Next(e, x, false, c).mean), c)
    requires Scale(e.variance, c) == Mixed(initial, squares, c.smoothing, r)
    ensures Scale(Next(e, x, false, c).variance, c) == Mixed(initial, squares + [square], c.smoothing, r)
  {
    VarianceStep(e, x, c, r, square);
    MixedMore(initial, squares, square, c.smoothing, r, Scale(e.variance, c), Scale(Next(e, x, false, c).variance, c));
  }

  lemma PausedKeeps(e: Estimate, x: int, c: Config)
    requires c.phase > 0 && e.ready
    ensures Next(e, x, true, c).variance == e.variance
  {
  }

  /**
   * The variance, or its logarithm, is that of the learning phase and the squared distances
   * since, weighted exponentially by age.
   */
  lemma {:induction false} VarianceIsWeighted(log: Log, c: Config, r: real, initial: real)
    requires c.phase > 0 && Count(log) > c.phase && r == 1.0 - c.smoothing
    requires c.logEwma ==> forall y :: c.log(c.exp(y)) == y
    requires initial == Scale(Run(First(log, c.phase + 1), c).variance, c)
    ensures Scale(Run(log, c).variance, c) == Mixed(initial, Squares(log, c), c.smoothing, r)
  {
    if Count(log) == c.phase + 1 {
      MixedEmpty(initial, c.smoothing, r);
    } else {
      VarianceIsWeighted(log.before, c, r, initial);
      ReadyIff(log.before, c);
      LastKept(log.before, c);
      var e := Run(log.before, c);
      if log.paused {
        PausedKeeps(e, log.x, c);
      } else {
        VarianceMore(e, log.x, c, r, initial, Squares(log.before, c), Scale(Distance(e.x, Run(log, c).mean), c));
      }
    }
  }

  /** All values are between lo and hi. */
  predicate Within(log: Log, lo: int, hi: int) {
    log.Saw? ==> lo <= log.x <= hi && Within(log.before, lo, hi)
  }

  lemma {:induction false} SumWithin(log: Log, lo: int, hi: int)
    requires Within(log, lo, hi)
    ensures Portion(Count(log), lo as real) <= Covariance.Sum(Rows(log), 1, 0) <= Portion(Count(log), hi as real)
  {
    if log.Saw? { SumWithin(log.before, lo, hi); }
  }

  lemma {:induction false} AverageWithin(log: Log, lo: int, hi: int, mean: real)
    requires log.Saw? && Within(log, lo, hi) && mean == Covariance.Mean(Rows(log), 1, 0)
    ensures lo as real <= mean <= hi as real
  {
    var n, sum := Parts(log, lo, hi, mean);
    Between(mean, sum, n, lo as real, hi as real);
  }

  lemma Parts(log: Log, lo: int, hi: int, mean: real) returns (n: real, sum: real)
    requires log.Saw? && Within(log, lo, hi) && mean == Covariance.Mean(Rows(log), 1, 0)
    ensures n > 0.0 && mean == sum / n && n * lo as real <= sum <= n * hi as real
  {
    sum := Covariance.Sum(Rows(log), 1, 0);
    SumWithin(log, lo, hi);
    n := Bounds(Count(log), sum, lo as real, hi as real);
  }

  lemma Bounds(count: nat, sum: real, lo: real, hi: real) returns (n: real)
    requires count > 0 && Portion(count, lo) <= sum <= Portion(count, hi)
    ensures n == count as real > 0.0 && n * lo <= sum <= n * hi
  {
    n := count as real;
    PortionIs(count, lo);
    PortionIs(count, hi);
  }

  /** While the values fit an int, the mean never leaves their range. */
  lemma {:induction false} MeanInRange(log: Log, c: Config, lo: int, hi: int)
    requires c.phase > 0 && 0.0 <= c.smoothing <= 1.0 && Count(log) > c.phase
    requires Within(log, lo, hi) && -I32 <= lo <= hi < I32
    ensures lo as real <= Run(log, c).mean <= hi as real
  {
    if Count(log) == c.phase + 1 {
      InitialMean(log, c);
      AverageWithin(log.before, lo, hi, Run(log, c).mean);
    } else {
      MeanInRange(log.before, c, lo, hi);
      ReadyIff(log.before, c);
      LastKept(log.before, c);
      SmoothInRange(Run(log.before, c), log.x, log.paused, c, lo, hi);
    }
  }

  lemma SmoothInRange(e: Estimate, x: int, paused: bool, c: Config, lo: int, hi: int)
    requires c.phase > 0 && 0.0 <= c.smoothing <= 1.0 && e.ready && lo <= e.x <= hi
             && lo as real <= e.mean <= hi as real
    ensures lo as real <= Next(e, x, paused, c).mean <= hi as real
  {
    if !paused { Convex(e.mean, e.x as real, c.smoothing, lo as real, hi as real); }
  }

  lemma Between(mean: real, sum: real, n: real, lo: real, hi: real)
    requires n > 0.0 && mean == sum / n && n * lo <= sum <= n * hi
    ensures lo <= mean <= hi
  {
  }

  lemma Convex(m: real, x: real, a: real, lo: real, hi: real)
    requires 0.0 <= a <= 1.0 && lo <= m <= hi && lo <= x <= hi
    ensures lo <= m * (1.0 - a) + x * a <= hi
  {
    TimesNonNegative(m - lo, 1.0 - a);
    TimesNonNegative(x - lo, a);
    TimesNonNegative(hi - m, 1.0 - a);
    TimesNonNegative(hi - x, a);
  }
}
