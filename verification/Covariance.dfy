/**
 * The learning phase of the principal component analysis: one-pass sums, and the
 * covariance or correlation matrix computed from them. Floating point numbers are
 * modelled as reals; the square root is a parameter.
 */
module Covariance {
  import opened Bytes
  import opened RealArithmetic

  /** A product of two int64_t values. */
  function Signed64(x: int): int {
    (x + I64) % (2 * I64) - I64
  }

  /** It is the only value of an int64_t that differs from the product by a multiple of 2^64. */
  lemma Signed64Wraps(x: int, y: int)
    ensures y == Signed64(x) <==> -I64 <= y < I64 && (x - y) % (2 * I64) == 0
  {
  }

  /** The observations learned so far; each holds one value per metric. */
  datatype Log = Nothing | Learned(before: Log, v: seq<int>)

  predicate WellFormed(log: Log, metrics: nat) {
    log.Learned? ==> |log.v| == metrics && WellFormed(log.before, metrics)
  }

  function Count(log: Log): nat {
    if log.Nothing? then 0 else Count(log.before) + 1
  }

  function Sum(log: Log, metrics: nat, i: nat): real
    requires WellFormed(log, metrics) && i < metrics
  {
    if log.Nothing? then 0.0 else Sum(log.before, metrics, i) + log.v[i] as real
  }

  function Products(log: Log, metrics: nat, i: nat, j: nat): real
    requires WellFormed(log, metrics) && i < metrics && j < metrics
  {
    if log.Nothing? then 0.0 else Products(log.before, metrics, i, j) + Signed64(log.v[i] * log.v[j]) as real
  }

  /** No product of two values overflows. */
  predicate Fits(log: Log, metrics: nat)
    requires WellFormed(log, metrics)
  {
    log.Learned? ==>
      && (forall i, j :: 0 <= i < metrics && 0 <= j < metrics ==> -I64 <= log.v[i] * log.v[j] < I64)
      && Fits(log.before, metrics)
  }

  // ---------------------------------------------------------------- centred sums

  /** The sum of (x_i - p) (x_j - q). */
  function Centred(log: Log, metrics: nat, i: nat, j: nat, p: real, q: real): real
    requires WellFormed(log, metrics) && i < metrics && j < metrics
  {
    if log.Nothing? then 0.0
    else Centred(log.before, metrics, i, j, p, q) + (log.v[i] as real - p) * (log.v[j] as real - q)
  }

  /** The centred sum in terms of the sums: sum x y - q sum x - p sum y + n p q. */
  function Expansion(products: real, sx: real, sy: real, n: real, p: real, q: real): real {
    products - q * sx - p * sy + n * (p * q)
  }

  lemma ExpansionGrows(x: real, y: real, p: real, q: real, products: real, sx: real, sy: real, n: real, xy: real)
    requires xy == x * y
    ensures Expansion(products + xy, sx + x, sy + y, n + 1.0, p, q)
            == Expansion(products, sx, sy, n, p, q) + (x - p) * (y - q)
  {
  }

  lemma {:induction false} Expanded(log: Log, metrics: nat, i: nat, j: nat, p: real, q: real)
    requires WellFormed(log, metrics) && i < metrics && j < metrics && Fits(log, metrics)
    ensures Centred(log, metrics, i, j, p, q)
         == Expansion(Products(log, metrics, i, j), Sum(log, metrics, i), Sum(log, metrics, j), Count(log) as real, p,
                      q)
  {
    if log.Learned? {
      Expanded(log.before, metrics, i, j, p, q);
      ExpansionGrows(log.v[i] as real, log.v[j] as real, p, q, Products(log.before, metrics, i, j),
                     Sum(log.before, metrics, i), Sum(log.before, metrics, j), Count(log.before) as real,
                     ExactProduct(log.v[i], log.v[j]));
    }
  }

  function ExactProduct(x: int, y: int): (r: real)
    requires -I64 <= x * y < I64
    ensures r == x as real * y as real
    ensures r == Signed64(x * y) as real
  {
    (x * y) as real
  }

  function Mean(log: Log, metrics: nat, i: nat): real
    requires WellFormed(log, metrics) && i < metrics && Count(log) > 0
  {
    Sum(log, metrics, i) / Count(log) as real
  }

  /** The two-pass covariance: the mean is subtracted first. */
  function TwoPass(log: Log, metrics: nat, i: nat, j: nat): real
    requires WellFormed(log, metrics) && i < metrics && j < metrics && Count(log) > 1
  {
    Centred(log, metrics, i, j, Mean(log, metrics, i), Mean(log, metrics, j)) / (Count(log) as real - 1.0)
  }

  /** Stat::covariance. */
  function Cov(n: nat, sumProduct: real, sumX: real, sumY: real): real
    requires n > 1
  {
    (sumProduct - (sumX * sumY) / n as real) / (n as real - 1.0)
  }

  /** The one-pass formula is the two-pass covariance. */
  lemma {:induction false} OnePassIsTwoPass(log: Log, metrics: nat, i: nat, j: nat)
    requires WellFormed(log, metrics) && i < metrics && j < metrics && Count(log) > 1 && Fits(log, metrics)
    ensures Cov(Count(log), Products(log, metrics, i, j), Sum(log, metrics, i), Sum(log, metrics, j))
            == TwoPass(log, metrics, i, j)
  {
    var p, q := Mean(log, metrics, i), Mean(log, metrics, j);
    Expanded(log, metrics, i, j, p, q);
    OnePass(Count(log), Products(log, metrics, i, j), Sum(log, metrics, i), Sum(log, metrics, j), p, q,
            Centred(log, metrics, i, j, p, q));
  }

  lemma OnePass(n: nat, products: real, sx: real, sy: real, p: real, q: real, centred: real)
    requires n > 1 && p == sx / n as real && q == sy / n as real
    requires centred == Expansion(products, sx, sy, n as real, p, q)
    ensures Cov(n, products, sx, sy) == centred / (n as real - 1.0)
  {
    Centring(products, sx, sy, n as real, p, q);
  }

  lemma Centring(products: real, sx: real, sy: real, n: real, p: real, q: real)
    requires n > 0.0 && p == sx / n && q == sy / n
    ensures Expansion(products, sx, sy, n, p, q) == products - (sx * sy) / n
  {
    assert p * n == sx && q * n == sy;
    assert q * sx == n * (p * q) && p * sy == n * (p * q);
    assert (n * (p * q)) * n == sx * sy;
  }

  // ---------------------------------------------------------------- the matrix

  /** The sum of (a x + b y)^2 in terms of the sums of x^2, x y and y^2. */
  function Form(a: real, b: real, sxx: real, sxy: real, syy: real): real {
    a * a * sxx + 2.0 * (a * b) * sxy + b * b * syy
  }

  lemma FormGrows(a: real, b: real, x: real, y: real, sxx: real, sxy: real, syy: real,
                  sxx': real, sxy': real, syy': real)
    requires Form(a, b, sxx, sxy, syy) >= 0.0
    requires sxx' == sxx + x * x && sxy' == sxy + x * y && syy' == syy + y * y
    ensures Form(a, b, sxx', sxy', syy') >= 0.0
  {
    var s := a * x + b * y;
    var square := s * s;
    SquareSign(s, square);
    assert square == a * a * (x * x) + 2.0 * (a * b) * (x * y) + b * b * (y * y);
  }

  lemma {:induction false} Quadratic(log: Log, metrics: nat, i: nat, j: nat, p: real, q: real, a: real, b: real)
    requires WellFormed(log, metrics) && i < metrics && j < metrics
    ensures Form(a, b, Centred(log, metrics, i, i, p, p), Centred(log, metrics, i, j, p, q),
                 Centred(log, metrics, j, j, q, q)) >= 0.0
  {
    if log.Learned? {
      Quadratic(log.before, metrics, i, j, p, q, a, b);
      FormGrows(a, b, log.v[i] as real - p, log.v[j] as real - q, Centred(log.before, metrics, i, i, p, p),
                Centred(log.before, metrics, i, j, p, q), Centred(log.before, metrics, j, j, q, q),
                Centred(log, metrics, i, i, p, p), Centred(log, metrics, i, j, p, q),
                Centred(log, metrics, j, j, q, q));
    }
  }

  /** From a never negative quadratic form to its discriminant. */
  lemma {:induction false} Discriminant(log: Log, metrics: nat, i: nat, j: nat, p: real, q: real)
    requires WellFormed(log, metrics) && i < metrics && j < metrics
    ensures Bounded(Centred(log, metrics, i, j, p, q), Centred(log, metrics, i, i, p, p),
                    Centred(log, metrics, j, j, q, q))
  {
    var sxx, syy := Centred(log, metrics, i, i, p, p), Centred(log, metrics, j, j, q, q);
    var sxy := Centred(log, metrics, i, j, p, q);
    Quadratic(log, metrics, i, j, p, q, 0.0, 1.0);
    Quadratic(log, metrics, i, j, p, q, syy, -sxy);
    var b := Counter(sxx, sxy);
    Quadratic(log, metrics, i, j, p, q, 1.0, b);
    DiscriminantAt(sxx, sxy, syy, b);
  }

  predicate Bounded(xy: real, xx: real, yy: real) { xy * xy <= xx * yy }

  /** Where the form would be negative if the sum of squares of y were zero and that of the products not. */
  function Counter(sxx: real, sxy: real): real {
    if sxy == 0.0 then 0.0 else -(sxx + 1.0) / (2.0 * sxy)
  }

  lemma FormAtCounter(sxx: real, sxy: real, b: real)
    requires b == Counter(sxx, sxy) && sxy != 0.0
    ensures Form(1.0, b, sxx, sxy, 0.0) == -1.0
  {
    assert b * (2.0 * sxy) == -(sxx + 1.0);
  }

  lemma DiscriminantAt(sxx: real, sxy: real, syy: real, b: real)
    requires Form(0.0, 1.0, sxx, sxy, syy) >= 0.0 && Form(syy, -sxy, sxx, sxy, syy) >= 0.0
    requires b == Counter(sxx, sxy) && Form(1.0, b, sxx, sxy, syy) >= 0.0
    ensures Bounded(sxy, sxx, syy)
  {
    if sxy != 0.0 { FormAtCounter(sxx, sxy, b); }
    if syy > 0.0 {
      assert (sxx * syy - sxy * sxy) * syy == Form(syy, -sxy, sxx, sxy, syy);
      SignOfFactor(sxx * syy - sxy * sxy, syy);
    }
  }

  /** The centred sum of a metric with itself is never negative. */
  lemma {:induction false} DiagonalSign(log: Log, metrics: nat, i: nat, p: real)
    requires WellFormed(log, metrics) && i < metrics
    ensures Centred(log, metrics, i, i, p, p) >= 0.0
  {
    if log.Learned? {
      DiagonalSign(log.before, metrics, i, p);
      var d := log.v[i] as real - p;
      SquareSign(d, d * d);
    }
  }

  lemma {:induction false} CentredSymmetric(log: Log, metrics: nat, i: nat, j: nat, p: real, q: real)
    requires WellFormed(log, metrics) && i < metrics && j < metrics
    ensures Centred(log, metrics, i, j, p, q) == Centred(log, metrics, j, i, q, p)
  {
    if log.Learned? { CentredSymmetric(log.before, metrics, i, j, p, q); }
  }

  /**
   * The covariance matrix: symmetric, a diagonal that is not negative, and no entry larger
   * than its diagonal allows.
   */
  lemma {:induction false} CovarianceMatrix(log: Log, metrics: nat, i: nat, j: nat)
    requires WellFormed(log, metrics) && i < metrics && j < metrics && Count(log) > 1
    ensures TwoPass(log, metrics, i, j) == TwoPass(log, metrics, j, i)
    ensures TwoPass(log, metrics, i, i) >= 0.0
    ensures Bounded(TwoPass(log, metrics, i, j), TwoPass(log, metrics, i, i), TwoPass(log, metrics, j, j))
  {
    var p, q, m := Mean(log, metrics, i), Mean(log, metrics, j), Count(log) as real - 1.0;
    CentredSymmetric(log, metrics, i, j, p, q);
    DiagonalSign(log, metrics, i, p);
    Discriminant(log, metrics, i, j, p, q);
    Scaled(Centred(log, metrics, i, j, p, q), Centred(log, metrics, i, i, p, p), Centred(log, metrics, j, j, q, q), m);
  }

  lemma Scaled(x: real, y: real, z: real, m: real)
    requires m > 0.0 && Bounded(x, y, z)
    ensures Bounded(x / m, y / m, z / m)
    ensures y >= 0.0 ==> y / m >= 0.0
  {
    var a, b, c := x / m, y / m, z / m;
    assert a * m == x && b * m == y && c * m == z;
    var gap, square := b * c - a * a, m * m;
    ProductPositive(m, m, square);
    assert gap * square == y * z - x * x;
    SignOfFactor(gap, square);
  }

  function Abs(x: real): real { if x < 0.0 then -x else x }

  predicate RootOf(s: real, x: real) { s >= 0.0 && s * s == x }

  /** Stat::standard_deviation, as a relation: s is the root of the absolute value. */
  predicate IsDeviation(s: real, n: nat, sumProduct: real, sumX: real)
    requires n > 1
  {
    RootOf(s, Abs(Cov(n, sumProduct, sumX, sumX)))
  }

  /** fabs changes nothing: the standard deviation is the root of the two-pass variance. */
  lemma {:induction false} DeviationIsRoot(log: Log, metrics: nat, i: nat, s: real)
    requires WellFormed(log, metrics) && i < metrics && Count(log) > 1 && Fits(log, metrics)
    requires IsDeviation(s, Count(log), Products(log, metrics, i, i), Sum(log, metrics, i))
    ensures s * s == TwoPass(log, metrics, i, i)
  {
    OnePassIsTwoPass(log, metrics, i, i);
    CovarianceMatrix(log, metrics, i, i);
  }

  /** Correlations of metrics with deviations that are not zero are between -1 and 1. */
  lemma {:induction false} CorrelationRange(log: Log, metrics: nat, i: nat, j: nat, si: real, sj: real)
    requires WellFormed(log, metrics) && i < metrics && j < metrics && Count(log) > 1
    requires si > 0.0 && si * si == TwoPass(log, metrics, i, i)
    requires sj > 0.0 && sj * sj == TwoPass(log, metrics, j, j)
    ensures -1.0 <= TwoPass(log, metrics, i, j) / (si * sj) <= 1.0
  {
    CovarianceMatrix(log, metrics, i, j);
    Normalised(TwoPass(log, metrics, i, j), TwoPass(log, metrics, i, i), TwoPass(log, metrics, j, j), si, sj);
  }

  lemma Normalised(c: real, vi: real, vj: real, si: real, sj: real)
    requires si > 0.0 && sj > 0.0 && si * si == vi && sj * sj == vj && Bounded(c, vi, vj)
    ensures -1.0 <= c / (si * sj) <= 1.0
  {
    var s := si * sj;
    ProductPositive(si, sj, s);
    assert vi * vj == s * s;
    AtMost(c, s);
    AtMost(-c, s);
    assert -c / s == -(c / s);
  }

  lemma AtMost(c: real, s: real)
    requires s > 0.0 && c * c <= s * s
    ensures c / s <= 1.0
  {
    if c > 0.0 {
      assert (s - c) * (s + c) == s * s - c * c;
      SignOfFactor(s - c, s + c);
    }
    var r := c / s;
    assert r * s == c;
    assert (1.0 - r) * s == s - c;
    SignOfFactor(1.0 - r, s);
  }

  // ---------------------------------------------------------------- the learning phase

  /** What the model assumes of sqrt. */
  ghost predicate IsRoot(sqrt: real -> real) {
    forall x: real :: x >= 0.0 ==> RootOf(sqrt(x), x)
  }

  /** Division; a deviation of zero, which makes the source's quotient infinite or undefined, is not modelled. */
  function Quotient(x: real, y: real): real {
    if y == 0.0 then 0.0 else x / y
  }

  /** c is the covariance divided by both deviations, where neither is zero. */
  predicate IsCorrelation(c: real, covariance: real, si: real, sj: real) {
    si != 0.0 && sj != 0.0 ==> c * (si * sj) == covariance
  }

  lemma QuotientCorrelates(c: real, covariance: real, si: real, sj: real)
    requires c == Quotient(covariance, si * sj)
    ensures IsCorrelation(c, covariance, si, sj)
  {
  }


  /** standard_deviation, of the sums of one metric. */
  function Deviation(sqrt: real -> real, n: nat, sumProduct: real, sumX: real): real
    requires n > 1
  {
    sqrt(Abs(Cov(n, sumProduct, sumX, sumX)))
  }

  lemma RootIs(sqrt: real -> real, x: real, s: real)
    requires IsRoot(sqrt) && s == sqrt(Abs(x))
    ensures RootOf(s, Abs(x))
  {
  }

  /** The standard deviation of metric i. */
  function DeviationOf(sqrt: real -> real, log: Log, metrics: nat, i: nat): real
    requires WellFormed(log, metrics) && i < metrics && Count(log) > 1
  {
    Deviation(sqrt, Count(log), Products(log, metrics, i, i), Sum(log, metrics, i))
  }

  lemma {:induction false} DeviationIs(sqrt: real -> real, log: Log, metrics: nat, i: nat)
    requires WellFormed(log, metrics) && i < metrics && Count(log) > 1 && Fits(log, metrics) && IsRoot(sqrt)
    ensures IsVariance(log, metrics, i, DeviationOf(sqrt, log, metrics, i))
  {
    var s := DeviationOf(sqrt, log, metrics, i);
    var products, sum := Products(log, metrics, i, i), Sum(log, metrics, i);
    RootIs(sqrt, Cov(Count(log), products, sum, sum), s);
    DeviationIsRoot(log, metrics, i, s);
  }

  /** The standard deviations of all metrics. */
  lemma Deviations(sqrt: real -> real, log: Log, metrics: nat) returns (sds: seq<real>)
    requires WellFormed(log, metrics) && Count(log) > 1 && Fits(log, metrics) && IsRoot(sqrt)
    ensures AreDeviations(log, metrics, sds)
    ensures forall i :: 0 <= i < metrics ==> sds[i] == DeviationOf(sqrt, log, metrics, i)
  {
    sds := seq(metrics, i requires 0 <= i < metrics => DeviationOf(sqrt, log, metrics, i));
    forall i | 0 <= i < metrics
      ensures IsVariance(log, metrics, i, sds[i])
    {
      DeviationIs(sqrt, log, metrics, i);
    }
  }

  class Params {
    const metrics: nat
    const sumsOfMetrics: array<real>
    const sumsOfProducts: array2<real>
    const stddevs: array<real>
    const cov: array2<real>
    var learned: nat
    var ready: bool

    ghost predicate Valid()
    {
      && sumsOfMetrics.Length == stddevs.Length == metrics && sumsOfMetrics != stddevs
      && sumsOfProducts.Length0 == sumsOfProducts.Length1 == metrics
      && cov.Length0 == cov.Length1 == metrics && cov != sumsOfProducts
    }

    /** The sums are those of the log. */
    ghost predicate Holds(log: Log)
      reads this, sumsOfMetrics, sumsOfProducts
    {
      && Valid() && WellFormed(log, metrics) && learned == Count(log)
      && (forall i :: 0 <= i < metrics ==> sumsOfMetrics[i] == Sum(log, metrics, i))
      && (forall i, j :: 0 <= i < metrics && 0 <= j < metrics ==> sumsOfProducts[i, j] == Products(log, metrics, i, j))
    }

    constructor (size: nat)
      ensures metrics == size && Holds(Nothing) && !ready
      ensures fresh(sumsOfMetrics) && fresh(sumsOfProducts) && fresh(stddevs) && fresh(cov)
    {
      metrics := size;
      sumsOfMetrics := new real[size](_ => 0.0);
      stddevs := new real[size](_ => 0.0);
      sumsOfProducts := new real[size, size]((_, _) => 0.0);
      cov := new real[size, size]((_, _) => 0.0);
      learned, ready := 0, false;
    }

    /** Row i of the products and, by symmetry, column i. */
    method LearnRow(v: seq<int>, i: nat)
      requires Valid() && |v| == metrics && i < metrics
      requires forall a, b :: 0 <= a < metrics && 0 <= b < metrics ==> sumsOfProducts[a, b] == sumsOfProducts[b, a]
      modifies sumsOfProducts
      ensures forall a, b :: 0 <= a < metrics && 0 <= b < metrics ==>
                sumsOfProducts[a, b] == old(sumsOfProducts[a, b])
                  + if (a == i && b <= i) || (b == i && a <= i) then Signed64(v[a] * v[b]) as real else 0.0
    {
      for j := 0 to i + 1
        invariant forall a, b :: 0 <= a < metrics && 0 <= b < metrics ==>
                    sumsOfProducts[a, b] == old(sumsOfProducts[a, b])
                      + if (a == i && b < j) || (b == i && a < j) then Signed64(v[a] * v[b]) as real else 0.0
      {
        sumsOfProducts[i, j] := sumsOfProducts[i, j] + Signed64(v[i] * v[j]) as real;
        sumsOfProducts[j, i] := sumsOfProducts[i, j];
        assert v[i] * v[j] == v[j] * v[i];
      }
    }

    method Learn(v: seq<int>, ghost log: Log)
      requires Holds(log) && |v| == metrics
      modifies this`learned, sumsOfMetrics, sumsOfProducts
      ensures Holds(Learned(log, v))
    {
      for i := 0 to metrics
        invariant learned == old(learned)
        invariant forall a :: 0 <= a < metrics ==>
                    sumsOfMetrics[a] == Sum(log, metrics, a) + if a < i then v[a] as real else 0.0
        invariant forall a, b :: 0 <= a < metrics && 0 <= b < metrics ==>
                    sumsOfProducts[a, b] == Products(log, metrics, a, b)
                      + if a < i && b < i then Signed64(v[a] * v[b]) as real else 0.0
      {
        sumsOfMetrics[i] := sumsOfMetrics[i] + v[i] as real;
        ProductsSymmetric(log, v);
        LearnRow(v, i);
      }
      learned := learned + 1;
    }

    /** The covariance matrix, from the one-pass sums. */
    method FillCovariance(n: nat, ghost log: Log)
      requires Holds(log) && n == learned > 1 && Fits(log, metrics)
      modifies cov
      ensures forall i, j :: 0 <= i < metrics && 0 <= j < metrics ==> cov[i, j] == TwoPass(log, metrics, i, j)
    {
      for i := 0 to metrics
        invariant forall a, b :: 0 <= a < i && 0 <= b < metrics ==> cov[a, b] == TwoPass(log, metrics, a, b)
      {
        for j := 0 to metrics
          invariant forall a, b :: 0 <= a < i && 0 <= b < metrics ==> cov[a, b] == TwoPass(log, metrics, a, b)
          invariant forall b :: 0 <= b < j ==> cov[i, b] == TwoPass(log, metrics, i, b)
        {
          cov[i, j] := Cov(n, sumsOfProducts[i, j], sumsOfMetrics[i], sumsOfMetrics[j]);
          OnePassIsTwoPass(log, metrics, i, j);
        }
      }
    }

    /** One entry outside the diagonal, divided by both deviations, which are kept. */
    method CorrelateEntry(i: nat, j: nat, sdI: real, sdJ: real)
      requires Valid() && i < metrics && j < metrics && i != j
      modifies cov, stddevs
      ensures forall a, b :: 0 <= a < metrics && 0 <= b < metrics ==>
                cov[a, b] == if a == i && b == j then Quotient(old(cov[i, j]), sdI * sdJ) else old(cov[a, b])
      ensures forall b :: 0 <= b < metrics ==>
                stddevs[b] == if b == i then sdI else if b == j then sdJ else old(stddevs[b])
    {
      cov[i, j] := Quotient(cov[i, j], sdI * sdJ);
      stddevs[i] := sdI;
      stddevs[j] := sdJ;
    }

    /** Row i of the correlation matrix. */
    method CorrelateRow(sqrt: real -> real, n: nat, i: nat, ghost sds: seq<real>, ghost row: seq<real>)
      requires Valid() && i < metrics && n > 1
      requires |sds| == |row| == metrics && row[i] == 1.0
      requires forall b :: 0 <= b < metrics ==> sds[b] == Deviation(sqrt, n, sumsOfProducts[b, b], sumsOfMetrics[b])
      requires forall b :: 0 <= b < metrics && b != i ==> row[b] == Quotient(cov[i, b], sds[i] * sds[b])
      modifies cov, stddevs
      ensures forall a, b :: 0 <= a < metrics && 0 <= b < metrics ==>
                cov[a, b] == if a == i then row[b] else old(cov[a, b])
      ensures metrics > 1 ==> forall b :: 0 <= b < metrics ==> stddevs[b] == sds[b]
    {
      var sdI := Deviation(sqrt, n, sumsOfProducts[i, i], sumsOfMetrics[i]);
      for j := 0 to metrics
        invariant forall a, b :: 0 <= a < metrics && 0 <= b < metrics ==>
                    cov[a, b] == if a == i && b < j then row[b] else old(cov[a, b])
        invariant forall b :: 0 <= b < j && b != i ==> stddevs[b] == sds[b]
        invariant j > 1 || (j == 1 && i != 0) ==> stddevs[i] == sds[i]
      {
        if i != j {
          assert cov[i, j] == old(cov[i, j]);
          CorrelateEntry(i, j, sdI, Deviation(sqrt, n, sumsOfProducts[j, j], sumsOfMetrics[j]));
        } else {
          cov[i, j] := 1.0;
        }
      }
    }

    /** The correlation matrix, from the covariance matrix. */
    method Correlate(sqrt: real -> real, n: nat, ghost sds: seq<real>, ghost matrix: seq<seq<real>>)
      requires Valid() && n > 1
      requires |sds| == metrics
      requires forall b :: 0 <= b < metrics ==> sds[b] == Deviation(sqrt, n, sumsOfProducts[b, b], sumsOfMetrics[b])
      requires |matrix| == metrics && forall a :: 0 <= a < metrics ==> |matrix[a]| == metrics && matrix[a][a] == 1.0
      requires forall a, b :: 0 <= a < metrics && 0 <= b < metrics && a != b ==>
                 matrix[a][b] == Quotient(cov[a, b], sds[a] * sds[b])
      modifies cov, stddevs
      ensures forall a, b :: 0 <= a < metrics && 0 <= b < metrics ==> cov[a, b] == matrix[a][b]
      ensures metrics > 1 ==> forall b :: 0 <= b < metrics ==> stddevs[b] == sds[b]
    {
      for i := 0 to metrics
        invariant forall a, b :: 0 <= a < metrics && 0 <= b < metrics ==>
                    cov[a, b] == if a < i then matrix[a][b] else old(cov[a, b])
        invariant i > 0 && metrics > 1 ==> forall b :: 0 <= b < metrics ==> stddevs[b] == sds[b]
      {
        CorrelateRow(sqrt, n, i, sds, matrix[i]);
      }
    }

    /**
     * The learning part of extract_pca_data: the first phase observations are added up,
     * the call after them computes the matrix.
     */
    method ExtractPcaData(v: seq<int>, phase: nat, useCorrelation: bool, sqrt: real -> real, ghost log: Log)
      requires Holds(log) && !ready && learned <= phase && |v| == metrics && 1 < phase && Fits(log, metrics)
               && IsRoot(sqrt)
      modifies this`learned, this`ready, sumsOfMetrics, sumsOfProducts, cov, stddevs
      ensures old(learned) < phase ==> Holds(Learned(log, v)) && !ready
      ensures old(learned) == phase ==> Holds(log) && ready
      ensures old(learned) == phase && !useCorrelation ==>
                forall i, j :: 0 <= i < metrics && 0 <= j < metrics ==> cov[i, j] == TwoPass(log, metrics, i, j)
      ensures old(learned) == phase && useCorrelation ==>
                forall i, j :: 0 <= i < metrics && 0 <= j < metrics ==>
                  -1.0 <= cov[i, j] <= 1.0 && cov[i, j] == cov[j, i] && (i == j ==> cov[i, j] == 1.0)
      ensures old(learned) == phase && useCorrelation && metrics > 1 ==>
                && (forall i :: 0 <= i < metrics ==> IsVariance(log, metrics, i, stddevs[i]))
                && forall i, j :: 0 <= i < metrics && 0 <= j < metrics && i != j ==>
                     IsCorrelation(cov[i, j], TwoPass(log, metrics, i, j), stddevs[i], stddevs[j])
    {
      if learned < phase {
        Learn(v, log);
        return;
      }
      FillCovariance(phase, log);
      if useCorrelation {
        ghost var sds := Deviations(sqrt, log, metrics);
        ghost var matrix := Correlations(log, metrics, sds);
        AllCorrelate(log, metrics, sds, matrix);
        Correlate(sqrt, phase, sds, matrix);
        forall i, j | 0 <= i < metrics && 0 <= j < metrics
          ensures -1.0 <= cov[i, j] <= 1.0 && cov[i, j] == cov[j, i] && (i == j ==> cov[i, j] == 1.0)
          ensures metrics > 1 && i != j ==>
                    IsCorrelation(cov[i, j], TwoPass(log, metrics, i, j), stddevs[i], stddevs[j])
        {
          assert cov[i, j] == matrix[i][j] && cov[j, i] == matrix[j][i];
        }
      }
      ready := true;
    }

    lemma {:induction false} ProductsSymmetric(log: Log, v: seq<int>)
      requires WellFormed(log, metrics) && |v| == metrics
      ensures forall a, b :: 0 <= a < metrics && 0 <= b < metrics ==>
                Products(log, metrics, a, b) == Products(log, metrics, b, a)
      ensures forall a, b :: 0 <= a < metrics && 0 <= b < metrics ==> v[a] * v[b] == v[b] * v[a]
    {
      forall a, b | 0 <= a < metrics && 0 <= b < metrics
        ensures Products(log, metrics, a, b) == Products(log, metrics, b, a)
      {
        ProductsSwap(log, metrics, a, b);
      }
    }
  }

  lemma {:induction false} ProductsSwap(log: Log, metrics: nat, i: nat, j: nat)
    requires WellFormed(log, metrics) && i < metrics && j < metrics
    ensures Products(log, metrics, i, j) == Products(log, metrics, j, i)
  {
    if log.Learned? {
      ProductsSwap(log.before, metrics, i, j);
      assert log.v[i] * log.v[j] == log.v[j] * log.v[i];
    }
  }

  /** s is the root of the two-pass variance of metric i. */
  predicate IsVariance(log: Log, metrics: nat, i: nat, s: real)
    requires WellFormed(log, metrics) && i < metrics && Count(log) > 1
  {
    RootOf(s, TwoPass(log, metrics, i, i))
  }

  ghost predicate AreDeviations(log: Log, metrics: nat, sds: seq<real>)
    requires WellFormed(log, metrics) && Count(log) > 1
  {
    |sds| == metrics && forall i :: 0 <= i < metrics ==> IsVariance(log, metrics, i, sds[i])
  }

  function Correlation(log: Log, metrics: nat, i: nat, j: nat, si: real, sj: real): real
    requires WellFormed(log, metrics) && i < metrics && j < metrics && Count(log) > 1
  {
    if i == j then 1.0 else Quotient(TwoPass(log, metrics, i, j), si * sj)
  }

  /** The correlation matrix: symmetric, one on the diagonal, every entry between -1 and 1. */
  lemma Correlations(log: Log, metrics: nat, sds: seq<real>) returns (matrix: seq<seq<real>>)
    requires WellFormed(log, metrics) && Count(log) > 1 && AreDeviations(log, metrics, sds)
    ensures |matrix| == metrics && forall i :: 0 <= i < metrics ==> |matrix[i]| == metrics && matrix[i][i] == 1.0
    ensures forall i, j :: 0 <= i < metrics && 0 <= j < metrics && i != j ==>
              matrix[i][j] == Quotient(TwoPass(log, metrics, i, j), sds[i] * sds[j])
    ensures forall i, j :: 0 <= i < metrics && 0 <= j < metrics ==>
              -1.0 <= matrix[i][j] <= 1.0 && matrix[i][j] == matrix[j][i]
  {
    matrix := seq(metrics, i requires 0 <= i < metrics =>
                seq(metrics, j requires 0 <= j < metrics => Correlation(log, metrics, i, j, sds[i], sds[j])));
    forall i, j | 0 <= i < metrics && 0 <= j < metrics
      ensures -1.0 <= matrix[i][j] <= 1.0 && matrix[i][j] == matrix[j][i]
    {
      assert IsVariance(log, metrics, i, sds[i]) && IsVariance(log, metrics, j, sds[j]);
      Ranged(log, metrics, i, j, sds[i], sds[j]);
      Ranged(log, metrics, j, i, sds[j], sds[i]);
    }
  }

  /** Its entries are the covariances divided by the deviations. */
  lemma {:induction false} AllCorrelate(log: Log, metrics: nat, sds: seq<real>, matrix: seq<seq<real>>)
    requires WellFormed(log, metrics) && Count(log) > 1 && |sds| == |matrix| == metrics
    requires forall i :: 0 <= i < metrics ==> |matrix[i]| == metrics
    requires forall i, j :: 0 <= i < metrics && 0 <= j < metrics && i != j ==>
               matrix[i][j] == Quotient(TwoPass(log, metrics, i, j), sds[i] * sds[j])
    ensures forall i, j :: 0 <= i < metrics && 0 <= j < metrics && i != j ==>
              IsCorrelation(matrix[i][j], TwoPass(log, metrics, i, j), sds[i], sds[j])
  {
    forall i, j | 0 <= i < metrics && 0 <= j < metrics && i != j
      ensures IsCorrelation(matrix[i][j], TwoPass(log, metrics, i, j), sds[i], sds[j])
    {
      QuotientCorrelates(matrix[i][j], TwoPass(log, metrics, i, j), sds[i], sds[j]);
    }
  }

  lemma {:induction false} Ranged(log: Log, metrics: nat, i: nat, j: nat, si: real, sj: real)
    requires WellFormed(log, metrics) && i < metrics && j < metrics && Count(log) > 1
    requires IsVariance(log, metrics, i, si) && IsVariance(log, metrics, j, sj)
    ensures -1.0 <= Correlation(log, metrics, i, j, si, sj) <= 1.0
    ensures Correlation(log, metrics, i, j, si, sj) == Correlation(log, metrics, j, i, sj, si)
  {
    CovarianceMatrix(log, metrics, i, j);
    var s := si * sj;
    assert sj * si == s;
    if si == 0.0 || sj == 0.0 {
      assert s == 0.0;
    } else {
      CorrelationRange(log, metrics, i, j, si, sj);
    }
  }
}
