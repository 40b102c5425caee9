/**
 * The CUSUM change detection test. Floating point numbers are modelled as reals
 * and the square root is a parameter.
 */
module CusumTest {
  import opened CusumLearning
  import Covariance

  // ---------------------------------------------------------------- one metric

  /** The test statistic, the alarm flag of the last run and the alarm counter of a metric. */
  datatype Metric = Metric(g: real, lastWasAttack: bool, alarms: nat)

  /** A test run: no new value arrived, or the value with beta and the threshold of the run. */
  datatype Tick = Missed | Value(x: int, beta: real, threshold: real)

  datatype Log = Nothing | Tested(before: Log, tick: Tick)

  /** The cumulative sum, clamped at zero. */
  function Cusum(x: int, beta: real, g: real): real {
    var sum := g + (x as real - beta);
    if sum < 0.0 then 0.0 else sum
  }

  /** What a test run does to a metric. */
  function Step(m: Metric, tick: Tick, onlyFirst: bool): Metric {
    match tick
    case Missed => Metric(0.0, false, m.alarms)
    case Value(x, beta, threshold) =>
      var g := Cusum(x, beta, m.g);
      var attack := g > threshold;
      Metric(g, attack, m.alarms + if attack && !(onlyFirst && m.lastWasAttack) then 1 else 0)
  }

  function Run(log: Log, onlyFirst: bool): Metric {
    match log
    case Nothing => Metric(0.0, false, 0)
    case Tested(before, tick) => Step(Run(before, onlyFirst), tick, onlyFirst)
  }

  /** How many values have arrived since the last missed run. */
  function Streak(log: Log): nat {
    match log
    case Nothing => 0
    case Tested(before, tick) => if tick.Missed? then 0 else 1 + Streak(before)
  }

  /** The sum of X - beta over the last n values. */
  function Suffix(log: Log, n: nat): real
    requires n <= Streak(log)
  {
    if n == 0 then 0.0 else log.tick.x as real - log.tick.beta + Suffix(log.before, n - 1)
  }

  /** The largest sum over any number of the last values is s. */
  ghost predicate Largest(log: Log, s: real) {
    && (forall n :: 0 <= n <= Streak(log) ==> Suffix(log, n) <= s)
    && (exists n :: 0 <= n <= Streak(log) && Suffix(log, n) == s)
  }

  /** The statistic is the largest suffix sum, the empty one included, since the last reset. */
  lemma {:induction false} LargestSuffix(log: Log, onlyFirst: bool)
    ensures Largest(log, Run(log, onlyFirst).g)
  {
    match log
    case Nothing =>
      assert Suffix(log, 0) == 0.0;
    case Tested(before, tick) =>
      assert Suffix(log, 0) == 0.0;
      if tick.Value? {
        LargestSuffix(before, onlyFirst);
        var s := Run(before, onlyFirst).g;
        var d := tick.x as real - tick.beta;
        forall n | 0 <= n <= Streak(log)
          ensures Suffix(log, n) <= Cusum(tick.x, tick.beta, s)
        {
          if n > 0 { assert Suffix(log, n) == d + Suffix(before, n - 1); }
        }
        var n :| 0 <= n <= Streak(before) && Suffix(before, n) == s;
        assert Suffix(log, n + 1) == d + s;
      }
  }

  /** The last run found some suffix sum above the threshold. */
  ghost predicate Hot(log: Log) {
    log.Tested? && log.tick.Value? && exists n :: 0 <= n <= Streak(log) && Suffix(log, n) > log.tick.threshold
  }

  /** How often the test turned hot, or how often it was hot. */
  ghost function Alarms(log: Log, onlyFirst: bool): nat {
    match log
    case Nothing => 0
    case Tested(before, _) => Alarms(before, onlyFirst) + if Hot(log) && !(onlyFirst && Hot(before)) then 1 else 0
  }

  lemma {:induction false} HotWhenAbove(log: Log, onlyFirst: bool)
    ensures Run(log, onlyFirst).lastWasAttack <==> Hot(log)
  {
    if log.Tested? && log.tick.Value? {
      LargestSuffix(log, onlyFirst);
      var n :| 0 <= n <= Streak(log) && Suffix(log, n) == Run(log, onlyFirst).g;
    }
  }

  /** With report_only_first_attack the counter counts rising edges, without it every hot run. */
  lemma {:induction false} AlarmsCounted(log: Log, onlyFirst: bool)
    ensures Run(log, onlyFirst).alarms == Alarms(log, onlyFirst)
  {
    if log.Tested? {
      AlarmsCounted(log.before, onlyFirst);
      HotWhenAbove(log.before, onlyFirst);
      HotWhenAbove(log, onlyFirst);
    }
  }

  /** Reporting only first attacks never reports more. */
  lemma {:induction false} FewerAlarms(log: Log)
    ensures Run(log, true).g == Run(log, false).g && Run(log, true).alarms <= Run(log, false).alarms
  {
    if log.Tested? { FewerAlarms(log.before); }
  }

  // ---------------------------------------------------------------- an endpoint

  /** Whether pause_update_when_attack keeps metric i from being smoothed. */
  predicate Pauses(mode: int, wasAttack: seq<bool>, i: nat)
    requires i < |wasAttack|
  {
    || (mode == 1 && exists j :: 0 <= j < |wasAttack| && wasAttack[j])
    || (mode == 2 && forall j :: 0 <= j < |wasAttack| ==> wasAttack[j])
    || (mode == 3 && wasAttack[i])
  }

  /**
   * What a tested value does to the statistic, margin being what it may exceed the mean by: the statistic
   * grows exactly if the value exceeds the mean by more; otherwise it falls by what is missing, but not
   * below zero; there is an attack if it exceeds the threshold.
   */
  ghost predicate Judged(g: real, g': real, attack: bool, x: int, mean: real, margin: real, threshold: real) {
    && g' >= 0.0
    && (g >= 0.0 ==> (g' > g <==> x as real - mean > margin))
    && (g' > 0.0 ==> g' - g == x as real - mean - margin)
    && (g' == 0.0 ==> g + x as real <= mean + margin)
    && (attack <==> g' > threshold)
  }

  class Params {
    var mean: seq<real>
    var variance: seq<real>
    var g: seq<real>
    var xCurr: seq<int>
    var lastCusumTestWasAttack: seq<bool>
    var cusumAlarms: seq<nat>
    var cusumUpdated: bool
    var cusumLearningPhaseNr: nat
    var readyToTest: bool

    ghost predicate Valid(metrics: nat)
      reads this
    {
      |mean| == |variance| == |g| == |xCurr| == |lastCusumTestWasAttack| == |cusumAlarms| == metrics
    }

    function MetricAt(i: nat): Metric
      requires i < |g| == |lastCusumTestWasAttack| == |cusumAlarms|
      reads this
    {
      Metric(g[i], lastCusumTestWasAttack[i], cusumAlarms[i])
    }

    function EstimateAt(i: nat): Estimate
      requires i < |mean| == |variance| == |xCurr|
      reads this
    {
      Estimate(cusumLearningPhaseNr, readyToTest, mean[i], variance[i], xCurr[i])
    }

    /** A new endpoint. */
    constructor (metrics: nat)
      ensures Valid(metrics) && !cusumUpdated
      ensures forall i :: 0 <= i < metrics ==>
                EstimateAt(i) == Estimate(0, false, 0.0, 0.0, 0) && MetricAt(i) == Metric(0.0, false, 0)
    {
      mean, variance, g := seq(metrics, _ => 0.0), seq(metrics, _ => 0.0), seq(metrics, _ => 0.0);
      xCurr, cusumAlarms := seq(metrics, _ => 0), seq(metrics, _ => 0);
      lastCusumTestWasAttack := seq(metrics, _ => false);
      cusumUpdated, cusumLearningPhaseNr, readyToTest := false, 0, false;
    }

    /** Without principal components the first value is learned at once. */
    method LearnFirst(v: seq<int>, c: Config, metrics: nat)
      requires Valid(metrics) && |v| == metrics && c.phase > 0
      requires forall i :: 0 <= i < metrics ==> EstimateAt(i) == Estimate(0, false, 0.0, 0.0, 0)
      modifies this`mean, this`variance, this`cusumLearningPhaseNr
      ensures Valid(metrics)
      ensures metrics > 0 ==> cusumLearningPhaseNr == 1
      ensures forall i :: 0 <= i < metrics ==> EstimateAt(i) == Next(old(EstimateAt(i)), v[i], false, c)
    {
      for i := 0 to metrics
        invariant Valid(metrics)
        invariant forall j :: 0 <= j < i ==>
                    mean[j] == v[j] as real && variance[j] == Covariance.Signed64(v[j] * v[j]) as real
        invariant forall j :: i <= j < metrics ==> mean[j] == old(mean)[j] && variance[j] == old(variance)[j]
      {
        mean := mean[i := v[i] as real];
        variance := variance[i := Covariance.Signed64(v[i] * v[i]) as real];
      }
      assert metrics > 0 ==> old(EstimateAt(0)).n == 0;
      cusumLearningPhaseNr := 1;
    }

    /** The loops of the learning phase: sums while it lasts, estimates when it is over. */
    method LearnNext(v: seq<int>, c: Config, metrics: nat)
      requires Valid(metrics) && |v| == metrics && c.phase > 0 && !readyToTest
      modifies this`mean, this`variance, this`xCurr, this`cusumLearningPhaseNr, this`readyToTest
      ensures Valid(metrics)
      ensures forall i :: 0 <= i < metrics ==> EstimateAt(i) == Next(old(EstimateAt(i)), v[i], false, c)
    {
      var learning := cusumLearningPhaseNr < c.phase;
      for i := 0 to metrics
        invariant Valid(metrics) && !readyToTest && cusumLearningPhaseNr == old(cusumLearningPhaseNr)
        invariant forall j :: i <= j < metrics ==> EstimateAt(j) == old(EstimateAt(j))
        invariant forall j :: 0 <= j < i ==>
                    EstimateAt(j).(n := if learning then old(cusumLearningPhaseNr) + 1 else old(cusumLearningPhaseNr),
                                   ready := !learning) == Next(old(EstimateAt(j)), v[j], false, c)
      {
        if learning {
          mean := mean[i := mean[i] + v[i] as real];
          variance := variance[i := variance[i] + Covariance.Signed64(v[i] * v[i]) as real];
        } else {
          mean := mean[i := mean[i] / c.phase as real];
          variance := variance[i := InitialVariance(variance[i], mean[i], c.phase)];
          xCurr := xCurr[i := Narrow(v[i])];
        }
      }
      if learning {
        cusumLearningPhaseNr := cusumLearningPhaseNr + 1;
      } else {
        readyToTest := true;
      }
    }

    method Remember(v: seq<int>, metrics: nat)
      requires Valid(metrics) && |v| == metrics
      modifies this`xCurr
      ensures Valid(metrics) && forall i :: 0 <= i < metrics ==> xCurr[i] == Narrow(v[i])
    {
      for i := 0 to metrics
        invariant Valid(metrics) && forall j :: 0 <= j < i ==> xCurr[j] == Narrow(v[j])
      {
        xCurr := xCurr[i := Narrow(v[i])];
      }
    }

    /** Smooths the estimates, of all metrics or of those without an alarm. */
    method SmoothMetrics(v: seq<int>, c: Config, skipAttacked: bool, metrics: nat)
      requires Valid(metrics) && |v| == metrics && c.phase > 0 && readyToTest
      modifies this`mean, this`variance, this`xCurr
      ensures Valid(metrics)
      ensures forall i :: 0 <= i < metrics ==>
                EstimateAt(i) == Next(old(EstimateAt(i)), v[i], skipAttacked && lastCusumTestWasAttack[i], c)
    {
      for i := 0 to metrics
        invariant Valid(metrics)
        invariant forall j :: i <= j < metrics ==> EstimateAt(j) == old(EstimateAt(j))
        invariant forall j :: 0 <= j < i ==>
                    EstimateAt(j) == Next(old(EstimateAt(j)), v[j], skipAttacked && lastCusumTestWasAttack[j], c)
      {
        if !skipAttacked || !lastCusumTestWasAttack[i] {
          mean := mean[i := SmoothedMean(mean[i], xCurr[i], c)];
          variance := variance[i := SmoothedVariance(variance[i], mean[i], xCurr[i], c)];
        }
        xCurr := xCurr[i := Narrow(v[i])];
      }
    }

    /** cusum_update: every metric learns its value; an alarm may pause all metrics or its own. */
    method CusumUpdate(v: seq<int>, c: Config, mode: int, metrics: nat)
      requires Valid(metrics) && |v| == metrics && c.phase > 0
      modifies this`mean, this`variance, this`xCurr, this`cusumLearningPhaseNr, this`readyToTest, this`cusumUpdated
      ensures Valid(metrics) && cusumUpdated
      ensures forall i :: 0 <= i < metrics ==>
                EstimateAt(i) == Next(old(EstimateAt(i)), v[i], Pauses(mode, lastCusumTestWasAttack, i), c)
    {
      cusumUpdated := true;
      if !readyToTest {
        LearnNext(v, c, metrics);
        assert forall i :: 0 <= i < metrics ==> !old(EstimateAt(i)).ready;
        return;
      }
      var atLeastOne, all := false, true;
      for i := 0 to metrics
        invariant atLeastOne <==> exists j :: 0 <= j < i && lastCusumTestWasAttack[j]
        invariant all <==> forall j :: 0 <= j < i ==> lastCusumTestWasAttack[j]
      {
        if lastCusumTestWasAttack[i] { atLeastOne := true; } else { all := false; }
      }
      if mode == 1 && atLeastOne {
        Remember(v, metrics);
      } else if mode == 2 && all {
        Remember(v, metrics);
      } else {
        SmoothMetrics(v, c, mode == 3 && atLeastOne, metrics);
      }
    }

    /** What the run presents to metric i. */
    function TickAt(i: nat, half: real, repetitionFactor: real): Tick
      requires i < |mean| == |xCurr|
      reads this
    {
      if cusumUpdated then Value(xCurr[i], mean[i] + half, repetitionFactor * half) else Missed
    }

    /** The body of the loop, for one metric; half: amplitude_percentage * sqrt(variance) / 2. */
    method TestMetric(i: nat, half: real, repetitionFactor: real, onlyFirst: bool) returns (attack: bool)
      requires Valid(|g|) && i < |g|
      modifies this`g, this`cusumAlarms
      ensures |g| == |old(g)| && |cusumAlarms| == |old(cusumAlarms)|
      ensures g == old(g)[i := g[i]] && cusumAlarms == old(cusumAlarms)[i := cusumAlarms[i]]
      ensures Metric(g[i], attack, cusumAlarms[i])
              == Step(old(MetricAt(i)), old(TickAt(i, half, repetitionFactor)), onlyFirst)
      ensures if cusumUpdated then Judged(old(g)[i], g[i], attack, xCurr[i], mean[i], half, repetitionFactor * half)
              else g[i] == 0.0 && !attack
    {
      attack := false;
      var threshold := repetitionFactor * half;
      var beta := mean[i] + half;
      if cusumUpdated {
        g := g[i := Cusum(xCurr[i], beta, g[i])];
        if g[i] > threshold {
          if !onlyFirst || !lastCusumTestWasAttack[i] {
            cusumAlarms := cusumAlarms[i := cusumAlarms[i] + 1];
          }
          attack := true;
        }
      } else {
        g := g[i := 0.0];
      }
    }

    /** Half of amplitude_percentage standard deviations. */
    function Half(i: nat, sqrt: real -> real, amplitude: real): real
      requires i < |variance|
      reads this`variance
    {
      amplitude * sqrt(variance[i]) / 2.0
    }

    /** cusum_test: every metric makes its step. */
    method Test(metrics: nat, sqrt: real -> real, amplitude: real, repetitionFactor: real, onlyFirst: bool)
      requires Valid(metrics)
      modifies this`g, this`lastCusumTestWasAttack, this`cusumAlarms, this`cusumUpdated
      ensures Valid(metrics) && !cusumUpdated
      ensures forall i :: 0 <= i < metrics ==>
                MetricAt(i) == Step(old(MetricAt(i)), old(TickAt(i, Half(i, sqrt, amplitude), repetitionFactor)),
                                    onlyFirst)
    {
      var wasAttack := seq(metrics, _ => false);
      for i := 0 to metrics
        invariant Valid(metrics) && |wasAttack| == metrics
        invariant !cusumUpdated ==> forall j :: 0 <= j < metrics ==> !wasAttack[j]
        invariant cusumUpdated == old(cusumUpdated) && lastCusumTestWasAttack == old(lastCusumTestWasAttack)
        invariant forall j :: i <= j < metrics ==> g[j] == old(g)[j] && cusumAlarms[j] == old(cusumAlarms)[j]
        invariant forall j :: 0 <= j < i ==>
                    Metric(g[j], wasAttack[j], cusumAlarms[j])
                    == Step(old(MetricAt(j)), old(TickAt(j, Half(j, sqrt, amplitude), repetitionFactor)), onlyFirst)
      {
        var half := amplitude * sqrt(variance[i]) / 2.0;
        assert TickAt(i, half, repetitionFactor) == old(TickAt(i, Half(i, sqrt, amplitude), repetitionFactor));
        var attack := TestMetric(i, half, repetitionFactor, onlyFirst);
        wasAttack := wasAttack[i := attack];
      }
      lastCusumTestWasAttack := if cusumUpdated then wasAttack else seq(metrics, _ => false);
      // a missed run leaves every flag false either way
      assert forall j :: 0 <= j < metrics ==> lastCusumTestWasAttack[j] == wasAttack[j];
      cusumUpdated := false;
    }
  }
}
