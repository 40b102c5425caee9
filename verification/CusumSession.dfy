/**
 * The CUSUM test of an endpoint over the intervals of a run: an interval may bring a
 * value of every metric, which updates the estimates, and may end with a test. The
 * metrics share nothing but the alarm flags that pause their updates.
 */
module CusumSession {
  import L = CusumLearning
  import T = CusumTest
  import RealArithmetic

  /** mode: pause_update_when_attack. */
  datatype Setup = Setup(c: L.Config, metrics: nat, mode: int, amplitude: real, factor: real, onlyFirst: bool,
                         sqrt: real -> real)

  /** Empty: no endpoint has data, and neither updates nor tests are made. Silent: only other endpoints have. */
  datatype Arrival = Empty | Silent | Seen(x: seq<int>)

  datatype Session = Begin | Interval(before: Session, arrival: Arrival, tested: bool)

  predicate WellFormed(s: Session, setup: Setup) {
    s.Interval? ==> (s.arrival.Seen? ==> |s.arrival.x| == setup.metrics) && WellFormed(s.before, setup)
  }

  /** The estimates, the test and whether a value waits to be tested, of one metric. */
  datatype Watch = Watch(e: L.Estimate, m: T.Metric, updated: bool)

  function Tick(w: Watch, setup: Setup): T.Tick {
    var half := setup.amplitude * setup.sqrt(w.e.variance) / 2.0;
    if w.updated then T.Value(w.e.x, w.e.mean + half, setup.factor * half) else T.Missed
  }

  /** The test waits until the learning phase is over. */
  function Test(w: Watch, tested: bool, setup: Setup): Watch {
    if tested && w.e.ready then Watch(w.e, T.Step(w.m, Tick(w, setup), setup.onlyFirst), false) else w
  }

  predicate Fine(s: Session, setup: Setup, i: nat) {
    WellFormed(s, setup) && i < setup.metrics && setup.c.phase > 0
  }

  /** The flags of all metrics. */
  function Flags(s: Session, setup: Setup): (flags: seq<bool>)
    requires WellFormed(s, setup) && setup.c.phase > 0
    ensures |flags| == setup.metrics
    decreases s, 2
  {
    seq(setup.metrics, j requires 0 <= j < setup.metrics => State(s, setup, j).m.lastWasAttack)
  }

  /** Metric i after the update of an interval, before its test; the first value sets the endpoint up. */
  function Updated(before: Session, arrival: Arrival, setup: Setup, i: nat): Watch
    requires Fine(before, setup, i) && (arrival.Seen? ==> |arrival.x| == setup.metrics)
    decreases before, 3
  {
    var w := State(before, setup, i);
    if arrival.Seen? then
      Watch(L.Next(w.e, arrival.x[i], T.Pauses(setup.mode, Flags(before, setup), i), setup.c), w.m,
            w.updated || Arrived(before) > 0)
    else w
  }

  function State(s: Session, setup: Setup, i: nat): Watch
    requires Fine(s, setup, i)
    decreases s, 1
  {
    match s
    case Begin => Watch(L.Estimate(0, false, 0.0, 0.0, 0), T.Metric(0.0, false, 0), false)
    case Interval(before, arrival, tested) => Test(Updated(before, arrival, setup, i), tested && !arrival.Empty?, setup)
  }

  // ---------------------------------------------------------------- the two logs of a metric

  function Arrived(s: Session): nat {
    match s
    case Begin => 0
    case Interval(before, arrival, _) => Arrived(before) + if arrival.Seen? then 1 else 0
  }

  /** The values its estimates saw. */
  function Values(s: Session, setup: Setup, i: nat): (log: L.Log)
    requires Fine(s, setup, i)
    ensures L.Count(log) == Arrived(s)
  {
    match s
    case Begin => L.Nothing
    case Interval(before, arrival, _) =>
      if arrival.Seen? then L.Saw(Values(before, setup, i), arrival.x[i], T.Pauses(setup.mode, Flags(before, setup), i))
      else Values(before, setup, i)
  }

  /** Its test runs. */
  function Ticks(s: Session, setup: Setup, i: nat): T.Log
    requires Fine(s, setup, i)
  {
    match s
    case Begin => T.Nothing
    case Interval(before, arrival, tested) =>
      var w := Updated(before, arrival, setup, i);
      if tested && !arrival.Empty? && w.e.ready then T.Tested(Ticks(before, setup, i), Tick(w, setup))
      else Ticks(before, setup, i)
  }

  /** What was proved of the estimates and of the test holds of every session. */
  lemma {:induction false} SessionIs(s: Session, setup: Setup, i: nat)
    requires Fine(s, setup, i)
    ensures State(s, setup, i).e == L.Run(Values(s, setup, i), setup.c)
    ensures State(s, setup, i).m == T.Run(Ticks(s, setup, i), setup.onlyFirst)
  {
    if s.Interval? { SessionIs(s.before, setup, i); }
  }

  /**
   * The statistic of every session is the largest suffix sum, and its alarm flag says whether
   * one exceeded the threshold.
   */
  lemma {:induction false} StatisticIs(s: Session, setup: Setup, i: nat)
    requires Fine(s, setup, i)
    ensures T.Largest(Ticks(s, setup, i), State(s, setup, i).m.g)
    ensures State(s, setup, i).m.lastWasAttack <==> T.Hot(Ticks(s, setup, i))
  {
    SessionIs(s, setup, i);
    T.LargestSuffix(Ticks(s, setup, i), setup.onlyFirst);
    T.HotWhenAbove(Ticks(s, setup, i), setup.onlyFirst);
  }

  // ---------------------------------------------------------------- the test in means and deviations

  /** A tested value, with the mean and the standard deviation it is compared with. */
  datatype Reading = Reading(x: int, mean: real, deviation: real)

  /** The interval ended with a test of the metric. */
  predicate Tests(s: Session, setup: Setup) {
    s.Interval? && s.tested && !s.arrival.Empty? && Arrived(s) > setup.c.phase
  }

  /** A value has come since the last test. */
  predicate Waits(s: Session, setup: Setup) {
    s.Interval? && !Tests(s, setup) && (s.arrival.Seen? || Waits(s.before, setup))
  }

  lemma {:induction false} ReadyWhen(s: Session, setup: Setup, i: nat)
    requires Fine(s, setup, i)
    ensures State(s, setup, i).e.ready <==> Arrived(s) > setup.c.phase
  {
    SessionIs(s, setup, i);
    L.ReadyIff(Values(s, setup, i), setup.c);
  }

  lemma {:induction false} WaitsIff(s: Session, setup: Setup, i: nat)
    requires Fine(s, setup, i)
    ensures State(s, setup, i).updated <==> Waits(s, setup) && Arrived(s) > 1
  {
    if s.Interval? {
      WaitsIff(s.before, setup, i);
      ReadyWhen(s, setup, i);
    }
  }

  /** The values of metric i tested since the last test that had none. */
  function Readings(s: Session, setup: Setup, i: nat): seq<Reading>
    requires Fine(s, setup, i)
  {
    if s.Begin? then []
    else if !Tests(s, setup) then Readings(s.before, setup, i)
    else if s.arrival.Seen? || Waits(s.before, setup) then
      var e := L.Run(Values(s, setup, i), setup.c);
      Readings(s.before, setup, i) + [Reading(L.Narrow(Last(s, setup, i)), e.mean, setup.sqrt(e.variance))]
    else []
  }

  /** What a value exceeds the mean by, less half of amplitude deviations. */
  function Over(r: Reading, amplitude: real): real {
    r.x as real - r.mean - amplitude * r.deviation / 2.0
  }

  /** The value exceeds the mean by more than half of amplitude deviations. */
  predicate Outlying(r: Reading, amplitude: real) {
    r.x as real - r.mean > amplitude * r.deviation / 2.0
  }

  function Excess(rs: seq<Reading>, amplitude: real): real {
    if rs == [] then 0.0 else Excess(rs[..|rs| - 1], amplitude) + Over(rs[|rs| - 1], amplitude)
  }

  /** What a test finds. */
  lemma {:induction false} Found(s: Session, setup: Setup, i: nat, w: Watch)
    requires Fine(s, setup, i) && Tests(s, setup) && w == Updated(s.before, s.arrival, setup, i)
    ensures w.e.ready && w.e == L.Run(Values(s, setup, i), setup.c) && w.e.x == L.Narrow(Last(s, setup, i))
    ensures w.updated <==> s.arrival.Seen? || Waits(s.before, setup)
    ensures w.m == State(s.before, setup, i).m
  {
    assert State(s, setup, i).e == w.e;
    SessionIs(s, setup, i);
    ReadyWhen(s, setup, i);
    WaitsIff(s.before, setup, i);
    LastIs(s, setup, i);
    L.LastKept(Values(s, setup, i), setup.c);
  }

  /** The tick it presents compares the reading with its mean. */
  ghost predicate Compares(tick: T.Tick, r: Reading, setup: Setup) {
    && tick.Value?
    && tick.x as real - tick.beta == Over(r, setup.amplitude)
    && tick.threshold == setup.factor * (setup.amplitude * r.deviation / 2.0)
  }

  lemma TickCompares(w: Watch, setup: Setup, r: Reading)
    requires w.updated && r == Reading(w.e.x, w.e.mean, setup.sqrt(w.e.variance))
    ensures Compares(Tick(w, setup), r, setup)
  {
  }

  lemma {:induction false} TickIs(s: Session, setup: Setup, i: nat, tick: T.Tick)
    requires Fine(s, setup, i) && Tests(s, setup)
    requires tick == Tick(Updated(s.before, s.arrival, setup, i), setup)
    ensures Ticks(s, setup, i) == T.Tested(Ticks(s.before, setup, i), tick)
    ensures tick.Missed? <==> Readings(s, setup, i) == []
    ensures tick.Value? ==>
              var rs := Readings(s, setup, i);
              && rs != [] && rs[..|rs| - 1] == Readings(s.before, setup, i)
              && Compares(tick, rs[|rs| - 1], setup)
  {
    var w := Updated(s.before, s.arrival, setup, i);
    Found(s, setup, i, w);
    if w.updated { TickCompares(w, setup, Reading(w.e.x, w.e.mean, setup.sqrt(w.e.variance))); }
  }

  lemma {:induction false} TicksStay(s: Session, setup: Setup, i: nat)
    requires Fine(s, setup, i) && s.Interval? && !Tests(s, setup)
    ensures Ticks(s, setup, i) == Ticks(s.before, setup, i) && Readings(s, setup, i) == Readings(s.before, setup, i)
  {
    ReadyWhen(s, setup, i);
  }

  lemma {:induction false} SuffixIs(s: Session, setup: Setup, i: nat, k: nat)
    requires Fine(s, setup, i) && k <= |Readings(s, setup, i)|
    ensures |Readings(s, setup, i)| == T.Streak(Ticks(s, setup, i))
    ensures T.Suffix(Ticks(s, setup, i), |Readings(s, setup, i)| - k)
            == Excess(Readings(s, setup, i)[k..], setup.amplitude)
  {
    var rs := Readings(s, setup, i);
    if s.Interval? && !Tests(s, setup) {
      TicksStay(s, setup, i);
      SuffixIs(s.before, setup, i, k);
    } else if s.Interval? {
      var tick := Tick(Updated(s.before, s.arrival, setup, i), setup);
      TickIs(s, setup, i, tick);
      if tick.Value? {
        SuffixIs(s.before, setup, i, if k < |rs| then k else 0);
        if k < |rs| { assert rs[k..][..|rs| - k - 1] == rs[..|rs| - 1][k..]; }
      }
    }
  }

  lemma {:induction false} HasTick(s: Session, setup: Setup, i: nat)
    requires Fine(s, setup, i)
    ensures var log, rs := Ticks(s, setup, i), Readings(s, setup, i);
            && (log.Tested? && log.tick.Value? <==> rs != [])
            && (rs != [] ==> Compares(log.tick, rs[|rs| - 1], setup))
  {
    if s.Interval? && !Tests(s, setup) {
      TicksStay(s, setup, i);
      HasTick(s.before, setup, i);
    } else if s.Interval? {
      TickIs(s, setup, i, Tick(Updated(s.before, s.arrival, setup, i), setup));
    }
  }

  /** The largest excess of the last readings, none of them included. */
  ghost predicate LargestExcess(rs: seq<Reading>, amplitude: real, g: real) {
    && (forall k :: 0 <= k <= |rs| ==> Excess(rs[k..], amplitude) <= g)
    && (exists k :: 0 <= k <= |rs| && Excess(rs[k..], amplitude) == g)
  }

  /** The last readings exceed their means by more than factor times half of amplitude deviations. */
  ghost predicate Exceeds(rs: seq<Reading>, setup: Setup) {
    rs != [] && Above(rs, setup.amplitude, setup.factor * (setup.amplitude * rs[|rs| - 1].deviation / 2.0))
  }

  ghost predicate Above(rs: seq<Reading>, amplitude: real, threshold: real) {
    exists k :: 0 <= k <= |rs| && Excess(rs[k..], amplitude) > threshold
  }

  /**
   * In every session: the statistic is the largest excess of the tested values over their means and
   * half of amplitude deviations, and there is an alarm exactly if an excess is above factor times the last half.
   */
  lemma {:induction false} ExcessDecides(s: Session, setup: Setup, i: nat)
    requires Fine(s, setup, i)
    ensures LargestExcess(Readings(s, setup, i), setup.amplitude, State(s, setup, i).m.g)
    ensures State(s, setup, i).m.lastWasAttack <==> Exceeds(Readings(s, setup, i), setup)
  {
    var rs, log := Readings(s, setup, i), Ticks(s, setup, i);
    StatisticIs(s, setup, i);
    HasTick(s, setup, i);
    SumsAre(s, setup, i, rs, log);
    LargestAgain(rs, log, setup.amplitude, State(s, setup, i).m.g);
    if rs != [] { HotAgain(rs, log, setup); }
  }

  lemma {:induction false} SumsAre(s: Session, setup: Setup, i: nat, rs: seq<Reading>, log: T.Log)
    requires Fine(s, setup, i) && rs == Readings(s, setup, i) && log == Ticks(s, setup, i)
    ensures Sums(rs, log, setup.amplitude)
  {
    SuffixIs(s, setup, i, 0);
    forall k | 0 <= k <= |rs|
      ensures T.Suffix(log, |rs| - k) == Excess(rs[k..], setup.amplitude)
    {
      SuffixIs(s, setup, i, k);
    }
  }

  ghost predicate Sums(rs: seq<Reading>, log: T.Log, amplitude: real) {
    T.Streak(log) == |rs| && forall k :: 0 <= k <= |rs| ==> T.Suffix(log, |rs| - k) == Excess(rs[k..], amplitude)
  }

  lemma LargestAgain(rs: seq<Reading>, log: T.Log, amplitude: real, g: real)
    requires Sums(rs, log, amplitude) && T.Largest(log, g)
    ensures LargestExcess(rs, amplitude, g)
  {
    var n :| 0 <= n <= T.Streak(log) && T.Suffix(log, n) == g;
    assert T.Suffix(log, |rs| - (|rs| - n)) == Excess(rs[|rs| - n..], amplitude);
  }

  lemma HotAgain(rs: seq<Reading>, log: T.Log, setup: Setup)
    requires Sums(rs, log, setup.amplitude) && rs != [] && log.Tested? && Compares(log.tick, rs[|rs| - 1], setup)
    ensures T.Hot(log) <==> Exceeds(rs, setup)
  {
    AboveAgain(rs, log, setup.amplitude, log.tick.threshold);
  }

  lemma AboveAgain(rs: seq<Reading>, log: T.Log, amplitude: real, threshold: real)
    requires Sums(rs, log, amplitude) && log.Tested? && log.tick.Value? && log.tick.threshold == threshold
    ensures T.Hot(log) <==> Above(rs, amplitude, threshold)
  {
    if T.Hot(log) {
      var n :| 0 <= n <= T.Streak(log) && T.Suffix(log, n) > threshold;
      assert T.Suffix(log, |rs| - (|rs| - n)) == Excess(rs[|rs| - n..], amplitude);
    }
    if Above(rs, amplitude, threshold) {
      var k :| 0 <= k <= |rs| && Excess(rs[k..], amplitude) > threshold;
      assert T.Suffix(log, |rs| - k) > threshold;
    }
  }

  /** A tested value makes the statistic grow exactly if it is outlying. */
  lemma {:induction false} GrowsIff(s: Session, setup: Setup, i: nat)
    requires Fine(s, setup, i) && Tests(s, setup) && Readings(s, setup, i) != []
    ensures var rs := Readings(s, setup, i);
            State(s, setup, i).m.g > State(s.before, setup, i).m.g <==> Outlying(rs[|rs| - 1], setup.amplitude)
  {
    var w := Updated(s.before, s.arrival, setup, i);
    var tick := Tick(w, setup);
    TickIs(s, setup, i, tick);
    Found(s, setup, i, w);
    NotNegative(s.before, setup, i);
    Grows(w.m, tick, Readings(s, setup, i)[|Readings(s, setup, i)| - 1], setup);
  }

  lemma {:induction false} NotNegative(s: Session, setup: Setup, i: nat)
    requires Fine(s, setup, i)
    ensures State(s, setup, i).m.g >= 0.0
  {
    var rs := Readings(s, setup, i);
    ExcessDecides(s, setup, i);
    assert Excess(rs[|rs|..], setup.amplitude) == 0.0;
  }

  lemma Grows(m: T.Metric, tick: T.Tick, r: Reading, setup: Setup)
    requires Compares(tick, r, setup) && m.g >= 0.0
    ensures T.Step(m, tick, setup.onlyFirst).g > m.g <==> Outlying(r, setup.amplitude)
  {
  }

  predicate Steady(rs: seq<Reading>, amplitude: real) {
    forall r :: r in rs ==> !Outlying(r, amplitude)
  }

  lemma {:induction false} SteadyExcess(rs: seq<Reading>, amplitude: real)
    requires Steady(rs, amplitude)
    ensures Excess(rs, amplitude) <= 0.0
    decreases |rs|
  {
    if rs != [] {
      assert rs[|rs| - 1] in rs;
      SteadyExcess(rs[..|rs| - 1], amplitude);
    }
  }

  /** Steady traffic leaves the statistic at zero and raises no alarm. */
  lemma {:induction false} SteadyIsQuiet(s: Session, setup: Setup, i: nat)
    requires Fine(s, setup, i) && Steady(Readings(s, setup, i), setup.amplitude)
    requires setup.amplitude >= 0.0 && setup.factor >= 0.0 && forall v :: setup.sqrt(v) >= 0.0
    ensures State(s, setup, i).m.g == 0.0 && !State(s, setup, i).m.lastWasAttack
  {
    var rs := Readings(s, setup, i);
    ExcessDecides(s, setup, i);
    forall k | 0 <= k <= |rs|
      ensures Excess(rs[k..], setup.amplitude) <= 0.0
    {
      SteadyExcess(rs[k..], setup.amplitude);
    }
    assert Excess(rs[|rs|..], setup.amplitude) == 0.0;
    if rs != [] {
      DeviationSign(s, setup, i);
      MarginSign(setup.factor, setup.amplitude, rs[|rs| - 1].deviation);
    }
  }

  lemma {:induction false} DeviationSign(s: Session, setup: Setup, i: nat)
    requires Fine(s, setup, i) && Readings(s, setup, i) != [] && forall v :: setup.sqrt(v) >= 0.0
    ensures Readings(s, setup, i)[|Readings(s, setup, i)| - 1].deviation >= 0.0
  {
    if !Tests(s, setup) { DeviationSign(s.before, setup, i); }
  }

  lemma MarginSign(factor: real, amplitude: real, deviation: real)
    requires factor >= 0.0 && amplitude >= 0.0 && deviation >= 0.0
    ensures factor * (amplitude * deviation / 2.0) >= 0.0
  {
    RealArithmetic.TimesNonNegative(amplitude, deviation);
    RealArithmetic.TimesNonNegative(factor, amplitude * deviation / 2.0);
  }

  // ---------------------------------------------------------------- what alarms keep out of the mean

  /** stat_test_frequency is 1. */
  predicate EveryTested(s: Session) {
    s.Interval? ==> (s.arrival.Empty? || s.tested) && EveryTested(s.before)
  }

  /** The last interval that was not empty brought values, and the test of metric i raised an alarm. */
  ghost predicate Alarming(s: Session, setup: Setup, i: nat)
    requires Fine(s, setup, i)
  {
    s.Interval? &&
    if s.arrival.Empty? then Alarming(s.before, setup, i) else s.arrival.Seen? && T.Hot(Ticks(s, setup, i))
  }

  /** The alarms of that interval that the mode counts: of any metric, of all, or of metric i. */
  ghost predicate HeldBack(s: Session, setup: Setup, i: nat)
    requires Fine(s, setup, i)
  {
    || (setup.mode == 1 && exists j: nat :: j < setup.metrics && Alarming(s, setup, j))
    || (setup.mode == 2 && forall j: nat :: j < setup.metrics ==> Alarming(s, setup, j))
    || (setup.mode == 3 && Alarming(s, setup, i))
  }

  function Last(s: Session, setup: Setup, i: nat): int
    requires Fine(s, setup, i)
  {
    match s
    case Begin => 0
    case Interval(before, arrival, _) => if arrival.Seen? then arrival.x[i] else Last(before, setup, i)
  }

  /**
   * The values taken into the mean after the learning phase: each one but the last, unless
   * the last interval before the next value that was not empty raised the alarms that hold it back.
   */
  ghost function Taken(s: Session, setup: Setup, i: nat): seq<int>
    requires Fine(s, setup, i)
  {
    match s
    case Begin => []
    case Interval(before, arrival, _) =>
      if !arrival.Seen? || Arrived(before) <= setup.c.phase || HeldBack(before, setup, i) then Taken(before, setup, i)
      else Taken(before, setup, i) + [L.Narrow(Last(before, setup, i))]
  }

  lemma {:induction false} LastIs(s: Session, setup: Setup, i: nat)
    requires Fine(s, setup, i)
    ensures Arrived(s) > 0 ==> Values(s, setup, i).x == Last(s, setup, i)
  {
    if s.Interval? { LastIs(s.before, setup, i); }
  }

  /** A test without new values clears the flags. */
  lemma {:induction false} AlarmedLast(s: Session, setup: Setup, i: nat)
    requires Fine(s, setup, i) && EveryTested(s) && Arrived(s) > setup.c.phase
    ensures State(s, setup, i).m.lastWasAttack <==> Alarming(s, setup, i)
    ensures !State(s, setup, i).updated
  {
    StatisticIs(s, setup, i);
    SessionIs(s, setup, i);
    L.ReadyIff(Values(s, setup, i), setup.c);
    if !s.arrival.Seen? { AlarmedLast(s.before, setup, i); }
  }

  lemma {:induction false} PausesIff(s: Session, setup: Setup, i: nat)
    requires Fine(s, setup, i) && EveryTested(s) && Arrived(s) > setup.c.phase
    ensures T.Pauses(setup.mode, Flags(s, setup), i) <==> HeldBack(s, setup, i)
  {
    var flags := Flags(s, setup);
    forall j: nat | j < setup.metrics
      ensures flags[j] <==> Alarming(s, setup, j)
    {
      AlarmedLast(s, setup, j);
    }
  }

  /**
   * The mean is made of exactly the values taken: alarms hold a value back if and only if the
   * next interval has data.
   */
  lemma {:induction false} TakenAre(s: Session, setup: Setup, i: nat)
    requires Fine(s, setup, i) && EveryTested(s)
    ensures L.Used(Values(s, setup, i), setup.c.phase) == Taken(s, setup, i)
  {
    if s.Interval? {
      TakenAre(s.before, setup, i);
      LastIs(s.before, setup, i);
      if Arrived(s.before) > setup.c.phase { PausesIff(s.before, setup, i); }
    }
  }

  /** An empty interval changes nothing: what is held back stays held back. */
  lemma {:induction false} EmptyKeeps(s: Session, tested: bool, setup: Setup, i: nat)
    requires Fine(s, setup, i) && HeldBack(s, setup, i)
    ensures HeldBack(Interval(s, Empty, tested), setup, i)
    ensures Taken(Interval(s, Empty, tested), setup, i) == Taken(s, setup, i)
  {
    var empty := Interval(s, Empty, tested);
    assert forall j: nat :: j < setup.metrics ==> (Alarming(empty, setup, j) <==> Alarming(s, setup, j));
  }

  /**
   * A value held back stays out of the mean if the next interval brings values, or is empty
   * and the one behind it does; it gets in if only other endpoints have data in between.
   */
  lemma {:induction false} SilenceLetsIn(s: Session, y: seq<int>, setup: Setup, i: nat, next: Session,
                                         between: Session, later: Session)
    requires Fine(s, setup, i) && EveryTested(s) && Arrived(s) > setup.c.phase && HeldBack(s, setup, i)
    requires |y| == setup.metrics && next == Interval(s, Seen(y), true)
    requires (between == Interval(s, Silent, true) || between == Interval(s, Empty, true))
             && later == Interval(between, Seen(y), true)
    ensures L.Used(Values(next, setup, i), setup.c.phase) == Taken(s, setup, i)
    ensures L.Used(Values(later, setup, i), setup.c.phase)
            == Taken(s, setup, i) + if between.arrival.Silent? then [L.Narrow(Last(s, setup, i))] else []
  {
    TakenAre(next, setup, i);
    TakenAre(later, setup, i);
    if between.arrival.Silent? {
      assert !Alarming(between, setup, i);
      assert !HeldBack(between, setup, i);
    } else {
      EmptyKeeps(s, true, setup, i);
    }
  }

  /** There are such values: 5 after a learning phase of two zeros. */
  lemma AlarmOccurs(setup: Setup) returns (s: Session)
    requires setup.metrics == 1 && setup.c.phase == 2 && setup.sqrt(0.0) == 0.0 && 1 <= setup.mode <= 3
    ensures Fine(s, setup, 0) && EveryTested(s) && Arrived(s) > setup.c.phase && HeldBack(s, setup, 0)
  {
    var one := Interval(Begin, Seen([0]), true);
    assert WellFormed(one, setup);
    assert State(Begin, setup, 0).e == L.Estimate(0, false, 0.0, 0.0, 0);
    assert State(one, setup, 0) == Watch(L.Estimate(1, false, 0.0, 0.0, 0), T.Metric(0.0, false, 0), false);
    var learnt := Learns(one, setup);
    s := Alarms(learnt, setup);
  }

  /** A second zero ends the learning phase. */
  lemma Learns(one: Session, setup: Setup) returns (learnt: Session)
    requires setup.metrics == 1 && setup.c.phase == 2 && WellFormed(one, setup) && EveryTested(one) && Arrived(one) == 1
    requires State(one, setup, 0) == Watch(L.Estimate(1, false, 0.0, 0.0, 0), T.Metric(0.0, false, 0), false)
    ensures WellFormed(learnt, setup) && EveryTested(learnt) && Arrived(learnt) == 2
    ensures State(learnt, setup, 0) == Watch(L.Estimate(2, false, 0.0, 0.0, 0), T.Metric(0.0, false, 0), true)
  {
    learnt := Interval(one, Seen([0]), true);
    assert WellFormed(learnt, setup);
  }

  lemma Alarms(learnt: Session, setup: Setup) returns (s: Session)
    requires setup.metrics == 1 && setup.c.phase == 2 && setup.sqrt(0.0) == 0.0 && 1 <= setup.mode <= 3
    requires WellFormed(learnt, setup) && EveryTested(learnt) && Arrived(learnt) == 2
    requires State(learnt, setup, 0) == Watch(L.Estimate(2, false, 0.0, 0.0, 0), T.Metric(0.0, false, 0), true)
    ensures Fine(s, setup, 0) && EveryTested(s) && Arrived(s) > setup.c.phase && HeldBack(s, setup, 0)
  {
    s := Interval(learnt, Seen([5]), true);
    assert WellFormed(s, setup);
    var w := Watch(L.Estimate(2, true, 0.0, 0.0, 5), T.Metric(0.0, false, 0), true);
    assert Updated(learnt, Seen([5]), setup, 0) == w;
    assert Tick(w, setup) == T.Value(5, 0.0, 0.0);
    assert State(s, setup, 0).m == T.Metric(5.0, true, 1);
    StatisticIs(s, setup, 0);
    assert Alarming(s, setup, 0);
  }

  /** The mean of a session in closed form. */
  lemma {:induction false} MeanIs(s: Session, setup: Setup, i: nat, r: real, mean: real)
    requires Fine(s, setup, i) && EveryTested(s) && Arrived(s) > setup.c.phase && r == 1.0 - setup.c.smoothing
    requires mean == L.Covariance.Mean(L.Rows(L.First(Values(s, setup, i), setup.c.phase)), 1, 0)
    ensures State(s, setup, i).e.mean == L.Mixed(mean, L.Reals(Taken(s, setup, i)), setup.c.smoothing, r)
  {
    SessionIs(s, setup, i);
    TakenAre(s, setup, i);
    L.MeanIsWeighted(Values(s, setup, i), setup.c, r, mean);
  }
}
