/**
 * One endpoint in Stat::test, with the CUSUM test alone and no principal components: its
 * parameters, from the interval that first has data of it, are what its session says.
 */
module CusumEndpoint {
  import L = CusumLearning
  import T = CusumTest
  import opened CusumSession

  /** What metric i of the parameters has to agree on with the session. */
  ghost predicate Matches(p: T.Params, w: Watch, i: nat)
    requires p.Valid(|p.mean|) && i < |p.mean|
    reads p
  {
    p.EstimateAt(i) == w.e && p.MetricAt(i) == w.m && p.cusumUpdated == w.updated
  }

  /** Before the first value there is nothing to update and nothing to test. */
  lemma {:induction false} NoValueYet(s: Session, setup: Setup, i: nat)
    requires Fine(s, setup, i) && Arrived(s) == 0
    ensures State(s, setup, i) == Watch(L.Estimate(0, false, 0.0, 0.0, 0), T.Metric(0.0, false, 0), false)
  {
    if s.Interval? { NoValueYet(s.before, setup, i); }
  }

  class Endpoint {
    /** The entry of EndpointParams, if there is one. */
    var params: T.Params?
    /** The intervals so far. */
    ghost var past: Session

    constructor (setup: Setup)
      requires setup.c.phase > 0
      ensures past == Begin && Tracks(setup)
    {
      params, past := null, Begin;
    }

    /** The parameters are what the session of the intervals so far says. */
    ghost predicate Tracks(setup: Setup)
      reads this, params
    {
      && WellFormed(past, setup) && setup.c.phase > 0
      && (params == null <==> Arrived(past) == 0)
      && (params != null ==>
            && params.Valid(setup.metrics)
            && forall i: nat :: i < setup.metrics ==> Matches(params, State(past, setup, i), i))
    }

    /** The learn or update phase. */
    method Update(x: seq<int>, setup: Setup)
      requires Tracks(setup) && |x| == setup.metrics
      modifies this`params, params
      ensures params != null && (params == old(params) || fresh(params)) && params.Valid(setup.metrics)
      ensures forall i: nat :: i < setup.metrics ==> Matches(params, Updated(past, Seen(x), setup, i), i)
    {
      if params == null {
        var p := new T.Params(setup.metrics);
        p.LearnFirst(x, setup.c, setup.metrics);
        params := p;
        forall i: nat | i < setup.metrics
          ensures Matches(params, Updated(past, Seen(x), setup, i), i)
        {
          NoValueYet(past, setup, i);
        }
      } else {
        ghost var flags := params.lastCusumTestWasAttack;
        assert setup.metrics > 0 ==> Matches(params, State(past, setup, 0), 0);
        assert forall i: nat :: i < setup.metrics ==> Matches(params, State(past, setup, i), i);
        assert setup.metrics == 0 || flags == Flags(past, setup);
        params.CusumUpdate(x, setup.c, setup.mode, setup.metrics);
      }
    }

    /** The test phase, of an endpoint that has parameters. */
    method TestPhase(tested: bool, ghost ws: seq<Watch>, setup: Setup)
      requires params != null && params.Valid(setup.metrics) && |ws| == setup.metrics
      requires forall i: nat :: i < setup.metrics ==> Matches(params, ws[i], i)
      modifies params
      ensures params.Valid(setup.metrics)
      ensures forall i: nat :: i < setup.metrics ==> Matches(params, CusumSession.Test(ws[i], tested, setup), i)
    {
      if tested && params.readyToTest {
        params.Test(setup.metrics, setup.sqrt, setup.amplitude, setup.factor, setup.onlyFirst);
      }
    }

    /** The learn or update phase of an interval in which some endpoint has data. */
    method UpdatePhase(arrival: Arrival, setup: Setup)
      requires Tracks(setup) && (arrival.Seen? ==> |arrival.x| == setup.metrics)
      modifies this`params, params
      ensures params == old(params) || fresh(params)
      ensures params == null <==> Arrived(past) == 0 && !arrival.Seen?
      ensures params != null ==>
                && params.Valid(setup.metrics)
                && forall i: nat :: i < setup.metrics ==> Matches(params, Updated(past, arrival, setup, i), i)
    {
      if arrival.Seen? {
        Update(arrival.x, setup);
        assert arrival == Seen(arrival.x);
      } else {
        assert forall i: nat :: i < setup.metrics ==> Updated(past, arrival, setup, i) == State(past, setup, i);
      }
    }

    /** What one call of Stat::test does to the endpoint; tested: MakeStatTest. */
    method Interval(arrival: Arrival, tested: bool, setup: Setup)
      requires Tracks(setup) && (arrival.Seen? ==> |arrival.x| == setup.metrics)
      modifies this, params
      ensures past == Session.Interval(old(past), arrival, tested) && Tracks(setup)
      ensures params == old(params) || fresh(params)
    {
      ghost var s, next := past, Session.Interval(past, arrival, tested);
      if arrival.Empty? {
        assert forall i: nat :: i < setup.metrics ==> State(next, setup, i) == State(s, setup, i);
        past := next;
        return;
      }
      UpdatePhase(arrival, setup);
      if params != null {
        ghost var ws := seq(setup.metrics, i requires 0 <= i < setup.metrics => Updated(s, arrival, setup, i));
        TestPhase(tested, ws, setup);
        assert forall i: nat :: i < setup.metrics ==> State(next, setup, i) == CusumSession.Test(ws[i], tested, setup);
      }
      past := next;
    }

    /** So the statistic and the flag of every metric are decided by the tested values, their means and deviations. */
    lemma {:induction false} Decides(setup: Setup, i: nat)
      requires Tracks(setup) && params != null && i < setup.metrics
      ensures LargestExcess(Readings(past, setup, i), setup.amplitude, params.g[i])
      ensures params.lastCusumTestWasAttack[i] <==> Exceeds(Readings(past, setup, i), setup)
    {
      assert Matches(params, State(past, setup, i), i);
      ExcessDecides(past, setup, i);
    }
  }
}
