/**
 Power along the startup and shutdown trajectories, below the minimum stable
 level, and the generator's total power provision.

 A stop at an earlier timepoint of the backward window, or a start at a later
 timepoint of the forward window, leaves the unit on a linear ramp between zero
 and the minimum stable level during `tmp`; each such timepoint contributes its
 start or stop value times the power that ramp would give.
 */
module Trajectory {
  import opened Timeline
  import opened Windows
  import opened Generators
  import opened RealArith

  /** Power that a shutdown in timepoint `t`, `elapsed` hours back, leaves at `tmp`. */
  function ShutdownTerm(tl: Timeline, g: Generator, d: Decisions, tmp: Tmp, t: Tmp, elapsed: real): real
  {
    d.stop(t) * (Pmin(tl, g, tmp) - elapsed * 60.0 * g.shutdownRate * g.capacity(tl.period(t)) * g.availability(t))
  }

  /** Power that a startup in timepoint `t`, `elapsed` hours ahead, gives at `tmp`. */
  function StartupTerm(tl: Timeline, g: Generator, d: Decisions, tmp: Tmp, t: Tmp, elapsed: real): real
  {
    d.start(t) * (Pmin(tl, g, tmp) - elapsed * 60.0 * g.startupRate * g.capacity(tl.period(t)) * g.availability(t))
  }

  /** The shutdown accumulation over `ts`: the elapsed time grows by a timepoint's
      duration before that timepoint's term is taken. */
  function ShutdownSum(tl: Timeline, g: Generator, d: Decisions, tmp: Tmp, ts: seq<Tmp>, elapsed: real): real
  {
    if |ts| == 0 then 0.0
    else
      var e := elapsed + tl.hours(ts[0]);
      ShutdownTerm(tl, g, d, tmp, ts[0], e) + ShutdownSum(tl, g, d, tmp, ts[1..], e)
  }

  /** The startup accumulation over `ts`: a timepoint's term is taken before the
      elapsed time grows by its duration. */
  function StartupSum(tl: Timeline, g: Generator, d: Decisions, tmp: Tmp, ts: seq<Tmp>, elapsed: real): real
  {
    if |ts| == 0 then 0.0
    else
      StartupTerm(tl, g, d, tmp, ts[0], elapsed) + StartupSum(tl, g, d, tmp, ts[1..], elapsed + tl.hours(ts[0]))
  }

  /** Reference definition of the shutdown power over the first `n` timepoints of
      `ts`: the term of `ts[k]` uses the total duration of `ts[0..k]`, `ts[k]` included. */
  function ShutdownClosed(tl: Timeline, g: Generator, d: Decisions, tmp: Tmp, ts: seq<Tmp>, n: nat): real
    requires n <= |ts|
  {
    if n == 0 then 0.0
    else ShutdownClosed(tl, g, d, tmp, ts, n - 1) + ShutdownTerm(tl, g, d, tmp, ts[n - 1], SumOver(tl.hours, ts[..n]))
  }

  /** Reference definition of the startup power over the first `n` timepoints of
      `ts`: the term of `ts[k]` uses the total duration of `ts[0..k]`, `ts[k]` excluded. */
  function StartupClosed(tl: Timeline, g: Generator, d: Decisions, tmp: Tmp, ts: seq<Tmp>, n: nat): real
    requires n <= |ts|
  {
    if n == 0 then 0.0
    else StartupClosed(tl, g, d, tmp, ts, n - 1) + StartupTerm(tl, g, d, tmp, ts[n - 1], SumOver(tl.hours, ts[..n - 1]))
  }

  lemma {:induction false} ShutdownSumFrom(tl: Timeline, g: Generator, d: Decisions, tmp: Tmp, ts: seq<Tmp>, j: nat)
    requires j <= |ts|
    ensures ShutdownSum(tl, g, d, tmp, ts[j..], SumOver(tl.hours, ts[..j])) + ShutdownClosed(tl, g, d, tmp, ts, j)
            == ShutdownClosed(tl, g, d, tmp, ts, |ts|)
    decreases |ts| - j
  {
    if j < |ts| {
      ShutdownSumFrom(tl, g, d, tmp, ts, j + 1);
      assert ts[..j + 1][..j] == ts[..j];
      assert ts[j..][1..] == ts[j + 1..];
    }
  }

  lemma {:induction false} StartupSumFrom(tl: Timeline, g: Generator, d: Decisions, tmp: Tmp, ts: seq<Tmp>, j: nat)
    requires j <= |ts|
    ensures StartupSum(tl, g, d, tmp, ts[j..], SumOver(tl.hours, ts[..j])) + StartupClosed(tl, g, d, tmp, ts, j)
            == StartupClosed(tl, g, d, tmp, ts, |ts|)
    decreases |ts| - j
  {
    if j < |ts| {
      StartupSumFrom(tl, g, d, tmp, ts, j + 1);
      assert ts[..j + 1][..j] == ts[..j];
      assert ts[j..][1..] == ts[j + 1..];
    }
  }

  /** The shutdown accumulation equals its reference definition. */
  lemma ShutdownSumClosedForm(tl: Timeline, g: Generator, d: Decisions, tmp: Tmp, ts: seq<Tmp>)
    ensures ShutdownSum(tl, g, d, tmp, ts, 0.0) == ShutdownClosed(tl, g, d, tmp, ts, |ts|)
  {
    ShutdownSumFrom(tl, g, d, tmp, ts, 0);
    assert ts[0..] == ts;
  }

  /** The startup accumulation equals its reference definition; in particular the
      nearest timepoint contributes its start value times the full minimum stable power. */
  lemma StartupSumClosedForm(tl: Timeline, g: Generator, d: Decisions, tmp: Tmp, ts: seq<Tmp>)
    ensures StartupSum(tl, g, d, tmp, ts, 0.0) == StartupClosed(tl, g, d, tmp, ts, |ts|)
  {
    StartupSumFrom(tl, g, d, tmp, ts, 0);
    assert ts[0..] == ts;
  }

  /** The nearest timepoint of a startup window contributes its start value times
      the full minimum stable power, and the nearest of a shutdown window its stop
      value times the minimum stable power less one timepoint of ramp. */
  lemma NearestTerms(tl: Timeline, g: Generator, d: Decisions, tmp: Tmp, ts: seq<Tmp>)
    requires |ts| > 0
    ensures StartupClosed(tl, g, d, tmp, ts, 1) == d.start(ts[0]) * Pmin(tl, g, tmp)
    ensures ShutdownClosed(tl, g, d, tmp, ts, 1)
            == d.stop(ts[0]) * (Pmin(tl, g, tmp) - tl.hours(ts[0]) * 60.0 * g.shutdownRate
                                  * g.capacity(tl.period(ts[0])) * g.availability(ts[0]))
  {
    assert ts[..0] == [];
    assert ts[..1] == [ts[0]];
    assert SumOver(tl.hours, [ts[0]]) == SumOver(tl.hours, [ts[0]][..0]) + tl.hours(ts[0]);
    assert [ts[0]][..0] == [];
    var x := 0.0 * 60.0 * g.startupRate;
    assert x == 0.0;
    assert x * g.capacity(tl.period(ts[0])) * g.availability(ts[0]) == 0.0;
  }

  /** Shutdown power at `tmp`: every timepoint of the backward window over the
      shutdown length except the farthest one contributes. */
  function ShutdownPower(tl: Timeline, g: Generator, d: Decisions, tmp: Tmp): (r: real)
    requires WellFormed(tl) && Member(tl, g.balancingType, tmp) && g.shutdownRate > 0.0
    ensures var w := BackwardWindowAt(tl, g.balancingType, tmp, ShutdownLengthHours(g));
            r == ShutdownClosed(tl, g, d, tmp, w[..|w| - 1], |w| - 1)
    ensures |BackwardWindowAt(tl, g.balancingType, tmp, ShutdownLengthHours(g))| == 1 ==> r == 0.0
  {
    var w := BackwardWindowAt(tl, g.balancingType, tmp, ShutdownLengthHours(g));
    ShutdownSumClosedForm(tl, g, d, tmp, w[..|w| - 1]);
    ShutdownSum(tl, g, d, tmp, w[..|w| - 1], 0.0)
  }

  /** Startup power at `tmp`: every timepoint of the forward window over the
      startup length contributes. */
  function StartupPower(tl: Timeline, g: Generator, d: Decisions, tmp: Tmp): (r: real)
    requires WellFormed(tl) && Member(tl, g.balancingType, tmp) && g.startupRate > 0.0
    ensures var w := ForwardWindowAt(tl, g.balancingType, tmp, StartupLengthHours(g));
            r == StartupClosed(tl, g, d, tmp, w, |w|)
    ensures |ForwardWindowAt(tl, g.balancingType, tmp, StartupLengthHours(g))| == 0 ==> r == 0.0
  {
    StartupSumClosedForm(tl, g, d, tmp, ForwardWindowAt(tl, g.balancingType, tmp, StartupLengthHours(g)));
    StartupSum(tl, g, d, tmp, ForwardWindowAt(tl, g.balancingType, tmp, StartupLengthHours(g)), 0.0)
  }

  /** Total power provision: power above the minimum stable level, the minimum
      stable level when committed, and the startup and shutdown trajectories. */
  function ProvidePower(tl: Timeline, g: Generator, d: Decisions, tmp: Tmp): real
    requires WellFormed(tl) && Member(tl, g.balancingType, tmp) && g.startupRate > 0.0 && g.shutdownRate > 0.0
  {
    d.abovePmin(tmp) + Pmin(tl, g, tmp) * d.commit(tmp) + StartupPower(tl, g, d, tmp) + ShutdownPower(tl, g, d, tmp)
  }

  // ---------------------------------------------------------------------------
  // Bounds

  /** The derated shutdown or startup slope in timepoint `t` is non-negative. */
  predicate NonnegativeSlope(tl: Timeline, g: Generator, t: Tmp)
  {
    g.capacity(tl.period(t)) >= 0.0 && g.availability(t) >= 0.0
  }

  lemma TermBelowPmin(p: real, x: real, e: real, rate: real, cap: real, avail: real)
    requires x >= 0.0 && e >= 0.0 && rate >= 0.0 && cap >= 0.0 && avail >= 0.0
    ensures x * (p - e * 60.0 * rate * cap * avail) <= x * p
  {
    MulNonneg(e * 60.0, rate);
    MulNonneg(e * 60.0 * rate, cap);
    MulNonneg(e * 60.0 * rate * cap, avail);
    MulNonneg(x, e * 60.0 * rate * cap * avail);
  }

  /** A stop at `t`, however long ago, leaves at most its value times the minimum stable power. */
  lemma ShutdownTermBound(tl: Timeline, g: Generator, d: Decisions, tmp: Tmp, t: Tmp, e: real)
    requires d.stop(t) >= 0.0 && e >= 0.0 && g.shutdownRate >= 0.0 && NonnegativeSlope(tl, g, t)
    ensures ShutdownTerm(tl, g, d, tmp, t, e) <= Pmin(tl, g, tmp) * d.stop(t)
  {
    TermBelowPmin(Pmin(tl, g, tmp), d.stop(t), e, g.shutdownRate, g.capacity(tl.period(t)), g.availability(t));
  }

  /** A start at `t`, however far ahead, gives at most its value times the minimum stable power. */
  lemma StartupTermBound(tl: Timeline, g: Generator, d: Decisions, tmp: Tmp, t: Tmp, e: real)
    requires d.start(t) >= 0.0 && e >= 0.0 && g.startupRate >= 0.0 && NonnegativeSlope(tl, g, t)
    ensures StartupTerm(tl, g, d, tmp, t, e) <= Pmin(tl, g, tmp) * d.start(t)
  {
    TermBelowPmin(Pmin(tl, g, tmp), d.start(t), e, g.startupRate, g.capacity(tl.period(t)), g.availability(t));
  }

  /** The shutdown accumulation over timepoints of non-negative duration is at
      most the minimum stable power times their stops. */
  lemma {:induction false} ShutdownSumBound(tl: Timeline, g: Generator, d: Decisions, tmp: Tmp, ts: seq<Tmp>, e: real)
    requires e >= 0.0 && g.shutdownRate >= 0.0
    requires forall m | 0 <= m < |ts| :: d.stop(ts[m]) >= 0.0 && tl.hours(ts[m]) >= 0.0 && NonnegativeSlope(tl, g, ts[m])
    ensures ShutdownSum(tl, g, d, tmp, ts, e) <= Pmin(tl, g, tmp) * SumOver(d.stop, ts)
    decreases |ts|
  {
    if |ts| == 0 {
      assert SumOver(d.stop, ts) == 0.0;
    } else {
      var t := ts[0];
      var e' := e + tl.hours(t);
      var p := Pmin(tl, g, tmp);
      var rest := ShutdownSum(tl, g, d, tmp, ts[1..], e');
      var term := ShutdownTerm(tl, g, d, tmp, t, e');
      assert ShutdownSum(tl, g, d, tmp, ts, e) == term + rest;
      assert rest <= p * SumOver(d.stop, ts[1..]) by {
        forall m | 0 <= m < |ts[1..]|
          ensures d.stop(ts[1..][m]) >= 0.0 && tl.hours(ts[1..][m]) >= 0.0 && NonnegativeSlope(tl, g, ts[1..][m])
        {
          assert ts[1..][m] == ts[m + 1];
        }
        ShutdownSumBound(tl, g, d, tmp, ts[1..], e');
      }
      assert term <= p * d.stop(t) by {
        ShutdownTermBound(tl, g, d, tmp, t, e');
      }
      assert SumOver(d.stop, ts) == d.stop(t) + SumOver(d.stop, ts[1..]) by {
        SumOverFront(d.stop, ts);
      }
      AddStep(rest, term, p, SumOver(d.stop, ts[1..]), d.stop(t));
    }
  }

  /** The startup accumulation over timepoints of non-negative duration is at
      most the minimum stable power times their starts. */
  lemma {:induction false} StartupSumBound(tl: Timeline, g: Generator, d: Decisions, tmp: Tmp, ts: seq<Tmp>, e: real)
    requires e >= 0.0 && g.startupRate >= 0.0
    requires forall m | 0 <= m < |ts| :: d.start(ts[m]) >= 0.0 && tl.hours(ts[m]) >= 0.0 && NonnegativeSlope(tl, g, ts[m])
    ensures StartupSum(tl, g, d, tmp, ts, e) <= Pmin(tl, g, tmp) * SumOver(d.start, ts)
    decreases |ts|
  {
    if |ts| == 0 {
      assert SumOver(d.start, ts) == 0.0;
    } else {
      var t := ts[0];
      var e' := e + tl.hours(t);
      var p := Pmin(tl, g, tmp);
      var rest := StartupSum(tl, g, d, tmp, ts[1..], e');
      var term := StartupTerm(tl, g, d, tmp, t, e);
      assert StartupSum(tl, g, d, tmp, ts, e) == term + rest;
      assert rest <= p * SumOver(d.start, ts[1..]) by {
        forall m | 0 <= m < |ts[1..]|
          ensures d.start(ts[1..][m]) >= 0.0 && tl.hours(ts[1..][m]) >= 0.0 && NonnegativeSlope(tl, g, ts[1..][m])
        {
          assert ts[1..][m] == ts[m + 1];
        }
        StartupSumBound(tl, g, d, tmp, ts[1..], e');
      }
      assert term <= p * d.start(t) by {
        StartupTermBound(tl, g, d, tmp, t, e);
      }
      assert SumOver(d.start, ts) == d.start(t) + SumOver(d.start, ts[1..]) by {
        SumOverFront(d.start, ts);
      }
      AddStep(rest, term, p, SumOver(d.start, ts[1..]), d.start(t));
    }
  }

  /** Startup power at `tmp` is at most the minimum stable power times the
      starts in the forward window. */
  lemma StartupPowerBound(tl: Timeline, g: Generator, d: Decisions, tmp: Tmp)
    requires WellFormed(tl) && Member(tl, g.balancingType, tmp) && g.startupRate > 0.0
    requires forall t :: d.start(t) >= 0.0
    requires forall t :: NonnegativeSlope(tl, g, t)
    ensures StartupPower(tl, g, d, tmp)
            <= Pmin(tl, g, tmp) * SumOver(d.start, ForwardWindowAt(tl, g.balancingType, tmp, StartupLengthHours(g)))
  {
    StartupWindowBound(tl, g, d, tmp, StartupLengthHours(g));
  }

  lemma StartupWindowBound(tl: Timeline, g: Generator, d: Decisions, tmp: Tmp, target: real)
    requires WellFormed(tl) && Member(tl, g.balancingType, tmp) && g.startupRate >= 0.0
    requires forall t :: d.start(t) >= 0.0
    requires forall t :: NonnegativeSlope(tl, g, t)
    ensures var fw := ForwardWindowAt(tl, g.balancingType, tmp, target);
            StartupSum(tl, g, d, tmp, fw, 0.0) <= Pmin(tl, g, tmp) * SumOver(d.start, fw)
  {
    var fw := ForwardWindowAt(tl, g.balancingType, tmp, target);
    ForwardWindowHours(tl, g.balancingType, tmp, target);
    forall m | 0 <= m < |fw|
      ensures d.start(fw[m]) >= 0.0 && tl.hours(fw[m]) >= 0.0 && NonnegativeSlope(tl, g, fw[m])
    {
      var t := fw[m];
      assert d.start(t) >= 0.0 && NonnegativeSlope(tl, g, t);
    }
    StartupSumBound(tl, g, d, tmp, fw, 0.0);
  }

  /** Shutdown power at `tmp` is at most the minimum stable power times the
      stops in the backward window, its farthest timepoint left out. */
  lemma ShutdownPowerBound(tl: Timeline, g: Generator, d: Decisions, tmp: Tmp)
    requires WellFormed(tl) && Member(tl, g.balancingType, tmp) && g.shutdownRate > 0.0
    requires forall t :: d.stop(t) >= 0.0
    requires forall t :: NonnegativeSlope(tl, g, t)
    ensures var bw := BackwardWindowAt(tl, g.balancingType, tmp, ShutdownLengthHours(g));
            ShutdownPower(tl, g, d, tmp) <= Pmin(tl, g, tmp) * SumOver(d.stop, bw[..|bw| - 1])
  {
    ShutdownWindowBound(tl, g, d, tmp, ShutdownLengthHours(g));
  }

  lemma ShutdownWindowBound(tl: Timeline, g: Generator, d: Decisions, tmp: Tmp, target: real)
    requires WellFormed(tl) && Member(tl, g.balancingType, tmp) && g.shutdownRate >= 0.0
    requires forall t :: d.stop(t) >= 0.0
    requires forall t :: NonnegativeSlope(tl, g, t)
    ensures var bw := BackwardWindowAt(tl, g.balancingType, tmp, target);
            ShutdownSum(tl, g, d, tmp, bw[..|bw| - 1], 0.0) <= Pmin(tl, g, tmp) * SumOver(d.stop, bw[..|bw| - 1])
  {
    var bw := BackwardWindowAt(tl, g.balancingType, tmp, target);
    var sw := bw[..|bw| - 1];
    forall m | 0 <= m < |sw|
      ensures d.stop(sw[m]) >= 0.0 && tl.hours(sw[m]) >= 0.0 && NonnegativeSlope(tl, g, sw[m])
    {
      BackwardWindowInHorizon(tl, g.balancingType, tmp, target, m);
      HoursPositive(tl, g.balancingType, bw[m]);
    }
    ShutdownSumBound(tl, g, d, tmp, sw, 0.0);
  }

  lemma {:induction false} ShutdownSumZero(tl: Timeline, g: Generator, d: Decisions, tmp: Tmp, ts: seq<Tmp>, e: real)
    requires forall t | t in ts :: d.stop(t) == 0.0
    ensures ShutdownSum(tl, g, d, tmp, ts, e) == 0.0
    decreases |ts|
  {
    if |ts| > 0 {
      ShutdownSumZero(tl, g, d, tmp, ts[1..], e + tl.hours(ts[0]));
    }
  }

  lemma {:induction false} StartupSumZero(tl: Timeline, g: Generator, d: Decisions, tmp: Tmp, ts: seq<Tmp>, e: real)
    requires forall t | t in ts :: d.start(t) == 0.0
    ensures StartupSum(tl, g, d, tmp, ts, e) == 0.0
    decreases |ts|
  {
    if |ts| > 0 {
      StartupSumZero(tl, g, d, tmp, ts[1..], e + tl.hours(ts[0]));
    }
  }

  /** Without any start in the forward window or stop in the backward window
      (other than its farthest timepoint), no trajectory power is added. */
  lemma NoTransitionNoTrajectory(tl: Timeline, g: Generator, d: Decisions, tmp: Tmp)
    requires WellFormed(tl) && Member(tl, g.balancingType, tmp) && g.startupRate > 0.0 && g.shutdownRate > 0.0
    requires forall t | t in ForwardWindowAt(tl, g.balancingType, tmp, StartupLengthHours(g)) :: d.start(t) == 0.0
    requires var bw := BackwardWindowAt(tl, g.balancingType, tmp, ShutdownLengthHours(g));
             forall t | t in bw[..|bw| - 1] :: d.stop(t) == 0.0
    ensures ProvidePower(tl, g, d, tmp) == d.abovePmin(tmp) + Pmin(tl, g, tmp) * d.commit(tmp)
  {
    var bw := BackwardWindowAt(tl, g.balancingType, tmp, ShutdownLengthHours(g));
    assert ShutdownPower(tl, g, d, tmp) == 0.0 by {
      ShutdownSumZero(tl, g, d, tmp, bw[..|bw| - 1], 0.0);
    }
    assert StartupPower(tl, g, d, tmp) == 0.0 by {
      StartupSumZero(tl, g, d, tmp, ForwardWindowAt(tl, g.balancingType, tmp, StartupLengthHours(g)), 0.0);
    }
  }
}
