/**
 The power rules of a binary-commit generator: minimum and maximum power with
 reserves, ramp limits between consecutive timepoints, the fuel burn curve, and
 the start-up/shut-down and power-change quantities reported to other modules.
 */
module PowerRules {
  import opened Timeline
  import opened Generators
  import opened Trajectory
  import opened Constraints
  import opened RealArith

  // ---------------------------------------------------------------------------
  // Minimum and maximum power

  /** Power above the minimum stable level covers the downward reserves. */
  function MinPower(d: Decisions, tmp: Tmp): (c: Constraint)
    ensures c.Rel? && (Holds(c) <==> d.downReserves(tmp) <= d.abovePmin(tmp))
  {
    Rel(d.abovePmin(tmp) - d.downReserves(tmp), Ge, 0.0)
  }

  /** The stop value of the next timepoint, taken as zero at the end of a linear
      horizon, where there is no next timepoint. */
  function StopNext(tl: Timeline, g: Generator, d: Decisions, tmp: Tmp): (r: real)
    requires WellFormed(tl) && Member(tl, g.balancingType, tmp)
    ensures IsLinearHorizonLastTimepoint(tl, tmp, g.balancingType) ==> r == 0.0
    ensures !IsLinearHorizonLastTimepoint(tl, tmp, g.balancingType)
            ==> Next(tl, tmp, g.balancingType).Some? && r == d.stop(Next(tl, tmp, g.balancingType).value)
  {
    if IsLinearHorizonLastTimepoint(tl, tmp, g.balancingType) then 0.0
    else d.stop(Next(tl, tmp, g.balancingType).value)
  }

  /** Power above the minimum stable level plus upward reserves stays within the
      range between minimum and maximum power, scaled by the commitment less
      the next timepoint's stop: a unit about to stop must already be at its
      minimum stable level. Never skipped. */
  function MaxPower(tl: Timeline, g: Generator, d: Decisions, tmp: Tmp): (c: Constraint)
    requires WellFormed(tl) && Member(tl, g.balancingType, tmp)
    ensures c.Rel?
    ensures Holds(c) <==> d.abovePmin(tmp) + d.upReserves(tmp)
                          <= (Pmax(tl, g, tmp) - Pmin(tl, g, tmp)) * (d.commit(tmp) - StopNext(tl, g, d, tmp))
  {
    Rel(d.abovePmin(tmp) + d.upReserves(tmp), Le,
        (Pmax(tl, g, tmp) - Pmin(tl, g, tmp)) * (d.commit(tmp) - StopNext(tl, g, d, tmp)))
  }

  /** The range between minimum and maximum power is never negative. */
  lemma RangeNonnegative(tl: Timeline, g: Generator, t: Tmp)
    requires IsFraction(g.minStableFraction) && g.capacity(tl.period(t)) >= 0.0 && g.availability(t) >= 0.0
    ensures Pmax(tl, g, t) - Pmin(tl, g, t) >= 0.0
  {
    PminWithinPmax(tl, g, t);
  }

  /** An uncommitted unit provides nothing: with the minimum and maximum power
      constraints holding, no commitment and non-negative stops and reserves,
      power above the minimum stable level and both reserves are zero. */
  lemma OfflineProvidesNothing(tl: Timeline, g: Generator, d: Decisions, tmp: Tmp)
    requires WellFormed(tl) && Member(tl, g.balancingType, tmp)
    requires IsFraction(g.minStableFraction) && g.capacity(tl.period(tmp)) >= 0.0 && g.availability(tmp) >= 0.0
    requires forall t :: d.stop(t) >= 0.0
    requires d.upReserves(tmp) >= 0.0 && d.downReserves(tmp) >= 0.0
    requires Holds(MinPower(d, tmp)) && Holds(MaxPower(tl, g, d, tmp))
    requires d.commit(tmp) == 0.0
    ensures d.abovePmin(tmp) == 0.0 && d.upReserves(tmp) == 0.0 && d.downReserves(tmp) == 0.0
  {
    RangeNonnegative(tl, g, tmp);
    ScaledNonpositive(Pmax(tl, g, tmp) - Pmin(tl, g, tmp), d.commit(tmp) - StopNext(tl, g, d, tmp));
  }

  /** A committed unit stays within maximum power: with commitment at most one,
      non-negative stops and upward reserves, minimum stable power plus power above
      it plus upward reserves is at most maximum power. */
  lemma CommittedWithinPmax(tl: Timeline, g: Generator, d: Decisions, tmp: Tmp)
    requires WellFormed(tl) && Member(tl, g.balancingType, tmp)
    requires IsFraction(g.minStableFraction) && g.capacity(tl.period(tmp)) >= 0.0 && g.availability(tmp) >= 0.0
    requires forall t :: d.stop(t) >= 0.0
    requires d.upReserves(tmp) >= 0.0
    requires Holds(MaxPower(tl, g, d, tmp))
    requires d.commit(tmp) == 1.0
    ensures Pmin(tl, g, tmp) + d.abovePmin(tmp) + d.upReserves(tmp) <= Pmax(tl, g, tmp)
  {
    RangeNonnegative(tl, g, tmp);
    ScaledAtMost(Pmax(tl, g, tmp) - Pmin(tl, g, tmp), d.commit(tmp) - StopNext(tl, g, d, tmp));
  }

  /** A unit that stops in the next timepoint is held at its minimum stable level. */
  lemma StoppingUnitAtPmin(tl: Timeline, g: Generator, d: Decisions, tmp: Tmp)
    requires WellFormed(tl) && Member(tl, g.balancingType, tmp)
    requires IsFraction(g.minStableFraction) && g.capacity(tl.period(tmp)) >= 0.0 && g.availability(tmp) >= 0.0
    requires d.upReserves(tmp) >= 0.0 && d.downReserves(tmp) >= 0.0
    requires Holds(MinPower(d, tmp)) && Holds(MaxPower(tl, g, d, tmp))
    requires !IsLinearHorizonLastTimepoint(tl, tmp, g.balancingType)
    requires d.commit(tmp) == d.stop(Next(tl, tmp, g.balancingType).value)
    ensures d.abovePmin(tmp) == 0.0 && d.upReserves(tmp) == 0.0
  {
    var range := Pmax(tl, g, tmp) - Pmin(tl, g, tmp);
    var scale := d.commit(tmp) - StopNext(tl, g, d, tmp);
    assert StopNext(tl, g, d, tmp) == d.stop(Next(tl, tmp, g.balancingType).value);
    assert scale == 0.0;
    RangeNonnegative(tl, g, tmp);
    ScaledNonpositive(range, scale);
    assert d.abovePmin(tmp) + d.upReserves(tmp) <= range * scale;
    assert d.downReserves(tmp) <= d.abovePmin(tmp);
  }

  // ---------------------------------------------------------------------------
  // Ramp limits

  /** The ramp-up relation between `prev` and `tmp`: power above the minimum
      stable level plus upward reserves at `tmp`, less power above the minimum
      stable level minus downward reserves at `prev`, is within the ramp-up limit
      over `prev`. */
  function RampUpRelation(tl: Timeline, g: Generator, d: Decisions, tmp: Tmp, prev: Tmp): (c: Constraint)
    ensures c.Rel?
    ensures Holds(c) <==> d.abovePmin(tmp) + d.upReserves(tmp) <= d.abovePmin(prev) - d.downReserves(prev) + RampUpLimit(tl, g, prev)
  {
    Rel((d.abovePmin(tmp) + d.upReserves(tmp)) - (d.abovePmin(prev) - d.downReserves(prev)), Le, RampUpLimit(tl, g, prev))
  }

  /** The ramp-down relation between `prev` and `tmp`: power above the minimum
      stable level plus upward reserves at `prev`, less power above the minimum
      stable level minus downward reserves at `tmp`, is within the ramp-down
      limit over `prev`. */
  function RampDownRelation(tl: Timeline, g: Generator, d: Decisions, tmp: Tmp, prev: Tmp): (c: Constraint)
    ensures c.Rel?
    ensures Holds(c) <==> d.abovePmin(prev) + d.upReserves(prev) <= d.abovePmin(tmp) - d.downReserves(tmp) + RampDownLimit(tl, g, prev)
  {
    Rel((d.abovePmin(prev) + d.upReserves(prev)) - (d.abovePmin(tmp) - d.downReserves(tmp)), Le, RampDownLimit(tl, g, prev))
  }

  /** The rate over timepoint `t` crosses the whole range above the minimum stable level. */
  predicate RateCoversRange(g: Generator, rate: real, tl: Timeline, t: Tmp)
  {
    rate * 60.0 * tl.hours(t) >= 1.0 - g.minStableFraction
  }

  /** The ramp-up rule as the code states it: skipped at the first timepoint of a
      linear horizon, and skipped when the ramp-up rate over the previous
      timepoint covers the whole range above the minimum stable level, taken as
      a fraction of capacity. */
  function RampUp(tl: Timeline, g: Generator, d: Decisions, tmp: Tmp): (c: Constraint)
    requires WellFormed(tl) && Member(tl, g.balancingType, tmp)
    ensures IsLinearHorizonFirstTimepoint(tl, tmp, g.balancingType) ==> c.Skip?
    ensures !IsLinearHorizonFirstTimepoint(tl, tmp, g.balancingType) ==>
              var prev := Previous(tl, tmp, g.balancingType).value;
              && (c.Skip? <==> RateCoversRange(g, g.rampUpRate, tl, prev))
              && (c.Rel? ==> c == RampUpRelation(tl, g, d, tmp, prev))
  {
    var bt := g.balancingType;
    if IsLinearHorizonFirstTimepoint(tl, tmp, bt) then Skip
    else
      var prev := Previous(tl, tmp, bt).value;
      if RateCoversRange(g, g.rampUpRate, tl, prev) then Skip
      else RampUpRelation(tl, g, d, tmp, prev)
  }

  /** The ramp-up rule with the skip test the comment describes: skipped only when
      the ramp-up limit over the previous timepoint covers the whole range above
      the minimum stable level at `tmp` itself. */
  function RampUpGuarded(tl: Timeline, g: Generator, d: Decisions, tmp: Tmp): (c: Constraint)
    requires WellFormed(tl) && Member(tl, g.balancingType, tmp)
    ensures IsLinearHorizonFirstTimepoint(tl, tmp, g.balancingType) ==> c.Skip?
    ensures !IsLinearHorizonFirstTimepoint(tl, tmp, g.balancingType) ==>
              var prev := Previous(tl, tmp, g.balancingType).value;
              && (c.Skip? <==> RampUpLimit(tl, g, prev) >= Pmax(tl, g, tmp) - Pmin(tl, g, tmp))
              && (c.Rel? ==> c == RampUpRelation(tl, g, d, tmp, prev))
  {
    var bt := g.balancingType;
    if IsLinearHorizonFirstTimepoint(tl, tmp, bt) then Skip
    else
      var prev := Previous(tl, tmp, bt).value;
      if RampUpLimit(tl, g, prev) >= Pmax(tl, g, tmp) - Pmin(tl, g, tmp) then Skip
      else RampUpRelation(tl, g, d, tmp, prev)
  }

  /** The ramp-down rule: skipped at the first timepoint of a linear horizon, and
      skipped when the ramp-down rate over the previous timepoint covers the whole
      range above the minimum stable level. */
  function RampDown(tl: Timeline, g: Generator, d: Decisions, tmp: Tmp): (c: Constraint)
    requires WellFormed(tl) && Member(tl, g.balancingType, tmp)
    ensures IsLinearHorizonFirstTimepoint(tl, tmp, g.balancingType) ==> c.Skip?
    ensures !IsLinearHorizonFirstTimepoint(tl, tmp, g.balancingType) ==>
              var prev := Previous(tl, tmp, g.balancingType).value;
              && (c.Skip? <==> RateCoversRange(g, g.rampDownRate, tl, prev))
              && (c.Rel? ==> c == RampDownRelation(tl, g, d, tmp, prev))
  {
    var bt := g.balancingType;
    if IsLinearHorizonFirstTimepoint(tl, tmp, bt) then Skip
    else
      var prev := Previous(tl, tmp, bt).value;
      if RateCoversRange(g, g.rampDownRate, tl, prev) then Skip
      else RampDownRelation(tl, g, d, tmp, prev)
  }

  /** Skipping the ramp-down rule for its rate loses nothing: whenever maximum power
      holds at the previous timepoint (committed at most once, stops non-negative)
      and minimum power holds at `tmp`, the ramp-down relation holds anyway. */
  lemma RampDownSkipSound(tl: Timeline, g: Generator, d: Decisions, tmp: Tmp)
    requires WellFormed(tl) && Member(tl, g.balancingType, tmp)
    requires !IsLinearHorizonFirstTimepoint(tl, tmp, g.balancingType)
    requires IsFraction(g.minStableFraction)
    requires var prev := Previous(tl, tmp, g.balancingType).value;
             g.capacity(tl.period(prev)) >= 0.0 && g.availability(prev) >= 0.0 && d.commit(prev) <= 1.0
    requires forall t :: d.stop(t) >= 0.0
    requires RampDown(tl, g, d, tmp).Skip?
    requires Holds(MaxPower(tl, g, d, Previous(tl, tmp, g.balancingType).value)) && Holds(MinPower(d, tmp))
    ensures Holds(RampDownRelation(tl, g, d, tmp, Previous(tl, tmp, g.balancingType).value))
  {
    var prev := Previous(tl, tmp, g.balancingType).value;
    var range := Pmax(tl, g, prev) - Pmin(tl, g, prev);
    var sn := StopNext(tl, g, d, prev);
    assert sn >= 0.0 by {
      if !IsLinearHorizonLastTimepoint(tl, prev, g.balancingType) {
        assert sn == d.stop(Next(tl, prev, g.balancingType).value);
      }
    }
    RangeNonnegative(tl, g, prev);
    ScaledAtMost(range, d.commit(prev) - sn);
    assert d.abovePmin(prev) + d.upReserves(prev) <= range;
    assert RateCoversRange(g, g.rampDownRate, tl, prev);
    MulNonneg(g.capacity(tl.period(prev)), g.availability(prev));
    FullRangeRampLimit(tl, g, prev);
    assert RampDownLimit(tl, g, prev) >= range;
    assert d.abovePmin(tmp) - d.downReserves(tmp) >= 0.0;
  }

  /** Skipping the guarded ramp-up rule loses nothing: whenever maximum power holds
      at `tmp` (committed at most once, stops non-negative) and minimum power holds
      at the previous timepoint, the ramp-up relation holds anyway. */
  lemma RampUpGuardedSkipSound(tl: Timeline, g: Generator, d: Decisions, tmp: Tmp)
    requires WellFormed(tl) && Member(tl, g.balancingType, tmp)
    requires !IsLinearHorizonFirstTimepoint(tl, tmp, g.balancingType)
    requires IsFraction(g.minStableFraction)
    requires g.capacity(tl.period(tmp)) >= 0.0 && g.availability(tmp) >= 0.0 && d.commit(tmp) <= 1.0
    requires forall t :: d.stop(t) >= 0.0
    requires RampUpGuarded(tl, g, d, tmp).Skip?
    requires Holds(MaxPower(tl, g, d, tmp)) && Holds(MinPower(d, Previous(tl, tmp, g.balancingType).value))
    ensures Holds(RampUpRelation(tl, g, d, tmp, Previous(tl, tmp, g.balancingType).value))
  {
    var prev := Previous(tl, tmp, g.balancingType).value;
    var range := Pmax(tl, g, tmp) - Pmin(tl, g, tmp);
    var sn := StopNext(tl, g, d, tmp);
    assert sn >= 0.0 by {
      if !IsLinearHorizonLastTimepoint(tl, tmp, g.balancingType) {
        assert sn == d.stop(Next(tl, tmp, g.balancingType).value);
      }
    }
    RangeNonnegative(tl, g, tmp);
    ScaledAtMost(range, d.commit(tmp) - sn);
    assert d.abovePmin(tmp) + d.upReserves(tmp) <= range;
    assert RampUpLimit(tl, g, prev) >= range;
    assert d.abovePmin(prev) - d.downReserves(prev) >= 0.0;
  }

  /** Where the derated capacity is the same, and positive, at `tmp` and at its
      previous timepoint, the guarded rule skips exactly when the rule as written does. */
  lemma RampUpGuardAgrees(tl: Timeline, g: Generator, d: Decisions, tmp: Tmp)
    requires WellFormed(tl) && Member(tl, g.balancingType, tmp)
    requires !IsLinearHorizonFirstTimepoint(tl, tmp, g.balancingType)
    requires var prev := Previous(tl, tmp, g.balancingType).value;
             && g.capacity(tl.period(prev)) * g.availability(prev) == g.capacity(tl.period(tmp)) * g.availability(tmp)
             && g.capacity(tl.period(tmp)) * g.availability(tmp) > 0.0
    ensures RampUpGuarded(tl, g, d, tmp).Skip? <==> RampUp(tl, g, d, tmp).Skip?
  {
    var prev := Previous(tl, tmp, g.balancingType).value;
    var p := g.capacity(tl.period(tmp)) * g.availability(tmp);
    var x := g.rampUpRate * 60.0 * tl.hours(prev);
    var y := 1.0 - g.minStableFraction;
    assert RampUpLimit(tl, g, prev) == p * x by {
      Regroup(g.capacity(tl.period(prev)) * g.availability(prev), g.rampUpRate, tl.hours(prev));
    }
    assert Pmax(tl, g, tmp) - Pmin(tl, g, tmp) == p * y by {
      RangeFactor(p, g.minStableFraction);
    }
    ScaledOrder(p, x, y);
    assert RampUpGuarded(tl, g, d, tmp).Skip? <==> p * x >= p * y;
    assert RampUp(tl, g, d, tmp).Skip? <==> x >= y;
  }

  // ---------------------------------------------------------------------------
  // Fuel burn

  /** One segment of the piecewise linear input/output curve. */
  datatype Segment = Segment(slope: real, intercept: real)

  /** The segment's fuel burn at `power` MW with `online` the derated commitment. */
  function SegmentBurn(s: Segment, power: real, online: real): real
  {
    s.slope * power + s.intercept * online
  }

  /** The fuel burn curve: the largest segment value. */
  function FuelCurve(segs: seq<Segment>, power: real, online: real): (r: real)
    requires |segs| > 0
    ensures forall k | 0 <= k < |segs| :: r >= SegmentBurn(segs[k], power, online)
    ensures exists k | 0 <= k < |segs| :: r == SegmentBurn(segs[k], power, online)
  {
    var v := SegmentBurn(segs[0], power, online);
    if |segs| == 1 then v
    else
      var rest := FuelCurve(segs[1..], power, online);
      assert forall k | 1 <= k < |segs| :: segs[k] == segs[1..][k - 1];
      if v >= rest then v else rest
  }

  /** Fuel burn is at least the segment's value at the power provided, the
      intercept scaled by availability and commitment. */
  function FuelBurn(tl: Timeline, g: Generator, d: Decisions, tmp: Tmp, s: Segment): (c: Constraint)
    requires WellFormed(tl) && Member(tl, g.balancingType, tmp) && g.startupRate > 0.0 && g.shutdownRate > 0.0
    ensures c.Rel?
    ensures Holds(c) <==> d.fuelBurn(tmp) >= SegmentBurn(s, ProvidePower(tl, g, d, tmp), g.availability(tmp) * d.commit(tmp))
  {
    Rel(d.fuelBurn(tmp), Ge, SegmentBurn(s, ProvidePower(tl, g, d, tmp), g.availability(tmp) * d.commit(tmp)))
  }

  /** A value is at least every segment's burn exactly when it is at least the curve. */
  lemma CurveIsLeastUpperBound(segs: seq<Segment>, x: real, power: real, online: real)
    requires |segs| > 0
    ensures (forall k | 0 <= k < |segs| :: x >= SegmentBurn(segs[k], power, online))
            <==> x >= FuelCurve(segs, power, online)
  {
    var curve := FuelCurve(segs, power, online);
    if x < curve {
      var k :| 0 <= k < |segs| && curve == SegmentBurn(segs[k], power, online);
      assert x < SegmentBurn(segs[k], power, online);
    }
  }

  lemma FuelBurnIsSegmentBurn(tl: Timeline, g: Generator, d: Decisions, tmp: Tmp, s: Segment)
    requires WellFormed(tl) && Member(tl, g.balancingType, tmp) && g.startupRate > 0.0 && g.shutdownRate > 0.0
    ensures FuelBurn(tl, g, d, tmp, s) == Rel(d.fuelBurn(tmp), Ge, SegmentBurn(s, ProvidePower(tl, g, d, tmp), g.availability(tmp) * d.commit(tmp)))
  {
  }

  /** The fuel burn constraints of every segment hold exactly when fuel burn is at
      least the fuel burn curve. */
  lemma FuelBurnEnvelope(tl: Timeline, g: Generator, d: Decisions, tmp: Tmp, segs: seq<Segment>)
    requires WellFormed(tl) && Member(tl, g.balancingType, tmp) && g.startupRate > 0.0 && g.shutdownRate > 0.0
    requires |segs| > 0
    ensures (forall k | 0 <= k < |segs| :: Holds(FuelBurn(tl, g, d, tmp, segs[k])))
            <==> d.fuelBurn(tmp) >= FuelCurve(segs, ProvidePower(tl, g, d, tmp), g.availability(tmp) * d.commit(tmp))
  {
    var power := ProvidePower(tl, g, d, tmp);
    var online := g.availability(tmp) * d.commit(tmp);
    forall k | 0 <= k < |segs|
      ensures Holds(FuelBurn(tl, g, d, tmp, segs[k])) <==> d.fuelBurn(tmp) >= SegmentBurn(segs[k], power, online)
    {
      FuelBurnIsSegmentBurn(tl, g, d, tmp, segs[k]);
    }
    CurveIsLeastUpperBound(segs, d.fuelBurn(tmp), power, online);
  }

  // ---------------------------------------------------------------------------
  // Quantities reported to other modules

  /** Megawatts started up (positive) or shut down (negative) since the previous
      timepoint: the change in commitment times maximum power. Undefined at the
      first timepoint of a linear horizon. */
  function StartupShutdown(tl: Timeline, g: Generator, d: Decisions, tmp: Tmp): (r: Option<real>)
    requires WellFormed(tl) && Member(tl, g.balancingType, tmp)
    ensures r.None? <==> IsLinearHorizonFirstTimepoint(tl, tmp, g.balancingType)
  {
    var bt := g.balancingType;
    if IsLinearHorizonFirstTimepoint(tl, tmp, bt) then None
    else
      var prev := Previous(tl, tmp, bt).value;
      Some((d.commit(tmp) - d.commit(prev)) * Pmax(tl, g, tmp))
  }

  /** Where binary logic holds, the megawatts started up or shut down are the
      starts minus the stops, times maximum power. */
  lemma StartupShutdownFromLogic(tl: Timeline, g: Generator, d: Decisions, tmp: Tmp)
    requires WellFormed(tl) && Member(tl, g.balancingType, tmp)
    requires !IsLinearHorizonFirstTimepoint(tl, tmp, g.balancingType)
    requires Holds(BinaryLogic(tl, g, d, tmp))
    ensures StartupShutdown(tl, g, d, tmp) == Some((d.start(tmp) - d.stop(tmp)) * Pmax(tl, g, tmp))
  {
    var prev := Previous(tl, tmp, g.balancingType).value;
    var r := StartupShutdown(tl, g, d, tmp);
    assert r.value == (d.commit(tmp) - d.commit(prev)) * Pmax(tl, g, tmp);
    assert d.commit(tmp) - d.commit(prev) == d.start(tmp) - d.stop(tmp);
    SameFactor(d.commit(tmp) - d.commit(prev), d.start(tmp) - d.stop(tmp), Pmax(tl, g, tmp));
    assert r.value == (d.start(tmp) - d.stop(tmp)) * Pmax(tl, g, tmp);
    assert r.Some?;
  }

  /** The megawatts started up or shut down are positive exactly when more is
      committed than in the previous timepoint, and negative exactly when less is,
      wherever maximum power is positive. */
  lemma StartupShutdownSign(tl: Timeline, g: Generator, d: Decisions, tmp: Tmp)
    requires WellFormed(tl) && Member(tl, g.balancingType, tmp)
    requires !IsLinearHorizonFirstTimepoint(tl, tmp, g.balancingType) && Pmax(tl, g, tmp) > 0.0
    ensures var prev := Previous(tl, tmp, g.balancingType).value;
            && (StartupShutdown(tl, g, d, tmp).value > 0.0 <==> d.commit(tmp) > d.commit(prev))
            && (StartupShutdown(tl, g, d, tmp).value < 0.0 <==> d.commit(tmp) < d.commit(prev))
  {
    var prev := Previous(tl, tmp, g.balancingType).value;
    SignOfProduct(d.commit(tmp) - d.commit(prev), Pmax(tl, g, tmp));
  }

  /** Change in power above the minimum stable level since the previous
      timepoint. Undefined at the first timepoint of a linear horizon. */
  function PowerDelta(tl: Timeline, g: Generator, d: Decisions, tmp: Tmp): (r: Option<real>)
    requires WellFormed(tl) && Member(tl, g.balancingType, tmp)
    ensures r.None? <==> IsLinearHorizonFirstTimepoint(tl, tmp, g.balancingType)
  {
    var bt := g.balancingType;
    if IsLinearHorizonFirstTimepoint(tl, tmp, bt) then None
    else Some(d.abovePmin(tmp) - d.abovePmin(Previous(tl, tmp, bt).value))
  }

  /** Where the ramp relations hold with non-negative reserves, the change in power
      lies between minus the ramp-down limit and the ramp-up limit over the
      previous timepoint. */
  lemma PowerDeltaWithinRampLimits(tl: Timeline, g: Generator, d: Decisions, tmp: Tmp)
    requires WellFormed(tl) && Member(tl, g.balancingType, tmp)
    requires !IsLinearHorizonFirstTimepoint(tl, tmp, g.balancingType)
    requires forall t :: d.upReserves(t) >= 0.0 && d.downReserves(t) >= 0.0
    requires var prev := Previous(tl, tmp, g.balancingType).value;
             Holds(RampUpRelation(tl, g, d, tmp, prev)) && Holds(RampDownRelation(tl, g, d, tmp, prev))
    ensures var prev := Previous(tl, tmp, g.balancingType).value;
            -RampDownLimit(tl, g, prev) <= PowerDelta(tl, g, d, tmp).value <= RampUpLimit(tl, g, prev)
  {
    var prev := Previous(tl, tmp, g.balancingType).value;
    assert d.upReserves(tmp) >= 0.0 && d.downReserves(prev) >= 0.0;
    assert d.upReserves(prev) >= 0.0 && d.downReserves(tmp) >= 0.0;
  }
}
