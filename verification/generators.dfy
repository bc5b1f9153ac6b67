/**
 A dispatchable binary-commit generator: its operating parameters, the values of
 its decision variables, its minimum and maximum power per timepoint, the
 lengths of its startup and shutdown trajectories, and its per-timepoint ramp
 limits.

 Rates are fractions of capacity per minute; durations are hours; power is MW.
 All quantities are exact rationals.
 */
module Generators {
  import opened Timeline
  import opened RealArith

  /** Operating parameters of one generator, with its capacity per period and
      availability derate per timepoint (both supplied by other modules). */
  datatype Generator = Generator(
    balancingType: BalancingType,
    minStableFraction: real,     // minimum stable level, as a fraction of capacity
    startupRate: real,           // startup plus ramp-up rate
    shutdownRate: real,          // shutdown plus ramp-down rate
    rampUpRate: real,            // ramp-up rate when on
    rampDownRate: real,          // ramp-down rate when on
    minUpHours: real,
    minDownHours: real,
    capacity: Period -> real,
    availability: Tmp -> real)

  /** The optional parameters as read: an absent one takes its default. */
  datatype Inputs = Inputs(
    balancingType: BalancingType,
    minStableFraction: real,
    startupRate: Option<real>,
    shutdownRate: Option<real>,
    rampUpRate: Option<real>,
    rampDownRate: Option<real>,
    minUpHours: Option<real>,
    minDownHours: Option<real>,
    capacity: Period -> real,
    availability: Tmp -> real)

  /** Default of every optional rate: the full capacity per minute. */
  const DefaultRate: real := 1.0
  /** Default of the minimum up and down times: no minimum. */
  const DefaultMinHours: real := 0.0

  /** Values of one generator's decision variables at every timepoint: the
      solver owns them, so the model treats them as arbitrary inputs. */
  datatype Decisions = Decisions(
    commit: Tmp -> real,
    start: Tmp -> real,
    stop: Tmp -> real,
    abovePmin: Tmp -> real,      // power above the minimum stable level
    upReserves: Tmp -> real,     // sum of the upward reserve variables
    downReserves: Tmp -> real,   // sum of the downward reserve variables
    fuelBurn: Tmp -> real)

  predicate IsFraction(x: real)
  {
    0.0 <= x <= 1.0
  }

  /** The domains the parameters are declared with: fractions of capacity, and
      non-negative minimum times. The startup and shutdown rates divide the
      minimum stable level, so they must also be positive. */
  predicate ValidParameters(g: Generator)
  {
    && IsFraction(g.minStableFraction)
    && IsFraction(g.startupRate) && g.startupRate > 0.0
    && IsFraction(g.shutdownRate) && g.shutdownRate > 0.0
    && IsFraction(g.rampUpRate)
    && IsFraction(g.rampDownRate)
    && g.minUpHours >= 0.0
    && g.minDownHours >= 0.0
  }

  function OrDefault(x: Option<real>, default: real): real
  {
    match x
    case Some(v) => v
    case None => default
  }

  /** The generator the inputs describe, with defaults filled in. */
  function FromInputs(inp: Inputs): (g: Generator)
    ensures g.minStableFraction == inp.minStableFraction && g.balancingType == inp.balancingType
    ensures inp.startupRate.None? ==> g.startupRate == DefaultRate
    ensures inp.shutdownRate.None? ==> g.shutdownRate == DefaultRate
    ensures inp.rampUpRate.None? ==> g.rampUpRate == DefaultRate
    ensures inp.rampDownRate.None? ==> g.rampDownRate == DefaultRate
    ensures inp.minUpHours.None? ==> g.minUpHours == DefaultMinHours
    ensures inp.minDownHours.None? ==> g.minDownHours == DefaultMinHours
    ensures inp.startupRate.Some? ==> g.startupRate == inp.startupRate.value
    ensures inp.shutdownRate.Some? ==> g.shutdownRate == inp.shutdownRate.value
    ensures inp.rampUpRate.Some? ==> g.rampUpRate == inp.rampUpRate.value
    ensures inp.rampDownRate.Some? ==> g.rampDownRate == inp.rampDownRate.value
    ensures inp.minUpHours.Some? ==> g.minUpHours == inp.minUpHours.value
    ensures inp.minDownHours.Some? ==> g.minDownHours == inp.minDownHours.value
    ensures g.capacity == inp.capacity && g.availability == inp.availability
  {
    Generator(
      inp.balancingType,
      inp.minStableFraction,
      OrDefault(inp.startupRate, DefaultRate),
      OrDefault(inp.shutdownRate, DefaultRate),
      OrDefault(inp.rampUpRate, DefaultRate),
      OrDefault(inp.rampDownRate, DefaultRate),
      OrDefault(inp.minUpHours, DefaultMinHours),
      OrDefault(inp.minDownHours, DefaultMinHours),
      inp.capacity,
      inp.availability)
  }

  /** With every optional parameter left out, any minimum stable fraction gives valid parameters. */
  lemma DefaultsAreValid(inp: Inputs)
    requires IsFraction(inp.minStableFraction)
    requires inp.startupRate.None? && inp.shutdownRate.None? && inp.rampUpRate.None?
    requires inp.rampDownRate.None? && inp.minUpHours.None? && inp.minDownHours.None?
    ensures ValidParameters(FromInputs(inp))
  {
  }

  /** Every supplied value lies in its declared domain, and a supplied startup
      or shutdown rate is positive. */
  predicate InputsInDomain(inp: Inputs)
  {
    && IsFraction(inp.minStableFraction)
    && (inp.startupRate.Some? ==> IsFraction(inp.startupRate.value) && inp.startupRate.value > 0.0)
    && (inp.shutdownRate.Some? ==> IsFraction(inp.shutdownRate.value) && inp.shutdownRate.value > 0.0)
    && (inp.rampUpRate.Some? ==> IsFraction(inp.rampUpRate.value))
    && (inp.rampDownRate.Some? ==> IsFraction(inp.rampDownRate.value))
    && (inp.minUpHours.Some? ==> inp.minUpHours.value >= 0.0)
    && (inp.minDownHours.Some? ==> inp.minDownHours.value >= 0.0)
  }

  /** The generator built from the inputs has valid parameters exactly when
      every supplied input lies in its domain: the defaults never break validity. */
  lemma FromInputsValidIff(inp: Inputs)
    ensures ValidParameters(FromInputs(inp)) <==> InputsInDomain(inp)
  {
  }

  /** Maximum power: capacity in the timepoint's period, derated for availability. */
  function Pmax(tl: Timeline, g: Generator, tmp: Tmp): real
  {
    g.capacity(tl.period(tmp)) * g.availability(tmp)
  }

  /** Minimum stable power: the derated capacity times the minimum stable fraction. */
  function Pmin(tl: Timeline, g: Generator, tmp: Tmp): real
  {
    g.capacity(tl.period(tmp)) * g.availability(tmp) * g.minStableFraction
  }

  /** Minimum stable power is the fraction of maximum power, and lies between 0 and it. */
  lemma PminWithinPmax(tl: Timeline, g: Generator, tmp: Tmp)
    requires IsFraction(g.minStableFraction)
    requires g.capacity(tl.period(tmp)) >= 0.0 && g.availability(tmp) >= 0.0
    ensures Pmin(tl, g, tmp) == Pmax(tl, g, tmp) * g.minStableFraction
    ensures 0.0 <= Pmin(tl, g, tmp) <= Pmax(tl, g, tmp)
  {
    var p := Pmax(tl, g, tmp);
    MulNonneg(g.capacity(tl.period(tmp)), g.availability(tmp));
    assert Pmin(tl, g, tmp) == p * g.minStableFraction;
    FractionOf(p, g.minStableFraction);
    assert p * g.minStableFraction <= p;
    assert Pmin(tl, g, tmp) <= p;
  }

  /** Hours needed to ramp from zero to the minimum stable level at the startup rate. */
  function StartupLengthHours(g: Generator): (r: real)
    requires g.startupRate > 0.0
    ensures r * g.startupRate * 60.0 == g.minStableFraction
    ensures g.minStableFraction >= 0.0 ==> r >= 0.0
  {
    g.minStableFraction / g.startupRate / 60.0
  }

  /** Hours needed to ramp from the minimum stable level to zero at the shutdown rate. */
  function ShutdownLengthHours(g: Generator): (r: real)
    requires g.shutdownRate > 0.0
    ensures r * g.shutdownRate * 60.0 == g.minStableFraction
    ensures g.minStableFraction >= 0.0 ==> r >= 0.0
  {
    g.minStableFraction / g.shutdownRate / 60.0
  }

  /** Ramp-up limit in MW over timepoint `t`: the rate applies for every minute of it. */
  function RampUpLimit(tl: Timeline, g: Generator, t: Tmp): real
  {
    g.capacity(tl.period(t)) * g.availability(t) * g.rampUpRate * tl.hours(t) * 60.0
  }

  /** Ramp-down limit in MW over timepoint `t`. */
  function RampDownLimit(tl: Timeline, g: Generator, t: Tmp): real
  {
    g.capacity(tl.period(t)) * g.availability(t) * g.rampDownRate * tl.hours(t) * 60.0
  }

  function Min(a: real, b: real): real
  {
    if a <= b then a else b
  }

  /** Startup ramp limit in MW over timepoint `t`, capped at the derated capacity. */
  function StartupRampLimit(tl: Timeline, g: Generator, t: Tmp): real
  {
    g.capacity(tl.period(t)) * g.availability(t) * Min(g.startupRate * tl.hours(t) * 60.0, 1.0)
  }

  /** Shutdown ramp limit in MW over timepoint `t`, capped at the derated capacity. */
  function ShutdownRampLimit(tl: Timeline, g: Generator, t: Tmp): real
  {
    g.capacity(tl.period(t)) * g.availability(t) * Min(g.shutdownRate * tl.hours(t) * 60.0, 1.0)
  }

  /** A non-negative rate over a timepoint of non-negative duration, capped at 1, is a fraction. */
  lemma CappedShare(rate: real, hours: real)
    requires rate >= 0.0 && hours >= 0.0
    ensures IsFraction(Min(rate * hours * 60.0, 1.0))
  {
    MulNonneg(rate, hours);
    MulNonneg(rate * hours, 60.0);
  }

  /** The startup and shutdown ramp limits never exceed maximum power, nor go below zero. */
  lemma TrajectoryRampLimitsWithinPmax(tl: Timeline, g: Generator, t: Tmp)
    requires g.startupRate >= 0.0 && g.shutdownRate >= 0.0 && tl.hours(t) >= 0.0
    requires g.capacity(tl.period(t)) >= 0.0 && g.availability(t) >= 0.0
    ensures 0.0 <= StartupRampLimit(tl, g, t) <= Pmax(tl, g, t)
    ensures 0.0 <= ShutdownRampLimit(tl, g, t) <= Pmax(tl, g, t)
  {
    var cap, avail := g.capacity(tl.period(t)), g.availability(t);
    CappedShare(g.startupRate, tl.hours(t));
    CappedShare(g.shutdownRate, tl.hours(t));
    ShareOfCapacity(cap, avail, Min(g.startupRate * tl.hours(t) * 60.0, 1.0));
    ShareOfCapacity(cap, avail, Min(g.shutdownRate * tl.hours(t) * 60.0, 1.0));
  }

  /** When the ramp rate over timepoint `t` already covers the whole range above
      the minimum stable level, the ramp limit is at least that range: a ramp
      constraint starting from `t` could not bind. */
  lemma FullRangeRampLimit(tl: Timeline, g: Generator, t: Tmp)
    requires g.capacity(tl.period(t)) * g.availability(t) >= 0.0
    ensures g.rampUpRate * 60.0 * tl.hours(t) >= 1.0 - g.minStableFraction
            ==> RampUpLimit(tl, g, t) >= Pmax(tl, g, t) - Pmin(tl, g, t)
    ensures g.rampDownRate * 60.0 * tl.hours(t) >= 1.0 - g.minStableFraction
            ==> RampDownLimit(tl, g, t) >= Pmax(tl, g, t) - Pmin(tl, g, t)
  {
    var p := g.capacity(tl.period(t)) * g.availability(t);
    var up := g.rampUpRate * 60.0 * tl.hours(t);
    var down := g.rampDownRate * 60.0 * tl.hours(t);
    assert RampUpLimit(tl, g, t) == p * up;
    assert RampDownLimit(tl, g, t) == p * down;
    assert Pmax(tl, g, t) - Pmin(tl, g, t) == p * (1.0 - g.minStableFraction);
    if up >= 1.0 - g.minStableFraction {
      MulLeft(p, 1.0 - g.minStableFraction, up);
    }
    if down >= 1.0 - g.minStableFraction {
      MulLeft(p, 1.0 - g.minStableFraction, down);
    }
  }

  /** With the default ramp rates, any timepoint of at least one minute lets the
      unit cross its whole range above the minimum stable level. */
  lemma DefaultRampCoversFullRange(inp: Inputs, tl: Timeline, t: Tmp)
    requires inp.rampUpRate.None? && inp.rampDownRate.None?
    requires inp.minStableFraction >= 0.0 && tl.hours(t) >= 1.0 / 60.0
    ensures FromInputs(inp).rampUpRate * 60.0 * tl.hours(t) >= 1.0 - FromInputs(inp).minStableFraction
    ensures FromInputs(inp).rampDownRate * 60.0 * tl.hours(t) >= 1.0 - FromInputs(inp).minStableFraction
  {
  }

  /** Longer timepoints allow larger ramps, for the same derated capacity. */
  lemma RampLimitGrowsWithDuration(tl: Timeline, g: Generator, t1: Tmp, t2: Tmp)
    requires g.capacity(tl.period(t1)) * g.availability(t1) == g.capacity(tl.period(t2)) * g.availability(t2)
    requires g.capacity(tl.period(t1)) * g.availability(t1) >= 0.0
    requires g.rampUpRate >= 0.0 && g.rampDownRate >= 0.0
    requires tl.hours(t1) <= tl.hours(t2)
    ensures RampUpLimit(tl, g, t1) <= RampUpLimit(tl, g, t2)
    ensures RampDownLimit(tl, g, t1) <= RampDownLimit(tl, g, t2)
  {
    var p := g.capacity(tl.period(t1)) * g.availability(t1);
    assert RampUpLimit(tl, g, t1) == p * g.rampUpRate * 60.0 * tl.hours(t1);
    assert RampUpLimit(tl, g, t2) == p * g.rampUpRate * 60.0 * tl.hours(t2);
    assert RampDownLimit(tl, g, t1) == p * g.rampDownRate * 60.0 * tl.hours(t1);
    assert RampDownLimit(tl, g, t2) == p * g.rampDownRate * 60.0 * tl.hours(t2);
    var cu := p * g.rampUpRate * 60.0;
    var cd := p * g.rampDownRate * 60.0;
    MulNonneg(p, g.rampUpRate);
    MulNonneg(p, g.rampDownRate);
    MulLeft(cu, tl.hours(t1), tl.hours(t2));
    MulLeft(cd, tl.hours(t1), tl.hours(t2));
  }
}
