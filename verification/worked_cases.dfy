/**
 The worked examples from the documentation of the binary-commit generator,
 stated on concrete timelines: the minimum up time windows, the shutdown and
 startup windows, the trajectory powers they give, and an input on which the
 ramp-up skip test lets through a change the ramp limit forbids.
 */
module WorkedCases {
  import opened Timeline
  import opened Windows
  import opened Generators
  import opened Trajectory
  import opened Constraints
  import opened PowerRules

  // ---------------------------------------------------------------------------
  // Minimum up time windows: four timepoints, `tmp` at position 2, four hours

  const Four: seq<Tmp> := [0, 1, 2, 3]

  function LongSecond(t: Tmp): real { if t == 1 then 3.0 else 1.0 }
  function VeryLongSecond(t: Tmp): real { if t == 1 then 4.0 else 1.0 }
  function Hourly(t: Tmp): real { 1.0 }

  /** Durations [1,3,1,1]: timepoint 1 begins three hours before timepoint 2, so
      a start there still binds; timepoint 0 begins four hours before and does not. */
  lemma MinUpExampleOne()
    ensures BackwardWindow(Horizon(Linear, Four), LongSecond, 2, 4.0) == [2, 1]
  {
    var h := Horizon(Linear, Four);
    assert BackFrom(h, LongSecond, 2, 1, 3.0, 4.0) == [];
    assert BackFrom(h, LongSecond, 2, 0, 0.0, 4.0) == [1];
  }

  /** Durations [1,4,1,1]: timepoint 1 already begins four hours before, so only
      timepoint 2 itself binds. */
  lemma MinUpExampleTwo()
    ensures BackwardWindow(Horizon(Linear, Four), VeryLongSecond, 2, 4.0) == [2]
  {
    var h := Horizon(Linear, Four);
    assert BackFrom(h, VeryLongSecond, 2, 0, 0.0, 4.0) == [];
  }

  /** Durations [1,1,1,1]: every timepoint of the horizon binds when it is
      circular; on a linear horizon the walk stops at its first timepoint. */
  lemma MinUpExampleThree()
    ensures BackwardWindow(Horizon(Circular, Four), Hourly, 2, 4.0) == [2, 1, 0, 3]
    ensures BackwardWindow(Horizon(Linear, Four), Hourly, 2, 4.0) == [2, 1, 0]
  {
    var c := Horizon(Circular, Four);
    assert BackFrom(c, Hourly, 2, 3, 3.0, 4.0) == [];
    assert BackFrom(c, Hourly, 2, 2, 2.0, 4.0) == [3];
    assert BackFrom(c, Hourly, 2, 0, 0.0, 4.0) == [1, 0, 3];
    var l := Horizon(Linear, Four);
    assert BackFrom(l, Hourly, 2, 0, 0.0, 4.0) == [1, 0];
  }

  // ---------------------------------------------------------------------------
  // Trajectories: ten hourly timepoints on one linear horizon

  const Ten: seq<Tmp> := [1, 2, 3, 4, 5, 6, 7, 8, 9, 10]

  const HourlyTen := Timeline(
    Hourly,
    t => 0,
    map t | 1 <= t <= 10 :: ("bt", t) := 0,
    map[("bt", 0) := Horizon(Linear, Ten)])

  lemma TenCounts()
    ensures forall k | 0 <= k < |Ten| :: Ten[k] == k + 1
  {
  }

  lemma HourlyTenHorizon()
    ensures ("bt", 0) in HourlyTen.horizons && HorizonWellFormed(HourlyTen, ("bt", 0))
  {
    TenCounts();
    var s := HourlyTen.horizons[("bt", 0)].tmps;
    assert s == Ten;
    forall i | 0 <= i < |s|
      ensures ("bt", s[i]) in HourlyTen.horizonOf && HourlyTen.horizonOf[("bt", s[i])] == 0
    {
      assert 1 <= s[i] <= 10;
    }
  }

  lemma HourlyTenWellFormed()
    ensures WellFormed(HourlyTen)
  {
    HourlyTenHorizon();
    assert HourlyTen.horizons.Keys == {("bt", 0)};
  }

  /** Timepoint `t` of the ten sits at position `t - 1` of the one horizon. */
  lemma HourlyTenMember(t: Tmp)
    requires 1 <= t <= 10
    ensures WellFormed(HourlyTen) && Member(HourlyTen, "bt", t)
    ensures HorizonOf(HourlyTen, "bt", t) == Horizon(Linear, Ten) && Position(HourlyTen, "bt", t) == t - 1
  {
    HourlyTenWellFormed();
    TenCounts();
    MemberOfHorizon(HourlyTen, ("bt", 0), t - 1);
  }

  /** Capacity 10 MW, always available, minimum stable level 40% (4 MW), and
      startup and shutdown rates that take four hours to cross it. */
  const Unit := Generator("bt", 0.4, 1.0 / 600.0, 1.0 / 600.0, 1.0, 1.0, 0.0, 0.0, p => 10.0, t => 1.0)

  lemma UnitLengths()
    ensures StartupLengthHours(Unit) == 4.0 && ShutdownLengthHours(Unit) == 4.0
  {
  }

  lemma UnitPmin()
    ensures Pmin(HourlyTen, Unit, 5) == 4.0
  {
  }

  lemma TenBackward()
    ensures BackwardWindow(Horizon(Linear, Ten), Hourly, 4, 4.0) == [5, 4, 3, 2]
  {
    var h := Horizon(Linear, Ten);
    assert BackFrom(h, Hourly, 4, 3, 3.0, 4.0) == [];
    assert BackFrom(h, Hourly, 4, 0, 0.0, 4.0) == [4, 3, 2];
  }

  lemma TenForward()
    ensures ForwardWindow(Horizon(Linear, Ten), Hourly, 4, 4.0) == [6, 7, 8, 9]
  {
    var h := Horizon(Linear, Ten);
    assert ForwardFrom(h, Hourly, 4, 4, 4.0, 4.0) == [];
    assert ForwardFrom(h, Hourly, 4, 0, 0.0, 4.0) == [6, 7, 8, 9];
  }

  /** The shutdown window of timepoint 5 over four hours is [5, 4, 3, 2]. */
  lemma ShutdownWindowExample()
    ensures WellFormed(HourlyTen) && Member(HourlyTen, "bt", 5)
            && BackwardWindowAt(HourlyTen, "bt", 5, ShutdownLengthHours(Unit)) == [5, 4, 3, 2]
  {
    HourlyTenMember(5);
    UnitLengths();
    TenBackward();
  }

  /** The startup window of timepoint 5 over four hours is [6, 7, 8, 9]. */
  lemma StartupWindowExample()
    ensures WellFormed(HourlyTen) && Member(HourlyTen, "bt", 5)
            && ForwardWindowAt(HourlyTen, "bt", 5, StartupLengthHours(Unit)) == [6, 7, 8, 9]
  {
    HourlyTenMember(5);
    UnitLengths();
    TenForward();
  }

  lemma ShutdownSumExample()
    ensures ShutdownSum(HourlyTen, Unit, StopsAt(4), 5, [5, 4, 3], 0.0) == 2.0
  {
    var d := StopsAt(4);
    UnitPmin();
    assert ShutdownTerm(HourlyTen, Unit, d, 5, 3, 3.0) == 0.0;
    assert ShutdownTerm(HourlyTen, Unit, d, 5, 4, 2.0) == 4.0 - 2.0 * 60.0 * (1.0 / 600.0) * 10.0 * 1.0;
    assert ShutdownTerm(HourlyTen, Unit, d, 5, 5, 1.0) == 0.0;
    assert ShutdownSum(HourlyTen, Unit, d, 5, [3], 2.0) == 0.0;
    assert ShutdownSum(HourlyTen, Unit, d, 5, [4, 3], 1.0) == 2.0;
  }

  lemma StartupSumExample()
    ensures StartupSum(HourlyTen, Unit, StartsAt(7), 5, [6, 7, 8, 9], 0.0) == 3.0
  {
    var d := StartsAt(7);
    UnitPmin();
    assert StartupTerm(HourlyTen, Unit, d, 5, 6, 0.0) == 0.0;
    assert StartupTerm(HourlyTen, Unit, d, 5, 7, 1.0) == 4.0 - 1.0 * 60.0 * (1.0 / 600.0) * 10.0 * 1.0;
    assert StartupTerm(HourlyTen, Unit, d, 5, 8, 2.0) == 0.0;
    assert StartupTerm(HourlyTen, Unit, d, 5, 9, 3.0) == 0.0;
    assert StartupSum(HourlyTen, Unit, d, 5, [9], 3.0) == 0.0;
    assert StartupSum(HourlyTen, Unit, d, 5, [8, 9], 2.0) == 0.0;
    assert StartupSum(HourlyTen, Unit, d, 5, [7, 8, 9], 1.0) == 3.0;
  }

  /** A unit that stops in timepoint 4 is at 2 MW in timepoint 5: it was at its
      4 MW minimum stable level until the end of timepoint 3 and loses 1 MW per hour. */
  lemma ShutdownPowerExample()
    ensures WellFormed(HourlyTen) && Member(HourlyTen, "bt", 5)
            && ShutdownPower(HourlyTen, Unit, StopsAt(4), 5) == 2.0
  {
    ShutdownWindowExample();
    ShutdownSumExample();
    var w: seq<Tmp> := [5, 4, 3, 2];
    assert w[..3] == [5, 4, 3];
  }

  /** A unit that starts in timepoint 7 is at 3 MW in timepoint 5: it reaches its
      4 MW minimum stable level at the end of timepoint 6, gaining 1 MW per hour. */
  lemma StartupPowerExample()
    ensures WellFormed(HourlyTen) && Member(HourlyTen, "bt", 5)
            && StartupPower(HourlyTen, Unit, StartsAt(7), 5) == 3.0
  {
    StartupWindowExample();
    StartupSumExample();
  }

  // ---------------------------------------------------------------------------
  // Ramp-up skip test: a derate that rises between two timepoints

  const Pair := Timeline(
    Hourly,
    t => 0,
    map[("bt", 1) := 0, ("bt", 2) := 0],
    map[("bt", 0) := Horizon(Linear, [1, 2])])

  /** Capacity 10 MW, no minimum stable level, a ramp-up rate that crosses the
      whole range in one hour, half available in timepoint 1 and fully in 2. */
  const HalfAvailable := Generator("bt", 0.0, 1.0, 1.0, 1.0 / 60.0, 1.0, 0.0, 0.0,
                                   p => 10.0, t => if t == 1 then 0.5 else 1.0)

  /** Off in timepoint 1, started and committed at full power in timepoint 2. */
  const Jump := Decisions(Indicator(2), Indicator(2), Zero, t => if t == 2 then 10.0 else 0.0, Zero, Zero, Zero)

  lemma PairNavigation()
    ensures WellFormed(Pair) && Member(Pair, "bt", 2) && Member(Pair, "bt", 1)
    ensures !IsLinearHorizonFirstTimepoint(Pair, 2, "bt") && Previous(Pair, 2, "bt") == Some(1)
    ensures IsLinearHorizonLastTimepoint(Pair, 2, "bt")
  {
    var key := ("bt", 0);
    assert HorizonWellFormed(Pair, key);
    MemberOfHorizon(Pair, key, 0);
    MemberOfHorizon(Pair, key, 1);
  }

  /** The rule as written skips the ramp-up constraint at timepoint 2 because the
      rate covers the range as a fraction of capacity. The schedule meets the
      commitment logic and minimum and maximum power at both timepoints, yet
      power rises by 10 MW against a ramp-up limit of 5 MW over the
      half-available timepoint 1. The guarded rule keeps the constraint there. */
  lemma RampUpSkipLetsThrough()
    ensures WellFormed(Pair) && Member(Pair, "bt", 2) && Previous(Pair, 2, "bt") == Some(1)
    ensures RampUp(Pair, HalfAvailable, Jump, 2).Skip?
    ensures Holds(BinaryLogic(Pair, HalfAvailable, Jump, 2)) && BinaryLogic(Pair, HalfAvailable, Jump, 1).Skip?
    ensures Holds(MaxPower(Pair, HalfAvailable, Jump, 2)) && Holds(MinPower(Jump, 2))
    ensures Holds(MaxPower(Pair, HalfAvailable, Jump, 1)) && Holds(MinPower(Jump, 1))
    ensures !Holds(RampUpRelation(Pair, HalfAvailable, Jump, 2, 1))
    ensures RampUpGuarded(Pair, HalfAvailable, Jump, 2) == RampUpRelation(Pair, HalfAvailable, Jump, 2, 1)
  {
    PairNavigation();
    assert RampUpLimit(Pair, HalfAvailable, 1) == 5.0;
    assert Pmax(Pair, HalfAvailable, 2) == 10.0 && Pmin(Pair, HalfAvailable, 2) == 0.0;
    assert StopNext(Pair, HalfAvailable, Jump, 2) == 0.0;
    assert StopNext(Pair, HalfAvailable, Jump, 1) == 0.0;
  }

  function Indicator(at: Tmp): Tmp -> real
  {
    t => if t == at then 1.0 else 0.0
  }

  function Zero(t: Tmp): real { 0.0 }

  function StopsAt(at: Tmp): Decisions
  {
    Decisions(Zero, Zero, Indicator(at), Zero, Zero, Zero, Zero)
  }

  function StartsAt(at: Tmp): Decisions
  {
    Decisions(Zero, Indicator(at), Zero, Zero, Zero, Zero, Zero)
  }
}
