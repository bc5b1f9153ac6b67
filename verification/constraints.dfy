/**
 The shape of a constraint rule's result, and the commitment rules of a
 binary-commit generator: the binary logic linking commitment to starts and
 stops, and the minimum up and down times.
 */
module Constraints {
  import opened Timeline
  import opened Windows
  import opened Generators

  datatype Op = Eq | Le | Ge

  /** A constraint instance: either skipped, or a relation between two values. */
  datatype Constraint = Skip | Rel(lhs: real, op: Op, rhs: real)

  /** A skipped constraint imposes nothing. */
  predicate Holds(c: Constraint)
  {
    match c
    case Skip => true
    case Rel(l, op, r) =>
      match op
      case Eq => l == r
      case Le => l <= r
      case Ge => l >= r
  }

  // ---------------------------------------------------------------------------
  // Binary logic

  /** A change in commitment is a start or a stop: commitment minus the previous
      timepoint's commitment equals starts minus stops. Skipped at the first
      timepoint of a linear horizon, which has no previous timepoint. */
  function BinaryLogic(tl: Timeline, g: Generator, d: Decisions, tmp: Tmp): (c: Constraint)
    requires WellFormed(tl) && Member(tl, g.balancingType, tmp)
    ensures c.Skip? <==> IsLinearHorizonFirstTimepoint(tl, tmp, g.balancingType)
    ensures c.Rel? ==> Previous(tl, tmp, g.balancingType).Some?
                       && (Holds(c) <==> d.commit(tmp) == d.commit(Previous(tl, tmp, g.balancingType).value) + d.start(tmp) - d.stop(tmp))
  {
    var bt := g.balancingType;
    if IsLinearHorizonFirstTimepoint(tl, tmp, bt) then Skip
    else
      var prev := Previous(tl, tmp, bt).value;
      Rel(d.commit(tmp) - d.commit(prev), Eq, d.start(tmp) - d.stop(tmp))
  }

  /** Binary logic holds at position `j` of horizon `key`. */
  predicate LogicHoldsAt(tl: Timeline, g: Generator, d: Decisions, key: (BalancingType, HorizonId), j: nat)
    requires WellFormed(tl) && key in tl.horizons && key.0 == g.balancingType && j < |tl.horizons[key].tmps|
  {
    MemberOfHorizon(tl, key, j);
    Holds(BinaryLogic(tl, g, d, tl.horizons[key].tmps[j]))
  }

  /** Along a horizon where binary logic holds, the commitment at position `k`
      is the commitment at the first position plus the starts and minus the
      stops in positions 1 through `k`. */
  lemma {:induction false} CommitTelescopes(tl: Timeline, g: Generator, d: Decisions, key: (BalancingType, HorizonId), k: nat)
    requires WellFormed(tl) && key in tl.horizons && key.0 == g.balancingType && k < |tl.horizons[key].tmps|
    requires forall j | 1 <= j <= k :: LogicHoldsAt(tl, g, d, key, j)
    ensures var s := tl.horizons[key].tmps;
            d.commit(s[k]) == d.commit(s[0]) + SumOver(d.start, s[1..k + 1]) - SumOver(d.stop, s[1..k + 1])
  {
    var s := tl.horizons[key].tmps;
    if k > 0 {
      CommitTelescopes(tl, g, d, key, k - 1);
      assert LogicHoldsAt(tl, g, d, key, k);
      MemberOfHorizon(tl, key, k);
      PreviousAt(tl, key.0, s[k], k);
      assert s[1..k + 1][..k - 1] == s[1..k];
      assert s[1..k + 1][k - 1] == s[k];
    } else {
      assert s[1..1] == [];
    }
  }

  /** Around a circular horizon where binary logic holds everywhere, every start
      is matched by a stop: the horizon's starts and stops sum to the same total. */
  lemma CircularStartsMatchStops(tl: Timeline, g: Generator, d: Decisions, key: (BalancingType, HorizonId))
    requires WellFormed(tl) && key in tl.horizons && key.0 == g.balancingType
    requires tl.horizons[key].boundary == Circular
    requires forall j | 0 <= j < |tl.horizons[key].tmps| :: LogicHoldsAt(tl, g, d, key, j)
    ensures SumOver(d.start, tl.horizons[key].tmps) == SumOver(d.stop, tl.horizons[key].tmps)
  {
    var s := tl.horizons[key].tmps;
    var n := |s|;
    assert HorizonWellFormed(tl, key);
    CommitTelescopes(tl, g, d, key, n - 1);
    assert LogicHoldsAt(tl, g, d, key, 0);
    MemberOfHorizon(tl, key, 0);
    PreviousAt(tl, key.0, s[0], 0);
    assert s[1..n] == s[1..];
    SumOverFront(d.start, s);
    SumOverFront(d.stop, s);
  }

  // ---------------------------------------------------------------------------
  // Minimum up and down times

  /** The skip test shared by the minimum up and down time rules: on a linear
      horizon, a window `w` of `tmp` that reaches back to the horizon's first
      timepoint while spanning less than `target` hours is skipped, unless `tmp`
      is the horizon's last timepoint. */
  predicate MinTimeSkip(tl: Timeline, bt: BalancingType, tmp: Tmp, w: seq<Tmp>, target: real)
    requires Member(tl, bt, tmp) && |w| > 0
  {
    var h := HorizonOf(tl, bt, tmp);
    && h.boundary == Linear
    && w[|w| - 1] == FirstTimepoint(h)
    && SumOver(tl.hours, w) < target
    && tmp != LastTimepoint(h)
  }

  /** The minimum-time relation: `lhs` is at least the sum of `events` over the
      backward window of `tmp` spanning `target` hours. */
  function MinTimeConstraint(tl: Timeline, bt: BalancingType, tmp: Tmp, target: real, lhs: real, events: Tmp -> real): (c: Constraint)
    requires WellFormed(tl) && Member(tl, bt, tmp)
    ensures c.Skip? <==> MinTimeSkip(tl, bt, tmp, BackwardWindowAt(tl, bt, tmp, target), target)
    ensures IsLinearHorizonLastTimepoint(tl, tmp, bt) ==> c.Rel?
    ensures HorizonOf(tl, bt, tmp).boundary == Circular ==> c.Rel?
    ensures c.Rel? ==> (Holds(c) <==> lhs >= SumOver(events, BackwardWindowAt(tl, bt, tmp, target)))
  {
    var w := BackwardWindowAt(tl, bt, tmp, target);
    if MinTimeSkip(tl, bt, tmp, w, target) then Skip else Rel(lhs, Ge, SumOver(events, w))
  }

  /** A unit started within the minimum up time is still committed: commitment
      is at least the starts over the backward window spanning the minimum up time. */
  function MinUpTime(tl: Timeline, g: Generator, d: Decisions, tmp: Tmp): (c: Constraint)
    requires WellFormed(tl) && Member(tl, g.balancingType, tmp)
    ensures c.Skip? <==> MinTimeSkip(tl, g.balancingType, tmp, BackwardWindowAt(tl, g.balancingType, tmp, g.minUpHours), g.minUpHours)
    ensures IsLinearHorizonLastTimepoint(tl, tmp, g.balancingType) ==> c.Rel?
    ensures HorizonOf(tl, g.balancingType, tmp).boundary == Circular ==> c.Rel?
    ensures c.Rel? ==> (Holds(c) <==> d.commit(tmp) >= SumOver(d.start, BackwardWindowAt(tl, g.balancingType, tmp, g.minUpHours)))
  {
    MinTimeConstraint(tl, g.balancingType, tmp, g.minUpHours, d.commit(tmp), d.start)
  }

  /** A unit stopped within the minimum down time is still off: one minus
      commitment is at least the stops over the backward window spanning the
      minimum down time. */
  function MinDownTime(tl: Timeline, g: Generator, d: Decisions, tmp: Tmp): (c: Constraint)
    requires WellFormed(tl) && Member(tl, g.balancingType, tmp)
    ensures c.Skip? <==> MinTimeSkip(tl, g.balancingType, tmp, BackwardWindowAt(tl, g.balancingType, tmp, g.minDownHours), g.minDownHours)
    ensures IsLinearHorizonLastTimepoint(tl, tmp, g.balancingType) ==> c.Rel?
    ensures HorizonOf(tl, g.balancingType, tmp).boundary == Circular ==> c.Rel?
    ensures c.Rel? ==> (Holds(c) <==> 1.0 - d.commit(tmp) >= SumOver(d.stop, BackwardWindowAt(tl, g.balancingType, tmp, g.minDownHours)))
  {
    MinTimeConstraint(tl, g.balancingType, tmp, g.minDownHours, 1.0 - d.commit(tmp), d.stop)
  }

  /** A skipped minimum-time instance loses nothing: the next timepoint exists, and
      its window is the skipped window with that next timepoint in front, so the
      next instance sums every event the skipped one would have summed. */
  lemma MinTimeSkipCovered(tl: Timeline, bt: BalancingType, tmp: Tmp, target: real)
    requires WellFormed(tl) && Member(tl, bt, tmp)
    requires MinTimeSkip(tl, bt, tmp, BackwardWindowAt(tl, bt, tmp, target), target)
    ensures Next(tl, tmp, bt).Some?
    ensures BackwardWindowAt(tl, bt, Next(tl, tmp, bt).value, target)
            == [Next(tl, tmp, bt).value] + BackwardWindowAt(tl, bt, tmp, target)
  {
    var h := HorizonOf(tl, bt, tmp);
    var i := Position(tl, bt, tmp);
    var key := (bt, tl.horizonOf[(bt, tmp)]);
    assert HorizonWellFormed(tl, key);
    LinearLastIffEnd(tl, tmp, bt);
    assert i + 1 < |h.tmps|;
    forall j | 0 <= j < |h.tmps| ensures tl.hours(h.tmps[j]) > 0.0 {
    }
    TruncatedWindowExtends(h, tl.hours, i, target);
    NextAt(tl, bt, tmp, i);
    SameHorizonMember(tl, bt, tmp, i);
    SameHorizonMember(tl, bt, tmp, i + 1);
  }

  /** The sum of non-negative values over a sequence is at least each of them. */
  lemma {:induction false} SumOverAtLeastEach(f: Tmp -> real, ts: seq<Tmp>, m: nat)
    requires m < |ts|
    requires forall k | 0 <= k < |ts| :: f(ts[k]) >= 0.0
    ensures SumOver(f, ts) >= f(ts[m])
  {
    var init := ts[..|ts| - 1];
    assert forall k | 0 <= k < |init| :: init[k] == ts[k];
    if m < |ts| - 1 {
      SumOverAtLeastEach(f, init, m);
    } else if |init| > 0 {
      SumOverAtLeastEach(f, init, 0);
    }
  }

  /** When the minimum up time constraint is enforced and holds and starts are
      non-negative, a start anywhere in the window keeps the unit committed at `tmp`. */
  lemma MinUpTimeKeepsCommitted(tl: Timeline, g: Generator, d: Decisions, tmp: Tmp, m: nat)
    requires WellFormed(tl) && Member(tl, g.balancingType, tmp)
    requires MinUpTime(tl, g, d, tmp).Rel? && Holds(MinUpTime(tl, g, d, tmp))
    requires forall t :: d.start(t) >= 0.0
    requires m < |BackwardWindowAt(tl, g.balancingType, tmp, g.minUpHours)|
    ensures d.commit(tmp) >= d.start(BackwardWindowAt(tl, g.balancingType, tmp, g.minUpHours)[m])
  {
    var w := BackwardWindowAt(tl, g.balancingType, tmp, g.minUpHours);
    forall k | 0 <= k < |w| ensures d.start(w[k]) >= 0.0 {
      var t := w[k];
      assert d.start(t) >= 0.0;
    }
    SumOverAtLeastEach(d.start, w, m);
  }

  /** When the minimum down time constraint is enforced and holds and stops are
      non-negative, a stop anywhere in the window keeps the unit off at `tmp`. */
  lemma MinDownTimeKeepsOff(tl: Timeline, g: Generator, d: Decisions, tmp: Tmp, m: nat)
    requires WellFormed(tl) && Member(tl, g.balancingType, tmp)
    requires MinDownTime(tl, g, d, tmp).Rel? && Holds(MinDownTime(tl, g, d, tmp))
    requires forall t :: d.stop(t) >= 0.0
    requires m < |BackwardWindowAt(tl, g.balancingType, tmp, g.minDownHours)|
    ensures 1.0 - d.commit(tmp) >= d.stop(BackwardWindowAt(tl, g.balancingType, tmp, g.minDownHours)[m])
  {
    var w := BackwardWindowAt(tl, g.balancingType, tmp, g.minDownHours);
    forall k | 0 <= k < |w| ensures d.stop(w[k]) >= 0.0 {
      var t := w[k];
      assert d.stop(t) >= 0.0;
    }
    SumOverAtLeastEach(d.stop, w, m);
  }

  /** A skipped minimum up time instance is covered by the next timepoint's: if
      that one is enforced and holds, commitment there is at least its own starts
      plus every start the skipped instance would have summed. */
  lemma MinUpTimeSkipCovered(tl: Timeline, g: Generator, d: Decisions, tmp: Tmp)
    requires WellFormed(tl) && Member(tl, g.balancingType, tmp)
    requires MinUpTime(tl, g, d, tmp).Skip?
    ensures Next(tl, tmp, g.balancingType).Some?
    ensures var nx := Next(tl, tmp, g.balancingType).value;
            MinUpTime(tl, g, d, nx).Rel? && Holds(MinUpTime(tl, g, d, nx))
            ==> d.commit(nx) >= d.start(nx) + SumOver(d.start, BackwardWindowAt(tl, g.balancingType, tmp, g.minUpHours))
  {
    var bt := g.balancingType;
    var w := BackwardWindowAt(tl, bt, tmp, g.minUpHours);
    MinTimeSkipCovered(tl, bt, tmp, g.minUpHours);
    var nx := Next(tl, tmp, bt).value;
    SumOverFront(d.start, [nx] + w);
    assert ([nx] + w)[1..] == w;
  }

  /** A skipped minimum down time instance is covered by the next timepoint's. */
  lemma MinDownTimeSkipCovered(tl: Timeline, g: Generator, d: Decisions, tmp: Tmp)
    requires WellFormed(tl) && Member(tl, g.balancingType, tmp)
    requires MinDownTime(tl, g, d, tmp).Skip?
    ensures Next(tl, tmp, g.balancingType).Some?
    ensures var nx := Next(tl, tmp, g.balancingType).value;
            MinDownTime(tl, g, d, nx).Rel? && Holds(MinDownTime(tl, g, d, nx))
            ==> 1.0 - d.commit(nx) >= d.stop(nx) + SumOver(d.stop, BackwardWindowAt(tl, g.balancingType, tmp, g.minDownHours))
  {
    var bt := g.balancingType;
    var w := BackwardWindowAt(tl, bt, tmp, g.minDownHours);
    MinTimeSkipCovered(tl, bt, tmp, g.minDownHours);
    var nx := Next(tl, tmp, bt).value;
    SumOverFront(d.stop, [nx] + w);
    assert ([nx] + w)[1..] == w;
  }
}
