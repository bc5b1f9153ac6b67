/**
 The timeline shared by every generator: timepoints with durations and periods,
 grouped, per balancing type, into horizons that are either linear (a true start
 and end) or circular (the timepoint after the last is the first).

 Horizons are keyed by (balancing type, horizon), as in the boundary checks of
 gridpath/project/common_functions.py.
 */
module Timeline {

  type Tmp = int
  type HorizonId = int
  type Period = int
  type BalancingType = string

  datatype Option<T> = None | Some(value: T)

  datatype Boundary = Linear | Circular

  /** A horizon: its boundary and its timepoints in chronological order. */
  datatype Horizon = Horizon(boundary: Boundary, tmps: seq<Tmp>)

  datatype Timeline = Timeline(
    hours: Tmp -> real,                                      // number of hours in each timepoint
    period: Tmp -> Period,                                   // period each timepoint belongs to
    horizonOf: map<(BalancingType, Tmp), HorizonId>,         // horizon of a timepoint, per balancing type
    horizons: map<(BalancingType, HorizonId), Horizon>)      // boundary and ordered timepoints of a horizon

  predicate Distinct(s: seq<Tmp>)
  {
    forall i, j | 0 <= i < j < |s| :: s[i] != s[j]
  }

  /** A horizon is non-empty, lists each timepoint once, every one of its
      timepoints maps back to it, and every timepoint has a positive duration. */
  predicate HorizonWellFormed(tl: Timeline, key: (BalancingType, HorizonId))
    requires key in tl.horizons
  {
    var s := tl.horizons[key].tmps;
    && |s| > 0
    && Distinct(s)
    && forall i | 0 <= i < |s| ::
         && (key.0, s[i]) in tl.horizonOf
         && tl.horizonOf[(key.0, s[i])] == key.1
         && tl.hours(s[i]) > 0.0
  }

  predicate WellFormed(tl: Timeline)
  {
    forall key | key in tl.horizons :: HorizonWellFormed(tl, key)
  }

  /** `tmp` belongs, under balancing type `bt`, to a horizon that lists it. */
  predicate Member(tl: Timeline, bt: BalancingType, tmp: Tmp)
  {
    && (bt, tmp) in tl.horizonOf
    && (bt, tl.horizonOf[(bt, tmp)]) in tl.horizons
    && tmp in tl.horizons[(bt, tl.horizonOf[(bt, tmp)])].tmps
  }

  function HorizonOf(tl: Timeline, bt: BalancingType, tmp: Tmp): Horizon
    requires Member(tl, bt, tmp)
  {
    tl.horizons[(bt, tl.horizonOf[(bt, tmp)])]
  }

  /** Position of `x` in `s`: the first index holding it. */
  function IndexOf(s: seq<Tmp>, x: Tmp): (i: nat)
    requires x in s
    ensures i < |s| && s[i] == x
    ensures forall j | 0 <= j < i :: s[j] != x
  {
    if s[0] == x then 0 else 1 + IndexOf(s[1..], x)
  }

  lemma IndexOfDistinct(s: seq<Tmp>, j: nat)
    requires Distinct(s) && j < |s|
    ensures IndexOf(s, s[j]) == j
  {
  }

  /** Sum of `f` over the timepoints of `ts`, in order. */
  function SumOver(f: Tmp -> real, ts: seq<Tmp>): real
  {
    if |ts| == 0 then 0.0 else SumOver(f, ts[..|ts| - 1]) + f(ts[|ts| - 1])
  }

  /** The sum can equally be taken from the front. */
  lemma {:induction false} SumOverFront(f: Tmp -> real, ts: seq<Tmp>)
    requires |ts| > 0
    ensures SumOver(f, ts) == f(ts[0]) + SumOver(f, ts[1..])
  {
    if |ts| > 1 {
      var init := ts[..|ts| - 1];
      SumOverFront(f, init);
      assert init[1..] == ts[1..][..|ts[1..]| - 1];
      assert init[0] == ts[0];
    } else {
      assert ts[..0] == [];
      assert ts[1..] == [];
    }
  }

  /** Position of `tmp` inside its horizon. */
  function Position(tl: Timeline, bt: BalancingType, tmp: Tmp): nat
    requires Member(tl, bt, tmp)
  {
    IndexOf(HorizonOf(tl, bt, tmp).tmps, tmp)
  }

  /** Every timepoint listed by a well-formed horizon is a member of that horizon. */
  lemma MemberOfHorizon(tl: Timeline, key: (BalancingType, HorizonId), j: nat)
    requires WellFormed(tl) && key in tl.horizons && j < |tl.horizons[key].tmps|
    ensures Member(tl, key.0, tl.horizons[key].tmps[j])
    ensures HorizonOf(tl, key.0, tl.horizons[key].tmps[j]) == tl.horizons[key]
    ensures Position(tl, key.0, tl.horizons[key].tmps[j]) == j
  {
    assert HorizonWellFormed(tl, key);
    IndexOfDistinct(tl.horizons[key].tmps, j);
  }

  /** Every member timepoint of a well-formed timeline has a positive duration. */
  lemma HoursPositive(tl: Timeline, bt: BalancingType, tmp: Tmp)
    requires WellFormed(tl) && Member(tl, bt, tmp)
    ensures tl.hours(tmp) > 0.0
  {
    var key := (bt, tl.horizonOf[(bt, tmp)]);
    assert HorizonWellFormed(tl, key);
    var j := IndexOf(tl.horizons[key].tmps, tmp);
    assert tl.horizons[key].tmps[j] == tmp;
  }

  /** Two members with the same horizon: the second is listed by the horizon of the first. */
  lemma SameHorizonMember(tl: Timeline, bt: BalancingType, tmp: Tmp, j: nat)
    requires WellFormed(tl) && Member(tl, bt, tmp) && j < |HorizonOf(tl, bt, tmp).tmps|
    ensures Member(tl, bt, HorizonOf(tl, bt, tmp).tmps[j])
    ensures HorizonOf(tl, bt, HorizonOf(tl, bt, tmp).tmps[j]) == HorizonOf(tl, bt, tmp)
    ensures Position(tl, bt, HorizonOf(tl, bt, tmp).tmps[j]) == j
  {
    MemberOfHorizon(tl, (bt, tl.horizonOf[(bt, tmp)]), j);
  }

  function FirstTimepoint(h: Horizon): Tmp
    requires |h.tmps| > 0
  {
    h.tmps[0]
  }

  function LastTimepoint(h: Horizon): Tmp
    requires |h.tmps| > 0
  {
    h.tmps[|h.tmps| - 1]
  }

  /** `tmp` is the first timepoint of its (balancing type, horizon) and that
      horizon has a linear boundary: nothing comes before it. */
  predicate IsLinearHorizonFirstTimepoint(tl: Timeline, tmp: Tmp, bt: BalancingType)
    requires Member(tl, bt, tmp)
  {
    tmp == FirstTimepoint(HorizonOf(tl, bt, tmp)) && HorizonOf(tl, bt, tmp).boundary == Linear
  }

  /** `tmp` is the last timepoint of its (balancing type, horizon) and that
      horizon has a linear boundary: nothing comes after it. */
  predicate IsLinearHorizonLastTimepoint(tl: Timeline, tmp: Tmp, bt: BalancingType)
    requires Member(tl, bt, tmp)
  {
    tmp == LastTimepoint(HorizonOf(tl, bt, tmp)) && HorizonOf(tl, bt, tmp).boundary == Linear
  }

  /** The first-timepoint check holds exactly at position 0 of a linear horizon. */
  lemma LinearFirstIffStart(tl: Timeline, tmp: Tmp, bt: BalancingType)
    requires WellFormed(tl) && Member(tl, bt, tmp)
    ensures IsLinearHorizonFirstTimepoint(tl, tmp, bt)
            <==> HorizonOf(tl, bt, tmp).boundary == Linear && Position(tl, bt, tmp) == 0
  {
  }

  /** The last-timepoint check holds exactly at the final position of a linear horizon. */
  lemma LinearLastIffEnd(tl: Timeline, tmp: Tmp, bt: BalancingType)
    requires WellFormed(tl) && Member(tl, bt, tmp)
    ensures IsLinearHorizonLastTimepoint(tl, tmp, bt)
            <==> HorizonOf(tl, bt, tmp).boundary == Linear
                 && Position(tl, bt, tmp) == |HorizonOf(tl, bt, tmp).tmps| - 1
  {
    var s := HorizonOf(tl, bt, tmp).tmps;
    assert HorizonWellFormed(tl, (bt, tl.horizonOf[(bt, tmp)]));
    IndexOfDistinct(s, |s| - 1);
  }

  /** Neither boundary check ever holds on a circular horizon. */
  lemma CircularHasNoBoundary(tl: Timeline, tmp: Tmp, bt: BalancingType)
    requires Member(tl, bt, tmp) && HorizonOf(tl, bt, tmp).boundary == Circular
    ensures !IsLinearHorizonFirstTimepoint(tl, tmp, bt)
    ensures !IsLinearHorizonLastTimepoint(tl, tmp, bt)
  {
  }

  /** Both checks hold for the same timepoint exactly when its linear horizon
      has a single timepoint, i.e. the first and last timepoints coincide. */
  lemma FirstAndLastOnlyWhenSingleton(tl: Timeline, tmp: Tmp, bt: BalancingType)
    requires WellFormed(tl) && Member(tl, bt, tmp)
    ensures IsLinearHorizonFirstTimepoint(tl, tmp, bt) && IsLinearHorizonLastTimepoint(tl, tmp, bt)
            <==> HorizonOf(tl, bt, tmp).boundary == Linear && |HorizonOf(tl, bt, tmp).tmps| == 1
  {
    var s := HorizonOf(tl, bt, tmp).tmps;
    assert HorizonWellFormed(tl, (bt, tl.horizonOf[(bt, tmp)]));
  }

  /** Index of the timepoint before position `i` of `h`; none before the start of a linear horizon. */
  function PreviousIndex(h: Horizon, i: nat): (r: Option<nat>)
    requires i < |h.tmps|
    ensures r.Some? ==> r.value < |h.tmps|
  {
    if i > 0 then Some(i - 1)
    else if h.boundary == Circular then Some(|h.tmps| - 1)
    else None
  }

  /** Index of the timepoint after position `i` of `h`; none after the end of a linear horizon. */
  function NextIndex(h: Horizon, i: nat): (r: Option<nat>)
    requires i < |h.tmps|
    ensures r.Some? ==> r.value < |h.tmps|
  {
    if i + 1 < |h.tmps| then Some(i + 1)
    else if h.boundary == Circular then Some(0)
    else None
  }

  /** The previous timepoint of `tmp` under balancing type `bt`: undefined exactly
      at the start of a linear horizon, and always inside the same horizon. */
  function Previous(tl: Timeline, tmp: Tmp, bt: BalancingType): (r: Option<Tmp>)
    requires WellFormed(tl) && Member(tl, bt, tmp)
    ensures r.None? <==> IsLinearHorizonFirstTimepoint(tl, tmp, bt)
    ensures r.Some? ==> Member(tl, bt, r.value) && HorizonOf(tl, bt, r.value) == HorizonOf(tl, bt, tmp)
  {
    var h := HorizonOf(tl, bt, tmp);
    var i := Position(tl, bt, tmp);
    match PreviousIndex(h, i)
    case None => None
    case Some(j) =>
      SameHorizonMember(tl, bt, tmp, j);
      Some(h.tmps[j])
  }

  /** The next timepoint of `tmp` under balancing type `bt`: undefined exactly
      at the end of a linear horizon, and always inside the same horizon. */
  function Next(tl: Timeline, tmp: Tmp, bt: BalancingType): (r: Option<Tmp>)
    requires WellFormed(tl) && Member(tl, bt, tmp)
    ensures r.None? <==> IsLinearHorizonLastTimepoint(tl, tmp, bt)
    ensures r.Some? ==> Member(tl, bt, r.value) && HorizonOf(tl, bt, r.value) == HorizonOf(tl, bt, tmp)
  {
    var h := HorizonOf(tl, bt, tmp);
    var i := Position(tl, bt, tmp);
    LinearLastIffEnd(tl, tmp, bt);
    match NextIndex(h, i)
    case None => None
    case Some(j) =>
      SameHorizonMember(tl, bt, tmp, j);
      Some(h.tmps[j])
  }

  /** The previous timepoint of the timepoint at position `j` of a horizon. */
  lemma PreviousAt(tl: Timeline, bt: BalancingType, tmp: Tmp, j: nat)
    requires WellFormed(tl) && Member(tl, bt, tmp) && j < |HorizonOf(tl, bt, tmp).tmps|
    ensures Member(tl, bt, HorizonOf(tl, bt, tmp).tmps[j])
    ensures Previous(tl, HorizonOf(tl, bt, tmp).tmps[j], bt)
            == match PreviousIndex(HorizonOf(tl, bt, tmp), j)
               case None => None
               case Some(p) => Some(HorizonOf(tl, bt, tmp).tmps[p])
  {
    SameHorizonMember(tl, bt, tmp, j);
  }

  /** The next timepoint of the timepoint at position `j` of a horizon. */
  lemma NextAt(tl: Timeline, bt: BalancingType, tmp: Tmp, j: nat)
    requires WellFormed(tl) && Member(tl, bt, tmp) && j < |HorizonOf(tl, bt, tmp).tmps|
    ensures Member(tl, bt, HorizonOf(tl, bt, tmp).tmps[j])
    ensures Next(tl, HorizonOf(tl, bt, tmp).tmps[j], bt)
            == match NextIndex(HorizonOf(tl, bt, tmp), j)
               case None => None
               case Some(p) => Some(HorizonOf(tl, bt, tmp).tmps[p])
  {
    SameHorizonMember(tl, bt, tmp, j);
  }

  /** On a circular horizon the first timepoint's predecessor is the last one, and the last one's successor is the first. */
  lemma CircularWraps(tl: Timeline, tmp: Tmp, bt: BalancingType)
    requires WellFormed(tl) && Member(tl, bt, tmp) && HorizonOf(tl, bt, tmp).boundary == Circular
    ensures tmp == FirstTimepoint(HorizonOf(tl, bt, tmp)) ==> Previous(tl, tmp, bt) == Some(LastTimepoint(HorizonOf(tl, bt, tmp)))
    ensures tmp == LastTimepoint(HorizonOf(tl, bt, tmp)) ==> Next(tl, tmp, bt) == Some(FirstTimepoint(HorizonOf(tl, bt, tmp)))
  {
    var s := HorizonOf(tl, bt, tmp).tmps;
    assert HorizonWellFormed(tl, (bt, tl.horizonOf[(bt, tmp)]));
    IndexOfDistinct(s, |s| - 1);
  }

  /** Next undoes Previous wherever Previous is defined. */
  lemma NextOfPrevious(tl: Timeline, tmp: Tmp, bt: BalancingType)
    requires WellFormed(tl) && Member(tl, bt, tmp)
    ensures Previous(tl, tmp, bt).Some? ==> Next(tl, Previous(tl, tmp, bt).value, bt) == Some(tmp)
  {
    var h := HorizonOf(tl, bt, tmp);
    var i := Position(tl, bt, tmp);
    SameHorizonMember(tl, bt, tmp, i);
    var p := PreviousIndex(h, i);
    if p.Some? {
      SameHorizonMember(tl, bt, tmp, p.value);
    }
  }

  /** Previous undoes Next wherever Next is defined. */
  lemma PreviousOfNext(tl: Timeline, tmp: Tmp, bt: BalancingType)
    requires WellFormed(tl) && Member(tl, bt, tmp)
    ensures Next(tl, tmp, bt).Some? ==> Previous(tl, Next(tl, tmp, bt).value, bt) == Some(tmp)
  {
    var h := HorizonOf(tl, bt, tmp);
    var i := Position(tl, bt, tmp);
    SameHorizonMember(tl, bt, tmp, i);
    var q := NextIndex(h, i);
    if q.Some? {
      SameHorizonMember(tl, bt, tmp, q.value);
    }
  }
}
