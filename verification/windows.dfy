/**
 The relevant-timepoint windows of a timepoint `tmp`.

 The backward window starts with `tmp` itself and walks to earlier timepoints;
 a neighbour belongs to it while it begins strictly less than the target number
 of hours before the start of `tmp`. The forward window starts at the timepoint
 after `tmp`; a neighbour belongs to it while it begins strictly less than the
 target number of hours after the end of `tmp`. Both walks stop at the edge of
 a linear horizon and wrap on a circular one, where they never come back to
 `tmp`: at most one visit to every other timepoint of the horizon.
 */
module Windows {
  import opened Timeline

  /** Position `k` steps before position `i` in a horizon of `n` timepoints, wrapping at most once. */
  function BackIndex(n: nat, i: nat, k: nat): (j: nat)
    requires i < n && k < n
    ensures j < n
  {
    if k <= i then i - k else n + i - k
  }

  /** Position `k` steps after position `i` in a horizon of `n` timepoints, wrapping at most once. */
  function ForwardIndex(n: nat, i: nat, k: nat): (j: nat)
    requires i < n && k < n
    ensures j < n
  {
    if i + k < n then i + k else i + k - n
  }

  /** How many neighbours the backward walk from position `i` may visit: down to
      the start of a linear horizon, or every other timepoint of a circular one. */
  function BackLimit(h: Horizon, i: nat): (m: nat)
    requires i < |h.tmps|
    ensures m < |h.tmps|
  {
    if h.boundary == Linear then i else |h.tmps| - 1
  }

  /** How many neighbours the forward walk from position `i` may visit. */
  function ForwardLimit(h: Horizon, i: nat): (m: nat)
    requires i < |h.tmps|
    ensures m < |h.tmps|
  {
    if h.boundary == Linear then |h.tmps| - 1 - i else |h.tmps| - 1
  }

  /** Hours from the start of the `k`-th earlier neighbour of position `i` to the start of position `i`. */
  function BackOffset(h: Horizon, hours: Tmp -> real, i: nat, k: nat): real
    requires i < |h.tmps| && k < |h.tmps|
  {
    if k == 0 then 0.0
    else BackOffset(h, hours, i, k - 1) + hours(h.tmps[BackIndex(|h.tmps|, i, k)])
  }

  /** Hours from the end of position `i` to the start of its `(k+1)`-th later neighbour. */
  function ForwardOffset(h: Horizon, hours: Tmp -> real, i: nat, k: nat): real
    requires i < |h.tmps| && k < |h.tmps|
  {
    if k == 0 then 0.0
    else ForwardOffset(h, hours, i, k - 1) + hours(h.tmps[ForwardIndex(|h.tmps|, i, k)])
  }

  /** The backward walk after `k` neighbours whose durations add up to `elapsed`. */
  function BackFrom(h: Horizon, hours: Tmp -> real, i: nat, k: nat, elapsed: real, target: real): (r: seq<Tmp>)
    requires i < |h.tmps| && k <= BackLimit(h, i)
    ensures k + |r| <= BackLimit(h, i)
    decreases BackLimit(h, i) - k
  {
    if k == BackLimit(h, i) then []
    else
      var t := h.tmps[BackIndex(|h.tmps|, i, k + 1)];
      if elapsed + hours(t) < target then [t] + BackFrom(h, hours, i, k + 1, elapsed + hours(t), target)
      else []
  }

  /** The `m`-th earlier neighbour the backward walk collects, and how long
      before position `i` it begins. */
  lemma {:induction false} BackFromElement(h: Horizon, hours: Tmp -> real, i: nat, k: nat, elapsed: real, target: real, m: nat)
    requires i < |h.tmps| && k <= BackLimit(h, i)
    requires elapsed == BackOffset(h, hours, i, k)
    requires m < |BackFrom(h, hours, i, k, elapsed, target)|
    ensures BackFrom(h, hours, i, k, elapsed, target)[m] == h.tmps[BackIndex(|h.tmps|, i, k + 1 + m)]
    ensures BackOffset(h, hours, i, k + 1 + m) < target
    decreases m
  {
    var t := h.tmps[BackIndex(|h.tmps|, i, k + 1)];
    var e := elapsed + hours(t);
    var rest := BackFrom(h, hours, i, k + 1, e, target);
    assert BackFrom(h, hours, i, k, elapsed, target) == [t] + rest;
    assert BackOffset(h, hours, i, k + 1) == e;
    if m > 0 {
      BackFromElement(h, hours, i, k + 1, e, target, m - 1);
      assert k + 1 + 1 + (m - 1) == k + 1 + m;
    }
  }

  /** The backward walk stops before its limit only at a neighbour beginning
      `target` hours or more before position `i`. */
  lemma {:induction false} BackFromStop(h: Horizon, hours: Tmp -> real, i: nat, k: nat, elapsed: real, target: real)
    requires i < |h.tmps| && k <= BackLimit(h, i)
    requires elapsed == BackOffset(h, hours, i, k)
    ensures k + |BackFrom(h, hours, i, k, elapsed, target)| < BackLimit(h, i)
            ==> BackOffset(h, hours, i, k + |BackFrom(h, hours, i, k, elapsed, target)| + 1) >= target
    decreases BackLimit(h, i) - k
  {
    if k < BackLimit(h, i) {
      var t := h.tmps[BackIndex(|h.tmps|, i, k + 1)];
      var e := elapsed + hours(t);
      assert BackOffset(h, hours, i, k + 1) == e;
      if e < target {
        var rest := BackFrom(h, hours, i, k + 1, e, target);
        assert BackFrom(h, hours, i, k, elapsed, target) == [t] + rest;
        BackFromStop(h, hours, i, k + 1, e, target);
        assert k + 1 + |rest| == k + |[t] + rest|;
      }
    }
  }

  /** The forward walk after `k` neighbours whose durations add up to `elapsed`. */
  function ForwardFrom(h: Horizon, hours: Tmp -> real, i: nat, k: nat, elapsed: real, target: real): (r: seq<Tmp>)
    requires i < |h.tmps| && k <= ForwardLimit(h, i)
    ensures k + |r| <= ForwardLimit(h, i)
    decreases ForwardLimit(h, i) - k
  {
    if k == ForwardLimit(h, i) || elapsed >= target then []
    else
      var t := h.tmps[ForwardIndex(|h.tmps|, i, k + 1)];
      [t] + ForwardFrom(h, hours, i, k + 1, elapsed + hours(t), target)
  }

  /** The `m`-th neighbour the forward walk collects, and how far it begins after the end of position `i`. */
  lemma {:induction false} ForwardFromElement(h: Horizon, hours: Tmp -> real, i: nat, k: nat, elapsed: real, target: real, m: nat)
    requires i < |h.tmps| && k <= ForwardLimit(h, i)
    requires elapsed == ForwardOffset(h, hours, i, k)
    requires m < |ForwardFrom(h, hours, i, k, elapsed, target)|
    ensures ForwardFrom(h, hours, i, k, elapsed, target)[m] == h.tmps[ForwardIndex(|h.tmps|, i, k + 1 + m)]
    ensures ForwardOffset(h, hours, i, k + m) < target
    decreases m
  {
    var t := h.tmps[ForwardIndex(|h.tmps|, i, k + 1)];
    var e := elapsed + hours(t);
    var rest := ForwardFrom(h, hours, i, k + 1, e, target);
    assert ForwardFrom(h, hours, i, k, elapsed, target) == [t] + rest;
    if m > 0 {
      assert ForwardOffset(h, hours, i, k + 1) == e;
      ForwardFromElement(h, hours, i, k + 1, e, target, m - 1);
      assert k + 1 + 1 + (m - 1) == k + 1 + m;
      assert k + 1 + (m - 1) == k + m;
    }
  }

  /** The forward walk stops early only at a neighbour beginning `target` hours or more after the end of position `i`. */
  lemma {:induction false} ForwardFromStop(h: Horizon, hours: Tmp -> real, i: nat, k: nat, elapsed: real, target: real)
    requires i < |h.tmps| && k <= ForwardLimit(h, i)
    requires elapsed == ForwardOffset(h, hours, i, k)
    ensures k + |ForwardFrom(h, hours, i, k, elapsed, target)| < ForwardLimit(h, i)
            ==> ForwardOffset(h, hours, i, k + |ForwardFrom(h, hours, i, k, elapsed, target)|) >= target
    decreases ForwardLimit(h, i) - k
  {
    if k < ForwardLimit(h, i) && elapsed < target {
      var t := h.tmps[ForwardIndex(|h.tmps|, i, k + 1)];
      var e := elapsed + hours(t);
      var rest := ForwardFrom(h, hours, i, k + 1, e, target);
      assert ForwardFrom(h, hours, i, k, elapsed, target) == [t] + rest;
      assert ForwardOffset(h, hours, i, k + 1) == e;
      ForwardFromStop(h, hours, i, k + 1, e, target);
      assert k + 1 + |rest| == k + |[t] + rest|;
    }
  }

  /** The backward window of position `i`: the timepoint itself, then every earlier
      neighbour that begins less than `target` hours before it, nearest first
      (see `BackwardWindowSpec`). */
  function BackwardWindow(h: Horizon, hours: Tmp -> real, i: nat, target: real): (w: seq<Tmp>)
    requires i < |h.tmps|
    ensures 1 <= |w| <= BackLimit(h, i) + 1 && w[0] == h.tmps[i]
  {
    [h.tmps[i]] + BackFrom(h, hours, i, 0, 0.0, target)
  }

  /** What the backward window holds: after `tmp` itself, consecutive earlier
      neighbours, each beginning less than `target` hours before `tmp`. The walk
      ends either because the next neighbour would begin `target` hours or more
      before, or because it reached the start of a linear horizon (then the
      farthest element is the horizon's first timepoint) or went all the way
      round a circular one. */
  lemma BackwardWindowSpec(h: Horizon, hours: Tmp -> real, i: nat, target: real)
    requires i < |h.tmps|
    ensures var w := BackwardWindow(h, hours, i, target);
            && (forall m | 1 <= m < |w| ::
                  w[m] == h.tmps[BackIndex(|h.tmps|, i, m)] && BackOffset(h, hours, i, m) < target)
            && (|w| - 1 < BackLimit(h, i) ==> BackOffset(h, hours, i, |w|) >= target)
            && (|w| - 1 == BackLimit(h, i) && h.boundary == Linear ==> w[|w| - 1] == FirstTimepoint(h))
  {
    var r := BackFrom(h, hours, i, 0, 0.0, target);
    var w := [h.tmps[i]] + r;
    forall m | 1 <= m < |w|
      ensures w[m] == h.tmps[BackIndex(|h.tmps|, i, m)] && BackOffset(h, hours, i, m) < target
    {
      BackFromElement(h, hours, i, 0, 0.0, target, m - 1);
      assert w[m] == r[m - 1];
      assert 0 + 1 + (m - 1) == m;
    }
    BackFromStop(h, hours, i, 0, 0.0, target);
    if |r| < BackLimit(h, i) {
      assert 0 + |r| + 1 == |w|;
    }
    if |r| == BackLimit(h, i) && h.boundary == Linear && |r| > 0 {
      BackFromElement(h, hours, i, 0, 0.0, target, |r| - 1);
      assert w[|r|] == h.tmps[BackIndex(|h.tmps|, i, |r|)];
    }
  }

  /** The forward window of position `i`: every later neighbour that begins less
      than `target` hours after the end of position `i`, nearest first (see
      `ForwardWindowSpec`). It is empty at the end of a linear horizon and when
      `target` is not positive. */
  function ForwardWindow(h: Horizon, hours: Tmp -> real, i: nat, target: real): (w: seq<Tmp>)
    requires i < |h.tmps|
    ensures |w| <= ForwardLimit(h, i)
    ensures target <= 0.0 ==> w == []
  {
    ForwardFrom(h, hours, i, 0, 0.0, target)
  }

  /** What the forward window holds: consecutive later neighbours, each beginning
      less than `target` hours after the end of `tmp`, up to the first that does
      not or to the end of a linear horizon. */
  lemma ForwardWindowSpec(h: Horizon, hours: Tmp -> real, i: nat, target: real)
    requires i < |h.tmps|
    ensures var w := ForwardWindow(h, hours, i, target);
            && (forall m | 0 <= m < |w| ::
                  w[m] == h.tmps[ForwardIndex(|h.tmps|, i, m + 1)] && ForwardOffset(h, hours, i, m) < target)
            && (|w| < ForwardLimit(h, i) ==> ForwardOffset(h, hours, i, |w|) >= target)
  {
    var w := ForwardWindow(h, hours, i, target);
    forall m | 0 <= m < |w|
      ensures w[m] == h.tmps[ForwardIndex(|h.tmps|, i, m + 1)] && ForwardOffset(h, hours, i, m) < target
    {
      ForwardFromElement(h, hours, i, 0, 0.0, target, m);
      assert 0 + 1 + m == m + 1 && 0 + m == m;
    }
    ForwardFromStop(h, hours, i, 0, 0.0, target);
  }

  /** Backward window of `tmp` in its horizon under balancing type `bt`. */
  function BackwardWindowAt(tl: Timeline, bt: BalancingType, tmp: Tmp, target: real): (w: seq<Tmp>)
    requires WellFormed(tl) && Member(tl, bt, tmp)
    ensures |w| >= 1 && w[0] == tmp
  {
    BackwardWindow(HorizonOf(tl, bt, tmp), tl.hours, Position(tl, bt, tmp), target)
  }

  /** Forward window of `tmp` in its horizon under balancing type `bt`. */
  function ForwardWindowAt(tl: Timeline, bt: BalancingType, tmp: Tmp, target: real): seq<Tmp>
    requires WellFormed(tl) && Member(tl, bt, tmp)
  {
    ForwardWindow(HorizonOf(tl, bt, tmp), tl.hours, Position(tl, bt, tmp), target)
  }

  // ---------------------------------------------------------------------------
  // Properties of the walks

  lemma BackIndexInjective(n: nat, i: nat, a: nat, b: nat)
    requires i < n && a < n && b < n
    ensures a != b ==> BackIndex(n, i, a) != BackIndex(n, i, b)
  {
  }

  lemma ForwardIndexInjective(n: nat, i: nat, a: nat, b: nat)
    requires i < n && a < n && b < n
    ensures a != b ==> ForwardIndex(n, i, a) != ForwardIndex(n, i, b)
  {
  }

  /** The backward window never visits a timepoint twice; in particular, on a
      circular horizon it never comes back to `tmp`. */
  lemma BackwardWindowDistinct(h: Horizon, hours: Tmp -> real, i: nat, target: real)
    requires i < |h.tmps| && Distinct(h.tmps)
    ensures Distinct(BackwardWindow(h, hours, i, target))
  {
    var w := BackwardWindow(h, hours, i, target);
    var n := |h.tmps|;
    BackwardWindowSpec(h, hours, i, target);
    assert forall m | 0 <= m < |w| :: w[m] == h.tmps[BackIndex(n, i, m)];
    forall a, b | 0 <= a < b < |w|
      ensures w[a] != w[b]
    {
      BackIndexInjective(n, i, a, b);
    }
  }

  /** The forward window never visits a timepoint twice and never contains `tmp`. */
  lemma ForwardWindowDistinct(h: Horizon, hours: Tmp -> real, i: nat, target: real)
    requires i < |h.tmps| && Distinct(h.tmps)
    ensures Distinct(ForwardWindow(h, hours, i, target))
    ensures h.tmps[i] !in ForwardWindow(h, hours, i, target)
  {
    var w := ForwardWindow(h, hours, i, target);
    var n := |h.tmps|;
    ForwardWindowSpec(h, hours, i, target);
    forall a, b | 0 <= a < b < |w|
      ensures w[a] != w[b]
    {
      ForwardIndexInjective(n, i, a + 1, b + 1);
    }
    forall m | 0 <= m < |w|
      ensures w[m] != h.tmps[i]
    {
      assert w[m] == h.tmps[ForwardIndex(n, i, m + 1)];
      assert ForwardIndex(n, i, m + 1) != i;
    }
  }

  lemma PreviousOfBackIndex(h: Horizon, i: nat, m: nat)
    requires i < |h.tmps| && m < BackLimit(h, i)
    ensures PreviousIndex(h, BackIndex(|h.tmps|, i, m)) == Some(BackIndex(|h.tmps|, i, m + 1))
  {
  }

  lemma NextOfForwardIndex(h: Horizon, i: nat, m: nat)
    requires i < |h.tmps| && m < ForwardLimit(h, i)
    ensures NextIndex(h, ForwardIndex(|h.tmps|, i, m)) == Some(ForwardIndex(|h.tmps|, i, m + 1))
  {
  }

  /** Every element of the backward window belongs to the horizon of `tmp`. */
  lemma BackwardWindowInHorizon(tl: Timeline, bt: BalancingType, tmp: Tmp, target: real, m: nat)
    requires WellFormed(tl) && Member(tl, bt, tmp) && m < |BackwardWindowAt(tl, bt, tmp, target)|
    ensures Member(tl, bt, BackwardWindowAt(tl, bt, tmp, target)[m])
    ensures HorizonOf(tl, bt, BackwardWindowAt(tl, bt, tmp, target)[m]) == HorizonOf(tl, bt, tmp)
  {
    var h := HorizonOf(tl, bt, tmp);
    var i := Position(tl, bt, tmp);
    var w := BackwardWindowAt(tl, bt, tmp, target);
    BackwardWindowSpec(h, tl.hours, i, target);
    assert w[m] == h.tmps[BackIndex(|h.tmps|, i, m)];
    SameHorizonMember(tl, bt, tmp, BackIndex(|h.tmps|, i, m));
  }

  /** Each element of the backward window after the first is the previous timepoint of the one before it. */
  lemma BackwardWindowStep(tl: Timeline, bt: BalancingType, tmp: Tmp, target: real, m: nat)
    requires WellFormed(tl) && Member(tl, bt, tmp) && m + 1 < |BackwardWindowAt(tl, bt, tmp, target)|
    ensures Member(tl, bt, BackwardWindowAt(tl, bt, tmp, target)[m])
    ensures Previous(tl, BackwardWindowAt(tl, bt, tmp, target)[m], bt) == Some(BackwardWindowAt(tl, bt, tmp, target)[m + 1])
  {
    var h := HorizonOf(tl, bt, tmp);
    var i := Position(tl, bt, tmp);
    var n := |h.tmps|;
    var w := BackwardWindowAt(tl, bt, tmp, target);
    BackwardWindowSpec(h, tl.hours, i, target);
    assert w[m] == h.tmps[BackIndex(n, i, m)];
    assert w[m + 1] == h.tmps[BackIndex(n, i, m + 1)];
    PreviousAt(tl, bt, tmp, BackIndex(n, i, m));
    PreviousOfBackIndex(h, i, m);
  }

  /** Every element of the forward window belongs to the horizon of `tmp`. */
  lemma ForwardWindowInHorizon(tl: Timeline, bt: BalancingType, tmp: Tmp, target: real, m: nat)
    requires WellFormed(tl) && Member(tl, bt, tmp) && m < |ForwardWindowAt(tl, bt, tmp, target)|
    ensures Member(tl, bt, ForwardWindowAt(tl, bt, tmp, target)[m])
    ensures HorizonOf(tl, bt, ForwardWindowAt(tl, bt, tmp, target)[m]) == HorizonOf(tl, bt, tmp)
  {
    var h := HorizonOf(tl, bt, tmp);
    var i := Position(tl, bt, tmp);
    var w := ForwardWindowAt(tl, bt, tmp, target);
    ForwardWindowSpec(h, tl.hours, i, target);
    assert w[m] == h.tmps[ForwardIndex(|h.tmps|, i, m + 1)];
    SameHorizonMember(tl, bt, tmp, ForwardIndex(|h.tmps|, i, m + 1));
  }

  /** Every element of the backward window has a positive duration. */
  lemma BackwardWindowHours(tl: Timeline, bt: BalancingType, tmp: Tmp, target: real)
    requires WellFormed(tl) && Member(tl, bt, tmp)
    ensures forall m | 0 <= m < |BackwardWindowAt(tl, bt, tmp, target)| ::
              tl.hours(BackwardWindowAt(tl, bt, tmp, target)[m]) > 0.0
  {
    var w := BackwardWindowAt(tl, bt, tmp, target);
    forall m | 0 <= m < |w| ensures tl.hours(w[m]) > 0.0 {
      BackwardWindowInHorizon(tl, bt, tmp, target, m);
      HoursPositive(tl, bt, w[m]);
    }
  }

  /** Every element of the forward window has a positive duration. */
  lemma ForwardWindowHours(tl: Timeline, bt: BalancingType, tmp: Tmp, target: real)
    requires WellFormed(tl) && Member(tl, bt, tmp)
    ensures forall m | 0 <= m < |ForwardWindowAt(tl, bt, tmp, target)| ::
              tl.hours(ForwardWindowAt(tl, bt, tmp, target)[m]) > 0.0
  {
    var w := ForwardWindowAt(tl, bt, tmp, target);
    forall m | 0 <= m < |w| ensures tl.hours(w[m]) > 0.0 {
      ForwardWindowInHorizon(tl, bt, tmp, target, m);
      HoursPositive(tl, bt, w[m]);
    }
  }

  /** The forward window starts at the next timepoint of `tmp`, and each later
      element is the next timepoint of the one before it. */
  lemma ForwardWindowStep(tl: Timeline, bt: BalancingType, tmp: Tmp, target: real, m: nat)
    requires WellFormed(tl) && Member(tl, bt, tmp) && m < |ForwardWindowAt(tl, bt, tmp, target)|
    ensures m == 0 ==> Next(tl, tmp, bt) == Some(ForwardWindowAt(tl, bt, tmp, target)[0])
    ensures m > 0 ==> Member(tl, bt, ForwardWindowAt(tl, bt, tmp, target)[m - 1])
                      && Next(tl, ForwardWindowAt(tl, bt, tmp, target)[m - 1], bt) == Some(ForwardWindowAt(tl, bt, tmp, target)[m])
  {
    var h := HorizonOf(tl, bt, tmp);
    var i := Position(tl, bt, tmp);
    var n := |h.tmps|;
    var w := ForwardWindowAt(tl, bt, tmp, target);
    ForwardWindowSpec(h, tl.hours, i, target);
    assert w[m] == h.tmps[ForwardIndex(n, i, m + 1)];
    if m == 0 {
      SameHorizonMember(tl, bt, tmp, i);
      NextAt(tl, bt, tmp, i);
      NextOfForwardIndex(h, i, 0);
    } else {
      assert w[m - 1] == h.tmps[ForwardIndex(n, i, m)];
      NextAt(tl, bt, tmp, ForwardIndex(n, i, m));
      NextOfForwardIndex(h, i, m);
    }
  }

  /** With positive durations, the farther a neighbour, the earlier it begins. */
  lemma {:induction false} BackOffsetMonotone(h: Horizon, hours: Tmp -> real, i: nat, a: nat, b: nat)
    requires i < |h.tmps| && a <= b < |h.tmps|
    requires forall j | 0 <= j < |h.tmps| :: hours(h.tmps[j]) > 0.0
    ensures BackOffset(h, hours, i, a) <= BackOffset(h, hours, i, b)
    decreases b - a
  {
    if a < b {
      BackOffsetMonotone(h, hours, i, a, b - 1);
    }
  }

  /** Summing the durations of a backward window gives the duration of `tmp`
      plus the offset of the farthest neighbour. */
  lemma {:induction false} WindowHoursPrefix(h: Horizon, hours: Tmp -> real, i: nat, target: real, k: nat)
    requires i < |h.tmps| && k < |BackwardWindow(h, hours, i, target)|
    ensures SumOver(hours, BackwardWindow(h, hours, i, target)[..k + 1]) == hours(h.tmps[i]) + BackOffset(h, hours, i, k)
  {
    var w := BackwardWindow(h, hours, i, target);
    BackwardWindowSpec(h, hours, i, target);
    if k == 0 {
      assert w[..1][..0] == [];
    } else {
      WindowHoursPrefix(h, hours, i, target, k - 1);
      assert w[..k + 1][..k] == w[..k];
    }
  }

  /** One step further from `tmp` on a linear horizon: the offsets seen from the
      next position are the offsets seen from `i`, plus the duration of `i`. */
  lemma {:induction false} BackOffsetShift(h: Horizon, hours: Tmp -> real, i: nat, k: nat)
    requires h.boundary == Linear && i + 1 < |h.tmps| && k <= i
    ensures BackOffset(h, hours, i + 1, k + 1) == hours(h.tmps[i]) + BackOffset(h, hours, i, k)
  {
    if k > 0 {
      BackOffsetShift(h, hours, i, k - 1);
    }
  }

  /** On a linear horizon, if the backward window of position `i` reaches the
      horizon's first timepoint while spanning (with `i` itself) less than
      `target` hours, the window of the next position is exactly that window with
      the next timepoint in front. */
  lemma TruncatedWindowExtends(h: Horizon, hours: Tmp -> real, i: nat, target: real)
    requires h.boundary == Linear && i + 1 < |h.tmps| && Distinct(h.tmps)
    requires forall j | 0 <= j < |h.tmps| :: hours(h.tmps[j]) > 0.0
    requires BackwardWindow(h, hours, i, target)[|BackwardWindow(h, hours, i, target)| - 1] == FirstTimepoint(h)
    requires SumOver(hours, BackwardWindow(h, hours, i, target)) < target
    ensures BackwardWindow(h, hours, i + 1, target) == [h.tmps[i + 1]] + BackwardWindow(h, hours, i, target)
  {
    var n := |h.tmps|;
    var w := BackwardWindow(h, hours, i, target);
    var w' := BackwardWindow(h, hours, i + 1, target);
    BackwardWindowSpec(h, hours, i, target);
    BackwardWindowSpec(h, hours, i + 1, target);
    var last := |w| - 1;
    assert w[last] == h.tmps[BackIndex(n, i, last)];
    assert BackIndex(n, i, last) == 0 by {
      if last > 0 {
        assert h.tmps[BackIndex(n, i, last)] == h.tmps[0];
      }
    }
    assert last == i;
    WindowHoursPrefix(h, hours, i, target, last);
    assert w[..last + 1] == w;
    BackOffsetShift(h, hours, i, i);
    if |w'| - 1 < i + 1 {
      BackOffsetMonotone(h, hours, i + 1, |w'|, i + 1);
      assert false;
    }
    assert |w'| == |w| + 1;
    forall m | 1 <= m < |w'|
      ensures w'[m] == w[m - 1]
    {
    }
  }

  // ---------------------------------------------------------------------------
  // The walks as loops

  /** Computes the backward window by walking to earlier timepoints one at a time. */
  method ResolveBackwardWindow(h: Horizon, hours: Tmp -> real, i: nat, target: real) returns (w: seq<Tmp>)
    requires i < |h.tmps|
    ensures w == BackwardWindow(h, hours, i, target)
  {
    var n := |h.tmps|;
    var limit := if h.boundary == Linear then i else n - 1;
    ghost var whole := BackwardWindow(h, hours, i, target);
    w := [h.tmps[i]];
    var k := 0;
    var elapsed := 0.0;
    var done := false;
    while !done && k < limit
      invariant limit == BackLimit(h, i)
      invariant k <= limit
      invariant !done ==> w + BackFrom(h, hours, i, k, elapsed, target) == whole
      invariant done ==> w == whole
      decreases limit - k, !done
    {
      var j := if k + 1 <= i then i - (k + 1) else n + i - (k + 1);
      var t := h.tmps[j];
      if elapsed + hours(t) < target {
        w := w + [t];
        elapsed := elapsed + hours(t);
        k := k + 1;
      } else {
        done := true;
      }
    }
  }

  /** Computes the forward window by walking to later timepoints one at a time. */
  method ResolveForwardWindow(h: Horizon, hours: Tmp -> real, i: nat, target: real) returns (w: seq<Tmp>)
    requires i < |h.tmps|
    ensures w == ForwardWindow(h, hours, i, target)
  {
    var n := |h.tmps|;
    var limit := ForwardLimit(h, i);
    ghost var whole := ForwardWindow(h, hours, i, target);
    w := [];
    var k := 0;
    var elapsed := 0.0;
    while k < limit && elapsed < target
      invariant k <= limit
      invariant w + ForwardFrom(h, hours, i, k, elapsed, target) == whole
      decreases limit - k
    {
      var t := h.tmps[ForwardIndex(n, i, k + 1)];
      assert ForwardFrom(h, hours, i, k, elapsed, target) == [t] + ForwardFrom(h, hours, i, k + 1, elapsed + hours(t), target);
      w := w + [t];
      elapsed := elapsed + hours(t);
      k := k + 1;
    }
  }
}
