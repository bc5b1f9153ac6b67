# Dispatchable binary-commit generators, modelled in Dafny

This project models the unit-commitment rule set GridPath applies to
`dispatchable_binary_commit` generators. For each generator and timepoint the
rule set decides whether a constraint instance exists. If it does, the rule set
states a linear relation between the decision variables. The model covers:

- the timeline: timepoints with durations and periods, grouped into horizons
  keyed by (balancing type, horizon), each with a linear or circular boundary.
  It has previous/next navigation and the "first/last timepoint of a linear
  horizon" checks (`timeline.dfy`);
- the backward and forward relevant-timepoint windows used by the trajectory and
  minimum up/down time rules (`windows.dfy`);
- the generator's parameters with their defaults, its minimum and maximum power,
  the startup and shutdown lengths, and the ramp-limit expressions
  (`generators.dfy`);
- startup power, shutdown power and total power provision (`trajectory.dfy`);
- the commitment-logic rule and the minimum up/down time rules
  (`constraints.dfy`);
- minimum and maximum power, ramp up/down, fuel burn, and the start-up/shut-down
  and power-change quantities (`power_rules.dfy`);
- the project subset filter (`subset.dfy`);
- small facts about products of reals that the power bounds use (`real_arith.dfy`);
- the worked examples from the documentation, on concrete timelines, and a
  counterexample to the ramp-up skip test (`worked_cases.dfy`).

The solver owns the decision variables: commitment, starts, stops, power above
the minimum stable level, reserve sums and fuel burn. The model therefore takes
them as arbitrary total functions from timepoints to reals. A constraint instance
is `Skip` or `Rel(lhs, op, rhs)`, and `Holds` evaluates it on those values.
Durations, rates, capacities and fractions are Dafny `real`s. The source divides
with true division (`from __future__ import division`), so its quotients are not
truncated. It still computes in floating point, which the model does not: see the
rounding line under "Left out".

The two window resolvers, `determine_relevant_timepoints` and
`determine_relevant_timepoints_forward`, are imported by the generator module.
Their source is not part of this model, so the model defines them by one rule
that fits every worked example in the generator module:

- The backward window of `tmp` is `tmp` itself, then its earlier neighbours for
  as long as each begins strictly less than the target number of hours before
  the start of `tmp`.
- The forward window is the later neighbours for as long as each begins strictly
  less than the target number of hours after the end of `tmp`.
- Both walks stop at the edge of a linear horizon. On a circular horizon they
  wrap, but never come back to `tmp`, so a walk visits at most every other
  timepoint of the horizon once. Termination follows from that bound.

The third minimum-up-time example (durations [1,1,1,1], window {0,1,2,3}) holds
only on a circular horizon; on a linear one the same rule gives [2,1,0]. Both
facts are proved (`WorkedCases.MinUpExampleThree`).

## Model

| member | source | states |
|---|---|---|
| Timeline.IsLinearHorizonFirstTimepoint | gridpath/project/common_functions.py:46-51 | `tmp` is its horizon's first timepoint and that horizon is linear; `Timeline.LinearFirstIffStart` ties it to position 0 |
| Timeline.IsLinearHorizonLastTimepoint | gridpath/project/common_functions.py:54-59 | `tmp` is its horizon's last timepoint and that horizon is linear; `Timeline.LinearLastIffEnd` ties it to the final position |
| Timeline.LinearFirstIffStart | gridpath/project/common_functions.py:46-51 | the first-timepoint check holds iff the horizon is linear and `tmp` sits at its first position |
| Timeline.LinearLastIffEnd | gridpath/project/common_functions.py:54-59 | the last-timepoint check holds iff the horizon is linear and `tmp` sits at its final position |
| Timeline.CircularHasNoBoundary | gridpath/project/common_functions.py:46-59 | neither check holds for any timepoint of a circular horizon |
| Timeline.FirstAndLastOnlyWhenSingleton | gridpath/project/common_functions.py:46-59 | both checks hold for one timepoint iff its linear horizon has a single timepoint |
| Timeline.Previous | gridpath/project/operations/operational_types/dispatchable_binary_commit.py:479-488 | there is no previous timepoint exactly at the first timepoint of a linear horizon; otherwise it is a member of the same horizon |
| Timeline.Next | gridpath/project/operations/operational_types/dispatchable_binary_commit.py:532-539 | there is no next timepoint exactly at the last timepoint of a linear horizon; otherwise it is a member of the same horizon |
| Timeline.CircularWraps | gridpath/project/operations/operational_types/dispatchable_binary_commit.py:923-926 | on a circular horizon the first timepoint's previous is the last, and the last's next is the first |
| Timeline.NextOfPrevious | gridpath/project/operations/operational_types/dispatchable_binary_commit.py:532-539 | wherever a previous timepoint exists, its next timepoint is `tmp` again |
| Timeline.PreviousOfNext | gridpath/project/operations/operational_types/dispatchable_binary_commit.py:532-539 | wherever a next timepoint exists, its previous timepoint is `tmp` again |
| Windows.BackwardWindow | gridpath/project/operations/operational_types/dispatchable_binary_commit.py:578-598 | the window starts with `tmp` and has at most one element more than the neighbours the walk may visit |
| Windows.BackwardWindowSpec | gridpath/project/operations/operational_types/dispatchable_binary_commit.py:578-598 | after `tmp`, the window holds consecutive earlier neighbours, each beginning less than the target before `tmp`; it stops at a neighbour that does not, or at the start of a linear horizon (whose first timepoint is then the last element) |
| Windows.ForwardWindow | gridpath/project/operations/operational_types/dispatchable_binary_commit.py:310-313 | the window is no longer than the neighbours the walk may visit, and empty when the target is not positive |
| Windows.ForwardWindowSpec | gridpath/project/operations/operational_types/dispatchable_binary_commit.py:310-313 | the window holds consecutive later neighbours, each beginning less than the target after the end of `tmp`, and stops at one that does not or at the end of a linear horizon |
| Windows.ResolveBackwardWindow | gridpath/project/operations/operational_types/dispatchable_binary_commit.py:270-271 | the step-by-step walk computes exactly the backward window |
| Windows.ResolveForwardWindow | gridpath/project/operations/operational_types/dispatchable_binary_commit.py:340-341 | the step-by-step walk computes exactly the forward window |
| Windows.BackwardWindowDistinct | gridpath/project/operations/operational_types/dispatchable_binary_commit.py:240-243 | the backward window lists no timepoint twice, even when it wraps |
| Windows.ForwardWindowDistinct | gridpath/project/operations/operational_types/dispatchable_binary_commit.py:310-313 | the forward window lists no timepoint twice and never contains `tmp` |
| Windows.BackwardWindowStep | gridpath/project/operations/operational_types/dispatchable_binary_commit.py:240-243 | each element of the backward window after the first is the previous timepoint of the element before it |
| Windows.ForwardWindowStep | gridpath/project/operations/operational_types/dispatchable_binary_commit.py:310-313 | the forward window starts at the next timepoint of `tmp`, and each element is the next of the one before |
| Windows.BackwardWindowInHorizon | gridpath/project/operations/operational_types/dispatchable_binary_commit.py:240-243 | every element of the backward window belongs to the horizon of `tmp` |
| Windows.ForwardWindowInHorizon | gridpath/project/operations/operational_types/dispatchable_binary_commit.py:310-313 | every element of the forward window belongs to the horizon of `tmp` |
| Windows.WindowHoursPrefix | gridpath/project/operations/operational_types/dispatchable_binary_commit.py:624-625 | the durations of the first k+1 window elements add up to the duration of `tmp` plus the offset of the k-th neighbour |
| Windows.TruncatedWindowExtends | gridpath/project/operations/operational_types/dispatchable_binary_commit.py:612-617 | on a linear horizon, a window that reaches the first timepoint while spanning less than the target reappears whole, behind the next timepoint, in that timepoint's window |
| Generators.FromInputs | gridpath/project/operations/operational_types/dispatchable_binary_commit.py:137-166 | an absent rate takes the default 1 and an absent minimum up or down time takes the default 0; a supplied value is kept, and the other parameters pass through unchanged |
| Generators.FromInputsValidIff | gridpath/project/operations/operational_types/dispatchable_binary_commit.py:137-166 | the generator built from the inputs lies in the declared domains exactly when every supplied value does, with positive startup and shutdown rates; the defaults never leave a domain |
| Generators.DefaultsAreValid | gridpath/project/operations/operational_types/dispatchable_binary_commit.py:148-166 | with every optional parameter absent, the parameters lie in their declared domains |
| Generators.Pmax | gridpath/project/operations/operational_types/dispatchable_binary_commit.py:221-226 | capacity in the timepoint's period times the availability derate; `Generators.PminWithinPmax` bounds Pmin by it |
| Generators.Pmin | gridpath/project/operations/operational_types/dispatchable_binary_commit.py:228-234 | Pmax times the minimum stable fraction, which `Generators.PminWithinPmax` proves lies between 0 and Pmax |
| Generators.PminWithinPmax | gridpath/project/operations/operational_types/dispatchable_binary_commit.py:221-234 | Pmin is Pmax times the minimum stable fraction, and lies between 0 and Pmax |
| Generators.StartupLengthHours | gridpath/project/operations/operational_types/dispatchable_binary_commit.py:169-175 | the startup length, at the startup rate per minute, covers exactly the minimum stable fraction; it is non-negative |
| Generators.ShutdownLengthHours | gridpath/project/operations/operational_types/dispatchable_binary_commit.py:177-183 | the shutdown length, at the shutdown rate per minute, covers exactly the minimum stable fraction; it is non-negative |
| Generators.RampUpLimit | gridpath/project/operations/operational_types/dispatchable_binary_commit.py:370-395 | derated capacity times the ramp-up rate per minute over every minute of the timepoint; `Generators.RampLimitGrowsWithDuration` and `Generators.FullRangeRampLimit` state its growth and when it covers Pmax − Pmin |
| Generators.RampDownLimit | gridpath/project/operations/operational_types/dispatchable_binary_commit.py:397-422 | the same for the ramp-down rate, with the same partner lemmas |
| Generators.StartupRampLimit | gridpath/project/operations/operational_types/dispatchable_binary_commit.py:425-433 | derated capacity times the startup-plus-ramp rate over the timepoint, capped at 1; `Generators.TrajectoryRampLimitsWithinPmax` keeps it in [0, Pmax] |
| Generators.ShutdownRampLimit | gridpath/project/operations/operational_types/dispatchable_binary_commit.py:436-444 | the same for the shutdown-plus-ramp rate, kept in [0, Pmax] by the same lemma |
| Generators.TrajectoryRampLimitsWithinPmax | gridpath/project/operations/operational_types/dispatchable_binary_commit.py:424-444 | the startup and shutdown ramp limits, capped by `min(..., 1)`, lie between 0 and Pmax |
| Generators.FullRangeRampLimit | gridpath/project/operations/operational_types/dispatchable_binary_commit.py:720-727 | when the rate over a timepoint covers one minus the minimum stable fraction, the ramp limit over it is at least Pmax minus Pmin there |
| Generators.DefaultRampCoversFullRange | gridpath/project/operations/operational_types/dispatchable_binary_commit.py:144-159 | with the default rates, any timepoint of a minute or more covers the whole range above the minimum stable level |
| Generators.RampLimitGrowsWithDuration | gridpath/project/operations/operational_types/dispatchable_binary_commit.py:370-392 | for the same derated capacity, a longer timepoint gives ramp limits at least as large |
| Trajectory.ShutdownSumClosedForm | gridpath/project/operations/operational_types/dispatchable_binary_commit.py:272-282 | the shutdown accumulation equals the reference sum where each term uses the total duration up to and including its own timepoint |
| Trajectory.StartupSumClosedForm | gridpath/project/operations/operational_types/dispatchable_binary_commit.py:340-354 | the startup accumulation equals the reference sum where each term uses the total duration before its own timepoint |
| Trajectory.NearestTerms | gridpath/project/operations/operational_types/dispatchable_binary_commit.py:344-354 | the nearest startup timepoint contributes its start times the full Pmin; the nearest shutdown timepoint contributes its stop times Pmin less one timepoint of ramp |
| Trajectory.ShutdownPower | gridpath/project/operations/operational_types/dispatchable_binary_commit.py:270-282 | equals the reference sum over the backward window less its farthest timepoint, in which each stop contributes Pmin less the ramp over the time elapsed up to and including its own timepoint; a one-element window gives zero |
| Trajectory.StartupPower | gridpath/project/operations/operational_types/dispatchable_binary_commit.py:340-354 | equals the reference sum over the forward window, in which each start contributes Pmin less the ramp over the time elapsed before its own timepoint; an empty window gives zero |
| Trajectory.ShutdownPowerBound | gridpath/project/operations/operational_types/dispatchable_binary_commit.py:270-282 | with non-negative stops and slopes, shutdown power is at most Pmin times the stops in the window less its farthest element |
| Trajectory.StartupPowerBound | gridpath/project/operations/operational_types/dispatchable_binary_commit.py:340-354 | with non-negative starts and slopes, startup power is at most Pmin times the starts in the forward window |
| Trajectory.ShutdownSumBound | gridpath/project/operations/operational_types/dispatchable_binary_commit.py:274-282 | over any sequence, the shutdown accumulation is at most Pmin times the sum of stops |
| Trajectory.StartupSumBound | gridpath/project/operations/operational_types/dispatchable_binary_commit.py:344-354 | over any sequence, the startup accumulation is at most Pmin times the sum of starts |
| Trajectory.ProvidePower | gridpath/project/operations/operational_types/dispatchable_binary_commit.py:360-365 | power above Pmin, plus Pmin times commitment, plus startup and shutdown power; `Trajectory.NoTransitionNoTrajectory` reduces it when no transition is near |
| Trajectory.NoTransitionNoTrajectory | gridpath/project/operations/operational_types/dispatchable_binary_commit.py:360-365 | without starts in the forward window or stops in the backward window, power provision is power above Pmin plus Pmin times commitment |
| Constraints.BinaryLogic | gridpath/project/operations/operational_types/dispatchable_binary_commit.py:479-488 | skipped exactly at the first timepoint of a linear horizon; otherwise it holds iff commitment minus the previous commitment equals start minus stop |
| Constraints.CommitTelescopes | gridpath/project/operations/operational_types/dispatchable_binary_commit.py:479-488 | along a horizon where the logic holds, commitment at position k is the first commitment plus the starts minus the stops in between |
| Constraints.CircularStartsMatchStops | gridpath/project/operations/operational_types/dispatchable_binary_commit.py:479-488 | around a circular horizon where the logic holds everywhere, the starts add up to the stops |
| Constraints.MinTimeSkip | gridpath/project/operations/operational_types/dispatchable_binary_commit.py:612-630 | the four skip conditions: linear horizon, the window reaches the first timepoint, it spans less than the minimum time, and `tmp` is not the last timepoint; `Constraints.MinTimeSkipCovered` shows what a skip loses is covered |
| Constraints.MinTimeConstraint | gridpath/project/operations/operational_types/dispatchable_binary_commit.py:618-634 | skipped exactly when all four skip conditions hold, hence never at the last timepoint of a linear horizon nor on a circular one; otherwise it holds iff the left side is at least the events over the window |
| Constraints.MinUpTime | gridpath/project/operations/operational_types/dispatchable_binary_commit.py:605-634 | the minimum up time rule: the same skip test with the minimum up time; otherwise it holds iff commitment is at least the starts in the window |
| Constraints.MinDownTime | gridpath/project/operations/operational_types/dispatchable_binary_commit.py:665-694 | the minimum down time rule: the same skip test with the minimum down time; otherwise it holds iff one minus commitment is at least the stops in the window |
| Constraints.MinTimeSkipCovered | gridpath/project/operations/operational_types/dispatchable_binary_commit.py:612-617 | a skipped instance has a next timepoint, whose window is the skipped window with that timepoint in front |
| Constraints.MinUpTimeSkipCovered | gridpath/project/operations/operational_types/dispatchable_binary_commit.py:570-574 | a skipped minimum up time instance is covered by the next timepoint's window |
| Constraints.MinDownTimeSkipCovered | gridpath/project/operations/operational_types/dispatchable_binary_commit.py:656-660 | a skipped minimum down time instance is covered by the next timepoint's window |
| Constraints.MinUpTimeKeepsCommitted | gridpath/project/operations/operational_types/dispatchable_binary_commit.py:557-561 | when enforced and holding, with non-negative starts, commitment is at least the start at any window element |
| Constraints.MinDownTimeKeepsOff | gridpath/project/operations/operational_types/dispatchable_binary_commit.py:643-647 | when enforced and holding, with non-negative stops, one minus commitment is at least the stop at any window element |
| PowerRules.MinPower | gridpath/project/operations/operational_types/dispatchable_binary_commit.py:506-508 | never skipped; holds iff downward reserves are at most power above Pmin |
| PowerRules.StopNext | gridpath/project/operations/operational_types/dispatchable_binary_commit.py:532-539 | zero at the last timepoint of a linear horizon, otherwise the stop at the next timepoint, wrapping on circular horizons |
| PowerRules.MaxPower | gridpath/project/operations/operational_types/dispatchable_binary_commit.py:542-548 | never skipped; holds iff power above Pmin plus upward reserves is at most (Pmax − Pmin) times (commitment − stop_next) |
| PowerRules.OfflineProvidesNothing | gridpath/project/operations/operational_types/dispatchable_binary_commit.py:827-829 | an uncommitted unit meeting min and max power has zero power above Pmin and zero reserves |
| PowerRules.CommittedWithinPmax | gridpath/project/operations/operational_types/dispatchable_binary_commit.py:827-829 | a committed unit meeting max power keeps Pmin plus power above it plus upward reserves within Pmax |
| PowerRules.StoppingUnitAtPmin | gridpath/project/operations/operational_types/dispatchable_binary_commit.py:542-548 | a unit whose whole commitment stops at the next timepoint has no power above Pmin and no upward reserves |
| PowerRules.RampUpRelation | gridpath/project/operations/operational_types/dispatchable_binary_commit.py:729-739 | holds iff power above Pmin plus upward reserves at `tmp` is at most power above Pmin minus downward reserves at the previous timepoint, plus the ramp-up limit there |
| PowerRules.RampDownRelation | gridpath/project/operations/operational_types/dispatchable_binary_commit.py:774-783 | holds iff power above Pmin plus upward reserves at the previous timepoint is at most power above Pmin minus downward reserves at `tmp`, plus the ramp-down limit over the previous timepoint |
| PowerRules.RampUp | gridpath/project/operations/operational_types/dispatchable_binary_commit.py:715-739 | skipped at the first timepoint of a linear horizon; elsewhere skipped iff the ramp-up rate over the previous timepoint covers one minus the minimum stable fraction, and otherwise the ramp-up relation |
| PowerRules.RampDown | gridpath/project/operations/operational_types/dispatchable_binary_commit.py:760-783 | skipped at the first timepoint of a linear horizon; elsewhere skipped iff the ramp-down rate over the previous timepoint covers one minus the minimum stable fraction, and otherwise the ramp-down relation |
| PowerRules.RampDownSkipSound | gridpath/project/operations/operational_types/dispatchable_binary_commit.py:765-772 | when ramp-down is skipped for its rate, max power at the previous timepoint and min power at `tmp` imply the ramp-down relation |
| PowerRules.RampUpGuarded | gridpath/project/operations/operational_types/dispatchable_binary_commit.py:720-727 | corrected ramp-up rule: skipped iff the ramp-up limit over the previous timepoint covers Pmax − Pmin at `tmp` |
| PowerRules.RampUpGuardedSkipSound | gridpath/project/operations/operational_types/dispatchable_binary_commit.py:720-722 | when the corrected rule skips, max power at `tmp` and min power at the previous timepoint imply the ramp-up relation |
| PowerRules.RampUpGuardAgrees | gridpath/project/operations/operational_types/dispatchable_binary_commit.py:723-726 | where the derated capacity is the same and positive at both timepoints, the corrected and written skip tests agree |
| PowerRules.FuelCurve | gridpath/project/operations/operational_types/dispatchable_binary_commit.py:790-793 | the curve is at least every segment's burn, and equal to one of them |
| PowerRules.FuelBurn | gridpath/project/operations/operational_types/dispatchable_binary_commit.py:806-813 | never skipped; holds iff fuel burn is at least slope times power provision plus intercept times availability times commitment |
| PowerRules.FuelBurnEnvelope | gridpath/project/operations/operational_types/dispatchable_binary_commit.py:790-813 | the fuel burn constraints of all segments hold iff fuel burn is at least the curve |
| PowerRules.StartupShutdown | gridpath/project/operations/operational_types/dispatchable_binary_commit.py:932-941 | undefined exactly at the first timepoint of a linear horizon; its sign is stated by `PowerRules.StartupShutdownSign` |
| PowerRules.StartupShutdownSign | gridpath/project/operations/operational_types/dispatchable_binary_commit.py:918-941 | elsewhere, with positive Pmax, the megawatts started or shut down are positive exactly when commitment rose since the previous timepoint and negative exactly when it fell |
| PowerRules.StartupShutdownFromLogic | gridpath/project/operations/operational_types/dispatchable_binary_commit.py:918-941 | where the logic holds, the megawatts started or shut down are (start − stop) times Pmax |
| PowerRules.PowerDelta | gridpath/project/operations/operational_types/dispatchable_binary_commit.py:953-961 | undefined exactly at the first timepoint of a linear horizon |
| PowerRules.PowerDeltaWithinRampLimits | gridpath/project/operations/operational_types/dispatchable_binary_commit.py:944-961 | where both ramp relations hold with non-negative reserves, the power change lies between minus the ramp-down limit and the ramp-up limit |
| ProjectSubset.Subset | gridpath/project/common_functions.py:36-43 | a project is in the result iff some row names it with the chosen value; the result is no longer than the table |
| ProjectSubset.SubsetConcat | gridpath/project/common_functions.py:36-43 | filtering two halves of a table and joining them gives the filter of the whole |
| ProjectSubset.SubsetKeepsOrder | gridpath/project/common_functions.py:36-43 | of two matching rows, the earlier one's project comes first in the result |
| ProjectSubset.DetermineProjectSubset | gridpath/project/common_functions.py:27-43 | the single appending pass yields exactly the filtered projects |
| WorkedCases.MinUpExampleOne | gridpath/project/operations/operational_types/dispatchable_binary_commit.py:578-583 | durations [1,3,1,1], timepoint 2, four hours: the window is [2, 1] |
| WorkedCases.MinUpExampleTwo | gridpath/project/operations/operational_types/dispatchable_binary_commit.py:584-591 | durations [1,4,1,1]: the window is [2] |
| WorkedCases.MinUpExampleThree | gridpath/project/operations/operational_types/dispatchable_binary_commit.py:592-598 | durations [1,1,1,1]: the window is [2, 1, 0, 3] on a circular horizon and [2, 1, 0] on a linear one |
| WorkedCases.ShutdownWindowExample | gridpath/project/operations/operational_types/dispatchable_binary_commit.py:250-255 | hourly timepoints and a four-hour shutdown: the window of timepoint 5 is [5, 4, 3, 2] |
| WorkedCases.StartupWindowExample | gridpath/project/operations/operational_types/dispatchable_binary_commit.py:319-324 | hourly timepoints and a four-hour startup: the window of timepoint 5 is [6, 7, 8, 9] |
| WorkedCases.ShutdownPowerExample | gridpath/project/operations/operational_types/dispatchable_binary_commit.py:256-261 | with Pmin 4 MW and a stop in timepoint 4, shutdown power in timepoint 5 is 2 MW |
| WorkedCases.StartupPowerExample | gridpath/project/operations/operational_types/dispatchable_binary_commit.py:325-331 | with Pmin 4 MW and a start in timepoint 7, startup power in timepoint 5 is 3 MW |
| WorkedCases.RampUpSkipLetsThrough | gridpath/project/operations/operational_types/dispatchable_binary_commit.py:715-739 | an input where the written ramp-up rule skips, the commitment logic and max and min power hold at both timepoints, and the ramp-up relation fails; the corrected rule keeps the constraint |

## Left out

- File and database I/O: `load_module_specific_data`, `export_module_specific_results` and `import_module_specific_results_to_database`, and the CSV read in `determine_project_subset`. The filter sees the table's rows as a sequence.
- `fix_commitment`: it fixes solver variables to values from an earlier stage.
- The upward and downward reserve sums. They go through `getattr` over the dynamic components, which is not part of this model, so they are inputs `upReserves` and `downReserves`.
- The solver. Constraints are predicates over given decision values; nothing here optimises, and variable domains (binary commitment, fractions for starts and stops) are assumptions of individual lemmas rather than part of the model.
- The claim in the comments that the logic constraint forces starts and stops to binary values is not stated: start = stop = 0.5 with unchanged commitment satisfies the equality.
- `power_provision_rule`, `rec_provision_rule`, `commitment_rule`, `online_capacity_rule` and the curtailment and sub-hourly rules return a variable, a product or zero, with nothing to prove beyond `ProvidePower`, `Pmax` and the commitment itself.
- `fuel_burn_rule`: it returns the fuel burn variable or raises `ValueError` for non-fuel projects; membership in the fuel project set is not part of this model.
- The window resolvers themselves are not part of this model; their rule is defined here as described above. Where a resolver might stop with an error after too many steps on a circular horizon, the model instead stops after visiting every other timepoint once.
- Generators.StartupLengthHours: requires the startup rate to be positive. The declared domain admits zero, on which the source's length rule divides by zero.
- Generators.ShutdownLengthHours: requires the shutdown rate to be positive, for the same reason.
- Generators.FromInputs: accepts values outside the declared domains. The source declares the minimum stable fraction and the four rates within [0, 1] and the minimum up and down times non-negative (dispatchable_binary_commit.py:137-166), and data outside these is refused when the model loads. Here any value is kept. `Generators.ValidParameters` states the domains, `Generators.FromInputsValidIff` says which inputs meet them, and each lemma requires only the domain facts its proof uses.
- Horizon lookup in the rule bodies: the rules at dispatchable_binary_commit.py:479-482, :532-535, :618-628, :678-688, :715-718, :760-763, :932-935 and :953-956 look up the first and last timepoint and the boundary by horizon id alone. The model looks them up by (balancing type, horizon), as `check_if_linear_horizon_first_timepoint` and `check_if_linear_horizon_last_timepoint` do in common_functions.py:44-57. The two agree whenever no horizon id is shared between balancing types, which is what a horizon id keyed by itself presumes.
- Generators.FromInputs: follows the code's defaults. The comment above the minimum up and down time loaders says they default to 1, but the declared default is 0.
- Trajectory.ProvidePower: carries no bound of its own. The bounds on its startup and shutdown parts are `Trajectory.StartupPowerBound` and `Trajectory.ShutdownPowerBound`.
- PowerRules.FuelCurve: the source states one constraint per segment and never forms the maximum; the curve is introduced to state what the segment constraints mean together.
- Rounding of floating point: the source computes durations, rates and powers as floats, while all arithmetic here is exact, so no property is stated about rounding error.
- The prose at dispatchable_binary_commit.py:565-567 and :651-653 calls a timepoint relevant when it begins "more than or equal to" the minimum time ago. That contradicts the worked examples at :578-598 that follow it. The model follows the examples, where a timepoint is relevant when it begins strictly less than the minimum time before `tmp`.

## Findings

| source | as written | input that shows it | evidently intended | confidence | as-written member | corrected member |
|---|---|---|---|---|---|---|
| gridpath/project/operations/operational_types/dispatchable_binary_commit.py:720-727 | ramp-up is skipped when `ramp_up_rate * 60 * hours(prev) >= 1 - min_stable_fraction`, a test on fractions of capacity, while the relation it drops uses the derated capacity of the previous timepoint and max power uses that of `tmp` | linear horizon [1, 2] of hourly timepoints; capacity 10 MW, minimum stable fraction 0, ramp-up rate 1/60 per minute; availability 0.5 at timepoint 1 and 1 at timepoint 2; unit off at 1, started at 2 and at 10 MW above Pmin there. The rule skips; the commitment logic and max and min power hold at both timepoints, yet power rises 10 MW against a 5 MW ramp-up limit | skip only when the ramp-up limit over the previous timepoint covers Pmax − Pmin at `tmp` (the comment says the constraint "won't bind") | not executed | PowerRules.RampUp, WorkedCases.RampUpSkipLetsThrough | PowerRules.RampUpGuarded, PowerRules.RampUpGuardedSkipSound |

The same test on ramp-down is sound: its relation and the maximum power it
relies on both use the previous timepoint (`PowerRules.RampDownSkipSound`).
