# Adaptive admission: a verified model

This project models the external admission router that serves a language-model backend: a bounded queue, its
scheduling policies, the adaptive controller that tightens or relaxes output caps under queue pressure, and the
analysis code that later re-derives facts about those runs. Times, depths and thresholds are real numbers.

## What is modelled

**The cap controller** (`AdaptiveClipping`). Four levels, one hold timer per tighter level, one relax timer, direct
tightening and one-level relaxation. `Controller` is the mutable object; its methods refine the functions `Step`
(levels and timers) and `Observe` (the wall-clock weighted depth). The exponential is a parameter `decay` with the
laws `decay(0) = 1`, `decay(s+t) = decay(s) * decay(t)` and values in (0,1]. `ControllerHistory` explains whole runs
without timers: `RunsAreEarned` is the characterization from which `ControllerGuarantees` derives spacing, response,
settling and convergence, and `ThrashCheck` the hold part of the anti-thrash gate. `ControllerLog` carries these
results over to the decision logs that controllers write, and `ControllerAudit` says what the label and cap of a
decision tell. `ControllerTimers` gives the shape the timers keep, `DepthSignal` the laws of the average, and
`ControllerOrder` compares two runs.

**The admission queue** (`Admission`). Each critical section of the source contains no suspension point, so it is one
atomic step; a run is any interleaving of enabled steps. The clock is an oracle of readings that never go back, and
every reading of the source consumes one. `AdmissionSafety` proves the invariant of every run and what results and
shutdown mean, `Dispatches` what each step sends and how exact the projected depth is, `RequestFates` what it does to
each request, and `QueueHistory` that the queue's decision log is the log of one controller history.
`LockedQueue.AdmissionQueue` is the object with the source's fields, each method proved to perform the protocol step.
`Policies` holds the three orderings and the aging ceiling, and `BoundedBypass` composes them with the queue: an aged
request is overtaken only by requests that came no later, and, when submissions come in order, by fewer than a
queueful of them. `NoStarvation` adds that every completion makes way for it. `ScoreOrder` says who goes first in
terms of tokens, arrivals and deadlines, and `FloatingCeiling` when an adaptive ceiling can move a key back.
`RequestTerms` follows accepted requests through whole runs.

**The analysis code.** `DecisionAudit` proves that the join of decisions and records accepts what queue, controller
and clipper write. `DepthReplay`, `DepthConservation` and `PeakDepth` prove both depth reconstructions against the set
of waiting requests, `EpisodeStretches` that episodes are maximal stretches, and `EpisodeReconstruction` that a second
sweep finds the same ones. `TraceStatistics` and `LowLoadProbe` model the event-driven probe that drives the same
controller. Its runs follow the scripts of `ProbeScript`, whose events keep the waiting line (`ProbeQueue`) and the
journal of dispatches, service ends and decisions (`ProbeJournal`) true, and `ProbeDepths` says what depth each
decision is told. `SpanEpisodes` shows that the recorded episodes are the maximal stretches of the trace.
`ProbeReplay` proves that replaying the simulated requests gives back the probe's own time by depth. `ServiceFit` and
`MeanWait` cover the queueing arithmetic, `SeedBootstrap` the exact bootstrap and the latency gate. `AuditJoin`,
`ThrashReport`, `FitSamples`, `WaitBalance`, `SeedMeans` and `Percentiles` say what these analyses compute in terms of
their inputs alone.

The design document (`docs/DESIGN_expL_adaptive_cap.md`, line 123) integrates the depth at every queue event; the code
updates the controller only at a dispatch (`src/sloserve/router/admission.py`, line 248). The model follows the code.

The settling bound fails when neither the updates nor the relax hold take any time and fewer updates come than levels
are to be shed, since one update sheds one level. `SettlesInTime` proves that it holds in exactly all other cases, and
`ZeroGapsMissTheBound` is the failing family.

## Model

| member | source | states |
|---|---|---|
| AdaptiveClipping.Controller.constructor | src/sloserve/router/adaptive_clipping.py:53-77 | a new controller is at the no-clip level with no running hold and no depth history |
| AdaptiveClipping.Controller.Update | src/sloserve/router/adaptive_clipping.py:106-132 | an update fails exactly on a negative depth or a clock that went back, and then changes nothing; otherwise the new average, level, timers and the audit record are those of `Observe`, `Step`, `Cap` and `Label` |
| AdaptiveClipping.Controller.UpdateLevel | src/sloserve/router/adaptive_clipping.py:134-205 | the in-place level update computes `Step` and its audit label; the RuntimeError for a target without a hold cannot be reached |
| AdaptiveClipping.Controller.ScanTimers | src/sloserve/router/adaptive_clipping.py:140-157 | the loop over the thresholds leaves every hold timer as specified and finds the tightest elapsed level, and whether a hold started or was reset |
| AdaptiveClipping.BisectRight | src/sloserve/router/adaptive_clipping.py:135-135 | the target level counts exactly the thresholds at or below the pressure |
| AdaptiveClipping.Pressure | src/sloserve/router/adaptive_clipping.py:94-97 | the pressure is the larger of the instantaneous and the averaged depth |
| ControllerAudit.LabelTells | src/sloserve/router/adaptive_clipping.py:134-205 | the audit label of an update tells exactly what it did to the level and to the hold timers, read from their values before and after alone |
| ControllerAudit.CapsTighten | src/sloserve/router/adaptive_clipping.py:99-104 | the no-clip level publishes no cap, level l publishes the l-th, and tighter levels publish strictly smaller caps |
| ControllerHistory.RunsAreEarned | src/sloserve/router/adaptive_clipping.py:134-205 | in every run, the timer machine changes level exactly when the recorded pressures and levels alone earn it: up to b iff an unbroken streak of pressure for b lasted tightenHold, down iff a low streak at the current level lasted relaxHold, never by more than one |
| ControllerHistory.RunsExist | src/sloserve/router/adaptive_clipping.py:106-132 | every sequence of updates with a monotonic clock has a run, so the statements about runs are about all inputs |
| ControllerHistory.TimersAreStreaks | src/sloserve/router/adaptive_clipping.py:140-157 | at every update each running timer holds the start of the longest streak that is still unbroken |
| ControllerHistory.PressureHoldsLevel | src/sloserve/router/adaptive_clipping.py:176-205 | while pressure stays at or above tighten[c-1], a level at c or tighter is never given up |
| ControllerTimers.RunsStayNested | src/sloserve/router/adaptive_clipping.py:140-205 | in every run only levels above the current one have running tighten holds, tighter ones started no earlier, and none runs beside the relax hold |
| ControllerTimers.ElapsedAreContiguous | src/sloserve/router/adaptive_clipping.py:152-160 | when the hold of a level has elapsed, so have those of all levels between it and the current one |
| ControllerGuarantees.RelaxIsSpaced | src/sloserve/router/adaptive_clipping.py:198-204 | a relaxation comes at least relaxHold after any earlier level change |
| ControllerGuarantees.TightenIsSpaced | src/sloserve/router/adaptive_clipping.py:145-164 | a tightening comes at least tightenHold after any earlier relaxation |
| ControllerGuarantees.RespondsInTime | src/sloserve/router/adaptive_clipping.py:134-164 | with update gaps at most d, pressure held for level j gives level j or tighter within tightenHold + d, for good |
| ControllerGuarantees.SettlesInTime | src/sloserve/router/adaptive_clipping.py:184-205 | with update gaps at most d, pressure held below relax[h] brings a level n above h down to h, for good, by an update no later than n*(relaxHold+d) + (n-1)*d, in every run that reaches the last d of that time: if and only if d > 0, or relaxHold > 0, or at least n updates are made |
| ControllerGuarantees.SettledFrom | src/sloserve/router/adaptive_clipping.py:184-205 | every update at or after n*relaxHold + 2*(n-1)*d, which is that bound less d, finds the level at most h, under the same exact condition |
| ControllerGuarantees.InstantRelaxSheds | src/sloserve/router/adaptive_clipping.py:198-205 | without a relax hold, every update without pressure sheds exactly one level, so n levels are gone exactly after n updates |
| ControllerGuarantees.ZeroGapsMissTheBound | src/sloserve/router/adaptive_clipping.py:198-204 | the whole failing family: with relaxHold = 0 and no time between updates the bound is zero, and with fewer than n updates no update settles the level |
| ControllerGuarantees.ZeroGapsShedOneLevel | src/sloserve/router/adaptive_clipping.py:198-204 | a concrete history of that family |
| ControllerGuarantees.NeverTooSoon | src/sloserve/router/adaptive_clipping.py:184-205 | shedding n levels takes at least n*relaxHold when no relax streak was running, whatever the pressure does |
| ControllerGuarantees.ConvergesToBand | src/sloserve/router/adaptive_clipping.py:134-205 | under constant pressure the level reaches its start clamped into [bisect(tighten,p), bisect(relax,p)] and never changes again: at once from inside, within tightenHold + d from below, within n*(relaxHold+d) + (n-1)*d from n levels above, under the same exact condition when levels have to be shed |
| ControllerGuarantees.InBandFrom | src/sloserve/router/adaptive_clipping.py:134-205 | every update at or after that time less d finds the level there |
| ControllerGuarantees.MovesTowardsBand | src/sloserve/router/adaptive_clipping.py:134-205 | under constant pressure the level moves only towards that band and never through it |
| DepthSignal.AverageIsBounded | src/sloserve/router/adaptive_clipping.py:113-120 | the averaged depth stays between zero and the largest depth seen |
| DepthSignal.AverageIsWeightedDepths | src/sloserve/router/adaptive_clipping.py:113-120 | after every update the average is the sum of all earlier depths, each times decay(now - end) - decay(now - begin) of the time it held |
| DepthSignal.HeldDepthPulls | src/sloserve/router/adaptive_clipping.py:116-119 | a depth held between two updates shrinks the distance of the average from it by exactly the decay of that time |
| DepthSignal.RepeatsDoNotMatter | src/sloserve/router/adaptive_clipping.py:113-120 | inserting any number of updates that repeat the current depth, also before the first update, leaves the average after every later update unchanged |
| DepthSignal.EarlyZerosDoNotMatter | src/sloserve/router/adaptive_clipping.py:113-120 | in particular reports of depth zero before anything else change nothing |
| DepthSignal.ObserveAllIsRun | src/sloserve/router/adaptive_clipping.py:106-120 | folding updates one by one gives the signal that the run statements use |
| ControllerOrder.DeeperQueuesNeverLoosen | src/sloserve/router/adaptive_clipping.py:106-205 | with the same configuration and update times, pointwise deeper queues give, at every update, a deeper average, a higher pressure, a tighter level and a tighter cap |
| ControllerOrder.StepKeepsOrder | src/sloserve/router/adaptive_clipping.py:134-205 | one update keeps the relation between two runs: level, tighten timers started no later, relax timer started no earlier |
| ThrashCheck.CheckThrash | src/sloserve/analysis/expl.py:389-446 | the gate fails with no dispatches iff their count is not positive, else with a violated hold iff a reverse transition came sooner than its hold, else with too many switches iff transitions exceed a tenth of the dispatches, and otherwise succeeds with every reverse interval and every tighten-relax-retighten cycle |
| ThrashReport.HastyIsViolated | src/sloserve/analysis/expl.py:400-437 | the hold check fires exactly when two successive level changes of one repetition go up then down within relaxHold, or down then up within tightenHold |
| ThrashReport.ReversesAreTurns | src/sloserve/analysis/expl.py:404-424 | the report lists every reversal, in order, with its direction, interval and required hold |
| ThrashReport.CyclesAreListed | src/sloserve/analysis/expl.py:425-433 | the report lists every tighten-relax-retighten cycle of one repetition, in order, with its length |
| ThrashReport.TransitionsAreChanges | src/sloserve/analysis/expl.py:385-386 | the transitions are exactly the decisions that change the level, in log order |
| ThrashCheck.ControllerNeverThrashes | src/sloserve/analysis/expl.py:400-437 | on every subsequence of the decisions of controller histories the gate finds no violated hold |
| ControllerLog.LogsAreEarned | src/sloserve/router/adaptive_clipping.py:106-205 | a log written decision by decision by one controller is an earned history: its times and levels are those of the timer-free characterization |
| ControllerLog.WrittenLogsNeverThrash | src/sloserve/analysis/expl.py:400-437 | on any sub-log of logs that controllers wrote, one per repetition, the gate finds no violated hold |
| QueueHistory.QueueLogsAreHistories | src/sloserve/router/admission.py:243-260 | in every run of a new queue with a controller, the decision log is the log of one earned controller history, which ends where the queue's controller stands |
| QueueHistory.QueueLogsNeverThrash | src/sloserve/analysis/expl.py:400-437 | on any sub-log of a run of the queue the gate finds no violated hold |
| LockedQueue.AdmissionQueue.Start | src/sloserve/router/admission.py:134-141 | opening fails exactly on a closed queue; the state is that of the protocol step |
| LockedQueue.AdmissionQueue.Submit | src/sloserve/router/admission.py:143-183 | the critical section is the protocol step Submit: refused when not accepting, rejected with a result when the queue is full, otherwise enqueued and the admission loop run |
| LockedQueue.AdmissionQueue.AdmitAvailableLocked | src/sloserve/router/admission.py:220-271 | the admission loop computes the recursive pass `Admit` |
| LockedQueue.AdmissionQueue.AdmitOneLocked | src/sloserve/router/admission.py:225-271 | one turn of the loop selects by the policy, times out an overdue request or dispatches it |
| LockedQueue.AdmissionQueue.DispatchLocked | src/sloserve/router/admission.py:243-267 | a dispatch consults the controller with the projected depth, caps the request, logs the decision and marks the entry in flight |
| LockedQueue.AdmissionQueue.FinishBackend | src/sloserve/router/admission.py:290-306 | the terminal section is the protocol step BackendFinish; the request leaves the table and is reported with its forced status, else as timed out when the reading reaches the timeout, else with the backend's outcome, with its own times and envelope |
| LockedQueue.AdmissionQueue.FireTimer | src/sloserve/router/admission.py:316-330 | the timer section is the protocol step TimerFire: nothing when done, a timeout result when waiting, a forced timeout in flight |
| LockedQueue.AdmissionQueue.CancelFromSubmitter | src/sloserve/router/admission.py:332-344 | the cancel section is the protocol step SubmitterCancel |
| LockedQueue.AdmissionQueue.BeginClosing | src/sloserve/router/admission.py:187-206 | the first close section cancels every waiting request and forces every in-flight one |
| LockedQueue.AdmissionQueue.EndClosing | src/sloserve/router/admission.py:215-218 | the last close section marks the queue closed |
| LockedQueue.AdmissionQueue.CompleteLocked | src/sloserve/router/admission.py:360-385 | completing an entry removes it and records exactly one result with the current clock reading |
| AdmissionSafety.StepKeepsInv | src/sloserve/router/admission.py:134-385 | every step, in any interleaving, keeps the queue invariant: at most maxInFlight in flight, at most capacity waiting, accepted ids exactly waiting, in flight or finished, enqueue <= dispatch <= completion, and while open nothing waits beside a free slot |
| AdmissionSafety.QueueIsSafe | src/sloserve/router/admission.py:134-385 | that invariant holds in every state of every run of a new queue |
| AdmissionSafety.RejectsOnlyWhenFull | src/sloserve/router/admission.py:150-160 | the capacity test refuses a request exactly when maxInFlight + capacity requests are live |
| RequestFates.TurnDecides | src/sloserve/router/admission.py:225-271 | one turn takes the request the policy selects and, by the next reading, either hands it to the backend, limited exactly when estimate and target exceed the cap of the decision logged for it, or reports it timed out; every other request and result is left alone |
| RequestFates.PassDecides | src/sloserve/router/admission.py:220-271 | a whole pass does nothing else to any request |
| RequestFates.FinishReports | src/sloserve/router/admission.py:290-306 | in every reachable state a finishing backend reports its request at once: forced status first, then the timeout at the next reading, then the backend's own outcome, with the enqueue time, dispatch time and envelope it had |
| RequestFates.FinishLeavesOthers | src/sloserve/router/admission.py:290-306 | to everybody else a finishing backend does what a pass does |
| RequestFates.SubmitEnters | src/sloserve/router/admission.py:149-177 | a submission changes nothing while the queue does not accept, takes one reading when the line is full, and otherwise enters a waiting request under the next id before a pass |
| RequestFates.StopsDecide | src/sloserve/router/admission.py:316-344 | a timer or a cancelling submitter takes a waiting request out of line with a timeout or cancelled result, marks a running call with that status, and touches nothing else |
| RequestFates.CloseCancels | src/sloserve/router/admission.py:187-206 | closing an open queue reports every waiting request as cancelled, the k-th at the k-th reading, and marks every running call as cancelled; before the start it only closes |
| RequestFates.PlainSteps | src/sloserve/router/admission.py:134-141 | starting opens a queue that is not closed and does nothing else |
| RequestFates.LineKeepsOrder | src/sloserve/router/admission.py:163-183 | every step keeps those who go on waiting in the order they came, a newcomer last |
| RequestTerms.RequestsKeepTheirTerms | src/sloserve/router/admission.py:143-385 | in every run each accepted request is, ever after, live or finished with the enqueue time and the envelope it was submitted with, up to the backend limit |
| Dispatches.ProjectionIsUpperBound | src/sloserve/router/admission.py:351-355 | from any consistent state the projected depth at a dispatch is at least what still waits when the pass ends |
| Dispatches.StepIsExact | src/sloserve/router/admission.py:220-271 | in every reachable state no step puts more than one request in flight, with or without a controller, and the decision logged for it, if any, reports exactly the number left waiting |
| Dispatches.PassIsExact | src/sloserve/router/admission.py:220-271 | a pass with at most one free slot drops overdue requests and then sends at most one; the depth projected for it is the number waiting right after its pop and at the end of the pass |
| AdmissionSafety.ResultsAreFinal | src/sloserve/router/admission.py:290-306 | a result never changes; a step sets SUCCESS if and only if it is the backend finishing that request with success, unforced, with the terminal reading short of the timeout |
| AdmissionSafety.ShutdownOnlyDrains | src/sloserve/router/admission.py:185-218 | once close has begun nothing is dispatched or logged, only a finishing backend changes the in-flight set and it shrinks it, and the queue never reopens |
| AdmissionSafety.ClosedHoldsNothing | src/sloserve/router/admission.py:207-218 | a close that waited for every runner leaves no live entry, and none appears later |
| Policies.CeilingIsThreshold | src/sloserve/router/policies/slo_aware.py:87-104 | a request is in the ceiling tier exactly when it has waited the threshold, for every number of aging levels |
| Policies.KeyNeverRises | src/sloserve/router/policies/slo_aware.py:68-106 | for a fixed threshold, the key of a request never moves back in the order as time passes |
| FloatingCeiling.KeyRisesExactly | src/sloserve/router/policies/slo_aware.py:68-106 | whatever the thresholds at two times, the key moves back exactly when some tier step that had been waited out no longer is |
| FloatingCeiling.SlowThresholdKeepsKey | src/sloserve/router/policies/slo_aware.py:68-106 | the key of a request that has arrived never moves back while its threshold grows no faster than time |
| FloatingCeiling.ThresholdFloats | src/sloserve/router/policies/slo_aware.py:112-115 | while the same requests wait, the adaptive threshold is the margin times their median wait, which grows with time, clamped into [floor, cap] |
| FloatingCeiling.SmallMarginKeepsKeys | src/sloserve/router/policies/slo_aware.py:112-126 | with a margin of at most one, no key moves back while the same requests wait |
| FloatingCeiling.LargeMarginLosesCeiling | src/sloserve/router/policies/slo_aware.py:112-126 | with margin 1.5 and waits 5, 3 and 3 the first request is at the ceiling, and five seconds later it is not |
| Policies.OrderInTierIsStable | src/sloserve/router/policies/slo_aware.py:68-106 | two requests of equal budget rank the same way at any two times at which they share a non-ceiling tier |
| Policies.ScoreDrifts | src/sloserve/router/policies/slo_aware.py:68-86 | a score falls linearly in time at a rate that depends on the budget alone |
| Policies.OrderIsSorted | src/sloserve/router/policies/slo_aware.py:117-126 | the dispatch order is ascending in the key and begins with the selected request |
| ScoreOrder.TiersGoFirst | src/sloserve/router/policies/slo_aware.py:96-106 | a request in a higher tier goes first, and two at the ceiling go by arrival, then sequence |
| ScoreOrder.CeilingIsFirstCome | src/sloserve/router/policies/slo_aware.py:100-101 | the order by arrival and sequence that the bypass results speak of is the order of the keys at the ceiling |
| ScoreOrder.ScoreWithoutBudget | src/sloserve/router/policies/slo_aware.py:72-86 | a request whose deadline is its arrival is scored by its burden against the smallest budget |
| ScoreOrder.AgedIsAlwaysAtCeiling | src/sloserve/router/policies/slo_aware.py:96-126 | a request has waited the hard ceiling exactly when it is at the ceiling under every threshold the configuration can produce |
| ScoreOrder.ScoresCompare | src/sloserve/router/policies/slo_aware.py:68-94 | one score is below another exactly when its burden, work at the net price of work less wait at the net price of waiting, is the smaller relative to the budget |
| ScoreOrder.LengthDecides | src/sloserve/router/policies/slo_aware.py:78-106 | of two requests below the ceiling alike but for the visible length, the shorter goes first when the cost weight exceeds the slack weight, last when it is less, and the sequence decides when they are equal |
| ScoreOrder.DeadlineDecides | src/sloserve/router/policies/slo_aware.py:72-106 | of two requests with one arrival and equal work, the earlier deadline goes first exactly while the wait weighs more than the work |
| ScoreOrder.ArrivalDecides | src/sloserve/router/policies/slo_aware.py:72-106 | of two rivals with equal budgets and equal work the earlier arrival goes first, unless neither slack nor waiting has a weight |
| ScoreOrder.NoEstimateNoPreference | src/sloserve/router/policies/slo_aware.py:76-82 | without length estimates, requests with one arrival and one deadline go in sequence |
| ScoreOrder.ShorterIsPicked | src/sloserve/router/policies/slo_aware.py:117-126 | with the cost weight above the slack weight, the policy never selects the longer of two waiting requests that are alike otherwise |
| ScoreOrder.TrueLengthSeesLimit | src/sloserve/router/policies/slo_aware.py:44-66 | with the true length source the estimate is the backend limit where there is one, else the target |
| ScoreOrder.AdvertisedSeesCap | src/sloserve/router/policies/slo_aware.py:44-66 | with the advertised source it is the advertised cap, or the target without one, bounded by a real clip |
| ScoreOrder.LearnedSeesPrediction | src/sloserve/router/policies/slo_aware.py:44-66 | with the learned source it is the prediction, bounded by a real clip |
| ScoreOrder.TargetStaysHidden | src/sloserve/router/policies/slo_aware.py:61-66 | the target of an unclipped request shows neither in a learned estimate nor beside an advertised cap |
| ScoreOrder.FcfsTakesEarliest | src/sloserve/router/policies/fcfs.py:17-20 | first come, first served selects the request with the least (arrival, sequence) |
| ScoreOrder.StaticTakesInteractive | src/sloserve/router/policies/static_priority.py:17-21 | static priority selects an interactive request while one waits, and the earliest of its class |
| Policies.Head | src/sloserve/router/policies/slo_aware.py:117-126 | the selected request has the smallest key, and is the first such in the queue |
| Policies.Threshold | src/sloserve/router/policies/slo_aware.py:112-115 | the effective threshold is the margin times the median wait, clamped into [floor, cap]; the fixed one when the ceiling is not adaptive |
| Statistics.MedianSplits | src/sloserve/router/policies/slo_aware.py:114-114 | in the sorted sample, the first half lies at or below the median and the second half at or above it |
| Statistics.MedianIsMiddle | src/sloserve/router/policies/slo_aware.py:114-114 | the median is the middle sample of an odd number and half the sum of the middle two of an even number |
| Policies.AgedComesFirst | src/sloserve/router/policies/slo_aware.py:96-126 | while a request has waited the hard ceiling, only one that came no later can be selected |
| BoundedBypass.OnlyEarlierOvertake | src/sloserve/router/admission.py:220-235 | in every run, whatever is submitted meanwhile, a request that has aged stays aged while it waits, and every request dispatched came no later by (arrival, sequence), the one just submitted included |
| BoundedBypass.SentAlone | src/sloserve/router/admission.py:220-271 | the step that dispatches a waiting request dispatches nothing beside it |
| BoundedBypass.BypassIsBounded | src/sloserve/router/admission.py:220-235 | when later submissions come later, the number ahead of an aged waiting request falls at each dispatch, and there are fewer than capacity of them |
| NoStarvation.FinishTakesOne | src/sloserve/router/admission.py:290-306 | every finishing backend strictly shrinks the set of requests ahead of an aged request that keeps waiting |
| NoStarvation.AgedLeavesInTime | src/sloserve/router/admission.py:220-235 | in every run, while an aged request keeps waiting, completions plus those still ahead never exceed those ahead at the start plus later arrivals that came no later; so fewer than capacity completions happen when submissions come in order |
| BoundedBypass.StepSendsAhead | src/sloserve/router/admission.py:143-346 | any single step during which an aged request keeps waiting dispatches only requests that stood ahead of it once the submission was in line, and lowers their number accordingly |
| Clipping.CappedIsAllowed | src/sloserve/router/clipping.py:49-66 | capping keeps a valid request valid and otherwise unchanged; the backend limit becomes the target or a cap strictly below it, and a clip is recorded exactly when estimate and target both exceed a published cap |
| Clipping.FixedClipIsAllowed | src/sloserve/router/clipping.py:37-47 | the fixed clip keeps a fresh request valid and otherwise unchanged, and sets its limit exactly when it is enabled and estimate and target both exceed it |
| DecisionAudit.ReconcileDecisions | src/sloserve/analysis/expl.py:614-646 | the audit accepts exactly the logs in which dispatched requests and decisions have the same identities and every pair passes the cap checks |
| AuditJoin.AcceptanceIsAgreement | src/sloserve/analysis/expl.py:614-646 | a log is accepted exactly when every identity has a dispatched record if and only if it has a decision, and then the last of each agree: instrumented, the backend limit as requested or the smaller published cap, and a cap published exactly above the no-clip level |
| AuditJoin.CheckTells | src/sloserve/analysis/expl.py:630-646 | each refusal names exactly the first requirement that fails |
| DecisionAudit.DispatchIsJustified | src/sloserve/router/admission.py:243-260 | the decision logged at a dispatch and the cap it set justify each other |
| DecisionAudit.QueueLogsReconcile | src/sloserve/analysis/expl.py:614-646 | the log of every drained run of queue, controller and clipper, with unique request ids and no pre-queue clip, is accepted by the audit |
| DepthReplay.BuildEvents | src/sloserve/analysis/expl.py:825-834 | building the event table fails exactly on an invalid interval, and otherwise holds the net arrivals of every timestamp |
| DepthReplay.Replay | src/sloserve/analysis/expl.py:825-864 | the replay fails only on an invalid interval or an empty trace (the negative-depth, monotonicity and unclosed errors never fire on valid intervals); its time per depth, observed time, episodes and peak are those of the set of waiting requests |
| DepthReplay.CountSteps | src/sloserve/analysis/expl.py:838-856 | crossing a timestamp changes the number of requests with enqueue <= t < dispatch by its net events |
| DepthReplay.NothingWaitsAtEnd | src/sloserve/analysis/expl.py:859-860 | after the last timestamp no request waits |
| DepthConservation.AreaIsTotalWait | src/sloserve/analysis/expl.py:840-844 | depth integrated over the trace is the total waiting time |
| DepthConservation.ReplayConserves | src/sloserve/analysis/expl.py:840-870 | depth times duration sums to total waiting time, the times per depth sum to the observed time, and each threshold's episodes sum to the times of the depths from the threshold up |
| DepthReplay.EpisodesSum | src/sloserve/analysis/expl.py:844-864 | the episode lengths, the running one included, add up to the time at or above the threshold |
| EpisodeStretches.EpisodesAreMaximalStretches | src/sloserve/analysis/expl.py:844-864 | each episode is the length of a stretch of timestamps with the depth at or above the threshold throughout, not extendable on either side; the stretches are apart, in order, and contain every such timestamp |
| EpisodeReconstruction.Reconstruct | scripts/probe_week7_lowload_depth.py:391-437 | the probe's reconstruction, one sweep per threshold, fails only on an invalid interval or an empty trace and finds exactly the episodes that the replay's single sweep finds |
| PeakDepth.MaxQueueDepth | src/sloserve/experiments/correctness.py:113-128 | the sorted event sweep returns the largest running sum |
| PeakDepth.PeakIsLargest | src/sloserve/experiments/correctness.py:113-128 | that sum is the largest number of requests waiting at any moment, and is reached at an event |
| PeakDepth.ReportAgreesWithReplay | src/sloserve/experiments/correctness.py:113-128 | the report's peak equals the replay's peak on every replayed trace |
| TraceStatistics.Totals.AddInterval | scripts/probe_week7_lowload_depth.py:90-103 | a negative interval is refused, an empty one ignored; any other keeps every accumulator equal to the time its part of the trace took, extends the episode of each threshold the depth reaches and closes the others |
| TraceStatistics.Totals.FinishEpisodes | scripts/probe_week7_lowload_depth.py:137-146 | closing the running episodes loses no time, and leaves for each threshold the episodes of the recorded trace |
| SpanEpisodes.EpisodesAreMaximalSpans | scripts/probe_week7_lowload_depth.py:99-103 | the episodes of a trace without gaps are exactly its maximal stretches at or above the threshold, in order; every such span lies in one |
| TraceStatistics.Totals.Merge | scripts/probe_week7_lowload_depth.py:148-166 | merging any trace adds its times, depths, levels, counts and closed episodes; the episodes describe both traces exactly when none is still running in the merged one |
| LowLoadProbe.Simulation.DispatchNext | scripts/probe_week7_lowload_depth.py:226-260 | the head of the waiting list goes into service at the current time until the end of its capped service time, under a decision about the depth left when the pass ends; neither controller nor clipper can refuse |
| LowLoadProbe.Simulation.FillSlots | scripts/probe_week7_lowload_depth.py:223-263 | the pass ends with nobody waiting or every slot in use, and all its decisions report exactly the number left waiting |
| LowLoadProbe.Simulation.Clip | scripts/probe_week7_lowload_depth.py:236-246 | the request comes back capped as the clipper would; the condition counter rises exactly when estimate and target exceed the cap, and agrees with the clips applied |
| LowLoadProbe.Simulation.Advance | scripts/probe_week7_lowload_depth.py:265-280 | one turn of the event loop lowers 3*unarrived + 2*waiting + in service, and fails only on arrivals that go back in time |
| LowLoadProbe.SimulateTrace | scripts/probe_week7_lowload_depth.py:204-282 | a simulation succeeds exactly when the arrivals are in order, and neither RuntimeError can be raised; then every request is dispatched once, in list order, under one decision of one controller, and is in service for its own capped length; every decision is told the depth its moment leaves; at no moment are more than MAX_IN_FLIGHT in service, and all slots are in use whenever someone waits; every span holds the waiting depth and the level decided by the dispatches before it, and the episodes are those of the spans |
| ProbeDepths.DepthsAreLeftWaiting | scripts/probe_week7_lowload_depth.py:226-233 | the depth of each decision is the number of requests that had arrived when its pass began and are still unsent when that moment is over; requests of the same moment count exactly when the dispatched one is among them |
| ProbeScript.ScriptsAreSane | scripts/probe_week7_lowload_depth.py:223-280 | whatever sequence of dispatches, arrivals and time steps the event loop allows, the waiting list is the arrived requests not yet sent, in order, the heap holds exactly the ends still to come, and the trace is true and has no gap |
| ProbeScript.NeverMoreThanMax | scripts/probe_week7_lowload_depth.py:226-252 | in every state such a sequence reaches, no moment, past or to come, has more than MAX_IN_FLIGHT requests in service |
| ProbeJournal.EndIsCappedService | scripts/probe_week7_lowload_depth.py:169-170 | a backend call takes 0.01494 s per token and 0.0156 s; the tokens are the target, or the published cap where target and prediction exceed it |
| LowLoadProbe.ProbeDecisionsAreEarned | scripts/probe_week7_lowload_depth.py:232-234 | the probe's decisions are those of one earned controller history, each made at the time its request was sent |
| LowLoadProbe.SpanDepthIsWaitingSet | scripts/probe_week7_lowload_depth.py:265-280 | at every moment of a recorded span exactly its depth of requests have arrived and not left |
| LowLoadProbe.TraceConserves | scripts/probe_week7_lowload_depth.py:265-282 | total time is the sum over depths, the sum over levels and last dispatch minus first arrival; each threshold's episodes sum to the times of the depths from it up |
| ProbeReplay.ProbeAgreesWithReplay | scripts/probe_week7_lowload_depth.py:265-282 | the probe's time at every depth is what the timestamp sweep of the replay measures on the simulated requests' own arrival and dispatch times |
| ProbeReplay.StretchAccrues | src/sloserve/analysis/expl.py:838-856 | over a stretch of constant depth the replay measures its whole length at that depth, however many events fall into it |
| ServiceFit.FitLinear | src/sloserve/analysis/queueing.py:50-69 | the fit succeeds exactly with at least two usable samples of at least two lengths, and otherwise names which is missing |
| FitSamples.SamplesAreRecords | src/sloserve/analysis/queueing.py:52-58 | the samples are exactly the successful, dispatched records with output, in order, each with its output length and its completion less its dispatch |
| FitSamples.RSquaredIsExplained | src/sloserve/analysis/queueing.py:79-88 | the fit counts its samples, and 1 - r squared times the squared error of the mean is the squared error of the line |
| ServiceFit.FitIsLeastSquares | src/sloserve/analysis/queueing.py:70-83 | no line has a smaller squared error than the fitted one, and only the fitted one ties |
| ServiceFit.LossIsLeastPlusExcess | src/sloserve/analysis/queueing.py:70-83 | the squared error of any line is the fitted one's plus two weighted squares that vanish only at the fit |
| ServiceFit.RSquaredIsAShare | src/sloserve/analysis/queueing.py:79-83 | r squared lies in [0,1] and is one exactly when the line passes through every sample |
| WaitBalance.EstimateFails | src/sloserve/analysis/queueing.py:102-118 | each refusal of the estimate has its exact condition |
| WaitBalance.MomentsAreMeans | src/sloserve/analysis/queueing.py:111-125 | times the sample size, mean and second moment are the sums over the outputs of the shared service times and their squares; the load is rate times mean, and a wait exists exactly when it is below one |
| WaitBalance.ArrivalSeesBalance | src/sloserve/analysis/queueing.py:119-125 | the wait of a stable queue is the load times the sum of the wait itself and the mean remaining service, secondMoment / (2 * mean) |
| WaitBalance.EqualServiceWait | src/sloserve/analysis/queueing.py:119-125 | with equal service times s the wait is load * s / (2 * (1 - load)) |
| MeanWait.ShorterNeverHurts | src/sloserve/analysis/queueing.py:111-126 | with a non-negative slope, pointwise shorter outputs raise neither mean, second moment, utilization nor, when stable, wait, and never make a stable queue unstable |
| MeanWait.CapCutsSecondMomentHardest | src/sloserve/analysis/queueing.py:111-126 | a cap on every output lowers the second moment by at least as large a factor as the mean |
| MeanWait.CapCutsWaitAtLeastAsMuch | src/sloserve/analysis/queueing.py:111-126 | when stable, a cap lowers the mean wait by at least as large a factor as the mean service time |
| SeedBootstrap.ResamplesAreDraws | src/sloserve/analysis/expl.py:150-155 | the enumeration lists exactly the resamples drawn from the seeds with replacement |
| SeedBootstrap.PairedDifference | src/sloserve/analysis/expl.py:172-183 | an interval exists exactly for two samples over the same one to six seeds |
| SeedMeans.DifferenceOfMeans | src/sloserve/analysis/expl.py:172-183 | the estimate times the number of seeds is the treatment's total less the baseline's, for every listing of the seeds |
| SeedMeans.EndsArePercentiles | src/sloserve/analysis/expl.py:142-160 | of the n^n draws with replacement fewer than 2.5% have a mean below the low end and at least that share one at or below it, and likewise 97.5% for the high end |
| Percentiles.NearestRankCounts | src/sloserve/analysis/expl.py:126-130 | a nearest-rank percentile is a sample with fewer than the proportion of all samples below it and at least the proportion at or below it |
| SeedBootstrap.IntervalWithinRange | src/sloserve/analysis/expl.py:142-160 | for up to six seeds both ends lie between the smallest and the largest per-seed value |
| SeedBootstrap.IntervalIsRange | src/sloserve/analysis/expl.py:126-160 | for up to three seeds the interval is exactly the range of the per-seed values |
| SeedBootstrap.LatencyGateIsUnanimity | src/sloserve/analysis/expl.py:254-273 | improvement of every seed on both metrics passes the latency gate, and with up to three seeds nothing else does |
| Statistics.Sort | src/sloserve/analysis/expl.py:126-130 | the sorted sample ascends and is a permutation |

## Left out

- `math.exp`, floating-point rounding and NaN: the decay is a parameter with its laws, arithmetic is over reals, so tier floor division is exact.
- Asyncio tasks, shielding, task names and error message texts: only the locked sections and the interleavings between them are kept; an `aclose` interrupted while it waits is the step `EndClose(true)`.
- DecisionAudit.QueueLogsReconcile: covers one repetition, drained; logs of several repetitions are joined by the same keys, which already contain the repetition.
- DepthReplay.Replay: one repetition of one file; reading files and adding up the repetitions are not modelled.
- BoundedBypass.BypassIsBounded: counts dispatches, and only when later submissions carry later keys, since the queue accepts any key and earlier ones may keep coming (`OnlyEarlierOvertake` needs no such condition); the bound in seconds that `_verdict` checks (`src/sloserve/experiments/correctness.py:149-161`) is an empirical check on recorded runs.
- SeedBootstrap.LatencyGateIsUnanimity: for four to six seeds only that unanimity suffices; the seeds are natural numbers, as in the file names.
- LowLoadProbe.Simulation.DispatchNext: completions are an ascending list of times instead of a heap with tie-breaking order numbers, which nothing reads; the counters of `observe_decision` and the first-response latencies are not modelled.
- LowLoadProbe.SimulateTrace: requires at least one request, where the source indexes the first one, and requests that carry no cap yet, as the generator makes them; clipping and the probe share one predictor.
- `check_directionality` (`src/sloserve/analysis/expl.py:449-471`): not a theorem, since a correct run may see the depth rise while an older high average decays; `DeeperQueuesNeverLoosen` is the provable order property.
- `summarize_controller_health`, the retention and utility gates, and the other percentile summaries: further folds over the same facts.
- The `rho_hat` and `in_system` signals, which the controller refuses; `AsyncDispatcher`, HTTP, YAML, CSV and JSON input and output, plotting, request generation and predictor training.
