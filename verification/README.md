# A verified model of the adaptive memory-bandwidth regulator

The regulator is a Linux kernel module. A master thread on cpu 0 visits the regulated cpus 1 to 4 once per
millisecond. On every visit it reads two hardware counters (LLC read misses and write-backs), puts both usages into
small ring histories, predicts the next read and write demand with a least-mean-squares filter, splits the core's
bandwidth limit between the two predictions, credits what is left to a pool shared by all cores, hands out new counter
budgets, releases the core and lets the weights learn. When a core's read counter overflows, a handler either draws on
the pool or throttles the core, whose throttler thread then sleeps on MONITOR/MWAIT until the master clears its flag.
A debugfs switch starts and pauses the whole.

The project models this closed loop in Dafny and proves what it guarantees over runs of any length.

## How the model is built

| file | what it models |
|---|---|
| `machine.dfy`, `rounding.dfy` | C integer types written out over unbounded integers; rounded division |
| `lms.dfy`, `lms_theorems.dfy` | the predictor: prediction, norm, update and halving as loops over arrays, and their theorems |
| `learning_limits.dfy` | exactly when the u64 arithmetic of the weight update keeps its promises |
| `units.dfy`, `budgets.dfy` | unit conversions, metering, and what budgets enforce |
| `split.dfy` | the proportional split |
| `printer.dfy` | the decimal printer |
| `controller.dfy`, `core_info.dfy` | one master pass over one core, as a function on values and as a class whose methods update the fields in place |
| `pass_laws.dfy` | what the steps on one core mean, said without the functions that compute them |
| `ring_log.dfy` | a second controller, written with an unbounded log and no ring, and the proof that the rings refine it |
| `starvation.dfy`, `light_core.dfy`, `drift.dfy`, `metering.dfy`, `stopped_counters.dfy` | theorems about all runs of one core |
| `regulator.dfy`, `atomicity.dfy`, `regulator_class.dfy` | the state machine of master thread, handlers and switch; the module's global data as a class; the agreement of the two |
| `ledger.dfy`, `release.dfy`, `lifecycle.dfy`, `system.dfy` | theorems about all interleaved runs of the whole regulator |
| `throttler.dfy` | the throttler thread's MONITOR/MWAIT protocol |

Every method is proved against a function on values, and the theorems are about those functions. A run is a sequence
of events in any order; a step that cannot be taken leaves the state alone. `Regulation.CoresRunProjections` shows that
every core of the interleaved system runs exactly its own events, so results about single cores hold for each core of
the whole.

## Assumptions of the model

- `double` is `real`; the weights' initial value is the exact value of the float constant `0.1f`. Rounding of
  floating-point operations is not modelled. The conversion of a prediction to `int` is undefined in C outside the
  range of `int`; `Lms.Estimate` and the passes in place require the range (`Controller.PassFits`), and
  `Drift.EveryPassStaysDefined` and `LightCore.LightForever` give conditions under which whole runs meet it. The pass
  on values truncates over unbounded integers instead, so the run theorems that do not ask for `PassFits`
  (`Starvation.CoreIsReleased`, `ReleaseBound.OnlineCoreIsReleased`, `RingLog.RingRefinesLog`, the ledger) speak of
  such a truncation where C leaves the conversion undefined, as it can be in the pass that crosses a window.
- Integer wrap-around is written out where the code can reach it: in both conversions, in the unsigned difference of
  two readings, in the norm and the products of the weight update, in the additions, products and subtractions of the
  split. Limits and estimates for which the products of the split stay inside 64 bits, and samples inside `int`, are
  preconditions of the pass in place; `Controller.PassKeepsRanges` shows that passes keep these ranges.
- A master pass over one core, an overflow handler, a throttle, an unthrottle and a per-core start or stop are one
  atomic step each. The code takes no lock around the pool.
- The regulation time is 1 to 1000 ms and does not change during a run. A counter is a cumulative event count given
  with each pass.
- A write to the enable switch begins after the previous one has ended.

## What the code does that its comments do not say

- The update pairs weight `i` with ring slot `i`, the prediction pairs it with the sample of age `i`. So after `p`
  commits weight `i` learns from the sample of age `(p - i) mod 5` (`RingLog.WeightMeetsAge`). With samples below 2^32
  the update still never overshoots (`LmsTheorems.UpdateNeverOvershoots`).
- The cumulative rate passes through an `int`. The pass in which it crosses 2^31, or 2^31 plus a multiple of 2^32,
  can meter a usage near 2^64 (`Units.MeteringWraps`, `Units.OneEventCrosses`). Between two crossings metering is exact;
  `Units.MeteredUseExactIff` and `Metering.UseIsExactIff` give the exact conditions for one interval and for a run.
- In the same way a core that stays within its budget is metered above it when its reading crosses, whatever the
  regulation time (`Budgets.EveryBudgetFailsAtCrossing`), and for regulation times dividing 1000 exactly then
  (`Budgets.BudgetCoversUseIff`).
- For a regulation time that does not divide 1000, budgets are too generous, at most by a factor of two
  (`Units.RoundTripExactIff`, `Units.RoundTripNeverBelow`, `Budgets.BudgetsEnforceRatesIff`).
- The norm and the products of the update are u64s. The sample that a crossing pass delivers makes them wrap: learning
  from it can carry the prediction a million times the error too far (`LearningLimits.CrossingPassOvershoots`).
  `LearningLimits.UpdateNeverOvershootsIff` and `LearningLimits.DriftBoundedIff` give the exact conditions.
- A rejected pass leaves the counters stopped, so until the next commit the core is metered at zero, whatever it does
  (`StoppedCounters.StoppedPassMetersZero`).
- A reclaimed amount in MB/s is written to the counter as a number of events, at most a sixteenth of what it stands
  for (`Budgets.ReclaimGrantsFewEvents`).
- A core whose last usage is zero or one reclaims nothing from a larger pool, and overflowing never throttles it
  (`Ledger.EventuallyThrottledIff`, `Ledger.OverflowsThrottle`).
- `max(0, limit - total)` clamps nothing, since its argument is unsigned; that the subtraction does not wrap follows
  from the split (`Split.SplitIsSafe`).
- Pausing does not release a throttled core (`Lifecycle.PauseKeepsThrottled`).
- From 10^9 on the printer loses the decimal point (`Printer.PointIsLostIff`).

## Model

| member | source | states |
|---|---|---|
| Lms.LmsPredict | model.c:20-34 | The two-segment traversal stays in bounds and computes the dot product of the weights with the ring read newest first, for any lengths and any start slot inside the ring. |
| LmsTheorems.PredictIsCircular | model.c:24-31 | The prediction is the sum of weight i times slot (ri - i) modulo the ring size, over as many terms as the shorter of both has. |
| LmsTheorems.SlotInvolution | model.c:24-31 | Age to slot is its own inverse, so different ages meet different slots. |
| LmsTheorems.DotIsLinear | model.c:24-31 | The prediction is linear in the weights. |
| LmsTheorems.UnitWeightPicksSample | model.c:20-34 | A single weight of one at age k predicts exactly the sample of that age, so that with linearity the prediction is fixed for all weights. |
| LmsTheorems.HalvingHalvesPrediction | model.c:129-143 | Scaling the weights down by two halves the prediction. |
| Lms.Estimate | model.c:50-63 | The estimate is the prediction truncated towards zero, as the u64 that carries a C int. |
| PassLaws.EstimateIsTruncated | model.c:50-63 | Above the initial bandwidth an estimate is the prediction with its fraction dropped towards zero, positive or negative. |
| PassLaws.FirstEstimate | master.c:126-151 | The first estimate of a fresh core, on either side, is the initial bandwidth and the truncated float tenth of its first usage. |
| PassLaws.InitialWeightIsTenth | model.h:9 | The initial weight is the float nearest to a tenth. |
| Lms.L2Norm | model.c:65-71 | For any samples the loop computes the low 64 bits of the sum of the shifted squares. |
| Lms.UpdateWeights | model.c:73-127 | For any history and any s64 error every weight moves by the sign of the error times the quotient of the low 64 bits of error times its own slot's sample by the u64 norm, times the learning rate; read and write weights use the same code. |
| Lms.InitializeWeights | model.c:129-143 | All weights become the initial value, or all are halved. |
| LmsTheorems.UpdateNeverOvershoots | model.c:16-99 | For every error and every history whose norm fits 64 bits, predicting again on that history moves the prediction towards the error or not at all, by at most 0.393211 of it. |
| LmsTheorems.DriftBounded | model.c:65-99 | For every history whose norm fits 64 bits every sample is at most 362 times a non-zero norm, and every error moves every weight in its direction by at most 362 times the error times the learning rate. |
| LmsTheorems.DriftBoundIsTight | model.c:65-99 | The factor 362 is attained, with the sign of the error: for every error whose product fits 64 bits a lone sample of 362 moves its weight by 362 millionths of the error. |
| LmsTheorems.NormZeroIff | model.c:76-81 | The norm, while it fits 64 bits, is zero, and so the update skipped, exactly when every sample of the history is below 256. |
| LmsTheorems.UpdateIdleIff | model.c:73-99 | An update changes no weight exactly when it is skipped or the low 64 bits of every product of error and sample are below the u64 norm. |
| LmsTheorems.NormFits | model.c:65-71 | Samples below 2^32 keep the norm in 64 bits. |
| LearningLimits.EveryHistoryIsMetered | master.c:109-127 | In every run of a fresh core, whatever the counts, every sample of a history is below 2^32 or within 2^32 of 2^64. |
| LearningLimits.UpdateExactIff | model.c:73-99 | If the norm fits 64 bits, the update is the update over unbounded integers exactly when it is skipped or every product of error and sample fits too. |
| LearningLimits.UpdateNeverOvershootsIff | model.c:16-99 | On a history of metered usages an update by an error below 2^45 overshoots for no weights and ring index exactly when all samples are below 2^32 or the update is idle. |
| LearningLimits.NextLearningOvershootsIff | master.c:126-211 | The same for the next pass after every run of a fresh core whose previous estimate fits 32 bits. |
| LearningLimits.DriftBoundedIff | model.c:73-99 | On a history of metered usages the drift bound of 362 holds for all weights and errors exactly when the update is skipped or every sample is at most 362 times the u64 norm, or comes from a crossing pass and is below 363 times. |
| LearningLimits.CrossingPassOvershoots | model.c:73-99 | The usage of a crossing pass, alone in its history, carries the prediction more than a million times the error too far, and at an error of one breaks the drift bound. |
| LmsTheorems.SumRecent | model.c:65-71 | Sums over the slots do not depend on where the ring starts. |
| Units.Adjunction | utils.c:48-65 | For regulation times dividing 1000 the rounded-up and the rounded-down conversion form a Galois connection. |
| Units.RoundTripExactIff | utils.c:48-65 | Every rate's budget converts back to that rate exactly when the regulation time divides 1000; otherwise 31 MB/s already fails. |
| Units.RoundTripNeverBelow | utils.c:48-65 | For every regulation time and every rate of a C int the budget of the rate is worth at least that rate and at most twice as much, and it never converts back to less. |
| Units.ConversionsInBytes | utils.c:48-65 | In bytes: a rate covers a count exactly when m MB in every second are at least its cache lines in t milliseconds, and a count fits a budget exactly when its cache lines, over the whole intervals in a second, are at most that rate. |
| Units.MeteredUseRounds | master.c:109-117 | If both readings lie in the same window of the C int, the metered usage is the true usage of its interval rounded down or up. |
| Units.LowReading | utils.c:55-57 | While the byte product fits 64 bits, and for regulation times dividing 4096 at every u64 count, the conversion delivers the rounded-up rate cut down to a C int. |
| Units.MeteredUseIs | master.c:109-117 | The metered usage of any two such readings: the true difference less 2^32 for every window crossed, as a u64. |
| Units.MeteredUseExactIff | utils.c:55-57 | The metered usage is the difference of the unbounded rates exactly when both lie in the same window of 2^32 around zero. |
| Units.MeteredUseIsIntDifference | master.c:109-117 | For any two counts the metered usage is below 2^32 or within 2^32 of 2^64. |
| Units.MeteredUseInByteWindow | master.c:109-117 | For every regulation time and any two counts with equally many wraps of the byte product, the rates after reduction differ by the true usage rounded once, and that is what is metered exactly when both lie in the same window of the int. |
| Units.MeteringWraps | utils.c:55-57 | Two readings five MB/s apart whose metered usage is almost 2^64. |
| Units.OneEventCrosses | utils.c:55-57 | For every regulation time there is a reading from which one more event crosses into the next window. |
| Budgets.BudgetCoversUseIff | utils.c:48-65 | For regulation times dividing 1000, events up to the budget of a rate, whatever was counted before, are metered as at most that rate exactly when both readings lie in the same window of the C int. |
| Budgets.BudgetsEnforceRatesIff | utils.c:48-65 | Budgets enforce their rates for all pairs of readings inside one window of the C int exactly when the regulation time divides 1000. |
| Budgets.EveryBudgetFailsAtCrossing | utils.c:48-65 | For every regulation time and every positive rate some core stays within its budget and is metered at almost 2^64, because its next event crosses a window. |
| Budgets.CommitLimitsNextUseIff | master.c:162-193 | A core that after a commit stays within its two budgets is metered at most its two allocations by the next pass, and at most its limit in total, exactly when neither reading crosses a window of the C int. |
| Budgets.FirstBudgetEnforced | ar.c:229-241 | For regulation times dividing 1000 a fresh core that stays within its first budget is metered at most at its initial bandwidth, and the whole budget as exactly that. |
| Budgets.FirstBudgetIff | ar.c:229-241 | The first budget is the initial bandwidth's budget exactly when that fits the int of the sampling period. |
| Budgets.ReclaimGrantsFewEvents | ar.c:196-202 | A reclaimed amount, taken as events, is at most a sixteenth of its converted budget. |
| Split.SplitLimit | master.c:162-182 | The 64-bit split computes the two allocations without wrapping, and the credit is the unwrapped rest of the limit. |
| Split.SplitIsSafe | master.c:168-182 | Each allocation is at most its estimate, both together are the demand or the limit or one less, and the larger estimate never gets less. |
| Split.SharesAreProportional | master.c:168-179 | Within the limit both estimates are granted; above it each allocation is the limit's share in proportion to its estimate, rounded down. |
| Split.SplitConservesIff | master.c:173-182 | Nothing is lost to rounding exactly when the demand fits or the total divides the limit's multiple of the read estimate. |
| Printer.PrintDouble | utils.c:7-46 | The loops end, the text and a NUL take at most 12 bytes of the buffer, and the rest of the buffer is untouched. |
| Printer.RenderedIsTruncation | utils.c:20-45 | Below 10^9 the text is an optional sign and nine digits with one point behind the integer digits, and read as a decimal numeral it is the magnitude truncated at the last place. |
| Printer.SignIsShownIff | utils.c:15-18 | The text begins with a minus sign exactly for negative numbers. |
| Printer.TextReadsBack | utils.c:7-46 | Below 10^9 the text, read back with its sign, is the number truncated towards zero at the last of its places. |
| Printer.IntDigitsEncloses | utils.c:20-24 | The counted digits are the integer digits: powers of ten enclose the number. |
| Printer.PointIsLostIff | utils.c:27-43 | The text has a point exactly below 10^9; from there on it reads as at most a tenth of the number. |
| CoreInfos.CoreInfo.constructor | ar.c:216-301 | A core starts with zero histories, initial weights, a clear flag, its limits, and the initial bandwidth as the budget of both counters. |
| CoreInfos.CoreInfo.ControlStep | master.c:104-238 | The in-place pass is the pass on values: metering, both estimates, either rejection with its halved weights, or the commit, and the credit for the pool. |
| CoreInfos.CoreInfo.Learn | master.c:196-214 | Both weight vectors learn from their own errors, the ring index moves on, and the new estimates become the previous ones. |
| PassLaws.LearningFollowsUsage | master.c:197-202 | Within the machine ranges learning moves the prediction on the history just learnt from up if the usage was above the previous estimate, down if below, by at most 0.393211 of the gap. |
| PassLaws.CommitFollowsUsage | master.c:104-202 | The same of every committed pass of a core in its ranges, on both sides. |
| PassLaws.LearnsFromLastCommit | master.c:196-238 | In every run the estimate that the next commit learns from is that of the last committed pass, zero after a start, whatever rejected passes come in between. |
| PassLaws.RejectionLeavesRest | master.c:137-160 | A rejected pass leaves ring index, budgets, throttle flag, previous estimates, limits and every slot but the current one alone. |
| PassLaws.ReadRejectionStopsEarly | master.c:137-142 | A pass with a negative read estimate leaves the write history, weights and estimate alone. |
| PassLaws.WriteRejectionKeepsRead | master.c:155-160 | A pass with a negative write estimate keeps the read weights. |
| PassLaws.CountingChangesIff | master.c:104-193 | A core's counters begin to count exactly at a start or a commit and stop exactly at an end or a rejected pass. |
| PassLaws.OtherEventsLeaveRest | ar.c:347-381 | Grants, flags, starts and ends leave histories, weights, readings and limits alone, and a grant writes the read budget only. |
| PassLaws.UseIsDifferenceOfReadings | master.c:109-117 | In every run the usage is the unsigned difference of the two readings that the core remembers. |
| PassLaws.FreshCoreAtRest | ar.c:261-262 | A fresh core is neither throttled nor counting until a throttle store, or a start or a commit. |
| Controller.PassKeepsRanges | master.c:104-238 | A pass whose samples fit keeps every value in the ranges in which nothing wraps. |
| RingLog.PassRefines | master.c:126-214 | One pass over the rings takes the same verdict as one pass over the log and keeps the simulation. |
| RingLog.RingRefinesLog | master.c:126-214 | After every run of a fresh core, its next pass decides and allocates like the controller with the unbounded log of committed pairs, which uses the current sample and the last four committed ones. |
| RingLog.SlotsPairUp | master.c:126-151 | Every slot but the current one holds a read and a write of the same committed pass. |
| RingLog.UpdateByAge | model.c:91-97 | On the log, weight i learns from the sample of age (ri - i) modulo the ring size. |
| RingLog.PhaseCountsCommits | master.c:213-214 | The ring index is the number of committed passes modulo the ring size, and the log holds exactly those passes. |
| RingLog.WeightMeetsAge | model.c:91-97 | After p commits an update makes weight i learn from the sample of age (p - i) modulo the ring size. |
| Starvation.RejectedIff | master.c:128-160 | An estimate is negative exactly when the prediction is at most minus one minus the initial bandwidth. |
| Starvation.BoundedWeightsFit | model.c:56-57 | Weights whose L1 norm times the sample bound is below 2^31 make the conversion to int well defined. |
| Starvation.HalvingsIsLogarithm | model.c:129-135 | n halvings bring a number below a bound exactly when it is below 2^n times the bound. |
| Starvation.RejectionCostsOneLevel | master.c:126-160 | A rejected pass takes exactly one halving from the read or from the write weights; a committed one releases the core. |
| Starvation.CoreIsReleased | master.c:126-189 | Among kr + kw + 1 passes over a core with bounded samples one commits and releases it, kr and kw being the halving counts of its weights. |
| StoppedCounters.StoppedPassMetersZero | master.c:104-160 | If counters do not advance while stopped, every pass after a rejected one, up to and including the next that commits, meters zero. |
| StoppedCounters.StreakEndsByItself | master.c:104-160 | Then a streak of rejections that has begun has at most kr + kw passes left, whatever the workload. |
| LightCore.LightForever | master.c:126-193 | While all samples stay below 256 the weights never change, and with the default limits every pass commits with estimates in 500..627 and allocations in 443..556. |
| LightCore.DefaultAllocations | master.c:168-179 | Two estimates in 500..627 split a limit of 1000 into allocations in 443..556 that lose at most one, and both ends are attained. |
| LightCore.LightBoundsAreAttained | master.c:126-151 | Silence is predicted as nothing and samples of 255 as 127 above the initial bandwidth. |
| Metering.UseIsExactIff | master.c:109-117 | Over every run, rejected passes included, the metered usages add up to the true use exactly when the first and the last reading lie in the same window of the C int, and always do so modulo 2^32. |
| Metering.NoRoundingDrift | master.c:109-117 | Over a whole run inside one window, rejected passes included, the metered usages add up to the true usage rounded once, and the last one is its own interval's usage rounded once. |
| Drift.WeightsDrift | model.c:73-143 | Over a whole run with samples below 2^32 every weight stays within its start plus, for every committed pass, 362 times the error bound times the learning rate. |
| Drift.EveryPassStaysDefined | master.c:126-160 | If samples and errors are bounded and the weights have room for the run's commits, every pass of the run is well defined and keeps the machine ranges. |
| Regulation.CoresRunProjections | master.c:88-243 | In every interleaved run each core goes through exactly its own events. |
| Regulators.Regulator.constructor | ar.c:431-469 | Module initialization sets up a fresh record for every cpu and leaves the system in its boot state. |
| Regulators.Regulator.HandleReadOverflow | ar.c:183-209 | The handler reclaims half the last usage from a larger pool without underflow, or throttles, and touches no other core. |
| Regulators.Regulator.ControlPass | master.c:88-193 | A pass changes its own core and credits the pool, and nothing else. |
| Regulators.Regulator.SweepCores | master.c:88-243 | A sweep makes one pass over every online regulated core. |
| Regulators.Regulator.StartupPass | master.c:32-40 | Every regulated core is throttled at startup. |
| Regulators.Regulator.ReleasePass | master.c:53-61 | Every regulated core is released when regulation begins. |
| Regulators.Regulator.StartAllRegulation | ar.c:384-396 | The master state becomes running, then every core's estimates are reset and its counters enabled. |
| Regulators.Regulator.StopAllRegulation | ar.c:398-410 | The master state becomes initial, then every core's counters are disabled. |
| Regulators.Regulator.EnableRegWrite | ar_debugfs.c:113-149 | A malformed or large value is refused without effect, a repeated value has no effect, any other starts or stops everything once. |
| Atomicity.UninterruptedWrite | ar_debugfs.c:113-145 | For every input, the single steps of a write that finds the writer idle, uninterrupted, are the whole effect of the write. |
| Atomicity.WriteSwitches | ar_debugfs.c:126-145 | A write of zero or one leaves the switch at that value and the master state in agreement; if it changed the switch, all counters are started, with estimates at zero, or stopped. |
| Atomicity.UninterruptedStartup | master.c:32-61 | The single steps of the startup and the release pass, uninterrupted, touch every regulated core. |
| Atomicity.UninterruptedSweep | master.c:88-243 | The single steps of a sweep, uninterrupted, visit every online core once and return to the loop's top. |
| Ledger.LedgerBalances | master.c:162-182 | In every interleaved run pool, reclaims and allocations add up to the initial pool and the limits of the committed passes; no more is handed out than limits and pool. |
| Ledger.ReclaimLeavesHalf | ar.c:196-202 | A reclaim leaves more than half of the pool and does not throttle. |
| Ledger.ReclaimIsTransferred | ar.c:196-202 | A reclaim writes to the core's read counter exactly what it takes from the pool: half the last usage, rounded down, which as events is at most a sixteenth of the budget of that rate. |
| Ledger.OverflowLeavesRest | ar.c:194-207 | An overflow changes its core's read budget or its throttle flag, never both, and no other core. |
| Ledger.ReclaimsAreFinite | ar.c:194-207 | Between two credits the reclaims of cores with a last usage of at least two are bounded by the pool. |
| Ledger.OverflowsThrottle | ar.c:194-207 | In every run without a commit, whatever else happens in it, a core that overflows more often with a last usage of at least two than the pool has units is throttled by one of its overflows. |
| Ledger.EventuallyThrottledIff | ar.c:194-207 | A core whose overflows follow each other undisturbed is throttled eventually exactly when it is throttled already, its last usage is at least two, or the pool does not exceed it. |
| Ledger.PoolGrowthIsRationed | master.c:162-182 | With limits up to twice the initial bandwidth and non-negative predictions, the pool grows at most by the number of commits. |
| ReleaseBound.PcStaysInRange | master.c:32-68 | The master thread is always in its startup pass, waiting, in its release pass or in its loop, at a cpu within its bounds. |
| ReleaseBound.VisitsInRun | master.c:32-245 | While the master state is running, six master steps visit every online core once, after at most eleven steps that bring the thread into its loop. |
| ReleaseBound.OnlineCoreIsReleased | master.c:32-189 | While the master state is running, wherever the master thread is, an online core with bounded samples is released within 6 (kr + kw + 1) + 5 master steps and those, at most eleven, that the thread needs to reach its loop, whatever else happens in between. |
| ReleaseBound.FlagChangesIff | master.c:189-189 | A throttle flag falls exactly at a commit or in the release pass, and rises exactly in the startup pass or at an overflow with too small a pool. |
| Lifecycle.LifecycleSafe | master.c:32-61 | Over every run from boot all cores stay throttled until the master observes that it runs, which takes a start call; calls alternate beginning with a start; between writes the switch is on exactly if the master state is running. |
| Lifecycle.PauseKeepsThrottled | master.c:71-81 | While paused, no throttled core is released and the pool only shrinks. |
| SystemTheorems.EveryRingRefinesItsLog | master.c:126-214 | The ring refinement for every core of every interleaved run. |
| SystemTheorems.VisitReadsCounters | master.c:88-117 | A visit reads the two counters of the cpu it has reached, if online, and changes no other core. |
| SystemTheorems.EveryCoreIsMeteredExactlyIff | master.c:109-117 | In every interleaved run each core's metered usages add up to its true use exactly when its first and last reading share a window of the C int, and then to the true usage rounded once. |
| SystemTheorems.NextPassIsDefined | master.c:104-160 | After every interleaved run in which a core has bounded samples and errors and its weights room for its commits, the core's next pass is well defined. |
| SystemTheorems.FreshSystemIsLight | ar.c:61-62 | A system of fresh cores with the default limits is light. |
| SystemTheorems.LightSystemForever | master.c:126-193 | In a system of light cores every pass of every interleaved run commits within the default allocations and machine ranges, and the pool grows at most by one per commit. |
| Throttler.NoLostWakeup | ar.c:141-158 | Over all interleavings of stores, interrupts and thread steps, a thread asleep with an untriggered monitor has its flag set, and a clearing store wakes a sleeping thread. |
| Throttler.ClearedFlagReleases | ar.c:128-161 | Once the flag stays clear, three thread steps end the throttle loop. |
| Throttler.SetFlagThrottles | ar.c:128-161 | While the flag stays set and no stop is requested, the thread does not leave the throttle loop. |
| Throttler.ThrottledThreadSleeps | ar.c:141-158 | With MWAIT, after any run in which the flag is not cleared and no stop requested, six undisturbed steps put the thread to sleep on an untriggered monitor. |
| Throttler.SpinsWithoutMwait | ar.c:141-158 | Without MWAIT the thread never arms a monitor or sleeps. |
| Throttler.StoppedThreadExits | ar.c:128-161 | A thread asked to stop while its flag is clear exits within four of its steps and stays out. |
| Throttler.ExitsOnlyOnRequest | ar.c:128-161 | A thread that nobody asks to stop never exits. |

## Left out

- Perf and PMU calls, kthread creation and binding, irq_work queuing, wait queues, FPU sections, trace printing: foreign kernel code or output. Counts arrive as parameters.
- Floating-point rounding, and predictions outside the range of `int`.
- Races on the unlocked pool inside one handler or pass, and memory ordering beyond MONITOR, recheck and MWAIT.
- A change of the regulation time while regulation runs: it would change the unit of the cumulative rates between two passes.
- Text parsing and user-copy handling of the debugfs files: a write arrives as a number or as malformed.
- The pool counter's own 64-bit bound; it grows at most by one limit per commit.
- Module teardown, and a cpu going offline under its throttler thread.
- Units.MeteredUseExactIff: for regulation times that do not divide 4096, intervals in which the byte product wraps past 2^64 (every 2.9e14 events) are not covered, because what wraps away there is no whole number of MB/s; intervals between two wraps are covered by Units.MeteredUseInByteWindow. Metering.UseIsExactIff and the budget theorems stop at the first wrap for those regulation times.
- Lms.UpdateWeights: one method stands for the read and the write version, whose code is the same on different arrays.
- The master thread's endless loop and the throttler's are state machines over single steps, not Dafny loops; the loops over cpus inside them are methods.
- `ar_perfs.c`, `test.c` and `scripts/`: thin wrappers, disabled code and plotting.
- Fields that nothing in the controller reads: the budget estimate, the regulation timer, the cycles event, the observation interval.
