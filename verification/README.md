# Verified model of the costguard-operator reconcile loop

The operator keeps one `BudgetNamespace` resource per managed namespace. A reconcile compares quota usage and billed
spend with their limits, scales the namespace's Deployments and StatefulSets to zero when a limit is reached, may restore
them later, and deletes the namespace when its TTL and a grace period are over. This project models one reconcile, with
every way its API calls can fail, and proves what holds over all finite runs of reconciles mixed with outside edits.

| file | contents |
|---|---|
| `Wrappers.dfy`, `Text.dfy`, `Api.dfy` | optional values, decimal and trimmed text, spec, status and time |
| `Workloads.dfy`, `Passes.dfy` | one workload and its patches; scale and restore passes that can be cut short |
| `Enforcement.dfy`, `CostBudget.dfy`, `Lifecycle.dfy` | cooldown and quota tests; dollar budget and spend cache; TTL phases and requeue delay |
| `ReconcileSpec.dfy` | one reconcile as a function `Step` |
| `Cluster.dfy`, `Reconciler.dfy` | the same reconcile as methods on objects, with the loops of the original, proved equal to `Step` |
| `StepLaws.dfy` | what every single reconcile guarantees |
| `Promises.dfy` | what a reconcile decides, writes, deletes, publishes and returns, in terms of the fields of the resource alone |
| `Failures.dfy` | which texts must be readable and how many calls are made; what is lost when one fails |
| `Runs.dfy`, `AntiFlap.dfy`, `History.dfy`, `SpendCache.dfy`, `Schedule.dfy` | theorems over whole runs |

## How failures are modelled

Every error return ends a reconcile at once, so a reconcile is cut short in at most one place. A `Fuse` counts the API
calls (Get, ensuring the namespace objects, List, each Patch, the billing query, Delete, the status update) that still
succeed; the call that finds it blown fails and changes nothing. Quantifying over fuses covers every failure point,
including a status update that conflicts.

## Premises

- One `BudgetNamespace` per managed namespace. Each keeps its own cooldown record, so two of them could undo one another.
- The clock does not go backwards, and reconciles of one resource do not overlap. A reconcile reads the clock three times
  (`now`, the TTL wait, the time noted for an operation) and the readings may differ.
- A failed call changes nothing, and nobody edits a workload between the List and the Patch of one pass. Between reconciles
  workloads may be replaced by anything, unless a theorem says `Undisturbed`.
- Only the operator writes the status.
- Reads return the last stored objects. The operator reads through the manager's cached client (cmd/main.go:211); a read
  of an older status could lose the cooldown even after a take-down that was stored.
- Status times lose the fraction of a second when stored, as `metav1.Time` is written in RFC 3339 without one; what the
  API server holds therefore reads back as itself (`AsStored`). The cooldown and the query interval count from the stored
  time.
- Texts of floats and durations are read by abstract functions. The one assumption is that a printed float64 reads back as
  itself (`Codec.RoundTrips`, shown consistent by `RoundTripsIsConsistent`). Spend and limit are reals: NaN and infinities
  are excluded. Times and durations are unbounded integers in nanoseconds; replica counts are int32.

## Where the code does less than its comments say

- `queryInterval` is documented as the minimum time between queries (api/v1alpha1/budgetnamespace_types.go:108). It is not,
  in two ways. After a query that was stored, the next one comes exactly from stored time plus interval on
  (`NextQueryIsExact`), so it may come less than a second early (`EarlyQuery`). A query whose status update fails is not remembered at
  all: the next reconcile follows the older cache (`LostQueryIsForgotten`) and may query at once (`QueryRepeatedAtOnce`).
- `enforcementCooldown` is documented as the wait after a scale-down (api/v1alpha1/budgetnamespace_types.go:74). After a
  stored scale-down it is kept but for the fraction of a second that storing cuts off (`NoRestoreWithinCooldown`,
  `CooldownIsExact`). A scale-down whose status update fails has no cooldown: later reconciles follow the older record
  (`LostStatusLosesCooldown`) and may restore at once (`FlapWithoutStoredStatus`).
- An annotation that is already there is never overwritten. With `restoreOnRecovery` off, the default, owners scale up
  by hand and the annotation stays; after the next scale-down a restore brings back the old count and the one that ran
  is lost (`StaleAnnotationWins`). Two claims on what is owed to the owner keep this apart: by `FirstSaved` a saved count
  comes first, as the code has it; by `LastRun` a running workload is owed what it runs. The theorems on lost counts hold
  for both, each with its exact condition.

## Model

| member | source | states |
|---|---|---|
| Text.ParseOfFormat | internal/controller/workload_scale.go:40-41 | every int32 printed into the annotation is read back as itself by the restore parse |
| Text.MagnitudeByPlace | internal/controller/budgetnamespace_enforcement.go:142 | a digit string is read in base ten, place by place |
| Text.FormatIsCanonical | internal/controller/workload_scale.go:41 | a saved count is printed in digits, without leading zeros, with a minus if negative |
| Text.ParseOfDigits | internal/controller/budgetnamespace_enforcement.go:142 | digits, alone or behind a plus or a minus, are read as their number, and refused exactly when it is outside int32 |
| Text.ParseOfOthers | internal/controller/budgetnamespace_enforcement.go:142-145 | nothing but digits behind at most one sign is accepted |
| Text.TrimOf | internal/controller/cost_budget.go:36-42 | white space around a text is cut off, all of it and nothing else |
| Workloads.IntentKeptExactly | internal/controller/workload_scale.go:28-44 | by either claim, scaling keeps the count owed if and only if a positive count can be saved or the saved one is the one owed; restoring keeps it then, and always if a saved count comes first |
| Workloads.RestoreInvertsScale | internal/controller/budgetnamespace_enforcement.go:129-150 | restore after scale gives back replicas and annotations, a nil count as the explicit 1, if and only if the workload is exempt, or runs a positive count with nothing saved, or is at zero with nothing to restore |
| Workloads.RunningReturnsExactly | internal/controller/workload_scale.go:36-44 | a running workload that is scaled and restored runs its count again if and only if that count is positive and nothing was saved, or the annotation says the same count |
| Workloads.StaleAnnotationWins | internal/controller/workload_scale.go:40-42 | for any two different positive counts, one running and one left in the annotation, the workload comes back at the old one |
| Passes.PassSplit | internal/controller/workload_scale.go:99-106 | any pass, cut short anywhere, leaves each workload patched or untouched; its count plus the remaining work is the whole work, and completing the rest gives the uninterrupted result |
| Passes.RetriesRefineOnePass | internal/controller/budgetnamespace_enforcement.go:207-214 | any series of attempts whose last succeeds ends in the state of one uninterrupted pass, with counts summing to its count |
| Passes.SoundFleetKeepsIntent | internal/controller/workload_scale.go:20-51 | by either claim, any interleaving of scale and restore passes with failures anywhere keeps every count owed by a sound fleet, exempt workloads and all other fields |
| Passes.NoCountIsLost | internal/controller/budgetnamespace_enforcement.go:121-156 | by either claim, a fleet keeps all counts owed under every such interleaving if and only if each workload is sound; by the claim of the running count this shuts out an annotation of another count |
| Passes.FullRestoreInvertsFullScale | internal/controller/budgetnamespace_enforcement.go:115-159 | full scale then full restore returns every workload to its replicas and annotations if and only if each can be brought back; fleets without annotations and negative counts can |
| Passes.FullRestoreReturnsRunning | internal/controller/budgetnamespace_enforcement.go:207-214 | full scale then full restore brings every running workload back to its running count if and only if no annotation of another count, readable or not, stands beside it and no count is negative |
| Passes.PassUsesCalls | internal/controller/workload_scale.go:99-106 | a pass succeeds if and only if there are calls for two lists and each patch, and it uses exactly these |
| Passes.PassGoesInOrder | internal/controller/workload_scale.go:99-106 | wherever a pass is cut short, the workloads up to some point are patched and all later ones untouched, Deployments first: no StatefulSet changes while a Deployment has work left |
| Passes.NothingPending | internal/controller/budgetnamespace_enforcement.go:107-113 | when the pending check finds nothing, a restore pass has no work |
| Cluster.ScaleKindToZero | internal/controller/workload_scale.go:13-54 | the in-place loop with its early return on a failed patch is the specified pass: items, count, remaining calls and error |
| Cluster.ScaleWorkloadsToZero | internal/controller/workload_scale.go:99-106 | Deployments first, StatefulSets only if they went through |
| Cluster.RestoreKind | internal/controller/budgetnamespace_enforcement.go:161-205 | the restore loop is the specified pass, skipping exempt, running, unsaved and unreadable workloads |
| Cluster.RestoreScaledWorkloads | internal/controller/budgetnamespace_enforcement.go:207-214 | the two restore loops in sequence are the specified pass |
| Cluster.KindPendingRestore | internal/controller/budgetnamespace_enforcement.go:79-105 | the early-exit loop finds a pending workload if and only if there is one |
| Cluster.WorkloadsPendingRestore | internal/controller/budgetnamespace_enforcement.go:107-113 | Deployments decide alone when one is pending or the list fails |
| Cluster.ListedWorkload.EditForScale | internal/controller/workload_scale.go:36-44 | the edited object is the specified patch: the first saved count wins |
| Cluster.ListedWorkload.RestorableCount | internal/controller/budgetnamespace_enforcement.go:171-191 | a count is found exactly for the workloads a restore touches, and it is the saved one |
| Enforcement.QuotaUsedAtOrOverHard | internal/controller/budgetnamespace_controller.go:541-552 | in any map order, true if and only if some resource that is limited and reported has used at least its limit |
| Enforcement.QuotaTestMonotone | internal/controller/budgetnamespace_controller.go:541-552 | more usage or lower limits can only turn the test on |
| CostBudget.SpendTestsComplementary | internal/controller/cost_budget.go:102-104 | the risk test and the restore test are complements for every spend and limit |
| CostBudget.ValidationMakesReadersTotal | internal/controller/cost_budget.go:31-63 | after validation the limit reads as the written positive number, durations as written or one hour and one week, and the fallbacks for unreadable text are unreachable |
| Lifecycle.PhasesMoveForward | internal/controller/budgetnamespace_controller.go:137-152 | Active, Grace, Deleting never go back, and a phase ends exactly at its boundary |
| Lifecycle.RequeueNeverOversleeps | internal/controller/budgetnamespace_controller.go:144-158 | the delay is positive, bounded, and does not pass the phase boundary while the second clock reading is before it |
| Lifecycle.NoRequeueExactly | internal/controller/budgetnamespace_controller.go:528-538 | no requeue is returned exactly when there is nothing to wait for or the boundary passed between two clock readings |
| Reconciler.TtlPhase | internal/controller/budgetnamespace_controller.go:129-159 | the flags and target computed step by step are the phase and TTL delay; the phase is Active before creation plus TTL and Deleting from ten seconds later on |
| Reconciler.BudgetNamespace.ResolveNamespaceSpendUSD | internal/controller/cost_budget.go:108-143 | the method reads cache or billing and edits the status as specified |
| Reconciler.BudgetNamespace.Publish | internal/controller/budgetnamespace_controller.go:402-515 | the conditions set one after another are the published status |
| Reconciler.BudgetNamespaceReconciler.TryRestore | internal/controller/budgetnamespace_controller.go:342-375 | restore or deferral as specified; when deferring, the noted time is there and the wait is positive, so the clamp never acts |
| Reconciler.BudgetNamespaceReconciler.Reconcile | internal/controller/budgetnamespace_controller.go:99-539 | the whole method refines `Step` in workloads, stored status, deletes, result and trace |
| StepLaws.StepFleet | internal/controller/budgetnamespace_controller.go:297-388 | workloads change by at most one pass; restores need budget, time to live, switch and cooldown; scales need a risk or the grace period; success means the pass was finished |
| StepLaws.OnlyRestoreRaises | internal/controller/budgetnamespace_controller.go:355-367 | only a restore raises a workload, only a scale takes one down |
| StepLaws.StepRecord | internal/controller/budgetnamespace_controller.go:336-340 | the stored record changes only by a successful reconcile that patched something, to its operation and stored time |
| StepLaws.StepDeletes | internal/controller/budgetnamespace_controller.go:389-400 | successful reconciles delete the namespace exactly in the deleting phase, and the delay depends on the clock alone |
| StepLaws.SuccessPublishes | internal/controller/budgetnamespace_controller.go:402-524 | the stored conditions are true of what the reconcile found: breach, deferral, readiness, and expiry exactly from the expiry time on |
| StepLaws.PublishedBreachIsTrue | internal/controller/budgetnamespace_controller.go:448-458 | OverBudget is True exactly after a limit was found reached, and then all workloads but exempt ones are at zero, newly zeroed ones carry the count owed, and nothing else differs |
| StepLaws.RecoveryIsExact | internal/controller/budgetnamespace_controller.go:342-375 | with the budget kept, a successful reconcile restores everything or defers, and does either exactly when the record says so |
| StepLaws.DeferralIsExact | internal/controller/budgetnamespace_controller.go:482-507 | EnforcementRecoveryDeferred is True exactly when enforcement and restore are on, the TTL runs, the budget is kept, something is pending and a scale-down is younger than the cooldown |
| StepLaws.RestoreRefusalUnreachable | internal/controller/budgetnamespace_controller.go:348-354 | after the risk test neither the refusal for high spend nor a limit error can occur |
| StepLaws.MoreUsageMoreRisk | internal/controller/budgetnamespace_controller.go:309-331 | raising usage only turns a kept budget into a risk, with the same spend assessed |
| StepLaws.StepSpend | internal/controller/cost_budget.go:120-142 | a query happens only when the cache has no answer; the compared spend is the answer or the cached number; only a successful reconcile stores the answer |
| StepLaws.CleanStepSucceeds | internal/controller/budgetnamespace_controller.go:99-539 | with readable texts and no failing call a reconcile succeeds |
| Promises.ExemptIsSpared | internal/controller/workload_scale.go:24-26 | a pass of either kind, cut short anywhere, leaves workloads labelled ealebed.github.io/exempt "true" as they are; a successful scale leaves every other at an explicit zero |
| Promises.PassWrites | internal/controller/budgetnamespace_enforcement.go:121-154 | a pass, cut short anywhere, writes to each workload what a reference definition spells out field by field, or nothing; a successful one to all of them |
| Promises.ReconcileSparesExempt | internal/controller/budgetnamespace_enforcement.go:125-127 | no reconcile, however it ends, touches a workload labelled exempt |
| Promises.SwitchedOffTouchesNothing | internal/controller/budgetnamespace_controller.go:554-563 | with enforcement not enabled, or an action other than empty or ScaleToZero, no reconcile touches a workload |
| Promises.DecisionIsExact | internal/controller/budgetnamespace_controller.go:297-388 | what a successful reconcile does to the workloads, and whether it evaluates and defers, by the written switch, action, TTL, cooldown, restore flag and the stored record |
| Promises.RecordIsExact | internal/controller/budgetnamespace_controller.go:336-367 | a successful reconcile notes its operation and whole second if and only if it changed a workload |
| Promises.RiskIsExact | internal/controller/budgetnamespace_controller.go:305-329 | the quota test is that some limited and reported resource has used its limit; the dollar test that spend plus 1e-9 is at least the written limit; a spend is compared exactly with an enabled dollar budget |
| Promises.SpendIsExact | internal/controller/cost_budget.go:120-142 | a spend compared is the cached number while the written interval, or one hour, from the stored query lasts, else the answer of a query, and what is stored of it |
| Promises.DeletesAreExact | internal/controller/budgetnamespace_controller.go:389-400 | the namespace delete is issued by successful reconciles from creation plus TTL plus ten seconds on, once each, and never before |
| Promises.LifeIsPublished | internal/controller/budgetnamespace_controller.go:402-446 | expiresAt is creation plus TTL in whole seconds; Expired and Ready, with their reasons, turn exactly then; without a TTL Expired stays as it was |
| Promises.BreachIsPublished | internal/controller/cost_budget.go:167-177 | OverBudget with its reason: enforcement disabled, TTL expired, within budget, or which of the tests found a limit reached |
| Promises.DeferralIsPublished | internal/controller/budgetnamespace_controller.go:482-507 | EnforcementRecoveryDeferred with its reason, pending work written out by label, replicas and annotation |
| Promises.ResultIsExact | internal/controller/budgetnamespace_controller.go:526-538 | the requeue result of every successful reconcile, in seconds, by TTL, enforcement and both clock readings |
| Failures.SucceedsExactly | internal/controller/cost_budget.go:31-63 | without failing calls a reconcile succeeds if and only if TTL, dollar budget, cooldown and cached spend are there and readable as far as it needs them, and a billing client is configured if it needs one |
| Failures.FailuresOnlyCutShort | internal/controller/budgetnamespace_controller.go:517-524 | with fewer calls than a reconcile makes it fails; with all but the last only the status is lost, and a conflict is told from an error; with all it is the undisturbed one; no failing call makes one succeed |
| Runs.ExecuteIsRun | internal/controller/budgetnamespace_controller.go:99-539 | whatever inputs and edits the environment brings, from any world, there is a run that meets them |
| AntiFlap.NoRestoreWithinCooldown | internal/controller/budgetnamespace_enforcement.go:23-49 | over any run, no reconcile raises a workload before the stored time of any earlier stored take-down plus the cooldown as written, or two minutes |
| AntiFlap.CooldownIsExact | internal/controller/budgetnamespace_controller.go:355-374 | as long as no newer operation is recorded after a stored scale-down, whatever fails or is edited in between, a successful within-budget reconcile restores everything from stored time plus the written cooldown on and changes nothing before |
| AntiFlap.CooldownDoesNotSlide | internal/controller/budgetnamespace_controller.go:329-341 | while the budget is not found kept and nobody raises workloads, the record of the first scale-down stays |
| AntiFlap.LostStatusLosesCooldown | internal/controller/budgetnamespace_controller.go:517-524 | after a reconcile whose status was lost, and through any retries, failures and edits until an operation is recorded, a successful within-budget reconcile restores everything exactly when the older record allows it |
| AntiFlap.FlapWithoutStoredStatus | internal/controller/budgetnamespace_controller.go:517-521 | for every sound fleet and cooldown, a conflict of the one status update lets the next reconcile raise the workloads at any later time |
| History.RunKeepsIntent | internal/controller/budgetnamespace_controller.go:327-388 | by either claim, no run of reconciles loses a count owed by a sound fleet, wherever they fail; exempt workloads and all other fields stay |
| History.OperationsAlternate | internal/controller/budgetnamespace_controller.go:331-367 | recorded operations read scale, restore, scale, and the stored record names the last one |
| History.ExpiryIsFinal | internal/controller/budgetnamespace_controller.go:377-400 | from expiry on no reconcile raises a workload |
| History.DownSinceGrace | internal/controller/budgetnamespace_controller.go:377-388 | after one successful grace reconcile everything is down and stays exactly so until edited |
| SpendCache.CacheAgreesWithBilling | internal/controller/cost_budget.go:106-143 | every spend compared with the limit is what billing answered to a reconcile of the run, the same one or one within the interval |
| SpendCache.QueriesAreThrottled | internal/controller/cost_budget.go:120-125 | after a stored query no later reconcile queries, even in vain, before stored time plus interval |
| SpendCache.NextQueryIsExact | internal/controller/cost_budget.go:120-142 | after a stored query and before the next stored one, through any cache hits, failures and edits, a reconcile that compares a spend asks billing if and only if stored time plus interval is reached |
| SpendCache.LostQueryIsForgotten | internal/controller/budgetnamespace_controller.go:517-524 | after a query whose status was lost, and until one is stored, a reconcile that compares a spend asks billing exactly when the older cache has no answer |
| SpendCache.EarlyQuery | internal/controller/cost_budget.go:120-142 | for every query time that is not a whole second there is a run without failures with two stored queries less than the interval apart |
| SpendCache.QueryRepeatedAtOnce | internal/controller/budgetnamespace_controller.go:517-524 | a run in which the first status update is lost and the next reconcile, at any later time, asks billing again |
| Schedule.Timetable | internal/controller/budgetnamespace_controller.go:144-158 | the exact start of every reconcile of a run from before expiry, each asking for the next |
| Schedule.DeletionOnTime | internal/controller/budgetnamespace_controller.go:389-400 | the first namespace delete is issued exactly at expiry plus 10s, in reconcile number ceil((expiry - start) / period) + 2 |
| Schedule.PollsExactly | internal/controller/budgetnamespace_controller.go:528-533 | while the budget is kept, reconciles are exactly 30s apart, with a TTL or without |
| Schedule.RestoredSinceDue | internal/controller/budgetnamespace_controller.go:342-375 | workloads and record stay as they are up to reconcile number ceil((due - start) / 30s), and everything is fully restored by that one and from then on |
| Schedule.RestoreOnTime | internal/controller/budgetnamespace_controller.go:528-537 | a run with that many reconciles restores in exactly that one, at exactly start + number * 30s, within 30s of the later of recovery and end of cooldown; everything saved is then back at its saved count and stays |
| Schedule.ScheduledRunsExist | internal/controller/budgetnamespace_controller.go:528-537 | where texts are readable, no call fails and there is a TTL or enforcement, runs on schedule of any length exist from any world |
| Schedule.RecoveringRunsExist | internal/controller/budgetnamespace_controller.go:342-375 | with restore on, no TTL and no dollar budget, so do runs in which the budget is kept throughout |

## Left out

- NoRestoreWithinCooldown: covers take-downs whose reconcile stored its status; `FlapWithoutStoredStatus` shows that the
  code gives no cooldown to the others, and `CooldownDoesNotSlide` that later reconciles do not repair the record.
- CacheAgreesWithBilling: starts from a status without a query time; a cache filled before the run is not traced back.
- OperationsAlternate: needs that reconciles which patched something also succeeded; a pass cut short repeats its operation.
- RestoreOnTime: is about runs on schedule, in which every reconcile succeeds; back-off after a failure is not modelled.
- RecoveringRunsExist: shows such runs without a TTL and without a dollar budget only, as examples.
- Edits of a workload between the List and the Patch of one pass, where the merge patch would meet a newer object.
- Creating the Namespace, ResourceQuota and LimitRange and parsing their quantities: one call that may fail; the limits
  and usage a reconcile sees are inputs.
- The BigQuery client and its SQL: an oracle that answers a float64 or fails. The lookback window is read but has no effect.
- Events, logging, messages, generations and transition times of conditions.
- A resource deleted between watch and Get, and a missing cooldown record written by something other than the operator.
- int64 saturation of durations and the zero time as an expiry, which need times centuries away.
- Watches, back-off and resync of the controller runtime: further reconciles may start at any time in a run.
- Specs edited during a run: a removed TTL would keep its old Expired condition, and the spend cache does not know which
  query filled it.
