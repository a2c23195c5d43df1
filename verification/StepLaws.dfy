/** What holds of every single reconcile, whatever it meets and wherever it fails. */
module StepLaws {
  import opened Api
  import opened CostBudget
  import opened Enforcement
  import opened Lifecycle
  import opened Passes
  import opened ReconcileSpec
  import opened Text
  import opened Workloads
  import opened Wrappers

  predicate NotRaised(w: Workload, w': Workload) {
    Running(w') <= Running(w) || Running(w') <= 0
  }

  /** Some workload runs more replicas afterwards. */
  ghost predicate Raises(f: Fleet, f': Fleet) {
    !Pairwise(f, f', NotRaised)
  }

  predicate NotTakenDown(w: Workload, w': Workload) {
    Running(w) != 0 ==> Running(w') != 0
  }

  /** Some workload runs before and is at zero afterwards. */
  ghost predicate TakesDown(f: Fleet, f': Fleet) {
    !Pairwise(f, f', NotTakenDown)
  }

  /** No workload is left to scale: all but the exempt ones are at an explicit zero. */
  ghost predicate AllDown(f: Fleet) {
    Every(f, Down)
  }

  lemma AllDownMeansNoWork(f: Fleet)
    ensures AllDown(f) <==> FleetWork(ScaleToZero, f) == 0
  {
    FleetWorkNone(ScaleToZero, f);
  }

  /** The reconcile came to compare usage and spend with their limits and found them kept. */
  predicate WithinBudget(tr: Trace) {
    tr.evaluated && !tr.AtRisk()
  }

  // ------------------------------------------------------------------------------------------
  // What the work on the namespace does to the workloads, stage by stage.

  /** The workloads change by one pass at most, possibly cut short, and the trace counts its patches. */
  ghost predicate OnePass(f: Fleet, f': Fleet, tr: Trace) {
    if tr.restored == 0 then Progress(ScaleToZero, f, f', tr.scaled)
    else tr.scaled == 0 && Progress(Restore, f, f', tr.restored)
  }

  /** The enforcement record after the work: a finished pass that patched something notes its operation and time. */
  predicate Noted(st: Status, st': Status, inp: Input, tr: Trace) {
    if tr.scaled > 0 then st'.lastEnforcementAt == Some(inp.opClock) && st'.lastEnforcementOp == SCALE_TO_ZERO
    else if tr.restored > 0 then st'.lastEnforcementAt == Some(inp.opClock) && st'.lastEnforcementOp == RESTORE
    else st'.lastEnforcementAt == st.lastEnforcementAt && st'.lastEnforcementOp == st.lastEnforcementOp
  }

  /** A restore needs the budget kept, restore switched on, and the cooldown over. */
  predicate MayRestore(cfg: Config, st: Status, inp: Input, tr: Trace) {
    && WithinBudget(tr) && cfg.spec.enforcement.restoreOnRecovery && Cooldown(cfg).Some?
    && CanRestore(st.lastEnforcementOp, st.lastEnforcementAt, Cooldown(cfg).value, inp.now)
  }

  /** What every stage guarantees, in terms of the in-memory status it started from. */
  ghost predicate Lawful(cfg: Config, w: World, st: Status, inp: Input, v: Verdict) {
    && OnePass(w.fleet, v.fleet, v.trace)
    && (v.ok ==> Noted(st, v.status, inp, v.trace))
    && (v.trace.restored > 0 ==>
          MayRestore(cfg, st, inp, v.trace) && (v.ok ==> v.fleet == PassedFleet(Restore, w.fleet)))
    && (v.trace.scaled > 0 ==> !WithinBudget(v.trace))
    && (v.ok && v.trace.AtRisk() ==> v.fleet == PassedFleet(ScaleToZero, w.fleet))
    && (v.trace.AtRisk() ==> v.trace.evaluated)
    && (v.trace.deferred ==> WithinBudget(v.trace))
    && v.status.conditions == st.conditions
  }

  lemma NoProgress(f: Fleet)
    ensures Progress(ScaleToZero, f, f, 0)
  {
  }

  lemma ScaleStageLawful(cfg: Config, w: World, st: Status, inp: Input, fuse: Fuse, tr: Trace)
    requires tr.restored == 0 && !tr.deferred && !WithinBudget(tr) && (tr.AtRisk() ==> tr.evaluated)
    ensures var v := ScaleStage(w, st, inp, fuse, tr);
            && Lawful(cfg, w, st, inp, v)
            && (v.ok ==> v.fleet == PassedFleet(ScaleToZero, w.fleet))
            && v.trace == tr.(scaled := v.trace.scaled) && v.deletes == w.deletes
  {
    PassSplit(ScaleToZero, w.fleet, fuse);
  }

  lemma RestoreStageLawful(cfg: Config, w: World, st: Status, inp: Input, spend: real, fuse: Fuse, tr: Trace)
    requires tr.scaled == 0 && tr.restored == 0 && WithinBudget(tr)
    requires cfg.spec.enforcement.restoreOnRecovery && Cooldown(cfg).Some?
    ensures var v := RestoreStage(cfg, w, st, inp, Cooldown(cfg).value, spend, fuse, tr);
            && Lawful(cfg, w, st, inp, v)
            && v.trace == tr.(restored := v.trace.restored, deferred := v.trace.deferred) && v.deletes == w.deletes
  {
    NoProgress(w.fleet);
    PassSplit(Restore, w.fleet, PendingFleet(w.fleet, fuse).fuse);
  }

  lemma DecideStageLawful(cfg: Config, w: World, st: Status, inp: Input, spend: real, fuse: Fuse, tr: Trace)
    requires tr.scaled == 0 && tr.restored == 0 && !tr.deferred && tr.evaluated && Cooldown(cfg).Some?
    ensures var v := DecideStage(cfg, w, st, inp, Cooldown(cfg).value, spend, fuse, tr);
            && Lawful(cfg, w, st, inp, v)
            && v.trace == tr.(scaled := v.trace.scaled, restored := v.trace.restored, deferred := v.trace.deferred)
            && v.deletes == w.deletes && SameCache(st, v.status)
  {
    NoProgress(w.fleet);
    if tr.AtRisk() {
      ScaleStageLawful(cfg, w, st, inp, fuse, tr);
    } else if cfg.spec.enforcement.restoreOnRecovery {
      RestoreStageLawful(cfg, w, st, inp, spend, fuse, tr);
    }
  }

  /** The limits a trace was judged by. */
  predicate Judged(cfg: Config, inp: Input, tr: Trace) {
    && (tr.evaluated ==> tr.quotaAtHard == AtHardLimit(inp.hard, inp.used))
    && (tr.costOver <==> tr.spend.Some? && MaxUSD(cfg).Some? && SpendAtOrOverMax(tr.spend.value, MaxUSD(cfg).value))
  }

  /** The two statuses hold the same cached spend. */
  predicate SameCache(s: Status, s': Status) {
    s.lastCostQueryAt == s'.lastCostQueryAt && s.lastObservedSpendUSD == s'.lastObservedSpendUSD
  }

  /** A trace without what the decision added to it. */
  function Assessed(tr: Trace): Trace {
    tr.(scaled := 0, restored := 0, deferred := false)
  }

  lemma EnforceStageLawful(cfg: Config, w: World, inp: Input, fuse: Fuse)
    ensures var v := EnforceStage(cfg, w, inp, fuse); var a := Assess(cfg, w.status, inp, fuse);
            && Lawful(cfg, w, w.status, inp, v)
            && Judged(cfg, inp, v.trace) && v.deletes == w.deletes
            && Assessed(v.trace) == a.trace && (v.ok ==> a.ok) && SameCache(a.status, v.status)
            && (v.ok ==> v.trace.evaluated && (v.trace.spend.Some? <==> CostEnabled(cfg.spec)))
  {
    NoProgress(w.fleet);
    var a := Assess(cfg, w.status, inp, fuse);
    if a.ok {
      DecideStageLawful(cfg, w, a.status, inp, a.spend, a.fuse, a.trace);
    }
  }

  lemma NamespaceStageLawful(cfg: Config, phase: Phase, w: World, inp: Input, fuse: Fuse)
    ensures var v := NamespaceStage(cfg, phase, w, inp, fuse);
            && Lawful(cfg, w, w.status, inp, v) && Judged(cfg, inp, v.trace)
            && (v.trace.restored > 0 || v.trace.evaluated ==> phase.Active? && Enforcing(cfg.spec))
            && (v.trace.scaled > 0 ==> Enforcing(cfg.spec) && !phase.Deleting?)
            && (v.ok && Enforcing(cfg.spec) && phase.Active? ==>
                  v.trace.evaluated && (v.trace.spend.Some? <==> CostEnabled(cfg.spec)))
            && (v.ok && Enforcing(cfg.spec) && phase.Grace? ==> v.fleet == PassedFleet(ScaleToZero, w.fleet))
            && v.deletes == w.deletes + (if phase.Deleting? && v.ok then 1 else 0)
            && Assessed(v.trace) == (if phase.Active? && Enforcing(cfg.spec) && !fuse.Blown()
                                     then Assess(cfg, w.status, inp, fuse.Burn()).trace else QUIET)
            && SameCache(v.status, if phase.Active? && Enforcing(cfg.spec) && !fuse.Blown()
                                   then Assess(cfg, w.status, inp, fuse.Burn()).status else w.status)
  {
    NoProgress(w.fleet);
    if phase.Active? {
      EnforceStageLawful(cfg, w, inp, fuse.Burn());
    } else if phase.Grace? {
      ScaleStageLawful(cfg, w, w.status, inp, fuse, QUIET);
    }
  }

  // ------------------------------------------------------------------------------------------
  // What a whole reconcile does to the workloads and to the enforcement record.

  /** A reconcile raises only within budget, before expiry, with restore on and the cooldown over; it scales down only
      at risk or in the grace period; and a successful one has finished the pass it started. */
  lemma StepFleet(cfg: Config, w: World, inp: Input)
    ensures var o := Step(cfg, w, inp); var tr := o.trace;
            && OnePass(w.fleet, o.world.fleet, tr)
            && (tr.restored > 0 || tr.evaluated ==>
                  TtlReadable(cfg) && PhaseAt(cfg, inp.now).Active? && Enforcing(cfg.spec))
            && (tr.restored > 0 ==>
                  && MayRestore(cfg, w.status, inp, tr)
                  && (o.Succeeded() ==> o.world.fleet == PassedFleet(Restore, w.fleet)))
            && (tr.scaled > 0 ==>
                  Enforcing(cfg.spec) && !WithinBudget(tr) && TtlReadable(cfg) && !PhaseAt(cfg, inp.now).Deleting?)
            && (tr.deferred ==> WithinBudget(tr))
            && (o.Succeeded() ==> TtlReadable(cfg))
            && (o.Succeeded() && Enforcing(cfg.spec) && !WithinBudget(tr) && !PhaseAt(cfg, inp.now).Deleting? ==>
                  o.world.fleet == PassedFleet(ScaleToZero, w.fleet))
  {
    NoProgress(w.fleet);
    hide NamespaceStage;
    if TtlReadable(cfg) {
      NamespaceStageLawful(cfg, PhaseAt(cfg, inp.now), w, inp, inp.fuse.Burn());
    }
  }

  /** Only a restore raises a workload, and only a scale takes one down. */
  lemma OnlyRestoreRaises(f: Fleet, f': Fleet, tr: Trace)
    requires OnePass(f, f', tr)
    ensures Raises(f, f') ==> tr.restored > 0
    ensures TakesDown(f, f') ==> tr.scaled > 0
  {
  }

  /** The record changes only by a successful reconcile that patched something, which notes its operation and time. */
  lemma StepRecord(cfg: Config, w: World, inp: Input)
    ensures var o := Step(cfg, w, inp); var s, s' := w.status, o.world.status;
            && (!o.Succeeded() ==> s' == s)
            && (o.Succeeded() ==>
                  if o.trace.scaled > 0 then
                    s'.lastEnforcementAt == Some(Stored(inp.opClock)) && s'.lastEnforcementOp == SCALE_TO_ZERO
                  else if o.trace.restored > 0 then
                    s'.lastEnforcementAt == Some(Stored(inp.opClock)) && s'.lastEnforcementOp == RESTORE
                  else
                    && s'.lastEnforcementAt == StoredOption(s.lastEnforcementAt)
                    && s'.lastEnforcementOp == s.lastEnforcementOp)
  {
    hide NamespaceStage;
    if TtlReadable(cfg) {
      NamespaceStageLawful(cfg, PhaseAt(cfg, inp.now), w, inp, inp.fuse.Burn());
    }
  }

  /** A namespace delete is issued by every successful reconcile past the grace period, and by no other phase; the delay
      asked for depends on the clock alone. */
  lemma StepDeletes(cfg: Config, w: World, inp: Input)
    ensures var o := Step(cfg, w, inp);
            && (o.world.deletes != w.deletes ==> TtlReadable(cfg) && PhaseAt(cfg, inp.now).Deleting?)
            && (o.Succeeded() ==>
                  && TtlReadable(cfg)
                  && o.world.deletes == w.deletes + (if PhaseAt(cfg, inp.now).Deleting? then 1 else 0)
                  && o.result == Asked(Delay(cfg, inp.now, inp.untilClock)))
  {
    hide NamespaceStage;
    if TtlReadable(cfg) {
      NamespaceStageLawful(cfg, PhaseAt(cfg, inp.now), w, inp, inp.fuse.Burn());
    }
  }

  /** What is stored reads back as itself. */
  predicate AsStored(s: Status) {
    StoredStatus(s) == s
  }

  /** Every successful reconcile leaves a status that reads back as itself, and no other touches it. */
  lemma StoredStaysStored(cfg: Config, w: World, inp: Input)
    requires AsStored(w.status) || Step(cfg, w, inp).Succeeded()
    ensures AsStored(Step(cfg, w, inp).world.status)
  {
    if TtlReadable(cfg) {
      ConcludeStores(cfg, w, inp, NamespaceStage(cfg, PhaseAt(cfg, inp.now), w, inp, inp.fuse.Burn()));
    }
  }

  lemma ConcludeStores(cfg: Config, w: World, inp: Input, v: Verdict)
    requires TtlReadable(cfg) && (AsStored(w.status) || Conclude(cfg, w, inp, v).Succeeded())
    ensures AsStored(Conclude(cfg, w, inp, v).world.status)
  {
    StoredTwice(Published(cfg, PhaseAt(cfg, inp.now), v.status, v.trace));
  }

  lemma StoredTwice(s: Status)
    ensures AsStored(StoredStatus(s))
  {
    forall t ensures Stored(Stored(t)) == Stored(t) { StoredMonotone(t, t); }
  }

  // ------------------------------------------------------------------------------------------
  // What a reconcile publishes.

  predicate Says(s: Status, condition: string) {
    condition in s.conditions && s.conditions[condition].isTrue
  }

  /** The risk test is the disjunction of the quota test and the dollar test on the resolved spend. */
  lemma TraceMeaning(cfg: Config, w: World, inp: Input)
    ensures var o := Step(cfg, w, inp); var tr := o.trace;
            && (tr.evaluated ==> tr.quotaAtHard == AtHardLimit(inp.hard, inp.used))
            && (tr.costOver <==>
                  tr.spend.Some? && MaxUSD(cfg).Some? && SpendAtOrOverMax(tr.spend.value, MaxUSD(cfg).value))
            && (tr.AtRisk() ==> tr.evaluated)
            && (o.Succeeded() && Enforcing(cfg.spec) && PhaseAt(cfg, inp.now).Active? ==>
                  tr.evaluated && (tr.spend.Some? <==> CostEnabled(cfg.spec)))
  {
    hide NamespaceStage;
    if TtlReadable(cfg) {
      NamespaceStageLawful(cfg, PhaseAt(cfg, inp.now), w, inp, inp.fuse.Burn());
    }
  }

  /** The published conditions follow the trace. */
  lemma ConditionsFollowTrace(cfg: Config, phase: Phase, st: Status, tr: Trace)
    requires TtlReadable(cfg) && (Enforcing(cfg.spec) && phase.Active? ==> tr.evaluated)
    requires tr.evaluated ==> Enforcing(cfg.spec)
    requires !phase.Active? ==> HasTtl(cfg)
    ensures var s := StoredStatus(Published(cfg, phase, st, tr));
            && (Says(s, OVER_BUDGET) <==> tr.evaluated && tr.AtRisk())
            && (Says(s, RECOVERY_DEFERRED) <==> tr.evaluated && tr.deferred)
            && (Says(s, READY) <==> phase.Active?)
            && (HasTtl(cfg) ==> (Says(s, EXPIRED) <==> !phase.Active?) && s.expiresAt == Some(Stored(Expiry(cfg))))
  {
  }

  /** A successful reconcile stores what it found: expiry, breach, deferral and phase. */
  lemma SuccessPublishes(cfg: Config, w: World, inp: Input)
    requires Step(cfg, w, inp).Succeeded()
    ensures var o := Step(cfg, w, inp); var s := o.world.status; var phase := PhaseAt(cfg, inp.now);
            && (Says(s, OVER_BUDGET) <==> o.trace.evaluated && o.trace.AtRisk())
            && (Says(s, RECOVERY_DEFERRED) <==> o.trace.evaluated && o.trace.deferred)
            && (Says(s, READY) <==> phase.Active?)
            && (HasTtl(cfg) ==>
                  (Says(s, EXPIRED) <==> inp.now >= Expiry(cfg)) && s.expiresAt == Some(Stored(Expiry(cfg))))
  {
    hide NamespaceStage, Published;
    var phase := PhaseAt(cfg, inp.now);
    NamespaceStageLawful(cfg, phase, w, inp, inp.fuse.Burn());
    var v := NamespaceStage(cfg, phase, w, inp, inp.fuse.Burn());
    ConditionsFollowTrace(cfg, phase, v.status, v.trace);
  }

  /** A finished scale pass: everything not exempt is at an explicit zero; what the pass zeroed carries a saved count,
      the one owed if the workload was sound; nothing but replicas and that one annotation differs, and what it did
      not zero is as it was. */
  ghost predicate ScaledDown(f: Fleet, f': Fleet) {
    && AllDown(f')
    && Pairwise(f, f', SameBesides)
    && Pairwise(f, f', ZeroedAndSaved)
  }

  ghost predicate ZeroedAndSaved(w: Workload, w': Workload) {
    if Touches(ScaleToZero, w) then
      && w'.replicas == Some(0) && HasSaved(w')
      && (forall claim :: Sound(claim, w) ==> Saved(w') == Some(Intended(claim, w)))
    else w' == w
  }

  lemma PassScalesDown(f: Fleet)
    ensures ScaledDown(f, PassedFleet(ScaleToZero, f))
  {
    forall w: Workload
      ensures Down(Passed(ScaleToZero, w)) && SameBesides(w, Passed(ScaleToZero, w))
      ensures ZeroedAndSaved(w, Passed(ScaleToZero, w))
    {
      ScaledKeepsCount(w);
      PassedSettles(ScaleToZero, w);
    }
  }

  /** A published breach is true of the cluster: OverBudget is True exactly after a reconcile that found a limit
      reached, and then the cluster is scaled down. */
  lemma PublishedBreachIsTrue(cfg: Config, w: World, inp: Input)
    requires Step(cfg, w, inp).Succeeded()
    ensures var o := Step(cfg, w, inp);
            && (Says(o.world.status, OVER_BUDGET) <==> o.trace.evaluated && o.trace.AtRisk())
            && (Says(o.world.status, OVER_BUDGET) ==> ScaledDown(w.fleet, o.world.fleet))
  {
    hide Step;
    StepFleet(cfg, w, inp);
    SuccessPublishes(cfg, w, inp);
    PassScalesDown(w.fleet);
  }

  /** A workload is waiting for a restore. */
  predicate SomePending(f: Fleet) {
    AnyPending(f.deployments) || AnyPending(f.statefulSets)
  }

  /** The restore stage finds the budget kept, and either restores everything or defers. */
  lemma RestoreStageExact(cfg: Config, w: World, st: Status, inp: Input, spend: real, fuse: Fuse, tr: Trace)
    requires Cooldown(cfg).Some? && WithinBudgetForRestore(cfg, spend) == Some(true)
    requires tr.scaled == 0 && tr.restored == 0 && !tr.deferred
    requires RestoreStage(cfg, w, st, inp, Cooldown(cfg).value, spend, fuse, tr).ok
    ensures var v := RestoreStage(cfg, w, st, inp, Cooldown(cfg).value, spend, fuse, tr);
            var can := CanRestore(st.lastEnforcementOp, st.lastEnforcementAt, Cooldown(cfg).value, inp.now);
            && v.fleet == (if can then PassedFleet(Restore, w.fleet) else w.fleet)
            && v.trace.restored == (if can then FleetWork(Restore, w.fleet) else 0)
            && (v.trace.deferred <==> !can && SomePending(w.fleet))
  {
    var q := PendingFleet(w.fleet, fuse);
    if !q.pending {
      NothingPending(w.fleet, fuse);
      FleetWorkNone(Restore, w.fleet);
    }
    PassSplit(Restore, w.fleet, q.fuse);
  }

  /** An assessment that found the budget kept makes the later refusal to restore unreachable. */
  lemma RestoreRefusalUnreachable(cfg: Config, st: Status, inp: Input, fuse: Fuse)
    requires Assess(cfg, st, inp, fuse).ok && WithinBudget(Assess(cfg, st, inp, fuse).trace)
    ensures WithinBudgetForRestore(cfg, Assess(cfg, st, inp, fuse).spend) == Some(true)
  {
    if CostEnabled(cfg.spec) {
      SpendTestsComplementary(cfg, Assess(cfg, st, inp, fuse).spend);
    }
  }

  /** What a successful reconcile that found the budget kept does, with restore on: it restores everything unless the
      cooldown runs, and defers exactly when the cooldown runs and something is pending; with restore off, nothing. */
  ghost predicate Recovered(cfg: Config, w: World, inp: Input, fleet: Fleet, tr: Trace)
    requires Cooldown(cfg).Some?
  {
    var on := cfg.spec.enforcement.restoreOnRecovery;
    var can := CanRestore(w.status.lastEnforcementOp, w.status.lastEnforcementAt, Cooldown(cfg).value, inp.now);
    && fleet == (if on && can then PassedFleet(Restore, w.fleet) else w.fleet)
    && tr.restored == (if on && can then FleetWork(Restore, w.fleet) else 0)
    && (tr.deferred <==> on && !can && SomePending(w.fleet))
  }

  lemma EnforceStageRecovers(cfg: Config, w: World, inp: Input, fuse: Fuse)
    requires EnforceStage(cfg, w, inp, fuse).ok && WithinBudget(EnforceStage(cfg, w, inp, fuse).trace)
    ensures Cooldown(cfg).Some?
    ensures var v := EnforceStage(cfg, w, inp, fuse); Recovered(cfg, w, inp, v.fleet, v.trace)
  {
    EnforceStageLawful(cfg, w, inp, fuse);
    var a := Assess(cfg, w.status, inp, fuse);
    RestoreRefusalUnreachable(cfg, w.status, inp, fuse);
    if cfg.spec.enforcement.restoreOnRecovery {
      RestoreStageExact(cfg, w, a.status, inp, a.spend, a.fuse, a.trace);
    }
  }

  /** The recovery decision is exact: restore everything, or defer because of the cooldown; there is no third way. */
  lemma RecoveryIsExact(cfg: Config, w: World, inp: Input)
    requires var o := Step(cfg, w, inp); o.Succeeded() && WithinBudget(o.trace)
    ensures Cooldown(cfg).Some?
    ensures Recovered(cfg, w, inp, Step(cfg, w, inp).world.fleet, Step(cfg, w, inp).trace)
  {
    NamespaceStageLawful(cfg, PhaseAt(cfg, inp.now), w, inp, inp.fuse.Burn());
    EnforceStageRecovers(cfg, w, inp, inp.fuse.Burn().Burn());
  }

  /** Deferral is exact: the condition is True exactly when enforcement and restore are on, the TTL runs, the budget is
      kept, something is pending, and the last operation is a scale-down younger than the cooldown. */
  lemma DeferralIsExact(cfg: Config, w: World, inp: Input)
    requires Step(cfg, w, inp).Succeeded()
    ensures var o := Step(cfg, w, inp); var s := w.status;
            Says(o.world.status, RECOVERY_DEFERRED) <==>
              && Enforcing(cfg.spec) && cfg.spec.enforcement.restoreOnRecovery
              && PhaseAt(cfg, inp.now).Active? && WithinBudget(o.trace) && SomePending(w.fleet)
              && s.lastEnforcementOp == SCALE_TO_ZERO && s.lastEnforcementAt.Some?
              && inp.now < s.lastEnforcementAt.value + Cooldown(cfg).value
  {
    hide Step;
    StepFleet(cfg, w, inp);
    SuccessPublishes(cfg, w, inp);
    if WithinBudget(Step(cfg, w, inp).trace) {
      RecoveryIsExact(cfg, w, inp);
    }
  }

  /** A trace shows the assessment, when the reconcile gets that far. */
  lemma TraceShowsAssessment(cfg: Config, w: World, inp: Input)
    ensures Assessed(Step(cfg, w, inp).trace)
            == if inp.fuse.Blown() || !CostBudgetValid(cfg) || !TtlReadable(cfg) || inp.fuse.Burn().Blown()
                  || !PhaseAt(cfg, inp.now).Active? || !Enforcing(cfg.spec) then QUIET
               else Assess(cfg, w.status, inp, inp.fuse.Burn().Burn()).trace
  {
    hide NamespaceStage;
    if TtlReadable(cfg) {
      NamespaceStageLawful(cfg, PhaseAt(cfg, inp.now), w, inp, inp.fuse.Burn());
    }
  }

  lemma AssessmentMonotone(cfg: Config, st: Status, inp: Input, used: map<string, int>, fuse: Fuse)
    requires inp.used.Keys <= used.Keys && forall name :: name in inp.used ==> inp.used[name] <= used[name]
    ensures var a, a' := Assess(cfg, st, inp, fuse), Assess(cfg, st, inp.(used := used), fuse);
            && a'.trace == a.trace.(quotaAtHard := a'.trace.quotaAtHard)
            && (a.trace.quotaAtHard ==> a'.trace.quotaAtHard)
  {
    if AtHardLimit(inp.hard, inp.used) {
      QuotaTestMonotone(inp.hard, inp.used, inp.hard, used);
    }
  }

  // ------------------------------------------------------------------------------------------
  // What a reconcile does with the spend cache.

  /** An assessment asks the billing export only when the cache has no answer, compares what it was told or what the
      cache holds, and a successful query is what it leaves in the status. */
  lemma AssessSpend(cfg: Config, st: Status, inp: Input, fuse: Fuse)
    ensures var a := Assess(cfg, st, inp, fuse); var cached := TrimSpace(st.lastObservedSpendUSD);
            && (a.trace.live ==> !CacheAnswers(cfg, st.lastCostQueryAt, st.lastObservedSpendUSD, inp.now))
            && (a.trace.spend.Some? && a.trace.live ==> a.trace.spend == Some(inp.billed))
            && (a.trace.spend.Some? && !a.trace.live ==>
                  && CacheAnswers(cfg, st.lastCostQueryAt, st.lastObservedSpendUSD, inp.now)
                  && a.trace.spend == cfg.codec.parseFloat(cached))
            && (a.ok && a.trace.live ==>
                  && a.status.lastCostQueryAt == Some(inp.now)
                  && a.status.lastObservedSpendUSD == cfg.codec.formatFloat(inp.billed))
            && (!a.trace.live ==> SameCache(st, a.status))
  {
  }

  lemma StepSpend(cfg: Config, w: World, inp: Input)
    ensures var o := Step(cfg, w, inp); var s, s' := w.status, o.world.status;
            && (o.trace.live ==> !CacheAnswers(cfg, s.lastCostQueryAt, s.lastObservedSpendUSD, inp.now))
            && (o.trace.spend.Some? && o.trace.live ==> o.trace.spend == Some(inp.billed))
            && (o.trace.spend.Some? && !o.trace.live ==>
                  && CacheAnswers(cfg, s.lastCostQueryAt, s.lastObservedSpendUSD, inp.now)
                  && o.trace.spend == cfg.codec.parseFloat(TrimSpace(s.lastObservedSpendUSD)))
            && (o.Succeeded() && o.trace.live ==>
                  && s'.lastCostQueryAt == Some(Stored(inp.now))
                  && s'.lastObservedSpendUSD == cfg.codec.formatFloat(inp.billed))
            && (o.Succeeded() && !o.trace.live ==>
                  && s'.lastCostQueryAt == StoredOption(s.lastCostQueryAt)
                  && s'.lastObservedSpendUSD == s.lastObservedSpendUSD)
            && (!o.Succeeded() ==> s' == s)
  {
    if TtlReadable(cfg) {
      StageSpend(cfg, PhaseAt(cfg, inp.now), w, inp, inp.fuse.Burn());
      ConcludeSpend(cfg, w, inp, NamespaceStage(cfg, PhaseAt(cfg, inp.now), w, inp, inp.fuse.Burn()));
    }
  }

  /** The part of a stage's outcome that concerns the cache, in terms of what was stored. */
  ghost predicate CacheLawful(cfg: Config, s: Status, inp: Input, v: Verdict) {
    && (v.trace.live ==> !CacheAnswers(cfg, s.lastCostQueryAt, s.lastObservedSpendUSD, inp.now))
    && (v.trace.spend.Some? && v.trace.live ==> v.trace.spend == Some(inp.billed))
    && (v.trace.spend.Some? && !v.trace.live ==>
          && CacheAnswers(cfg, s.lastCostQueryAt, s.lastObservedSpendUSD, inp.now)
          && v.trace.spend == cfg.codec.parseFloat(TrimSpace(s.lastObservedSpendUSD)))
    && (v.ok ==>
          if v.trace.live then
            && v.status.lastCostQueryAt == Some(inp.now)
            && v.status.lastObservedSpendUSD == cfg.codec.formatFloat(inp.billed)
          else SameCache(s, v.status))
  }

  lemma StageSpend(cfg: Config, phase: Phase, w: World, inp: Input, fuse: Fuse)
    ensures CacheLawful(cfg, w.status, inp, NamespaceStage(cfg, phase, w, inp, fuse))
  {
    NamespaceStageLawful(cfg, phase, w, inp, fuse);
    if phase.Active? && Enforcing(cfg.spec) && !fuse.Blown() {
      EnforceStageLawful(cfg, w, inp, fuse.Burn());
      AssessSpend(cfg, w.status, inp, fuse.Burn());
    }
  }

  lemma ConcludeSpend(cfg: Config, w: World, inp: Input, v: Verdict)
    requires TtlReadable(cfg)
    ensures var o := Conclude(cfg, w, inp, v);
            && o.trace == v.trace && (o.Succeeded() ==> v.ok) && (!o.Succeeded() ==> o.world.status == w.status)
            && (o.Succeeded() ==>
                  && o.world.status.lastCostQueryAt == StoredOption(v.status.lastCostQueryAt)
                  && o.world.status.lastObservedSpendUSD == v.status.lastObservedSpendUSD)
  {
  }

  // ------------------------------------------------------------------------------------------
  // When a reconcile succeeds, and how more usage changes its decision.

  lemma DecideStageClean(cfg: Config, w: World, st: Status, inp: Input, cooldown: int, spend: real, tr: Trace)
    requires CostBudgetValid(cfg)
    ensures var v := DecideStage(cfg, w, st, inp, cooldown, spend, Never, tr); v.ok && v.fuse.Never?
  {
    PassSplit(ScaleToZero, w.fleet, Never);
    PassSplit(Restore, w.fleet, Never);
  }

  /** The texts an error could come from are readable: those of the spec, and the cached spend. */
  predicate Readable(cfg: Config, s: Status) {
    && CostBudgetValid(cfg) && TtlReadable(cfg) && Cooldown(cfg).Some?
    && (CostEnabled(cfg.spec) ==>
          var cached := TrimSpace(s.lastObservedSpendUSD);
          cfg.hasQuerier && (cached != "" ==> cfg.codec.parseFloat(cached).Some?))
  }

  lemma NamespaceStageClean(cfg: Config, phase: Phase, w: World, inp: Input)
    requires Readable(cfg, w.status)
    ensures var v := NamespaceStage(cfg, phase, w, inp, Never); v.ok && v.fuse.Never?
  {
    if phase.Active? && Enforcing(cfg.spec) {
      var a := Assess(cfg, w.status, inp, Never);
      DecideStageClean(cfg, w, a.status, inp, Cooldown(cfg).value, a.spend, a.trace);
    }
    PassSplit(ScaleToZero, w.fleet, Never);
  }

  /** No error is left when no call fails and the texts of spec and status are readable. */
  lemma CleanStepSucceeds(cfg: Config, w: World, inp: Input)
    requires inp.fuse.Never? && Readable(cfg, w.status)
    ensures Step(cfg, w, inp).Succeeded()
  {
    hide NamespaceStage;
    NamespaceStageClean(cfg, PhaseAt(cfg, inp.now), w, inp);
  }

  /** Raising usage can only turn a decision to leave the workloads running into a decision to scale them: the
      assessment happens alike, on the same spend, and a risk stays one. */
  lemma MoreUsageMoreRisk(cfg: Config, w: World, inp: Input, used: map<string, int>)
    requires inp.used.Keys <= used.Keys && forall name :: name in inp.used ==> inp.used[name] <= used[name]
    ensures var tr, tr' := Step(cfg, w, inp).trace, Step(cfg, w, inp.(used := used)).trace;
            && (tr.evaluated <==> tr'.evaluated) && tr'.spend == tr.spend
            && (tr.AtRisk() ==> tr'.AtRisk())
  {
    TraceShowsAssessment(cfg, w, inp);
    TraceShowsAssessment(cfg, w, inp.(used := used));
    AssessmentMonotone(cfg, w.status, inp, used, inp.fuse.Burn().Burn());
  }
}
