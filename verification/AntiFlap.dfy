/** The anti-flap cooldown over whole runs. */
module AntiFlap {
  import opened Api
  import opened CostBudget
  import opened Enforcement
  import opened Lifecycle
  import opened Passes
  import opened ReconcileSpec
  import opened Runs
  import opened StepLaws
  import opened Workloads
  import opened Wrappers

  /** Before event `n` a restore is blocked until `taken + cooldown`, or that time has been reached already. */
  ghost predicate Guarded(r: Run, n: nat, taken: int, cooldown: int)
    requires n < |r.worlds| == |r.events| + 1
  {
    var s := r.worlds[n].status;
    || (s.lastEnforcementOp == SCALE_TO_ZERO && s.lastEnforcementAt.Some? && s.lastEnforcementAt.value >= taken)
    || (exists k :: 0 <= k < n && r.events[k].Reconcile? && r.events[k].inp.now >= taken + cooldown)
  }

  /** A guarded record admits a restore only after the cooldown, and stays guarded. */
  lemma GuardKept(cfg: Config, r: Run, n: nat, taken: int, cooldown: int)
    requires IsRun(cfg, r) && Clocked(r) && n < |r.events| && Cooldown(cfg) == Some(cooldown)
    requires Stored(taken) == taken && Guarded(r, n, taken, cooldown)
    requires r.events[n].Reconcile? ==> taken <= r.events[n].inp.now
    ensures Guarded(r, n + 1, taken, cooldown)
    ensures r.events[n].Reconcile? && r.events[n].out.trace.restored > 0 ==> r.events[n].inp.now >= taken + cooldown
  {
    hide Step;
    assert Link(cfg, r, n);
    if r.events[n].Reconcile? {
      var before, inp := r.worlds[n], r.events[n].inp;
      StepFleet(cfg, before, inp);
      StepRecord(cfg, before, inp);
      StoredMonotone(taken, inp.opClock);
      if before.status.lastEnforcementAt.Some? && taken <= before.status.lastEnforcementAt.value {
        StoredMonotone(taken, before.status.lastEnforcementAt.value);
      }
    }
  }

  /** From a stored scale-down at event `i` on the record is guarded. */
  lemma {:induction false} GuardHolds(cfg: Config, r: Run, i: nat, n: nat, cooldown: int)
    requires IsRun(cfg, r) && Clocked(r) && i < n <= |r.events| && Cooldown(cfg) == Some(cooldown)
    requires r.events[i].Reconcile? && r.events[i].out.Succeeded() && r.events[i].out.trace.scaled > 0
    ensures Guarded(r, n, Stored(r.events[i].inp.opClock), cooldown)
    decreases n
  {
    hide Step;
    if n == i + 1 {
      assert Link(cfg, r, i);
      StepRecord(cfg, r.worlds[i], r.events[i].inp);
    } else {
      GuardHolds(cfg, r, i, n - 1, cooldown);
      StoredMonotone(r.events[i].inp.opClock, r.events[i].inp.opClock);
      GuardKept(cfg, r, n - 1, Stored(r.events[i].inp.opClock), cooldown);
    }
  }

  /** Anti-flap over whole runs: once a reconcile that stored its status has taken a workload down, no later reconcile
      raises any workload before the stored time of that take-down plus the cooldown, so none within the cooldown less
      the fraction of a second that storing cuts off. Other reconciles may fail anywhere, workloads may be edited. */
  lemma NoRestoreWithinCooldown(cfg: Config, r: Run, i: nat, j: nat, cooldown: int)
    requires IsRun(cfg, r) && Clocked(r) && i < j < |r.events|
    requires if cfg.spec.enforcement.enforcementCooldown == "" then cooldown == 120_000_000_000
             else cfg.codec.parseDuration(cfg.spec.enforcement.enforcementCooldown) == Some(cooldown)
    requires r.events[i].Reconcile? && r.events[i].out.Succeeded()
    requires TakesDown(r.worlds[i].fleet, r.worlds[i + 1].fleet)
    requires r.events[j].Reconcile? && Raises(r.worlds[j].fleet, r.worlds[j + 1].fleet)
    ensures r.events[j].inp.now >= Stored(r.events[i].inp.opClock) + cooldown
    ensures r.events[j].inp.now > r.events[i].inp.opClock + cooldown - SECOND
  {
    hide Step;
    assert Link(cfg, r, i) && Link(cfg, r, j);
    StepFleet(cfg, r.worlds[i], r.events[i].inp);
    OnlyRestoreRaises(r.worlds[i].fleet, r.worlds[i + 1].fleet, r.events[i].out.trace);
    StepFleet(cfg, r.worlds[j], r.events[j].inp);
    OnlyRestoreRaises(r.worlds[j].fleet, r.worlds[j + 1].fleet, r.events[j].out.trace);
    GuardHolds(cfg, r, i, j, cooldown);
    StoredMonotone(r.events[i].inp.opClock, r.events[i].inp.opClock);
    GuardKept(cfg, r, j, Stored(r.events[i].inp.opClock), cooldown);
  }

  /** A reconcile that patched something and stored when. */
  predicate Records(e: Event) {
    e.Reconcile? && e.out.Succeeded() && (e.out.trace.scaled > 0 || e.out.trace.restored > 0)
  }

  /** No event from `i` on and before `n` writes a new enforcement record. */
  ghost predicate NoRecord(r: Run, i: nat, n: nat)
    requires n <= |r.events|
  {
    forall k :: i <= k < n ==> !Records(r.events[k])
  }

  /** Without a new record the old one stays, whatever else happens. */
  lemma {:induction false} RecordStays(cfg: Config, r: Run, i: nat, n: nat)
    requires IsRun(cfg, r) && i <= n <= |r.events| && NoRecord(r, i, n) && AsStored(r.worlds[i].status)
    ensures AsStored(r.worlds[n].status)
    ensures r.worlds[n].status.lastEnforcementOp == r.worlds[i].status.lastEnforcementOp
    ensures r.worlds[n].status.lastEnforcementAt == r.worlds[i].status.lastEnforcementAt
    decreases n
  {
    hide Step;
    if i < n {
      RecordStays(cfg, r, i, n - 1);
      assert Link(cfg, r, n - 1);
      if r.events[n - 1].Reconcile? {
        StepRecord(cfg, r.worlds[n - 1], r.events[n - 1].inp);
        StoredStaysStored(cfg, r.worlds[n - 1], r.events[n - 1].inp);
      }
    }
  }

  /** A successful reconcile that finds the budget kept, with restore on. */
  ghost predicate Recovers(cfg: Config, e: Event) {
    && e.Reconcile? && e.out.Succeeded() && WithinBudget(e.out.trace)
    && cfg.spec.enforcement.restoreOnRecovery && Cooldown(cfg).Some?
  }

  /** The cooldown counts exactly from the stored time of the take-down: as long as no newer operation is recorded,
      and whatever fails or is edited in between, a recovering reconcile restores everything if that time plus the
      cooldown is reached, and changes nothing otherwise. */
  lemma CooldownIsExact(cfg: Config, r: Run, i: nat, j: nat, cooldown: int)
    requires if cfg.spec.enforcement.enforcementCooldown == "" then cooldown == 120_000_000_000
             else cfg.codec.parseDuration(cfg.spec.enforcement.enforcementCooldown) == Some(cooldown)
    requires IsRun(cfg, r) && i < j < |r.events| && NoRecord(r, i + 1, j) && Recovers(cfg, r.events[j])
    requires r.events[i].Reconcile? && r.events[i].out.Succeeded() && r.events[i].out.trace.scaled > 0
    ensures r.worlds[j + 1].fleet ==
            if r.events[j].inp.now >= Stored(r.events[i].inp.opClock) + cooldown
            then PassedFleet(Restore, r.worlds[j].fleet) else r.worlds[j].fleet
  {
    hide Step;
    assert Link(cfg, r, i) && Link(cfg, r, j);
    StepRecord(cfg, r.worlds[i], r.events[i].inp);
    StoredStaysStored(cfg, r.worlds[i], r.events[i].inp);
    RecordStays(cfg, r, i + 1, j);
    RecoveryIsExact(cfg, r.worlds[j], r.events[j].inp);
  }

  // ------------------------------------------------------------------------------------------
  // The cooldown clock does not slide.

  /** While no reconcile finds the budget kept and nobody raises a workload, a cluster that is down keeps its
      enforcement record: repeated reconciles patch nothing, so the cooldown counts from the first scale-down.
      Nor do they make up for a record that was lost. */
  lemma {:induction false} CooldownDoesNotSlide(cfg: Config, r: Run, n: nat)
    requires IsRun(cfg, r) && n <= |r.events| && AllDown(r.worlds[0].fleet) && AsStored(r.worlds[0].status)
    requires forall i :: 0 <= i < |r.events| && r.events[i].Edit? ==> AllDown(r.worlds[i + 1].fleet)
    requires forall i :: 0 <= i < |r.events| && r.events[i].Reconcile? ==> !WithinBudget(r.events[i].out.trace)
    ensures AllDown(r.worlds[n].fleet) && AsStored(r.worlds[n].status)
    ensures r.worlds[n].status.lastEnforcementAt == r.worlds[0].status.lastEnforcementAt
    ensures r.worlds[n].status.lastEnforcementOp == r.worlds[0].status.lastEnforcementOp
  {
    hide Step;
    if n > 0 {
      CooldownDoesNotSlide(cfg, r, n - 1);
      assert Link(cfg, r, n - 1);
      if r.events[n - 1].Reconcile? {
        var before, inp := r.worlds[n - 1], r.events[n - 1].inp;
        StepFleet(cfg, before, inp);
        StepRecord(cfg, before, inp);
        StoredStaysStored(cfg, before, inp);
        AllDownMeansNoWork(before.fleet);
      }
    }
  }

  // ------------------------------------------------------------------------------------------
  // Why the take-down must have stored its status.

  /** A take-down whose status was not stored leaves the cooldown to the record of before: as long as no operation is
      recorded, through any retries, failures and edits, a recovering reconcile restores everything exactly when that
      older record allows it. */
  lemma LostStatusLosesCooldown(cfg: Config, r: Run, i: nat, j: nat)
    requires IsRun(cfg, r) && i < j < |r.events| && AsStored(r.worlds[i].status) && Recovers(cfg, r.events[j])
    requires r.events[i].Reconcile? && !r.events[i].out.Succeeded() && NoRecord(r, i + 1, j)
    ensures var older := r.worlds[i].status;
            r.worlds[j + 1].fleet ==
            if CanRestore(older.lastEnforcementOp, older.lastEnforcementAt, Cooldown(cfg).value, r.events[j].inp.now)
            then PassedFleet(Restore, r.worlds[j].fleet) else r.worlds[j].fleet
  {
    hide Step;
    RecordStays(cfg, r, i, j);
    assert Link(cfg, r, j);
    RecoveryIsExact(cfg, r.worlds[j], r.events[j].inp);
  }

  lemma GoesDownAndUp(w: Workload)
    requires Touches(ScaleToZero, w)
    ensures var down := Passed(ScaleToZero, w);
            !NotTakenDown(w, down) && (Sound(FirstSaved, w) ==> !NotRaised(down, Passed(Restore, down)))
  {
    ScaledKeepsCount(w);
  }

  lemma FirstTouched(op: Op, ws: seq<Workload>) returns (i: nat)
    requires Work(op, ws) > 0
    ensures i < |ws| && Touches(op, ws[i])
  {
    WorkNone(op, ws);
    i :| 0 <= i < |ws| && Touches(op, ws[i]);
  }

  /** A fleet with work for a scale is taken down by it, and a restore would raise it again if its counts are sound. */
  lemma WorkGoesDownAndUp(f: Fleet)
    requires FleetWork(ScaleToZero, f) > 0
    ensures TakesDown(f, PassedFleet(ScaleToZero, f))
    ensures SoundFleet(FirstSaved, f) ==>
              Raises(PassedFleet(ScaleToZero, f), PassedFleet(Restore, PassedFleet(ScaleToZero, f)))
  {
    if Work(ScaleToZero, f.deployments) > 0 {
      var i := FirstTouched(ScaleToZero, f.deployments);
      GoesDownAndUp(f.deployments[i]);
    } else {
      var j := FirstTouched(ScaleToZero, f.statefulSets);
      GoesDownAndUp(f.statefulSets[j]);
    }
  }

  /** At a limit, and cut short at the very last call: the status update. */
  function CutAtStatus(f: Fleet, t: int): Input {
    Input(t, t, t, map["pods" := 1], map["pods" := 1], 0.0, After(5 + FleetWork(ScaleToZero, f)), true)
  }

  /** Below the limit again, and nothing fails. */
  function BudgetKept(t: int): Input {
    Input(t, t, t, map["pods" := 1], map["pods" := 0], 0.0, Never, false)
  }

  lemma CutTakesDown(cfg: Config, f: Fleet, t: int)
    requires Enforcing(cfg.spec) && Cooldown(cfg).Some? && !HasTtl(cfg) && !CostEnabled(cfg.spec)
    ensures var o := Step(cfg, World(f, FRESH, 0), CutAtStatus(f, t));
            !o.Succeeded() && o.world == World(PassedFleet(ScaleToZero, f), FRESH, 0)
  {
    hide Assess;
    var inp := CutAtStatus(f, t);
    CutIsAtRisk(cfg, f, t);
    PassUsesCalls(ScaleToZero, f, 2 + FleetWork(ScaleToZero, f));
    PassSplit(ScaleToZero, f, After(2 + FleetWork(ScaleToZero, f)));
    hide Pass;
    var v := NamespaceStage(cfg, Active, World(f, FRESH, 0), inp, After(4 + FleetWork(ScaleToZero, f)));
    assert v.ok && v.fleet == PassedFleet(ScaleToZero, f) && v.fuse == After(0) && v.deletes == 0;
  }

  lemma CutIsAtRisk(cfg: Config, f: Fleet, t: int)
    requires Cooldown(cfg).Some? && !CostEnabled(cfg.spec)
    ensures var work := FleetWork(ScaleToZero, f);
            var a := Assess(cfg, FRESH, CutAtStatus(f, t), After(3 + work));
            a.ok && a.status == FRESH && a.fuse == After(2 + work) && a.trace.AtRisk()
  {
    assert "pods" in CutAtStatus(f, t).hard;
  }

  /** The premise is needed: for any sound fleet with something to scale, and any cooldown, there is a run in which a
      reconcile takes workloads down at `t`, only its status update conflicts, and the next reconcile raises them at
      `later`, which may be as soon as one likes. */
  lemma FlapWithoutStoredStatus(cfg: Config, f: Fleet, t: int, later: int)
    requires Enforcing(cfg.spec) && cfg.spec.enforcement.restoreOnRecovery && Cooldown(cfg).Some?
    requires !HasTtl(cfg) && !CostEnabled(cfg.spec)
    requires FleetWork(ScaleToZero, f) > 0 && SoundFleet(FirstSaved, f) && t <= later
    ensures var r := Execute(cfg, World(f, FRESH, 0), [Arrives(CutAtStatus(f, t)), Arrives(BudgetKept(later))]);
            && IsRun(cfg, r) && Clocked(r)
            && r.events[1].inp.now == later
            && TakesDown(r.worlds[0].fleet, r.worlds[1].fleet)
            && Raises(r.worlds[1].fleet, r.worlds[2].fleet)
  {
    hide Step, Execute, Raises, TakesDown, FleetWork, IsRun;
    var first, second := CutAtStatus(f, t), BudgetKept(later);
    ExecuteIsRun(cfg, World(f, FRESH, 0), [Arrives(first), Arrives(second)]);
    TwoReconciles(cfg, World(f, FRESH, 0), first, second);
    FlapStepByStep(cfg, f, t, later);
  }

  lemma FlapStepByStep(cfg: Config, f: Fleet, t: int, later: int)
    requires Enforcing(cfg.spec) && cfg.spec.enforcement.restoreOnRecovery && Cooldown(cfg).Some?
    requires !HasTtl(cfg) && !CostEnabled(cfg.spec)
    requires FleetWork(ScaleToZero, f) > 0 && SoundFleet(FirstSaved, f)
    ensures var w1 := Step(cfg, World(f, FRESH, 0), CutAtStatus(f, t)).world;
            && TakesDown(f, w1.fleet)
            && Raises(w1.fleet, Step(cfg, w1, BudgetKept(later)).world.fleet)
  {
    hide Step, Raises, TakesDown, PassedFleet, FleetWork;
    CutTakesDown(cfg, f, t);
    RestoredAtOnce(cfg, PassedFleet(ScaleToZero, f), later);
    WorkGoesDownAndUp(f);
  }

  lemma RestoredAtOnce(cfg: Config, f: Fleet, later: int)
    requires Enforcing(cfg.spec) && cfg.spec.enforcement.restoreOnRecovery && Cooldown(cfg).Some?
    requires !HasTtl(cfg) && !CostEnabled(cfg.spec)
    ensures Step(cfg, World(f, FRESH, 0), BudgetKept(later)).world.fleet == PassedFleet(Restore, f)
  {
    hide Step;
    var w := World(f, FRESH, 0);
    CleanStepSucceeds(cfg, w, BudgetKept(later));
    TraceMeaning(cfg, w, BudgetKept(later));
    RecoveryIsExact(cfg, w, BudgetKept(later));
  }
}
