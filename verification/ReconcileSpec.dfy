/** One reconcile as a function of what is stored, what the clock and the cluster show, and where an API call fails. */
module ReconcileSpec {
  import opened Api
  import opened CostBudget
  import opened Enforcement
  import opened Lifecycle
  import opened Passes
  import opened Workloads
  import opened Wrappers

  /** What the API server holds: the workloads, the stored status, and how often the namespace delete was issued. */
  datatype World = World(fleet: Fleet, status: Status, deletes: nat)

  /** What one reconcile meets: its three clock readings, the quota object, the bill, and the failing call.
      `conflict` tells what a failing status update fails with. */
  datatype Input = Input(
    now: int,
    untilClock: int,
    opClock: int,
    hard: map<string, int>,
    used: map<string, int>,
    billed: real,
    fuse: Fuse,
    conflict: bool)

  datatype Result = Failed | Conflicted | RequeueAfter(delay: int) | NoRequeue

  /** What one reconcile did on its way. `spend` is the amount compared with the limit, `live` a billing query. */
  datatype Trace = Trace(
    evaluated: bool,
    quotaAtHard: bool,
    costOver: bool,
    spend: Option<real>,
    live: bool,
    scaled: nat,
    restored: nat,
    deferred: bool)
  {
    predicate AtRisk() {
      quotaAtHard || costOver
    }
  }

  const QUIET := Trace(false, false, false, None, false, 0, 0, false)

  datatype Outcome = Outcome(world: World, result: Result, trace: Trace)
  {
    /** The reconcile succeeded, so its status was stored. */
    predicate Succeeded() {
      result.RequeueAfter? || result.NoRequeue?
    }
  }

  // ------------------------------------------------------------------------------------------
  // The work on the namespace, up to the point where the status is put together.

  /** `status` is the in-memory one; `ok` is false when an error ends the reconcile. */
  datatype Verdict = Verdict(ok: bool, fleet: Fleet, status: Status, deletes: nat, fuse: Fuse, trace: Trace)

  function Enforced(st: Status, at: int, op: string): Status {
    st.(lastEnforcementAt := Some(at), lastEnforcementOp := op)
  }

  function ScaleStage(w: World, st: Status, inp: Input, fuse: Fuse, tr: Trace): Verdict {
    var p := Pass(ScaleToZero, w.fleet, fuse);
    Verdict(p.ok, p.fleet, if p.ok && p.count > 0 then Enforced(st, inp.opClock, SCALE_TO_ZERO) else st,
            w.deletes, p.fuse, tr.(scaled := p.count))
  }

  function RestoreStage(cfg: Config, w: World, st: Status, inp: Input, cooldown: int, spend: real,
                        fuse: Fuse, tr: Trace): Verdict {
    var q := PendingFleet(w.fleet, fuse);
    if !q.ok then Verdict(false, w.fleet, st, w.deletes, q.fuse, tr)
    else if !q.pending then Verdict(true, w.fleet, st, w.deletes, q.fuse, tr)
    else
      var okCost := WithinBudgetForRestore(cfg, spend);
      if okCost.None? then Verdict(false, w.fleet, st, w.deletes, q.fuse, tr)
      else if !okCost.value then Verdict(true, w.fleet, st, w.deletes, q.fuse, tr)
      else if !CanRestore(st.lastEnforcementOp, st.lastEnforcementAt, cooldown, inp.now) then
        Verdict(true, w.fleet, st, w.deletes, q.fuse, tr.(deferred := true))
      else
        var p := Pass(Restore, w.fleet, q.fuse);
        Verdict(p.ok, p.fleet, if p.ok && p.count > 0 then Enforced(st, inp.opClock, RESTORE) else st,
                w.deletes, p.fuse, tr.(restored := p.count))
  }

  /** The budget decision, taken once quota and spend are known. */
  function DecideStage(cfg: Config, w: World, st: Status, inp: Input, cooldown: int, spend: real,
                       fuse: Fuse, tr: Trace): Verdict {
    if tr.AtRisk() then ScaleStage(w, st, inp, fuse, tr)
    else if cfg.spec.enforcement.restoreOnRecovery then RestoreStage(cfg, w, st, inp, cooldown, spend, fuse, tr)
    else Verdict(true, w.fleet, st, w.deletes, fuse, tr)
  }

  /** What the limits are compared with: `status` carries a fresh query, `trace` the two tests. */
  datatype Assessment = Assessment(ok: bool, status: Status, spend: real, fuse: Fuse, trace: Trace)

  /** Read the quota object and the spend, and compare them with their limits. */
  function Assess(cfg: Config, st: Status, inp: Input, fuse: Fuse): Assessment {
    if Cooldown(cfg).None? || fuse.Blown() then Assessment(false, st, 0.0, fuse, QUIET)
    else
      var quota := QUIET.(evaluated := true, quotaAtHard := AtHardLimit(inp.hard, inp.used));
      if !CostEnabled(cfg.spec) then Assessment(true, st, 0.0, fuse.Burn(), quota)
      else
        var s := ResolveSpend(cfg, st.lastCostQueryAt, st.lastObservedSpendUSD, inp.now, inp.billed, fuse.Burn());
        var st1 := st.(lastCostQueryAt := s.lastCostQueryAt, lastObservedSpendUSD := s.lastObservedSpendUSD);
        var max := MaxUSD(cfg);
        if !s.ok || max.None? then Assessment(false, st1, s.spend, s.fuse, quota.(live := s.live))
        else
          Assessment(true, st1, s.spend, s.fuse,
                     quota.(live := s.live, spend := Some(s.spend), costOver := SpendAtOrOverMax(s.spend, max.value)))
  }

  /** Enforcement while the TTL runs: assess, then decide. */
  function EnforceStage(cfg: Config, w: World, inp: Input, fuse: Fuse): Verdict {
    var a := Assess(cfg, w.status, inp, fuse);
    if !a.ok then Verdict(false, w.fleet, a.status, w.deletes, a.fuse, a.trace)
    else DecideStage(cfg, w, a.status, inp, Cooldown(cfg).value, a.spend, a.fuse, a.trace)
  }

  function NamespaceStage(cfg: Config, phase: Phase, w: World, inp: Input, fuse: Fuse): Verdict {
    match phase
    case Active =>
      // One call stands for ensuring the Namespace, ResourceQuota and LimitRange.
      if fuse.Blown() then Verdict(false, w.fleet, w.status, w.deletes, fuse, QUIET)
      else if Enforcing(cfg.spec) then EnforceStage(cfg, w, inp, fuse.Burn())
      else Verdict(true, w.fleet, w.status, w.deletes, fuse.Burn(), QUIET)
    case Grace =>
      if Enforcing(cfg.spec) then ScaleStage(w, w.status, inp, fuse, QUIET)
      else Verdict(true, w.fleet, w.status, w.deletes, fuse, QUIET)
    case Deleting =>
      if fuse.Blown() then Verdict(false, w.fleet, w.status, w.deletes, fuse, QUIET)
      else Verdict(true, w.fleet, w.status, w.deletes + 1, fuse.Burn(), QUIET)
  }

  // ------------------------------------------------------------------------------------------
  // The published status.

  const EXPIRED := "Expired"
  const OVER_BUDGET := "OverBudget"
  const RECOVERY_DEFERRED := "EnforcementRecoveryDeferred"
  const READY := "Ready"

  function OverBudgetReason(quotaAtHard: bool, costOver: bool): string {
    if quotaAtHard && costOver then "CostBudgetAndQuotaExceeded"
    else if costOver then "CostBudgetExceeded"
    else "ResourceQuotaAtOrOverHard"
  }

  function ExpiredCondition(phase: Phase): Condition {
    if phase.Active? then Condition(false, "TTLActive") else Condition(true, "TTLExpired")
  }

  /** None: the condition is left as it was. */
  function OverBudgetCondition(cfg: Config, phase: Phase, tr: Trace): Option<Condition> {
    if !Enforcing(cfg.spec) then Some(Condition(false, "EnforcementDisabled"))
    else if tr.evaluated then
      if tr.AtRisk() then Some(Condition(true, OverBudgetReason(tr.quotaAtHard, tr.costOver)))
      else Some(Condition(false, "WithinBudget"))
    else if HasTtl(cfg) && !phase.Active? then Some(Condition(false, "TTLExpired"))
    else None
  }

  function DeferredCondition(cfg: Config, tr: Trace): Condition {
    if !Enforcing(cfg.spec) || !tr.evaluated then Condition(false, "NotApplicable")
    else if tr.deferred then Condition(true, "AwaitingEnforcementCooldown")
    else Condition(false, "NotDeferred")
  }

  function ReadyCondition(phase: Phase): Condition {
    if phase.Active? then Condition(true, "NamespaceReady") else Condition(false, "TTLExpired")
  }

  function WithExpired(cfg: Config, phase: Phase, c: map<string, Condition>): map<string, Condition> {
    if HasTtl(cfg) then c[EXPIRED := ExpiredCondition(phase)] else c
  }

  function WithOverBudget(cfg: Config, phase: Phase, tr: Trace, c: map<string, Condition>): map<string, Condition> {
    var over := OverBudgetCondition(cfg, phase, tr);
    if over.Some? then c[OVER_BUDGET := over.value] else c
  }

  function Published(cfg: Config, phase: Phase, st: Status, tr: Trace): Status
    requires TtlReadable(cfg)
  {
    var c := WithOverBudget(cfg, phase, tr, WithExpired(cfg, phase, st.conditions));
    st.(expiresAt := if HasTtl(cfg) then Some(Expiry(cfg)) else None,
        conditions := c[RECOVERY_DEFERRED := DeferredCondition(cfg, tr)][READY := ReadyCondition(phase)])
  }

  // ------------------------------------------------------------------------------------------
  // The whole reconcile.

  function Asked(delay: int): Result {
    if delay > 0 then RequeueAfter(delay) else NoRequeue
  }

  /** From the finished work to the stored status and the result. */
  function Conclude(cfg: Config, w: World, inp: Input, v: Verdict): Outcome
    requires TtlReadable(cfg)
  {
    if !v.ok then Outcome(World(v.fleet, w.status, v.deletes), Failed, v.trace)
    else if v.fuse.Blown() then
      Outcome(World(v.fleet, w.status, v.deletes), if inp.conflict then Conflicted else Failed, v.trace)
    else
      var st := Published(cfg, PhaseAt(cfg, inp.now), v.status, v.trace);
      Outcome(World(v.fleet, StoredStatus(st), v.deletes), Asked(Delay(cfg, inp.now, inp.untilClock)), v.trace)
  }

  function Step(cfg: Config, w: World, inp: Input): Outcome {
    if inp.fuse.Blown() || !CostBudgetValid(cfg) || !TtlReadable(cfg) then Outcome(w, Failed, QUIET)
    else Conclude(cfg, w, inp, NamespaceStage(cfg, PhaseAt(cfg, inp.now), w, inp, inp.fuse.Burn()))
  }
}
