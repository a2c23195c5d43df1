/** The reconcile loop body, step by step, proved to be the function `Step`. */
module Reconciler {
  import opened Api
  import opened Cluster
  import opened CostBudget
  import opened Enforcement
  import opened Lifecycle
  import opened ReconcileSpec
  import opened Text
  import opened Wrappers

  /** The fetched resource: a reconcile edits its status in memory and stores it at the end. */
  class BudgetNamespace {
    const cfg: Config
    var expiresAt: Option<int>
    var lastEnforcementAt: Option<int>
    var lastEnforcementOp: string
    var lastCostQueryAt: Option<int>
    var lastObservedSpendUSD: string
    var conditions: map<string, Condition>

    constructor (cfg: Config, s: Status)
      ensures this.cfg == cfg && StatusNow() == s
    {
      this.cfg := cfg;
      expiresAt, lastEnforcementAt, lastEnforcementOp := s.expiresAt, s.lastEnforcementAt, s.lastEnforcementOp;
      lastCostQueryAt, lastObservedSpendUSD, conditions := s.lastCostQueryAt, s.lastObservedSpendUSD, s.conditions;
    }

    function StatusNow(): Status
      reads this
    {
      Status(expiresAt, lastEnforcementAt, lastEnforcementOp, lastCostQueryAt, lastObservedSpendUSD, conditions)
    }

    /** `resolveNamespaceSpendUSD`. */
    method ResolveNamespaceSpendUSD(server: ApiServer, now: int, billed: real)
      returns (spend: real, ok: bool, live: bool)
      modifies this`lastCostQueryAt, this`lastObservedSpendUSD, server`fuse
      ensures SpendOutcome(ok, spend, live, lastCostQueryAt, lastObservedSpendUSD, server.fuse)
              == ResolveSpend(cfg, old(lastCostQueryAt), old(lastObservedSpendUSD), now, billed, old(server.fuse))
    {
      spend, live := 0.0, false;
      if !CostEnabled(cfg.spec) { return 0.0, true, false; }
      if !cfg.hasQuerier { return 0.0, false, false; }
      if !CostBudgetValid(cfg) { return 0.0, false, false; }
      var interval := QueryInterval(cfg);
      if lastCostQueryAt.Some? && now < lastCostQueryAt.value + interval {
        var s := TrimSpace(lastObservedSpendUSD);
        if s != "" {
          var cached := cfg.codec.parseFloat(s);
          if cached.None? { return 0.0, false, false; }
          return cached.value, true, false;
        }
      }
      live := true;
      ok := server.Call();
      if !ok { return; }
      lastCostQueryAt := Some(now);
      lastObservedSpendUSD := cfg.codec.formatFloat(billed);
      spend := billed;
    }

    method SetExpired(phase: Phase)
      modifies this`conditions
      ensures conditions == WithExpired(cfg, phase, old(conditions))
    {
      if cfg.spec.ttl != "" {
        if !phase.Active? {
          conditions := conditions[EXPIRED := Condition(true, "TTLExpired")];
        } else {
          conditions := conditions[EXPIRED := Condition(false, "TTLActive")];
        }
      }
    }

    method SetOverBudget(phase: Phase, tr: Trace)
      modifies this`conditions
      ensures conditions == WithOverBudget(cfg, phase, tr, old(conditions))
    {
      if !Enforcing(cfg.spec) {
        conditions := conditions[OVER_BUDGET := Condition(false, "EnforcementDisabled")];
      } else if tr.evaluated {
        if tr.quotaAtHard || tr.costOver {
          conditions := conditions[OVER_BUDGET := Condition(true, OverBudgetReason(tr.quotaAtHard, tr.costOver))];
        } else {
          conditions := conditions[OVER_BUDGET := Condition(false, "WithinBudget")];
        }
      } else if cfg.spec.ttl != "" && !phase.Active? {
        conditions := conditions[OVER_BUDGET := Condition(false, "TTLExpired")];
      }
    }

    method SetRecoveryDeferred(tr: Trace)
      modifies this`conditions
      ensures conditions == old(conditions)[RECOVERY_DEFERRED := DeferredCondition(cfg, tr)]
    {
      if !Enforcing(cfg.spec) || !tr.evaluated {
        conditions := conditions[RECOVERY_DEFERRED := Condition(false, "NotApplicable")];
      } else if tr.deferred {
        conditions := conditions[RECOVERY_DEFERRED := Condition(true, "AwaitingEnforcementCooldown")];
      } else {
        conditions := conditions[RECOVERY_DEFERRED := Condition(false, "NotDeferred")];
      }
    }

    /** The last edits before the status update: expiry time, enforcement record and all conditions. */
    method Publish(phase: Phase, lastEnfAt: Option<int>, lastEnfOp: string, tr: Trace)
      requires TtlReadable(cfg)
      modifies this
      ensures StatusNow() == Published(cfg, phase,
                old(StatusNow()).(lastEnforcementAt := lastEnfAt, lastEnforcementOp := lastEnfOp), tr)
    {
      expiresAt := if HasTtl(cfg) then Some(Expiry(cfg)) else None;
      lastEnforcementAt := lastEnfAt;
      lastEnforcementOp := lastEnfOp;
      SetExpired(phase);
      SetOverBudget(phase, tr);
      SetRecoveryDeferred(tr);
      var ready := if phase.Active? then Condition(true, "NamespaceReady") else Condition(false, "TTLExpired");
      conditions := conditions[READY := ready];
    }
  }

  /** The phase and the wait the TTL asks for. */
  method TtlPhase(cfg: Config, now: int, untilClock: int) returns (phase: Phase, requeueAfterTtl: int)
    requires TtlReadable(cfg)
    ensures phase == PhaseAt(cfg, now) && requeueAfterTtl == TtlDelay(cfg, now, untilClock)
    ensures if cfg.spec.ttl == "" then phase.Active?
            else
              var expiry := cfg.createdAt + cfg.codec.parseDuration(cfg.spec.ttl).value;
              && (phase.Active? <==> now < expiry)
              && (phase.Deleting? <==> now >= expiry + 10_000_000_000)
  {
    phase, requeueAfterTtl := Active, 0;
    if cfg.spec.ttl != "" {
      var expiry := cfg.createdAt + cfg.codec.parseDuration(cfg.spec.ttl).value;
      var deleteAfter := expiry + DELETE_GRACE;
      var expired := !(now < expiry);
      var deleting := expired && !(now < deleteAfter);
      phase := if !expired then Active else if !deleting then Grace else Deleting;
      var target: Option<int> := None;
      if !expired {
        target := Some(expiry);
      } else if !deleting {
        target := Some(deleteAfter);
      }
      if target.Some? && target.value > now {
        var wait := target.value - untilClock;
        requeueAfterTtl := if wait < TTL_REQUEUE_CAP then wait else TTL_REQUEUE_CAP;
      } else if deleting {
        requeueAfterTtl := DELETING_POLL;
      }
    }
  }

  class BudgetNamespaceReconciler {
    const cfg: Config
    const server: ApiServer

    constructor (cfg: Config, server: ApiServer)
      ensures this.cfg == cfg && this.server == server
    {
      this.cfg, this.server := cfg, server;
    }

    /** Scale everything down and, if that changed anything, note when. */
    method ScaleDown(inp: Input, lastEnfAt: Option<int>, lastEnfOp: string, tr: Trace, ghost st: Status)
      returns (ok: bool, at: Option<int>, op: string, tr': Trace)
      requires st.lastEnforcementAt == lastEnfAt && st.lastEnforcementOp == lastEnfOp
      modifies server`deployments, server`statefulSets, server`fuse
      ensures Verdict(ok, server.Snapshot().fleet, st.(lastEnforcementAt := at, lastEnforcementOp := op),
                      server.deletes, server.fuse, tr')
              == ScaleStage(old(server.Snapshot()), st, inp, old(server.fuse), tr)
    {
      at, op := lastEnfAt, lastEnfOp;
      var n;
      n, ok := ScaleWorkloadsToZero(server);
      tr' := tr.(scaled := n);
      if !ok { return; }
      if n > 0 {
        at, op := Some(inp.opClock), SCALE_TO_ZERO;
      }
    }

    /** No risk found: restore what is pending, unless the cooldown still runs. */
    method TryRestore(inp: Input, lastEnfAt: Option<int>, lastEnfOp: string, cooldown: int, spend: real, tr: Trace,
                      ghost st: Status)
      returns (ok: bool, at: Option<int>, op: string, tr': Trace)
      requires st.lastEnforcementAt == lastEnfAt && st.lastEnforcementOp == lastEnfOp
      modifies server`deployments, server`statefulSets, server`fuse
      ensures Verdict(ok, server.Snapshot().fleet, st.(lastEnforcementAt := at, lastEnforcementOp := op),
                      server.deletes, server.fuse, tr')
              == RestoreStage(cfg, old(server.Snapshot()), st, inp, cooldown, spend, old(server.fuse), tr)
    {
      at, op, tr' := lastEnfAt, lastEnfOp, tr;
      var pending;
      pending, ok := WorkloadsPendingRestore(server);
      if !ok || !pending { return; }
      var okCost := WithinBudgetForRestore(cfg, spend);
      if okCost.None? {
        ok := false;
      } else if !okCost.value {
        // Only an event is recorded.
      } else if CanRestore(lastEnfOp, lastEnfAt, cooldown, inp.now) {
        var n;
        n, ok := RestoreScaledWorkloads(server);
        tr' := tr.(restored := n);
        if !ok { return; }
        if n > 0 {
          at, op := Some(inp.opClock), RESTORE;
        }
      } else {
        tr' := tr.(deferred := true);
        // The wait still to come is computed for the event text: the time is there and the wait is positive.
        var remaining := lastEnfAt.value + cooldown - inp.now;
        assert remaining > 0;
      }
    }

    /** Compare usage and spend with their limits, then scale down or try to restore. */
    method Enforce(bn: BudgetNamespace, inp: Input, lastEnfAt: Option<int>, lastEnfOp: string)
      returns (ok: bool, at: Option<int>, op: string, tr: Trace)
      requires bn.cfg == cfg && bn.StatusNow() == server.status
      requires bn.lastEnforcementAt == lastEnfAt && bn.lastEnforcementOp == lastEnfOp
      modifies bn`lastCostQueryAt, bn`lastObservedSpendUSD
      modifies server`deployments, server`statefulSets, server`fuse
      ensures Verdict(ok, server.Snapshot().fleet, bn.StatusNow().(lastEnforcementAt := at, lastEnforcementOp := op),
                      server.deletes, server.fuse, tr)
              == EnforceStage(cfg, old(server.Snapshot()), inp, old(server.fuse))
    {
      at, op, tr := lastEnfAt, lastEnfOp, QUIET;
      var cooldown := Cooldown(cfg);
      if cooldown.None? { ok := false; return; }
      ok := server.Call();
      if !ok { return; }
      var quotaAtHard := QuotaUsedAtOrOverHard(inp.hard, inp.used);
      tr := tr.(evaluated := true, quotaAtHard := quotaAtHard);
      var spend := 0.0;
      if CostEnabled(cfg.spec) {
        var live;
        spend, ok, live := bn.ResolveNamespaceSpendUSD(server, inp.now, inp.billed);
        tr := tr.(live := live);
        if !ok { return; }
        var max := MaxUSD(cfg);
        if max.None? { ok := false; return; }
        tr := tr.(spend := Some(spend), costOver := SpendAtOrOverMax(spend, max.value));
      }
      if tr.quotaAtHard || tr.costOver {
        ok, at, op, tr := ScaleDown(inp, lastEnfAt, lastEnfOp, tr, bn.StatusNow());
      } else if cfg.spec.enforcement.restoreOnRecovery {
        ok, at, op, tr := TryRestore(inp, lastEnfAt, lastEnfOp, cooldown.value, spend, tr, bn.StatusNow());
      }
    }

    /** What is done to the namespace in its phase: enforce, scale everything down, or delete. */
    method WorkOnNamespace(bn: BudgetNamespace, phase: Phase, inp: Input)
      returns (ok: bool, at: Option<int>, op: string, tr: Trace)
      requires bn.cfg == cfg && bn.StatusNow() == server.status
      modifies bn`lastCostQueryAt, bn`lastObservedSpendUSD
      modifies server`deployments, server`statefulSets, server`deletes, server`fuse
      ensures Verdict(ok, server.Snapshot().fleet, bn.StatusNow().(lastEnforcementAt := at, lastEnforcementOp := op),
                      server.deletes, server.fuse, tr)
              == NamespaceStage(cfg, phase, old(server.Snapshot()), inp, old(server.fuse))
    {
      ok, at, op, tr := true, bn.lastEnforcementAt, bn.lastEnforcementOp, QUIET;
      if phase.Active? {
        ok := server.Call();
        if !ok { return; }
        if Enforcing(cfg.spec) {
          ok, at, op, tr := Enforce(bn, inp, at, op);
        }
      } else if phase.Grace? && Enforcing(cfg.spec) {
        ok, at, op, tr := ScaleDown(inp, at, op, tr, bn.StatusNow());
      } else if phase.Deleting? {
        ok := server.DeleteNamespace();
      }
    }

    /** One reconcile, from reading the resource to its status update and the next wait. */
    method Reconcile(inp: Input) returns (result: Result, tr: Trace)
      requires server.fuse == inp.fuse
      modifies server
      ensures Outcome(server.Snapshot(), result, tr) == Step(cfg, old(server.Snapshot()), inp)
    {
      hide NamespaceStage, Published, PhaseAt, TtlDelay, CostBudgetValid, Enforcing;
      tr := QUIET;
      var ok := server.Call();
      if !ok { return Failed, tr; }
      var bn := new BudgetNamespace(cfg, server.status);
      if !CostBudgetValid(cfg) { return Failed, tr; }
      if cfg.spec.ttl != "" && cfg.codec.parseDuration(cfg.spec.ttl).None? { return Failed, tr; }
      var phase, requeueAfter := TtlPhase(cfg, inp.now, inp.untilClock);
      var lastEnfAt, lastEnfOp;
      ok, lastEnfAt, lastEnfOp, tr := WorkOnNamespace(bn, phase, inp);
      if !ok { return Failed, tr; }
      bn.Publish(phase, lastEnfAt, lastEnfOp, tr);
      ok := server.UpdateStatus(bn.StatusNow());
      if !ok { return if inp.conflict then Conflicted else Failed, tr; }

      if Enforcing(cfg.spec) && phase.Active? {
        if requeueAfter == 0 || POLL_INTERVAL < requeueAfter {
          requeueAfter := POLL_INTERVAL;
        }
      }
      if requeueAfter > 0 { return RequeueAfter(requeueAfter), tr; }
      return NoRequeue, tr;
    }
  }
}
