/** When a reconcile succeeds: which texts it needs to read, how many calls it makes, and what is lost when one
    fails. */
module Failures {
  import opened Api
  import opened CostBudget
  import opened Enforcement
  import opened Lifecycle
  import opened Passes
  import opened ReconcileSpec
  import opened StepLaws
  import opened Text
  import opened Workloads
  import opened Wrappers

  // ------------------------------------------------------------------------------------------
  // The calls of the work on the namespace.

  /** The lists of the pending checks: StatefulSets only when no Deployment is pending. */
  function PendingCalls(fleet: Fleet): nat {
    if AnyPending(fleet.deployments) then 1 else 2
  }

  function DecisionCalls(cfg: Config, fleet: Fleet, tr: Trace): nat {
    if tr.AtRisk() then 2 + tr.scaled
    else if !cfg.spec.enforcement.restoreOnRecovery then 0
    else PendingCalls(fleet) + if SomePending(fleet) && !tr.deferred then 2 + tr.restored else 0
  }

  /** Ensuring the namespace, the quota, the billing query, two lists and the patches of a pass, the delete. */
  function WorkCalls(cfg: Config, phase: Phase, fleet: Fleet, tr: Trace): nat {
    match phase
    case Active =>
      if Enforcing(cfg.spec) then 2 + (if tr.live then 1 else 0) + DecisionCalls(cfg, fleet, tr) else 1
    case Grace => if Enforcing(cfg.spec) then 2 + tr.scaled else 0
    case Deleting => 1
  }

  /** `v` is what comes of `c` calls that all succeed, `v'` what comes of the same work when only `n` calls do. */
  predicate Funded(v: Verdict, v': Verdict, c: nat, n: nat) {
    && (v'.ok <==> v.ok && c <= n)
    && (v'.ok ==> v' == v.(fuse := After(n - c)))
    && (v.ok ==> v.fuse.Never?)
  }

  lemma PassFunded(op: Op, fleet: Fleet, n: nat)
    ensures var p, p', c := Pass(op, fleet, Never), Pass(op, fleet, After(n)), 2 + FleetWork(op, fleet);
            && p.ok && p.count == FleetWork(op, fleet) && p.fuse.Never?
            && (p'.ok <==> c <= n)
            && (p'.ok ==> p' == p.(fuse := After(n - c)))
  {
    PassUsesCalls(op, fleet, n);
    PassSplit(op, fleet, After(n));
    PassSplit(op, fleet, Never);
  }

  lemma ScaleFunded(w: World, st: Status, inp: Input, tr: Trace, n: nat)
    ensures var v := ScaleStage(w, st, inp, Never, tr);
            Funded(v, ScaleStage(w, st, inp, After(n), tr), 2 + v.trace.scaled, n)
  {
    PassFunded(ScaleToZero, w.fleet, n);
  }

  lemma RestoreFunded(cfg: Config, w: World, st: Status, inp: Input, cooldown: int, spend: real, tr: Trace, n: nat)
    requires WithinBudgetForRestore(cfg, spend) == Some(true) && tr == Assessed(tr)
    ensures var v := RestoreStage(cfg, w, st, inp, cooldown, spend, Never, tr);
            var restores := SomePending(w.fleet) && !v.trace.deferred;
            var c := PendingCalls(w.fleet) + if restores then 2 + v.trace.restored else 0;
            Funded(v, RestoreStage(cfg, w, st, inp, cooldown, spend, After(n), tr), c, n)
  {
    hide Pass, CanRestore, AnyPending;
    var listed := PendingCalls(w.fleet);
    if listed <= n {
      PassFunded(Restore, w.fleet, n - listed);
    }
    PassFunded(Restore, w.fleet, n);
  }

  lemma DecideFunded(cfg: Config, w: World, st: Status, inp: Input, cooldown: int, spend: real, tr: Trace, n: nat)
    requires !tr.AtRisk() ==> WithinBudgetForRestore(cfg, spend) == Some(true)
    requires tr == Assessed(tr)
    ensures var v := DecideStage(cfg, w, st, inp, cooldown, spend, Never, tr);
            var c := DecisionCalls(cfg, w.fleet, v.trace);
            Funded(v, DecideStage(cfg, w, st, inp, cooldown, spend, After(n), tr), c, n)
  {
    hide Pass, PendingFleet, PendingCalls, WithinBudgetForRestore, CanRestore, SomePending;
    if tr.AtRisk() {
      ScaleFunded(w, st, inp, tr, n);
    } else if cfg.spec.enforcement.restoreOnRecovery {
      RestoreFunded(cfg, w, st, inp, cooldown, spend, tr, n);
    }
  }

  lemma AssessFunded(cfg: Config, st: Status, inp: Input, n: nat)
    ensures var a, a' := Assess(cfg, st, inp, Never), Assess(cfg, st, inp, After(n));
            var c := if a.trace.live then 2 else 1;
            && (a'.ok <==> a.ok && c <= n)
            && (a'.ok ==> a' == a.(fuse := After(n - c)))
            && a.fuse.Never?
            && Assessed(a.trace) == a.trace
  {
    hide CostBudgetValid, CacheAnswers, AtHardLimit, Cooldown, MaxUSD;
  }

  lemma EnforceFunded(cfg: Config, w: World, inp: Input, n: nat)
    ensures var v := EnforceStage(cfg, w, inp, Never);
            Funded(v, EnforceStage(cfg, w, inp, After(n)),
                   1 + (if v.trace.live then 1 else 0) + DecisionCalls(cfg, w.fleet, v.trace), n)
  {
    hide Assess, DecideStage;
    AssessFunded(cfg, w.status, inp, n);
    var a := Assess(cfg, w.status, inp, Never);
    if a.ok {
      var c := if a.trace.live then 2 else 1;
      if WithinBudget(a.trace) {
        RestoreRefusalUnreachable(cfg, w.status, inp, Never);
      }
      EvaluatedWhenAssessed(cfg, w.status, inp);
      DecideFunded(cfg, w, a.status, inp, Cooldown(cfg).value, a.spend, a.trace, if n < c then 0 else n - c);
      DecideStageLawful(cfg, w, a.status, inp, a.spend, a.fuse, a.trace);
    }
  }

  lemma EvaluatedWhenAssessed(cfg: Config, st: Status, inp: Input)
    requires Assess(cfg, st, inp, Never).ok
    ensures Cooldown(cfg).Some? && Assess(cfg, st, inp, Never).trace.evaluated
  {
  }

  lemma NamespaceFunded(cfg: Config, phase: Phase, w: World, inp: Input, n: nat)
    ensures var v := NamespaceStage(cfg, phase, w, inp, Never);
            Funded(v, NamespaceStage(cfg, phase, w, inp, After(n)), WorkCalls(cfg, phase, w.fleet, v.trace), n)
  {
    hide EnforceStage, ScaleStage, DecisionCalls;
    if phase.Active? && Enforcing(cfg.spec) {
      EnforceFunded(cfg, w, inp, if n == 0 then 0 else n - 1);
    } else if phase.Grace? {
      ScaleFunded(w, w.status, inp, QUIET, n);
    }
  }

  // ------------------------------------------------------------------------------------------
  // A reconcile with every call counted.

  /** All calls of a reconcile that meets no failure: reading the resource, the work, and the status update. */
  function Calls(cfg: Config, w: World, inp: Input): nat
    requires TtlReadable(cfg)
  {
    2 + WorkCalls(cfg, PhaseAt(cfg, inp.now), w.fleet, Step(cfg, w, inp.(fuse := Never)).trace)
  }

  /** Failing calls do no other harm than cutting a reconcile short. Compare one in which only the first `n` calls
      succeed with one in which none fails. If all its calls are among them, the two agree in everything. If all but
      the last are, then only the status update is lost, and a conflict is told from other errors; with fewer calls
      there is an error. And no failing call makes a reconcile succeed. */
  lemma FailuresOnlyCutShort(cfg: Config, w: World, inp: Input, n: nat)
    ensures var clean, o := Step(cfg, w, inp.(fuse := Never)), Step(cfg, w, inp.(fuse := After(n)));
            if !clean.Succeeded() then clean.result == Failed && o.result == Failed && o.world.status == w.status
            else
              && TtlReadable(cfg)
              && (n >= Calls(cfg, w, inp) ==> o == clean)
              && (n + 1 == Calls(cfg, w, inp) ==>
                    && o.result == (if inp.conflict then Conflicted else Failed)
                    && o.world == clean.world.(status := w.status) && o.trace == clean.trace)
              && (n + 1 < Calls(cfg, w, inp) ==> o.result == Failed && o.world.status == w.status)
  {
    hide NamespaceStage, Published;
    if TtlReadable(cfg) {
      var phase := PhaseAt(cfg, inp.now);
      var left := if n == 0 then 0 else n - 1;
      NamespaceFunded(cfg, phase, w, inp, left);
      FuseIsPassedOn(cfg, phase, w, inp, Never, Never);
      FuseIsPassedOn(cfg, phase, w, inp, After(n), After(left));
    }
  }

  /** The work on the namespace sees the fuse it is given, not the one the reconcile started with. */
  lemma FuseIsPassedOn(cfg: Config, phase: Phase, w: World, inp: Input, start: Fuse, fuse: Fuse)
    ensures NamespaceStage(cfg, phase, w, inp.(fuse := start), fuse) == NamespaceStage(cfg, phase, w, inp, fuse)
  {
    hide Pass, PendingFleet, ResolveSpend, AtHardLimit, CanRestore, WithinBudgetForRestore, Cooldown, MaxUSD, Enforcing;
  }

  // ------------------------------------------------------------------------------------------
  // Texts that must be readable.

  lemma NamespaceStageSucceeds(cfg: Config, phase: Phase, w: World, inp: Input)
    requires CostBudgetValid(cfg)
    ensures NamespaceStage(cfg, phase, w, inp, Never).ok <==>
              (phase.Active? && Enforcing(cfg.spec) ==> Assess(cfg, w.status, inp, Never).ok)
  {
    hide CostBudgetValid, Assess;
    PassFunded(ScaleToZero, w.fleet, 0);
    if phase.Active? && Enforcing(cfg.spec) {
      var a := Assess(cfg, w.status, inp, Never);
      if a.ok {
        EvaluatedWhenAssessed(cfg, w.status, inp);
        AssessFunded(cfg, w.status, inp, 0);
        DecideStageClean(cfg, w, a.status, inp, Cooldown(cfg).value, a.spend, a.trace);
      }
    }
  }

  lemma AssessSucceeds(cfg: Config, st: Status, inp: Input)
    requires CostBudgetValid(cfg)
    ensures Assess(cfg, st, inp, Never).ok <==>
              && Cooldown(cfg).Some?
              && (CostEnabled(cfg.spec) ==>
                    && cfg.hasQuerier
                    && (CacheAnswers(cfg, st.lastCostQueryAt, st.lastObservedSpendUSD, inp.now) ==>
                          cfg.codec.parseFloat(TrimSpace(st.lastObservedSpendUSD)).Some?))
  {
  }

  /** A reconcile that meets no failing call succeeds exactly when the TTL `d` is readable, an enabled dollar budget
      names its table, cluster and a positive limit and has readable durations, and, if it comes to enforce, the
      cooldown is readable and an enabled dollar budget has a billing client, and a readable spend in the cache as
      long as the query interval lasts. */
  lemma SucceedsExactly(cfg: Config, w: World, inp: Input, d: int, interval: int)
    requires inp.fuse.Never? && cfg.codec.parseDuration(cfg.spec.ttl) in {None, Some(d)}
    requires cfg.spec.costBudget.Some? ==>
               var text := TrimSpace(cfg.spec.costBudget.value.queryInterval);
               if text == "" then interval == 3_600_000_000_000
               else cfg.codec.parseDuration(text) in {None, Some(interval)}
    ensures var e, s, codec := cfg.spec.enforcement, w.status, cfg.codec;
            var active := cfg.spec.ttl == "" || inp.now < cfg.createdAt + d;
            var cb := cfg.spec.costBudget;
            var budget := if cb.Some? && cb.value.enabled then cb else None;
            var cached := TrimSpace(s.lastObservedSpendUSD);
            var current := s.lastCostQueryAt.Some? && inp.now < s.lastCostQueryAt.value + interval && cached != "";
            Step(cfg, w, inp).Succeeded() <==>
              && (cfg.spec.ttl == "" || codec.parseDuration(cfg.spec.ttl) == Some(d))
              && (budget.Some? ==>
                    var b := budget.value;
                    var max := TrimSpace(b.maxSpendUSD);
                    var window, query := TrimSpace(b.lookbackWindow), TrimSpace(b.queryInterval);
                    && TrimSpace(b.billingExportTable) != "" && TrimSpace(b.clusterName) != "" && max != ""
                    && codec.parseFloat(max).Some? && codec.parseFloat(max).value > 0.0
                    && (window == "" || codec.parseDuration(window).Some?)
                    && (query == "" || codec.parseDuration(query).Some?))
              && (active && e.enabled && e.action in {"", "ScaleToZero"} ==>
                    && (e.enforcementCooldown == "" || codec.parseDuration(e.enforcementCooldown).Some?)
                    && (budget.Some? ==> cfg.hasQuerier && (current ==> codec.parseFloat(cached).Some?)))
  {
    hide NamespaceStage, Published, Assess;
    if CostBudgetValid(cfg) && TtlReadable(cfg) {
      var phase := PhaseAt(cfg, inp.now);
      NamespaceStageSucceeds(cfg, phase, w, inp);
      NamespaceFunded(cfg, phase, w, inp, 0);
      AssessSucceeds(cfg, w.status, inp);
    }
  }
}
