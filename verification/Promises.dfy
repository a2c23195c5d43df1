/** What a reconcile does, in terms of what it is given: the fields of the spec as they are written, the stored record,
    the clock, usage and bill, with every constant and name spelled out. */
module Promises {
  import opened Api
  import opened CostBudget
  import opened Enforcement
  import opened Lifecycle
  import opened Passes
  import opened ReconcileSpec
  import opened StepLaws
  import opened Text
  import opened Workloads
  import opened Wrappers

  // ------------------------------------------------------------------------------------------
  // What the passes write.

  lemma MembersPassed(op: Op, fleet: Fleet, fuse: Fuse)
    ensures var r := Pass(op, fleet, fuse); var ws, ws' := Members(fleet), Members(r.fleet);
            && |ws'| == |ws|
            && (forall i :: 0 <= i < |ws| ==> ws'[i] == ws[i] || ws'[i] == Passed(op, ws[i]))
            && (r.ok ==> forall i :: 0 <= i < |ws| ==> ws'[i] == Passed(op, ws[i]))
  {
    hide Pass, Passed;
    PassSplit(op, fleet, fuse);
  }

  /** A pass of either kind, wherever it is cut short, leaves a workload alone whose pod template carries the label
      `ealebed.github.io/exempt: "true"`; a scale that succeeds leaves every other one at an explicit zero. */
  lemma ExemptIsSpared(op: Op, fleet: Fleet, fuse: Fuse)
    ensures var r := Pass(op, fleet, fuse); var ws, ws' := Members(fleet), Members(r.fleet);
            && |ws'| == |ws|
            && forall i :: 0 <= i < |ws| ==>
                 var labels := ws[i].templateLabels;
                 if "ealebed.github.io/exempt" in labels && labels["ealebed.github.io/exempt"] == "true" then
                   ws'[i] == ws[i]
                 else r.ok && op.ScaleToZero? ==> ws'[i].replicas == Some(0)
  {
    hide Pass, Passed, Members;
    MembersPassed(op, fleet, fuse);
    forall w: Workload ensures SameBesides(w, Passed(op, w)) && Down(Passed(ScaleToZero, w)) {
      PassedSettles(op, w);
      ScaledKeepsCount(w);
    }
  }

  /** What is due to a workload, field by field. Exempt ones are left alone. A scale writes an explicit zero where it
      is not there yet, and the count that ran, a nil count as 1, unless something is saved. A restore puts a
      readable positive count back where there is no count or zero, and drops the annotation. */
  function Written(op: Op, w: Workload): Workload {
    var exempt, key := "ealebed.github.io/exempt", "finops.ealebed.github.io/pre-scale-replicas";
    if exempt in w.templateLabels && w.templateLabels[exempt] == "true" then w
    else if op.ScaleToZero? && w.replicas != Some(0) then
      var count := if w.replicas.None? then 1 else w.replicas.value;
      Workload(Some(0),
               if key in w.annotations then w.annotations else w.annotations[key := FormatInt(count)],
               w.templateLabels)
    else if op.Restore? && (w.replicas == None || w.replicas == Some(0)) && key in w.annotations then
      var saved := ParseInt32(w.annotations[key]);
      if saved.Some? && saved.value > 0 then Workload(saved, w.annotations - {key}, w.templateLabels) else w
    else w
  }

  lemma PassedIsWritten(op: Op, w: Workload)
    ensures Passed(op, w) == Written(op, w)
  {
  }

  /** A pass, wherever it is cut short, writes to each workload what is due to it or nothing; one that succeeds has
      written to all of them. */
  lemma PassWrites(op: Op, fleet: Fleet, fuse: Fuse)
    ensures var r := Pass(op, fleet, fuse); var ws, ws' := Members(fleet), Members(r.fleet);
            && |ws'| == |ws|
            && (forall i :: 0 <= i < |ws| ==> ws'[i] == ws[i] || ws'[i] == Written(op, ws[i]))
            && (r.ok ==> forall i :: 0 <= i < |ws| ==> ws'[i] == Written(op, ws[i]))
  {
    hide *;
    MembersPassed(op, fleet, fuse);
    forall w: Workload ensures Passed(op, w) == Written(op, w) {
      PassedIsWritten(op, w);
    }
  }

  /** No reconcile, however it ends, touches an exempt workload. */
  lemma ReconcileSparesExempt(cfg: Config, w: World, inp: Input)
    ensures var ws, ws' := Members(w.fleet), Members(Step(cfg, w, inp).world.fleet);
            && |ws'| == |ws|
            && forall i :: 0 <= i < |ws| ==>
                 var labels := ws[i].templateLabels;
                 "ealebed.github.io/exempt" in labels && labels["ealebed.github.io/exempt"] == "true" ==>
                   ws'[i] == ws[i]
  {
    hide Step;
    StepFleet(cfg, w, inp);
    forall op, w: Workload ensures SameBesides(w, Passed(op, w)) {
      PassedSettles(op, w);
    }
  }

  // ------------------------------------------------------------------------------------------
  // Whether to touch the workloads, and how.

  /** With enforcement switched off, or an action other than scaling to zero, no reconcile touches a workload. */
  lemma SwitchedOffTouchesNothing(cfg: Config, w: World, inp: Input)
    requires !cfg.spec.enforcement.enabled || cfg.spec.enforcement.action !in {"", "ScaleToZero"}
    ensures Step(cfg, w, inp).world.fleet == w.fleet
  {
    hide Step;
    StepFleet(cfg, w, inp);
  }

  /** The whole decision of a successful reconcile, where `d` is the TTL and `c` the cooldown, as written or two
      minutes: nothing is touched with enforcement off or once deletion is due; everything is scaled in the grace
      period and when a limit is reached; otherwise everything saved is restored, with restore on and no scale-down
      younger than `c`. */
  lemma DecisionIsExact(cfg: Config, w: World, inp: Input, d: int, c: int)
    requires Step(cfg, w, inp).Succeeded()
    requires cfg.spec.ttl != "" ==> cfg.codec.parseDuration(cfg.spec.ttl) == Some(d)
    requires var text := cfg.spec.enforcement.enforcementCooldown;
             if text == "" then c == 120_000_000_000 else cfg.codec.parseDuration(text) in {None, Some(c)}
    ensures var o, e, s := Step(cfg, w, inp), cfg.spec.enforcement, w.status;
            var on := e.enabled && e.action in {"", "ScaleToZero"};
            var expired := cfg.spec.ttl != "" && inp.now >= cfg.createdAt + d;
            var deleting := cfg.spec.ttl != "" && inp.now >= cfg.createdAt + d + 10_000_000_000;
            var blocked := s.lastEnforcementOp == "ScaleToZero" && s.lastEnforcementAt.Some?
                           && inp.now < s.lastEnforcementAt.value + c;
            && (o.trace.evaluated <==> on && !expired)
            && (o.trace.deferred <==> on && !expired && !o.trace.quotaAtHard && !o.trace.costOver
                                      && e.restoreOnRecovery && blocked && SomePending(w.fleet))
            && o.world.fleet == (if !on || deleting then w.fleet
                                 else if expired || o.trace.quotaAtHard || o.trace.costOver then
                                   PassedFleet(ScaleToZero, w.fleet)
                                 else if e.restoreOnRecovery && !blocked then PassedFleet(Restore, w.fleet)
                                 else w.fleet)
  {
    hide Step;
    StepFleet(cfg, w, inp);
    TraceMeaning(cfg, w, inp);
    FleetWorkNone(ScaleToZero, w.fleet);
    if WithinBudget(Step(cfg, w, inp).trace) {
      RecoveryIsExact(cfg, w, inp);
    }
  }

  lemma TouchedMeansChanged(op: Op, fleet: Fleet)
    ensures FleetWork(op, fleet) > 0 <==> PassedFleet(op, fleet) != fleet
  {
    FleetWorkNone(op, fleet);
    FleetWorkNone(op, PassedFleet(op, fleet));
  }

  /** The stored record of a successful reconcile: if it changed a workload, what it did and when, in whole seconds;
      otherwise the record of before. */
  lemma RecordIsExact(cfg: Config, w: World, inp: Input)
    requires Step(cfg, w, inp).Succeeded() && AsStored(w.status)
    ensures var o, s, s' := Step(cfg, w, inp), w.status, Step(cfg, w, inp).world.status;
            if o.world.fleet == w.fleet then
              s'.lastEnforcementOp == s.lastEnforcementOp && s'.lastEnforcementAt == s.lastEnforcementAt
            else
              && s'.lastEnforcementAt == Some(inp.opClock - inp.opClock % 1_000_000_000)
              && s'.lastEnforcementOp in {"ScaleToZero", "Restore"}
              && (s'.lastEnforcementOp == "ScaleToZero" ==> o.world.fleet == PassedFleet(ScaleToZero, w.fleet))
              && (s'.lastEnforcementOp == "Restore" ==> o.world.fleet == PassedFleet(Restore, w.fleet))
  {
    hide Step;
    StepFleet(cfg, w, inp);
    StepRecord(cfg, w, inp);
    RecordedMeansChanged(w.fleet, Step(cfg, w, inp).world.fleet, Step(cfg, w, inp).trace);
    if Step(cfg, w, inp).trace.scaled > 0 { StepScaled(cfg, w, inp); }
  }

  lemma RecordedMeansChanged(f: Fleet, f': Fleet, tr: Trace)
    requires OnePass(f, f', tr)
    ensures tr.scaled == 0 && tr.restored == 0 ==> f' == f
    ensures tr.scaled > 0 && f' == PassedFleet(ScaleToZero, f) ==> f' != f
    ensures tr.restored > 0 && f' == PassedFleet(Restore, f) ==> f' != f
  {
    TouchedMeansChanged(ScaleToZero, f);
    TouchedMeansChanged(Restore, f);
  }

  /** A successful reconcile that patched for a scale finished the scale. */
  lemma StepScaled(cfg: Config, w: World, inp: Input)
    requires Step(cfg, w, inp).Succeeded() && Step(cfg, w, inp).trace.scaled > 0
    ensures Step(cfg, w, inp).world.fleet == PassedFleet(ScaleToZero, w.fleet)
  {
    hide Step;
    StepFleet(cfg, w, inp);
  }

  // ------------------------------------------------------------------------------------------
  // What counts as a limit reached.

  /** The two tests, where `m` is the written limit: some resource that is limited and reported has used its limit, and
      the spend is within a billionth of a dollar of `m` or above; without a spend there is no dollar risk. */
  lemma RiskIsExact(cfg: Config, w: World, inp: Input, m: real)
    requires cfg.spec.costBudget.Some? ==>
               cfg.codec.parseFloat(TrimSpace(cfg.spec.costBudget.value.maxSpendUSD)) in {None, Some(m)}
    ensures var o := Step(cfg, w, inp); var tr := o.trace;
            && (tr.quotaAtHard <==>
                  && tr.evaluated
                  && exists name :: name in inp.hard && name in inp.used && inp.used[name] >= inp.hard[name])
            && (tr.costOver <==> tr.spend.Some? && tr.spend.value + 0.000000001 >= m)
            && (o.Succeeded() && tr.evaluated ==>
                  (tr.spend.Some? <==> cfg.spec.costBudget.Some? && cfg.spec.costBudget.value.enabled))
  {
    hide Step;
    TraceMeaning(cfg, w, inp);
    StepFleet(cfg, w, inp);
    SpendNeedsBudget(cfg, w, inp);
  }

  lemma SpendNeedsBudget(cfg: Config, w: World, inp: Input)
    ensures var tr := Step(cfg, w, inp).trace;
            tr.spend.Some? ==> CostEnabled(cfg.spec) && MaxUSD(cfg).Some? && CostBudgetValid(cfg) && tr.evaluated
  {
    TraceShowsAssessment(cfg, w, inp);
  }

  /** The compared spend, where `interval` is the query interval as written or one hour: the cached number while the
      interval from the stored query lasts and there is one, else what billing answers; and what is stored of it. */
  lemma SpendIsExact(cfg: Config, w: World, inp: Input, interval: int)
    requires cfg.spec.costBudget.Some? ==>
               var text := TrimSpace(cfg.spec.costBudget.value.queryInterval);
               if text == "" then interval == 3_600_000_000_000
               else cfg.codec.parseDuration(text) in {None, Some(interval)}
    ensures var o, s, s' := Step(cfg, w, inp), w.status, Step(cfg, w, inp).world.status;
            var cached := TrimSpace(s.lastObservedSpendUSD);
            var current := s.lastCostQueryAt.Some? && inp.now < s.lastCostQueryAt.value + interval && cached != "";
            o.trace.spend.Some? ==>
              && (o.trace.live <==> !current)
              && o.trace.spend == (if current then cfg.codec.parseFloat(cached) else Some(inp.billed))
              && (o.Succeeded() && !current ==>
                    && s'.lastCostQueryAt == Some(inp.now - inp.now % 1_000_000_000)
                    && s'.lastObservedSpendUSD == cfg.codec.formatFloat(inp.billed))
              && (!o.Succeeded() || (current && AsStored(s)) ==>
                    s'.lastCostQueryAt == s.lastCostQueryAt && s'.lastObservedSpendUSD == s.lastObservedSpendUSD)
  {
    hide Step;
    SpendNeedsBudget(cfg, w, inp);
    if Step(cfg, w, inp).trace.spend.Some? {
      ValidationMakesReadersTotal(cfg);
      StepSpend(cfg, w, inp);
    }
  }

  // ------------------------------------------------------------------------------------------
  // Deletion, status and result.

  /** A namespace delete is issued by every successful reconcile from ten seconds after the TTL `d` on, counted from the
      creation, and by none before. */
  lemma DeletesAreExact(cfg: Config, w: World, inp: Input, d: int)
    requires cfg.spec.ttl != "" ==> cfg.codec.parseDuration(cfg.spec.ttl) in {None, Some(d)}
    ensures var o := Step(cfg, w, inp);
            var due := cfg.spec.ttl != "" && inp.now >= cfg.createdAt + d + 10_000_000_000;
            && (o.Succeeded() ==> o.world.deletes == w.deletes + if due then 1 else 0)
            && (o.world.deletes != w.deletes ==> due && o.world.deletes == w.deletes + 1)
  {
    hide NamespaceStage;
    StepDeletes(cfg, w, inp);
    if TtlReadable(cfg) {
      NamespaceStageLawful(cfg, PhaseAt(cfg, inp.now), w, inp, inp.fuse.Burn());
    }
  }

  /** The stored condition of that name. */
  function Shown(s: Status, name: string): Option<Condition> {
    if name in s.conditions then Some(s.conditions[name]) else None
  }

  /** What a status says after it was put together from `st`. */
  lemma PublishedShows(cfg: Config, phase: Phase, st: Status, tr: Trace)
    requires TtlReadable(cfg) && (!phase.Active? ==> HasTtl(cfg))
    requires tr.evaluated <==> Enforcing(cfg.spec) && phase.Active?
    ensures var s := StoredStatus(Published(cfg, phase, st, tr)); var expired := !phase.Active?;
            && s.expiresAt == (if HasTtl(cfg) then Some(Stored(Expiry(cfg))) else None)
            && Shown(s, "Expired") == (if !HasTtl(cfg) then Shown(st, "Expired")
                                       else if expired then Some(Condition(true, "TTLExpired"))
                                       else Some(Condition(false, "TTLActive")))
            && Shown(s, "Ready") == (if expired then Some(Condition(false, "TTLExpired"))
                                     else Some(Condition(true, "NamespaceReady")))
            && Shown(s, "OverBudget") == (if !Enforcing(cfg.spec) then Some(Condition(false, "EnforcementDisabled"))
                                          else if expired then Some(Condition(false, "TTLExpired"))
                                          else if tr.quotaAtHard && tr.costOver then
                                            Some(Condition(true, "CostBudgetAndQuotaExceeded"))
                                          else if tr.costOver then Some(Condition(true, "CostBudgetExceeded"))
                                          else if tr.quotaAtHard then Some(Condition(true, "ResourceQuotaAtOrOverHard"))
                                          else Some(Condition(false, "WithinBudget")))
            && Shown(s, "EnforcementRecoveryDeferred")
               == (if !tr.evaluated then Some(Condition(false, "NotApplicable"))
                   else if tr.deferred then Some(Condition(true, "AwaitingEnforcementCooldown"))
                   else Some(Condition(false, "NotDeferred")))
            && forall name :: name !in {"Expired", "Ready", "OverBudget", "EnforcementRecoveryDeferred"} ==>
                 Shown(s, name) == Shown(st, name)
  {
  }

  /** The status of a successful reconcile is put together from one with the conditions of before. */
  lemma StepShows(cfg: Config, w: World, inp: Input) returns (st: Status)
    requires Step(cfg, w, inp).Succeeded()
    ensures TtlReadable(cfg) && st.conditions == w.status.conditions
    ensures var o := Step(cfg, w, inp);
            o.world.status == StoredStatus(Published(cfg, PhaseAt(cfg, inp.now), st, o.trace))
  {
    hide NamespaceStage, Published;
    NamespaceStageLawful(cfg, PhaseAt(cfg, inp.now), w, inp, inp.fuse.Burn());
    st := NamespaceStage(cfg, PhaseAt(cfg, inp.now), w, inp, inp.fuse.Burn()).status;
  }

  /** The published life of the namespace, where `d` is the TTL: it expires at the creation plus `d`, stored in whole
      seconds, and is expired, not ready any more, exactly from then on. */
  lemma LifeIsPublished(cfg: Config, w: World, inp: Input, d: int)
    requires Step(cfg, w, inp).Succeeded()
    requires cfg.spec.ttl != "" ==> cfg.codec.parseDuration(cfg.spec.ttl) == Some(d)
    ensures var s, s' := w.status, Step(cfg, w, inp).world.status; var expiry := cfg.createdAt + d;
            if cfg.spec.ttl == "" then
              && s'.expiresAt == None
              && Shown(s', "Expired") == Shown(s, "Expired")
              && Shown(s', "Ready") == Some(Condition(true, "NamespaceReady"))
            else
              && s'.expiresAt == Some(expiry - expiry % 1_000_000_000)
              && Shown(s', "Expired") == (if inp.now >= expiry then Some(Condition(true, "TTLExpired"))
                                          else Some(Condition(false, "TTLActive")))
              && Shown(s', "Ready") == (if inp.now >= expiry then Some(Condition(false, "TTLExpired"))
                                        else Some(Condition(true, "NamespaceReady")))
  {
    hide Step, Published;
    StepFleet(cfg, w, inp);
    TraceMeaning(cfg, w, inp);
    var st := StepShows(cfg, w, inp);
    PublishedShows(cfg, PhaseAt(cfg, inp.now), st, Step(cfg, w, inp).trace);
  }

  /** The published breach and its reason: no word on the budget with enforcement off or after expiry, and otherwise
      which of the two tests found a limit reached. */
  lemma BreachIsPublished(cfg: Config, w: World, inp: Input, d: int)
    requires Step(cfg, w, inp).Succeeded()
    requires cfg.spec.ttl != "" ==> cfg.codec.parseDuration(cfg.spec.ttl) == Some(d)
    ensures var o, e := Step(cfg, w, inp), cfg.spec.enforcement;
            Shown(o.world.status, "OverBudget") == Some(
              if !e.enabled || e.action !in {"", "ScaleToZero"} then Condition(false, "EnforcementDisabled")
              else if cfg.spec.ttl != "" && inp.now >= cfg.createdAt + d then Condition(false, "TTLExpired")
              else if o.trace.quotaAtHard && o.trace.costOver then Condition(true, "CostBudgetAndQuotaExceeded")
              else if o.trace.costOver then Condition(true, "CostBudgetExceeded")
              else if o.trace.quotaAtHard then Condition(true, "ResourceQuotaAtOrOverHard")
              else Condition(false, "WithinBudget"))
  {
    hide Step, Published;
    StepFleet(cfg, w, inp);
    TraceMeaning(cfg, w, inp);
    var st := StepShows(cfg, w, inp);
    PublishedShows(cfg, PhaseAt(cfg, inp.now), st, Step(cfg, w, inp).trace);
  }

  /** The published deferral, where `d` is the TTL and `c` the cooldown: True exactly when restore is on, the budget is
      kept, some workload that is not exempt has no count or zero beside an annotation, readable or not, and a
      scale-down is younger than `c`. */
  lemma DeferralIsPublished(cfg: Config, w: World, inp: Input, d: int, c: int)
    requires Step(cfg, w, inp).Succeeded()
    requires cfg.spec.ttl != "" ==> cfg.codec.parseDuration(cfg.spec.ttl) == Some(d)
    requires var text := cfg.spec.enforcement.enforcementCooldown;
             if text == "" then c == 120_000_000_000 else cfg.codec.parseDuration(text) in {None, Some(c)}
    ensures var o, e, s := Step(cfg, w, inp), cfg.spec.enforcement, w.status;
            var pending :=
              exists m :: m in Members(w.fleet)
                          && !("ealebed.github.io/exempt" in m.templateLabels
                               && m.templateLabels["ealebed.github.io/exempt"] == "true")
                          && m.replicas in {None, Some(0)}
                          && "finops.ealebed.github.io/pre-scale-replicas" in m.annotations;
            Shown(o.world.status, "EnforcementRecoveryDeferred") == Some(
              if !e.enabled || e.action !in {"", "ScaleToZero"}
                 || (cfg.spec.ttl != "" && inp.now >= cfg.createdAt + d) then Condition(false, "NotApplicable")
              else if e.restoreOnRecovery && !o.trace.quotaAtHard && !o.trace.costOver && pending
                      && s.lastEnforcementOp == "ScaleToZero" && s.lastEnforcementAt.Some?
                      && inp.now < s.lastEnforcementAt.value + c then Condition(true, "AwaitingEnforcementCooldown")
              else Condition(false, "NotDeferred"))
  {
    hide Step, Published, SomePending;
    DecisionIsExact(cfg, w, inp, d, c);
    StepFleet(cfg, w, inp);
    TraceMeaning(cfg, w, inp);
    PendingAmongMembers(w.fleet);
    var st := StepShows(cfg, w, inp);
    PublishedShows(cfg, PhaseAt(cfg, inp.now), st, Step(cfg, w, inp).trace);
  }

  lemma PendingAmongMembers(fleet: Fleet)
    ensures SomePending(fleet) <==> exists m :: m in Members(fleet) && Pending(m)
  {
    if SomePending(fleet) {
      if AnyPending(fleet.deployments) {
        var i :| 0 <= i < |fleet.deployments| && Pending(fleet.deployments[i]);
        assert Pending(Members(fleet)[i]);
      } else {
        var i :| 0 <= i < |fleet.statefulSets| && Pending(fleet.statefulSets[i]);
        assert Pending(Members(fleet)[|fleet.deployments| + i]);
      }
    }
  }

  /** The result of a successful reconcile, where `d` is the TTL: the wait until expiry, or until deletion is due,
      but ten minutes at most, ten seconds once deleting, thirty while enforcement polls; no requeue is asked for
      when the wait, measured on a later clock, has run out, or there is nothing to wait for. */
  lemma ResultIsExact(cfg: Config, w: World, inp: Input, d: int)
    requires Step(cfg, w, inp).Succeeded()
    requires cfg.spec.ttl != "" ==> cfg.codec.parseDuration(cfg.spec.ttl) == Some(d)
    ensures var e, expiry := cfg.spec.enforcement, cfg.createdAt + d;
            var on := e.enabled && e.action in {"", "ScaleToZero"};
            var target := if inp.now < expiry then expiry else expiry + 10_000_000_000;
            var left := target - inp.untilClock;
            var wait := if left < 600_000_000_000 then left else 600_000_000_000;
            Step(cfg, w, inp).result ==
              if cfg.spec.ttl == "" then if on then RequeueAfter(30_000_000_000) else NoRequeue
              else if inp.now >= expiry + 10_000_000_000 then RequeueAfter(10_000_000_000)
              else if on && inp.now < expiry && (wait == 0 || wait > 30_000_000_000) then RequeueAfter(30_000_000_000)
              else if wait > 0 then RequeueAfter(wait) else NoRequeue
  {
    hide Step;
    StepDeletes(cfg, w, inp);
  }
}
