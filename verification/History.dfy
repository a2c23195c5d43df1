/** What runs without outside edits keep: every replica count, the alternation of operations, and the end of life. */
module History {
  import opened Api
  import opened Enforcement
  import opened Lifecycle
  import opened Passes
  import opened ReconcileSpec
  import opened Runs
  import opened StepLaws
  import opened Workloads

  /** No run of reconciles loses a count owed by a sound fleet, wherever its reconciles fail and whatever they decide;
      exempt workloads and all other fields stay as they were. */
  lemma {:induction false} RunKeepsIntent(cfg: Config, claim: Claim, r: Run, n: nat)
    requires IsRun(cfg, r) && Undisturbed(r) && n <= |r.events| && SoundFleet(claim, r.worlds[0].fleet)
    ensures IntendedCounts(claim, r.worlds[n].fleet) == IntendedCounts(claim, r.worlds[0].fleet)
    ensures SoundFleet(claim, r.worlds[n].fleet)
    ensures Pairwise(r.worlds[0].fleet, r.worlds[n].fleet, SameBesides)
  {
    hide Step, IntendedCounts, SoundFleet, Pairwise, OnePass;
    AsideSelf(r.worlds[0].fleet);
    if n > 0 {
      RunKeepsIntent(cfg, claim, r, n - 1);
      assert Link(cfg, r, n - 1);
      StepFleet(cfg, r.worlds[n - 1], r.events[n - 1].inp);
      StepKeepsIntent(claim, r.worlds[n - 1].fleet, r.worlds[n].fleet, r.events[n - 1].out.trace);
      AsideTwice(r.worlds[0].fleet, r.worlds[n - 1].fleet, r.worlds[n].fleet);
    }
  }

  lemma AsideSelf(f: Fleet)
    ensures Pairwise(f, f, SameBesides)
  {
  }

  lemma AsideTwice(f: Fleet, g: Fleet, h: Fleet)
    requires Pairwise(f, g, SameBesides) && Pairwise(g, h, SameBesides)
    ensures Pairwise(f, h, SameBesides)
  {
  }

  lemma StepKeepsIntent(claim: Claim, f: Fleet, f': Fleet, tr: Trace)
    requires OnePass(f, f', tr) && SoundFleet(claim, f)
    ensures IntendedCounts(claim, f') == IntendedCounts(claim, f) && SoundFleet(claim, f')
    ensures Pairwise(f, f', SameBesides)
  {
    if tr.restored == 0 {
      ProgressKeepsIntent(claim, ScaleToZero, f, f', tr.scaled);
    } else {
      ProgressKeepsIntent(claim, Restore, f, f', tr.restored);
    }
  }

  // ------------------------------------------------------------------------------------------
  // Recorded operations alternate.

  /** The operations of the first `n` reconciles that patched something. */
  function Operations(r: Run, n: nat): seq<Op>
    requires n <= |r.events|
  {
    if n == 0 then []
    else if r.events[n - 1].Reconcile? && r.events[n - 1].out.trace.scaled > 0 then Operations(r, n - 1) + [ScaleToZero]
    else if r.events[n - 1].Reconcile? && r.events[n - 1].out.trace.restored > 0 then Operations(r, n - 1) + [Restore]
    else Operations(r, n - 1)
  }

  function OpName(op: Op): string {
    match op
    case ScaleToZero => SCALE_TO_ZERO
    case Restore => RESTORE
  }

  /** Scale, restore, scale, and so on; and the work that the next operation in the row would repeat is not there. */
  ghost predicate Alternating(ops: seq<Op>) {
    forall k :: 0 <= k < |ops| ==> ops[k] == if k % 2 == 0 then ScaleToZero else Restore
  }

  /** Operations alternate, starting with a scale, and the stored record names the last of them: in runs nobody
      disturbs, whose patching reconciles succeed, and that start with nothing to restore. A second scale or restore
      in a row would find no work. */
  lemma {:induction false} OperationsAlternate(cfg: Config, r: Run, n: nat)
    requires IsRun(cfg, r) && Undisturbed(r) && n <= |r.events| && FleetWork(Restore, r.worlds[0].fleet) == 0
    requires forall i :: 0 <= i < |r.events| ==>
               r.events[i].out.Succeeded() || (r.events[i].out.trace.scaled == 0 && r.events[i].out.trace.restored == 0)
    ensures var ops := Operations(r, n);
            && Alternating(ops)
            && FleetWork(if |ops| % 2 == 0 then Restore else ScaleToZero, r.worlds[n].fleet) == 0
            && (ops != [] ==> r.worlds[n].status.lastEnforcementOp == OpName(ops[|ops| - 1]))
  {
    hide Step, FleetWork, PassedFleet, OnePass, MayRestore;
    if n > 0 {
      OperationsAlternate(cfg, r, n - 1);
      assert Link(cfg, r, n - 1);
      StepFleet(cfg, r.worlds[n - 1], r.events[n - 1].inp);
      StepRecord(cfg, r.worlds[n - 1], r.events[n - 1].inp);
      OnePassWork(r.worlds[n - 1].fleet, r.worlds[n].fleet, r.events[n - 1].out.trace);
    }
  }

  lemma OnePassWork(f: Fleet, f': Fleet, tr: Trace)
    requires OnePass(f, f', tr)
    ensures tr.scaled > 0 ==> FleetWork(ScaleToZero, f) > 0 && tr.restored == 0
    ensures tr.restored > 0 ==> FleetWork(Restore, f) > 0 && tr.scaled == 0
    ensures tr.scaled == 0 && tr.restored == 0 ==> f' == f
    ensures f' == PassedFleet(ScaleToZero, f) ==> FleetWork(ScaleToZero, f') == 0
    ensures f' == PassedFleet(Restore, f) ==> FleetWork(Restore, f') == 0
  {
    FleetWorkNone(ScaleToZero, f);
    FleetWorkNone(Restore, f);
  }

  // ------------------------------------------------------------------------------------------
  // Expiry is final.

  /** From expiry on no reconcile raises a workload, whatever was edited in between. */
  lemma ExpiryIsFinal(cfg: Config, r: Run, i: nat, j: nat)
    requires IsRun(cfg, r) && Clocked(r) && i <= j < |r.events| && HasTtl(cfg) && TtlReadable(cfg)
    requires r.events[i].Reconcile? && r.events[j].Reconcile? && r.events[i].inp.now >= Expiry(cfg)
    ensures !Raises(r.worlds[j].fleet, r.worlds[j + 1].fleet)
  {
    hide Step;
    assert Link(cfg, r, j);
    PhasesMoveForward(cfg, r.events[i].inp.now, r.events[j].inp.now);
    StepFleet(cfg, r.worlds[j], r.events[j].inp);
    OnlyRestoreRaises(r.worlds[j].fleet, r.worlds[j + 1].fleet, r.events[j].out.trace);
  }

  /** After one successful reconcile in the grace period, with enforcement on, everything is down, and unless somebody
      edits the workloads nothing moves any more. */
  lemma {:induction false} DownSinceGrace(cfg: Config, r: Run, i: nat, n: nat)
    requires IsRun(cfg, r) && Clocked(r) && i < n <= |r.events| && Enforcing(cfg.spec) && TtlReadable(cfg)
    requires r.events[i].Reconcile? && r.events[i].out.Succeeded() && PhaseAt(cfg, r.events[i].inp.now).Grace?
    requires forall k :: i < k < n ==> r.events[k].Reconcile?
    ensures AllDown(r.worlds[n].fleet)
    ensures r.worlds[n].fleet == PassedFleet(ScaleToZero, r.worlds[i].fleet)
    decreases n
  {
    hide Step, FleetWork, PassedFleet;
    var start := r.worlds[i].fleet;
    FleetWorkNone(ScaleToZero, start);
    AllDownMeansNoWork(PassedFleet(ScaleToZero, start));
    assert Link(cfg, r, n - 1);
    StepFleet(cfg, r.worlds[n - 1], r.events[n - 1].inp);
    if n > i + 1 {
      DownSinceGrace(cfg, r, i, n - 1);
      PhasesMoveForward(cfg, r.events[i].inp.now, r.events[n - 1].inp.now);
      OnePassWork(r.worlds[n - 1].fleet, r.worlds[n].fleet, r.events[n - 1].out.trace);
    }
  }
}
