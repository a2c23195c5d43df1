/** Runs in which every reconcile succeeds and starts exactly when the one before asked for it. */
module Schedule {
  import opened Api
  import opened CostBudget
  import opened Enforcement
  import opened Lifecycle
  import opened Passes
  import opened ReconcileSpec
  import opened Runs
  import opened StepLaws
  import opened Workloads
  import opened Wrappers

  /** No errors, the clock frozen within a reconcile, and each reconcile started when asked. */
  ghost predicate AsAsked(cfg: Config, r: Run) {
    && IsRun(cfg, r) && Undisturbed(r) && 0 < |r.events|
    && (forall k :: 0 <= k < |r.events| ==>
          && r.events[k].out.Succeeded()
          && r.events[k].inp.now == r.events[k].inp.untilClock == r.events[k].inp.opClock)
    && (forall k :: 0 <= k < |r.events| - 1 ==>
          && r.events[k].out.result.RequeueAfter?
          && r.events[k + 1].inp.now == r.events[k].inp.now + r.events[k].out.result.delay)
  }

  // ------------------------------------------------------------------------------------------
  // Deletion.

  /** The longest wait before expiry. */
  function Period(cfg: Config): int {
    if Enforcing(cfg.spec) then POLL_INTERVAL else TTL_REQUEUE_CAP
  }

  /** How many reconciles, `Period` apart from `start` on, happen before expiry: the ceiling of the quotient. */
  function Rounds(cfg: Config, start: int): (n: nat)
    requires HasTtl(cfg) && TtlReadable(cfg) && start < Expiry(cfg)
    ensures (n - 1) * Period(cfg) < Expiry(cfg) - start <= n * Period(cfg)
  {
    var left := Expiry(cfg) - start;
    (left + Period(cfg) - 1) / Period(cfg)
  }

  /** When reconcile `k` of the run starts. */
  function When(cfg: Config, start: int, k: int): int
    requires HasTtl(cfg) && TtlReadable(cfg) && start < Expiry(cfg)
  {
    var n := Rounds(cfg, start);
    if k < n then start + k * Period(cfg)
    else Expiry(cfg) + (k - n) * DELETE_GRACE
  }

  /** The next start follows from the delay asked for at this one. */
  lemma WhenAdvances(cfg: Config, start: int, k: nat)
    requires HasTtl(cfg) && TtlReadable(cfg) && start < Expiry(cfg)
    ensures var t := When(cfg, start, k);
            && Delay(cfg, t, t) == When(cfg, start, k + 1) - t > 0
            && (PhaseAt(cfg, t).Active? <==> k < Rounds(cfg, start))
            && (PhaseAt(cfg, t).Deleting? <==> k > Rounds(cfg, start))
  {
  }

  /** The whole timetable up to deletion and beyond: with `n` rounds before expiry, reconcile `n` starts exactly at
      expiry and reconcile `n + 1` exactly when the grace period ends; each asks for the next. */
  lemma {:induction false} Timetable(cfg: Config, r: Run, k: nat)
    requires AsAsked(cfg, r) && k < |r.events|
    requires HasTtl(cfg) && TtlReadable(cfg) && r.events[0].inp.now < Expiry(cfg)
    ensures var t := r.events[k].inp.now; var start := r.events[0].inp.now;
            && t == When(cfg, start, k)
            && r.events[k].out.result == RequeueAfter(When(cfg, start, k + 1) - t)
  {
    hide Step;
    if k > 0 {
      Timetable(cfg, r, k - 1);
    }
    assert Link(cfg, r, k);
    StepDeletes(cfg, r.worlds[k], r.events[k].inp);
    WhenAdvances(cfg, r.events[0].inp.now, k);
  }

  /** One namespace delete is issued in each reconcile after reconcile number `Rounds`, counting from zero. */
  lemma {:induction false} DeletesCounted(cfg: Config, r: Run, n: nat)
    requires AsAsked(cfg, r) && n <= |r.events|
    requires HasTtl(cfg) && TtlReadable(cfg) && r.events[0].inp.now < Expiry(cfg)
    ensures var first := Rounds(cfg, r.events[0].inp.now) + 1;
            r.worlds[n].deletes == r.worlds[0].deletes + (if n <= first then 0 else n - first)
  {
    hide Step, When;
    if n > 0 {
      DeletesCounted(cfg, r, n - 1);
      Timetable(cfg, r, n - 1);
      WhenAdvances(cfg, r.events[0].inp.now, n - 1);
      assert Link(cfg, r, n - 1);
      StepDeletes(cfg, r.worlds[n - 1], r.events[n - 1].inp);
    }
  }

  /** Deletion is reached on time: a run from before expiry that is long enough issues its first namespace delete in
      reconcile number `Rounds + 2`, which starts exactly at expiry plus the grace period; before that there is none. */
  lemma DeletionOnTime(cfg: Config, r: Run)
    requires AsAsked(cfg, r)
    requires HasTtl(cfg) && TtlReadable(cfg) && r.events[0].inp.now < Expiry(cfg)
    requires Rounds(cfg, r.events[0].inp.now) + 1 < |r.events|
    ensures var first := Rounds(cfg, r.events[0].inp.now) + 1;
            && r.events[first].inp.now == Expiry(cfg) + DELETE_GRACE
            && r.worlds[first].deletes == r.worlds[0].deletes
            && r.worlds[first + 1].deletes == r.worlds[0].deletes + 1
  {
    hide Step;
    var first := Rounds(cfg, r.events[0].inp.now) + 1;
    Timetable(cfg, r, first);
    DeletesCounted(cfg, r, first);
    DeletesCounted(cfg, r, first + 1);
  }

  // ------------------------------------------------------------------------------------------
  // Restore.

  /** The time from which the record allows a restore; `from` when it allows one already. */
  function Due(s: Status, cooldown: int, from: int): int {
    if s.lastEnforcementOp == SCALE_TO_ZERO && s.lastEnforcementAt.Some? then s.lastEnforcementAt.value + cooldown
    else from
  }

  /** Saved and waiting before; back at the saved count afterwards, with the annotation gone. */
  predicate BackAtSaved(w: Workload, w': Workload) {
    Touches(Restore, w) ==> w'.replicas == Some(Saved(w).value) && !HasSaved(w')
  }

  lemma RestoreBringsBack(f: Fleet)
    ensures Pairwise(f, PassedFleet(Restore, f), BackAtSaved)
    ensures FleetWork(Restore, PassedFleet(Restore, f)) == 0
    ensures PassedFleet(Restore, PassedFleet(Restore, f)) == PassedFleet(Restore, f)
  {
    FleetWorkNone(Restore, f);
    FleetWorkNone(Restore, PassedFleet(Restore, f));
  }

  /** With the budget kept throughout and restore on. */
  ghost predicate Recovering(cfg: Config, r: Run) {
    && AsAsked(cfg, r) && cfg.spec.enforcement.restoreOnRecovery && Cooldown(cfg).Some?
    && AsStored(r.worlds[0].status)
    && forall k :: 0 <= k < |r.events| ==> WithinBudget(r.events[k].out.trace)
  }

  /** One more reconcile with the budget kept. */
  lemma RecoveryStep(cfg: Config, w: World, inp: Input)
    requires Step(cfg, w, inp).Succeeded() && WithinBudget(Step(cfg, w, inp).trace) && AsStored(w.status)
    requires cfg.spec.enforcement.restoreOnRecovery
    ensures Cooldown(cfg).Some?
    ensures var w' := Step(cfg, w, inp).world; var s, s' := w.status, w'.status;
            && AsStored(s')
            && (if CanRestore(s.lastEnforcementOp, s.lastEnforcementAt, Cooldown(cfg).value, inp.now)
                then w'.fleet == PassedFleet(Restore, w.fleet)
                else w'.fleet == w.fleet && s'.lastEnforcementOp == s.lastEnforcementOp
                     && s'.lastEnforcementAt == s.lastEnforcementAt)
  {
    hide Step;
    RecoveryIsExact(cfg, w, inp);
    StepFleet(cfg, w, inp);
    StepRecord(cfg, w, inp);
    StoredStaysStored(cfg, w, inp);
  }

  /** While the budget is kept, reconciles are exactly one poll interval apart, TTL or not: a shorter wait would end at
      expiry, and the reconcile there would not look at the budget. */
  lemma {:induction false} PollsExactly(cfg: Config, r: Run, k: nat)
    requires Recovering(cfg, r) && k < |r.events|
    ensures r.events[k].inp.now == r.events[0].inp.now + k * POLL_INTERVAL
  {
    hide Step;
    if k > 0 {
      PollsExactly(cfg, r, k - 1);
      assert Link(cfg, r, k - 1) && Link(cfg, r, k);
      StepFleet(cfg, r.worlds[k - 1], r.events[k - 1].inp);
      StepFleet(cfg, r.worlds[k], r.events[k].inp);
      StepDeletes(cfg, r.worlds[k - 1], r.events[k - 1].inp);
    }
  }

  /** How many poll intervals pass from `start` until `due` is reached: the ceiling of the quotient. */
  function Polls(due: int, start: int): (n: nat)
    ensures start + n * POLL_INTERVAL >= due
    ensures n > 0 ==> start + (n - 1) * POLL_INTERVAL < due
  {
    if due <= start then 0 else (due - start + POLL_INTERVAL - 1) / POLL_INTERVAL
  }

  /** The number of the reconcile that restores, counting from zero. */
  function RestoreRound(cfg: Config, r: Run): nat
    requires Recovering(cfg, r)
  {
    var start := r.events[0].inp.now;
    Polls(Due(r.worlds[0].status, Cooldown(cfg).value, start), start)
  }

  /** The workloads stay as they are up to reconcile number `RestoreRound`, and are restored by it and from then on. */
  lemma {:induction false} RestoredSinceDue(cfg: Config, r: Run, n: nat)
    requires Recovering(cfg, r) && n <= |r.events|
    ensures AsStored(r.worlds[n].status)
    ensures var w, now := r.worlds[0], r.worlds[n];
            if n > RestoreRound(cfg, r) then now.fleet == PassedFleet(Restore, w.fleet)
            else now.fleet == w.fleet && now.status.lastEnforcementOp == w.status.lastEnforcementOp
                 && now.status.lastEnforcementAt == w.status.lastEnforcementAt
  {
    hide Step, PassedFleet, AsStored;
    if n > 0 {
      RestoredSinceDue(cfg, r, n - 1);
      assert Link(cfg, r, n - 1);
      RecoveryStep(cfg, r.worlds[n - 1], r.events[n - 1].inp);
      RestoreBringsBack(r.worlds[0].fleet);
      PollsExactly(cfg, r, n - 1);
    }
  }

  /** Restore comes on time: when every reconcile from time `from` on finds the budget kept, the saved workloads are
      brought back by reconcile number `RestoreRound` and no other. It starts that many poll intervals after the
      first, so within one poll interval of the later of `from` and the end of the cooldown; everything saved is then
      back at its saved count, and stays there. */
  lemma RestoreOnTime(cfg: Config, r: Run, from: int)
    requires Recovering(cfg, r) && from <= r.events[0].inp.now <= from + POLL_INTERVAL
    requires RestoreRound(cfg, r) < |r.events|
    ensures var k := RestoreRound(cfg, r); var due := Due(r.worlds[0].status, Cooldown(cfg).value, from);
            && r.events[k].inp.now == r.events[0].inp.now + k * POLL_INTERVAL
            && due <= r.events[k].inp.now <= (if from < due then due else from) + POLL_INTERVAL
    ensures forall n :: 0 <= n <= RestoreRound(cfg, r) ==> r.worlds[n].fleet == r.worlds[0].fleet
    ensures forall n :: RestoreRound(cfg, r) < n <= |r.events| ==>
              && r.worlds[n].fleet == PassedFleet(Restore, r.worlds[0].fleet)
              && Pairwise(r.worlds[0].fleet, r.worlds[n].fleet, BackAtSaved)
  {
    hide Step, PassedFleet, AsStored, Pairwise, FleetWork;
    PollsExactly(cfg, r, RestoreRound(cfg, r));
    RestoreBringsBack(r.worlds[0].fleet);
    forall n | 0 <= n <= |r.events|
      ensures r.worlds[n].fleet == if n > RestoreRound(cfg, r) then PassedFleet(Restore, r.worlds[0].fleet)
                                   else r.worlds[0].fleet
    {
      RestoredSinceDue(cfg, r, n);
    }
  }

  // ------------------------------------------------------------------------------------------
  // There are such runs.

  /** What a reconcile that starts at `t` meets, everything else as in `inp`. */
  function StartedAt(inp: Input, t: int): Input {
    inp.(now := t, untilClock := t, opClock := t)
  }

  /** When the reconcile after `out` at `t` starts. */
  function Wake(t: int, out: Outcome): int {
    if out.result.RequeueAfter? then t + out.result.delay else t
  }

  /** `n + 1` reconciles from time `t` on, each started when the one before asked, all meeting what `inp` says. */
  function Follow(cfg: Config, w: World, inp: Input, t: int, n: nat): (r: Run)
    ensures |r.events| == n + 1 && |r.worlds| == n + 2 && r.worlds[0] == w && r.events[n].Reconcile?
  {
    if n == 0 then
      var out := Step(cfg, w, StartedAt(inp, t));
      Run([w, out.world], [Reconcile(StartedAt(inp, t), out)])
    else
      var r := Follow(cfg, w, inp, t, n - 1);
      var last := r.events[n - 1];
      var next := StartedAt(inp, Wake(last.inp.now, last.out));
      Extended(r, Reconcile(next, Step(cfg, r.worlds[n], next)), Step(cfg, r.worlds[n], next).world)
  }

  /** The texts stay readable: a successful query stores a printed float64. */
  lemma ReadableStays(cfg: Config, w: World, inp: Input)
    requires Readable(cfg, w.status)
    requires CostEnabled(cfg.spec) ==> cfg.codec.RoundTrips() && cfg.codec.isFloat(inp.billed)
    ensures Readable(cfg, Step(cfg, w, inp).world.status)
  {
    hide Step;
    StepSpend(cfg, w, inp);
  }

  /** A run on schedule can be continued by a successful reconcile that starts when asked. */
  lemma AsAskedExtends(cfg: Config, r: Run, inp: Input)
    requires AsAsked(cfg, r)
    requires var n := |r.events|; var last := r.events[n - 1];
             && last.out.result.RequeueAfter? && inp == StartedAt(inp, last.inp.now + last.out.result.delay)
             && Step(cfg, r.worlds[n], inp).Succeeded()
    ensures var out := Step(cfg, r.worlds[|r.events|], inp);
            AsAsked(cfg, Extended(r, Reconcile(inp, out), out.world))
  {
    hide Step;
    var out := Step(cfg, r.worlds[|r.events|], inp);
    var r' := Extended(r, Reconcile(inp, out), out.world);
    forall i | 0 <= i < |r'.events| ensures Link(cfg, r', i) {
      assert i < |r.events| ==> Link(cfg, r, i);
    }
  }

  /** A successful reconcile with something to wait for asks for the next. */
  lemma AsksForNext(cfg: Config, w: World, inp: Input)
    requires Readable(cfg, w.status) && inp.fuse.Never? && inp.untilClock == inp.now
    requires HasTtl(cfg) || Enforcing(cfg.spec)
    ensures Step(cfg, w, inp).Succeeded() && Step(cfg, w, inp).result.RequeueAfter?
  {
    hide Step;
    CleanStepSucceeds(cfg, w, inp);
    StepDeletes(cfg, w, inp);
    RequeueNeverOversleeps(cfg, inp.now, inp.now);
  }

  /** Where no call fails, the texts are readable and there is something to wait for, runs on schedule exist, of any
      length and from any world and time; they meet the inputs that `inp` prescribes. */
  lemma {:induction false} ScheduledRunsExist(cfg: Config, w: World, inp: Input, t: int, n: nat)
    requires Readable(cfg, w.status) && inp.fuse.Never? && (HasTtl(cfg) || Enforcing(cfg.spec))
    requires CostEnabled(cfg.spec) ==> cfg.codec.RoundTrips() && cfg.codec.isFloat(inp.billed)
    ensures var r := Follow(cfg, w, inp, t, n);
            && AsAsked(cfg, r) && r.events[0].inp.now == t
            && Readable(cfg, r.worlds[n + 1].status) && r.events[n].out.result.RequeueAfter?
            && forall k :: 0 <= k <= n ==> r.events[k].inp == StartedAt(inp, r.events[k].inp.now)
  {
    hide Step, Readable, AsAsked;
    if n == 0 {
      ScheduledStart(cfg, w, inp, t);
    } else {
      ScheduledRunsExist(cfg, w, inp, t, n - 1);
      var r := Follow(cfg, w, inp, t, n - 1);
      var next := StartedAt(inp, Wake(r.events[n - 1].inp.now, r.events[n - 1].out));
      AsksForNext(cfg, r.worlds[n], next);
      AsAskedExtends(cfg, r, next);
      ReadableStays(cfg, r.worlds[n], next);
    }
  }

  lemma ScheduledStart(cfg: Config, w: World, inp: Input, t: int)
    requires Readable(cfg, w.status) && inp.fuse.Never? && (HasTtl(cfg) || Enforcing(cfg.spec))
    requires CostEnabled(cfg.spec) ==> cfg.codec.RoundTrips() && cfg.codec.isFloat(inp.billed)
    ensures var r := Follow(cfg, w, inp, t, 0);
            && AsAsked(cfg, r) && r.events[0].inp == StartedAt(inp, t)
            && Readable(cfg, r.worlds[1].status) && r.events[0].out.result.RequeueAfter?
  {
    hide Step, Readable;
    AsksForNext(cfg, w, StartedAt(inp, t));
    ReadableStays(cfg, w, StartedAt(inp, t));
    assert Link(cfg, Follow(cfg, w, inp, t, 0), 0);
  }

  /** So do runs in which the budget is kept throughout. */
  lemma RecoveringRunsExist(cfg: Config, w: World, inp: Input, t: int, n: nat)
    requires Readable(cfg, w.status) && AsStored(w.status) && inp.fuse.Never? && !AtHardLimit(inp.hard, inp.used)
    requires Enforcing(cfg.spec) && cfg.spec.enforcement.restoreOnRecovery && !HasTtl(cfg) && !CostEnabled(cfg.spec)
    ensures Recovering(cfg, Follow(cfg, w, inp, t, n)) && Follow(cfg, w, inp, t, n).worlds[0] == w
  {
    hide Step, Readable, AsStored;
    var r := Follow(cfg, w, inp, t, n);
    ScheduledRunsExist(cfg, w, inp, t, n);
    forall k | 0 <= k < |r.events| ensures WithinBudget(r.events[k].out.trace) {
      assert Link(cfg, r, k);
      TraceMeaning(cfg, r.worlds[k], r.events[k].inp);
    }
    assert Cooldown(cfg).Some? by {
      ReadableMeansCooldown(cfg, w.status);
    }
  }

  lemma ReadableMeansCooldown(cfg: Config, s: Status)
    requires Readable(cfg, s)
    ensures Cooldown(cfg).Some?
  {
  }
}
