/** The spend cache over whole runs: it agrees with the billing export and respects the query interval. */
module SpendCache {
  import opened Api
  import opened CostBudget
  import opened Enforcement
  import opened Lifecycle
  import opened Passes
  import opened ReconcileSpec
  import opened Runs
  import opened StepLaws
  import opened Text
  import opened Wrappers

  /** Reconcile `i` asked the billing export and stored the answer. */
  ghost predicate Queried(r: Run, i: int) {
    0 <= i < |r.events| && r.events[i].Reconcile? && r.events[i].out.trace.live && r.events[i].out.Succeeded()
  }

  /** The status caches the answer to query `i`. */
  ghost predicate Caches(cfg: Config, s: Status, r: Run, i: int)
    requires Queried(r, i)
  {
    && s.lastCostQueryAt == Some(Stored(r.events[i].inp.now))
    && s.lastObservedSpendUSD == cfg.codec.formatFloat(r.events[i].inp.billed)
  }

  /** The billing export answers with float64 numbers. */
  ghost predicate BillsFloats(cfg: Config, r: Run) {
    forall i :: 0 <= i < |r.events| && r.events[i].Reconcile? ==> cfg.codec.isFloat(r.events[i].inp.billed)
  }

  /** In every reachable state the cache is empty or holds the answer to a query of the run. */
  lemma {:induction false} CacheComesFromQuery(cfg: Config, r: Run, n: nat)
    requires IsRun(cfg, r) && n <= |r.events| && r.worlds[0].status.lastCostQueryAt.None?
    ensures var s := r.worlds[n].status;
            s.lastCostQueryAt.None? || exists i :: i < n && Queried(r, i) && Caches(cfg, s, r, i)
  {
    hide Step;
    if n > 0 {
      CacheComesFromQuery(cfg, r, n - 1);
      assert Link(cfg, r, n - 1);
      var before, s := r.worlds[n - 1].status, r.worlds[n].status;
      if r.events[n - 1].Reconcile? {
        StepSpend(cfg, r.worlds[n - 1], r.events[n - 1].inp);
      }
      if Queried(r, n - 1) {
        assert Caches(cfg, s, r, n - 1);
      } else if before.lastCostQueryAt.Some? {
        var i :| i < n - 1 && Queried(r, i) && Caches(cfg, before, r, i);
        StoredMonotone(r.events[i].inp.now, r.events[i].inp.now);
        assert Caches(cfg, s, r, i);
      }
    }
  }

  /** The cache agrees with its oracle: whatever spend reconcile `j` compares with the limit is exactly what the
      billing export answered to a reconcile `i` of this run, and either this is the same reconcile or the query
      interval counted from the stored query time is not over. */
  lemma CacheAgreesWithBilling(cfg: Config, r: Run, j: nat)
    requires IsRun(cfg, r) && Clocked(r) && j < |r.events| && cfg.codec.RoundTrips() && BillsFloats(cfg, r)
    requires r.worlds[0].status.lastCostQueryAt.None?
    requires r.events[j].Reconcile? && r.events[j].out.trace.spend.Some?
    ensures exists i :: 0 <= i <= j && r.events[i].Reconcile? && r.events[i].out.trace.live
                        && r.events[j].out.trace.spend == Some(r.events[i].inp.billed)
                        && r.events[i].inp.now <= r.events[j].inp.now
                        && (i == j || r.events[j].inp.now < Stored(r.events[i].inp.now) + QueryInterval(cfg))
  {
    hide Step;
    assert Link(cfg, r, j);
    StepSpend(cfg, r.worlds[j], r.events[j].inp);
    if !r.events[j].out.trace.live {
      CacheComesFromQuery(cfg, r, j);
      var i :| i < j && Queried(r, i) && Caches(cfg, r.worlds[j].status, r, i);
    }
  }

  /** After the stored query `i`, the stored query time never moves back and always comes with a usable text. */
  lemma {:induction false} CacheStaysFresh(cfg: Config, r: Run, i: nat, n: nat)
    requires IsRun(cfg, r) && Clocked(r) && i < n <= |r.events| && cfg.codec.RoundTrips() && BillsFloats(cfg, r)
    requires Queried(r, i)
    ensures var s := r.worlds[n].status;
            && s.lastCostQueryAt.Some? && s.lastCostQueryAt.value >= Stored(r.events[i].inp.now)
            && TrimSpace(s.lastObservedSpendUSD) != ""
    decreases n
  {
    hide Step;
    if n > i + 1 {
      CacheStaysFresh(cfg, r, i, n - 1);
    }
    assert Link(cfg, r, n - 1);
    if r.events[n - 1].Reconcile? {
      var s := r.worlds[n - 1].status;
      StepSpend(cfg, r.worlds[n - 1], r.events[n - 1].inp);
      StoredMonotone(r.events[i].inp.now, r.events[n - 1].inp.now);
      if s.lastCostQueryAt.Some? && Stored(r.events[i].inp.now) <= s.lastCostQueryAt.value {
        StoredMonotone(Stored(r.events[i].inp.now), s.lastCostQueryAt.value);
      }
    }
  }

  /** Query throttle over runs: after a query whose status was stored, no later reconcile asks the billing export,
      even in vain, before the stored query time plus the interval; storing cuts less than a second off the query
      time. */
  lemma QueriesAreThrottled(cfg: Config, r: Run, i: nat, j: nat)
    requires IsRun(cfg, r) && Clocked(r) && i < j < |r.events| && cfg.codec.RoundTrips() && BillsFloats(cfg, r)
    requires Queried(r, i) && r.events[j].Reconcile? && r.events[j].out.trace.live
    ensures r.events[j].inp.now >= Stored(r.events[i].inp.now) + QueryInterval(cfg)
    ensures r.events[j].inp.now > r.events[i].inp.now + QueryInterval(cfg) - SECOND
  {
    hide Step;
    CacheStaysFresh(cfg, r, i, j);
    assert Link(cfg, r, j);
    StepSpend(cfg, r.worlds[j], r.events[j].inp);
  }

  /** No event from `i` on and before `n` is a query that was stored. */
  ghost predicate NoQuery(r: Run, i: nat, n: nat) {
    forall k :: i <= k < n ==> !Queried(r, k)
  }

  /** Without a newly stored query the cache stays, whatever else happens. */
  lemma {:induction false} CacheStays(cfg: Config, r: Run, i: nat, n: nat)
    requires IsRun(cfg, r) && i <= n <= |r.events| && NoQuery(r, i, n) && AsStored(r.worlds[i].status)
    ensures AsStored(r.worlds[n].status) && SameCache(r.worlds[i].status, r.worlds[n].status)
    decreases n
  {
    hide Step;
    if i < n {
      CacheStays(cfg, r, i, n - 1);
      assert Link(cfg, r, n - 1) && !Queried(r, n - 1);
      if r.events[n - 1].Reconcile? {
        StepSpend(cfg, r.worlds[n - 1], r.events[n - 1].inp);
        StoredStaysStored(cfg, r.worlds[n - 1], r.events[n - 1].inp);
      }
    }
  }

  /** The interval counts exactly from the stored query time: after a stored query and before the next, through any
      cache hits, failures and edits, a reconcile that compares a spend asks again if and only if that time plus the
      interval is reached. So it asks within the interval of the query exactly in the fraction of a second that
      storing cut off. */
  lemma NextQueryIsExact(cfg: Config, r: Run, i: nat, j: nat)
    requires IsRun(cfg, r) && cfg.codec.RoundTrips() && BillsFloats(cfg, r)
    requires i < j < |r.events| && Queried(r, i) && NoQuery(r, i + 1, j)
    requires r.events[j].Reconcile? && r.events[j].out.trace.spend.Some?
    ensures var q, now := r.events[i].inp.now, r.events[j].inp.now;
            && (r.events[j].out.trace.live <==> now >= Stored(q) + QueryInterval(cfg))
            && (r.events[j].out.trace.live && now < q + QueryInterval(cfg) <==>
                  Stored(q) + QueryInterval(cfg) <= now < q + QueryInterval(cfg))
  {
    hide Step;
    assert Link(cfg, r, i) && Link(cfg, r, j);
    StepSpend(cfg, r.worlds[i], r.events[i].inp);
    StoredStaysStored(cfg, r.worlds[i], r.events[i].inp);
    CacheStays(cfg, r, i + 1, j);
    StepSpend(cfg, r.worlds[j], r.events[j].inp);
  }

  /** A query whose status was not stored is forgotten: as long as none is stored, through any retries, failures and
      edits, a reconcile that compares a spend asks exactly when the older cache has no answer, however short ago the
      lost query was. */
  lemma LostQueryIsForgotten(cfg: Config, r: Run, i: nat, j: nat)
    requires IsRun(cfg, r) && i < j < |r.events| && AsStored(r.worlds[i].status)
    requires r.events[i].Reconcile? && r.events[i].out.trace.live && !r.events[i].out.Succeeded()
    requires NoQuery(r, i + 1, j)
    requires r.events[j].Reconcile? && r.events[j].out.trace.spend.Some?
    ensures var older := r.worlds[i].status;
            r.events[j].out.trace.live <==>
              !CacheAnswers(cfg, older.lastCostQueryAt, older.lastObservedSpendUSD, r.events[j].inp.now)
  {
    hide Step;
    CacheStays(cfg, r, i, j);
    assert Link(cfg, r, j);
    StepSpend(cfg, r.worlds[j], r.events[j].inp);
  }

  // ------------------------------------------------------------------------------------------
  // Queries closer together than the interval.

  /** A reconcile at `t`, with no quota reported and `billed` on the bill. */
  function BilledAt(t: int, billed: real, fuse: Fuse): Input {
    Input(t, t, t, map[], map[], billed, fuse, true)
  }

  /** Enforcement with a dollar budget, nothing in the way of a reconcile at `t`. */
  predicate BudgetRuns(cfg: Config, t: int) {
    && Enforcing(cfg.spec) && CostEnabled(cfg.spec) && Readable(cfg, FRESH)
    && PhaseAt(cfg, t).Active?
  }

  lemma FirstReconcileQueries(cfg: Config, fleet: Fleet, t: int, billed: real)
    requires BudgetRuns(cfg, t)
    ensures var o := Step(cfg, World(fleet, FRESH, 0), BilledAt(t, billed, Never));
            && o.Succeeded() && o.trace.live
            && o.world.status.lastCostQueryAt == Some(Stored(t))
            && o.world.status.lastObservedSpendUSD == cfg.codec.formatFloat(billed)
  {
    hide Step;
    var w, inp := World(fleet, FRESH, 0), BilledAt(t, billed, Never);
    CleanStepSucceeds(cfg, w, inp);
    TraceMeaning(cfg, w, inp);
    StepSpend(cfg, w, inp);
  }

  /** `queryInterval` is kept as the minimum time between queries only from whole seconds: a query at any other time
      can be followed by one less than the interval later, in a run without a single failure. */
  lemma EarlyQuery(cfg: Config, fleet: Fleet, t: int, billed: real) returns (r: Run)
    requires cfg.codec.RoundTrips() && cfg.codec.isFloat(billed)
    requires Stored(t) != t && t <= Stored(t) + QueryInterval(cfg) && BudgetRuns(cfg, Stored(t) + QueryInterval(cfg))
    ensures IsRun(cfg, r) && Clocked(r) && r.worlds[0] == World(fleet, FRESH, 0)
    ensures Queried(r, 0) && Queried(r, 1) && r.events[0].inp.now == t && r.events[1].inp.now < t + QueryInterval(cfg)
  {
    hide Step, Execute;
    var w, next := World(fleet, FRESH, 0), Stored(t) + QueryInterval(cfg);
    var first, second := BilledAt(t, billed, Never), BilledAt(next, billed, Never);
    r := Execute(cfg, w, [Arrives(first), Arrives(second)]);
    ExecuteIsRun(cfg, w, [Arrives(first), Arrives(second)]);
    TwoReconciles(cfg, w, first, second);
    PhasesMoveForward(cfg, t, next);
    FirstReconcileQueries(cfg, fleet, t, billed);
    var w1 := Step(cfg, w, first).world;
    CleanStepSucceeds(cfg, w1, second);
    TraceMeaning(cfg, w1, second);
    StepSpend(cfg, w1, second);
  }

  /** With restore off and the spend below the limit, a reconcile that is cut off at its status update has queried
      in vain. */
  lemma CutReconcileQueries(cfg: Config, fleet: Fleet, t: int, billed: real)
    requires BudgetRuns(cfg, t) && !cfg.spec.enforcement.restoreOnRecovery
    requires !SpendAtOrOverMax(billed, MaxUSD(cfg).value)
    ensures var o := Step(cfg, World(fleet, FRESH, 0), BilledAt(t, billed, After(4)));
            !o.Succeeded() && o.trace.live && o.world == World(fleet, FRESH, 0)
  {
  }

  /** A lost status update throttles nothing: in this run the billing export is asked at `t` and again at `later`, which
      may be as soon as one likes. */
  lemma QueryRepeatedAtOnce(cfg: Config, fleet: Fleet, t: int, later: int, billed: real) returns (r: Run)
    requires t <= later && BudgetRuns(cfg, later) && !cfg.spec.enforcement.restoreOnRecovery
    requires !SpendAtOrOverMax(billed, MaxUSD(cfg).value)
    ensures IsRun(cfg, r) && Clocked(r) && |r.events| == 2 && Undisturbed(r)
    ensures r.events[0].inp.now == t && r.events[0].out.trace.live
    ensures r.events[1].inp.now == later && r.events[1].out.trace.live
  {
    hide Step, Execute;
    var w := World(fleet, FRESH, 0);
    var first, second := BilledAt(t, billed, After(4)), BilledAt(later, billed, Never);
    r := Execute(cfg, w, [Arrives(first), Arrives(second)]);
    ExecuteIsRun(cfg, w, [Arrives(first), Arrives(second)]);
    TwoReconciles(cfg, w, first, second);
    PhasesMoveForward(cfg, t, later);
    CutReconcileQueries(cfg, fleet, t, billed);
    FirstReconcileQueries(cfg, fleet, later, billed);
  }
}
