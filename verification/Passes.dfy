/** The scale and restore passes as functions: two loops over listed workloads whose patches may fail. */
module Passes {
  import opened Workloads
  import opened Wrappers

  /** How many API calls still succeed. The first failing call ends a reconcile, so one number
      covers every way a reconcile can be cut short. */
  datatype Fuse = Never | After(calls: nat)
  {
    predicate Blown() {
      this == After(0)
    }

    /** What is left after one call. */
    function Burn(): Fuse {
      if After? && calls > 0 then After(calls - 1) else this
    }
  }

  /** The Deployments and StatefulSets of the managed namespace, in list order. */
  datatype Fleet = Fleet(deployments: seq<Workload>, statefulSets: seq<Workload>)

  datatype ListOutcome = ListOutcome(items: seq<Workload>, count: nat, fuse: Fuse, ok: bool)
  datatype FleetOutcome = FleetOutcome(fleet: Fleet, count: nat, fuse: Fuse, ok: bool)

  /** Puts the part of a list that is done in front of the outcome of the rest. */
  function Prepend(done: seq<Workload>, n: nat, rest: ListOutcome): ListOutcome {
    rest.(items := done + rest.items, count := n + rest.count)
  }

  /** One loop: patch every touched item in order, stop at the first patch that fails. */
  function PassItems(op: Op, ws: seq<Workload>, fuse: Fuse): (r: ListOutcome)
    ensures |r.items| == |ws|
  {
    if ws == [] then ListOutcome([], 0, fuse, true)
    else if !Touches(op, ws[0]) then Prepend([ws[0]], 0, PassItems(op, ws[1..], fuse))
    else if fuse.Blown() then ListOutcome(ws, 0, fuse, false)
    else Prepend([Patched(op, ws[0])], 1, PassItems(op, ws[1..], fuse.Burn()))
  }

  /** The loop preceded by its List call. */
  function PassKind(op: Op, ws: seq<Workload>, fuse: Fuse): (r: ListOutcome)
    ensures |r.items| == |ws|
  {
    if fuse.Blown() then ListOutcome(ws, 0, fuse, false) else PassItems(op, ws, fuse.Burn())
  }

  /** Deployments first; StatefulSets only if no Deployment failed. */
  function Pass(op: Op, fleet: Fleet, fuse: Fuse): FleetOutcome {
    var d := PassKind(op, fleet.deployments, fuse);
    if !d.ok then FleetOutcome(fleet.(deployments := d.items), d.count, d.fuse, false)
    else
      var s := PassKind(op, fleet.statefulSets, d.fuse);
      FleetOutcome(Fleet(d.items, s.items), d.count + s.count, s.fuse, s.ok)
  }

  // ------------------------------------------------------------------------------------------
  // What an uninterrupted pass amounts to.

  function PassedAll(op: Op, ws: seq<Workload>): (r: seq<Workload>)
    ensures |r| == |ws|
    ensures forall i :: 0 <= i < |ws| ==> r[i] == Passed(op, ws[i])
  {
    if ws == [] then [] else [Passed(op, ws[0])] + PassedAll(op, ws[1..])
  }

  /** How many items of `ws` a pass has to patch. */
  function Work(op: Op, ws: seq<Workload>): nat {
    if ws == [] then 0 else (if Touches(op, ws[0]) then 1 else 0) + Work(op, ws[1..])
  }

  function PassedFleet(op: Op, fleet: Fleet): Fleet {
    Fleet(PassedAll(op, fleet.deployments), PassedAll(op, fleet.statefulSets))
  }

  function FleetWork(op: Op, fleet: Fleet): nat {
    Work(op, fleet.deployments) + Work(op, fleet.statefulSets)
  }

  /** `p` holds of every workload of the fleet. */
  ghost predicate Every(fleet: Fleet, p: Workload -> bool) {
    && (forall i :: 0 <= i < |fleet.deployments| ==> p(fleet.deployments[i]))
    && (forall i :: 0 <= i < |fleet.statefulSets| ==> p(fleet.statefulSets[i]))
  }

  /** The two fleets have the same shape and `r` relates them workload by workload. */
  ghost predicate Pairwise(f: Fleet, f': Fleet, r: (Workload, Workload) -> bool) {
    && |f.deployments| == |f'.deployments| && |f.statefulSets| == |f'.statefulSets|
    && (forall i :: 0 <= i < |f.deployments| ==> r(f.deployments[i], f'.deployments[i]))
    && (forall i :: 0 <= i < |f.statefulSets| ==> r(f.statefulSets[i], f'.statefulSets[i]))
  }

  lemma {:induction false} WorkNone(op: Op, ws: seq<Workload>)
    ensures Work(op, ws) == 0 <==> forall i :: 0 <= i < |ws| ==> !Touches(op, ws[i])
    ensures Work(op, ws) == 0 ==> PassedAll(op, ws) == ws
  {
    if ws != [] {
      WorkNone(op, ws[1..]);
      assert ws == [ws[0]] + ws[1..];
    }
  }

  lemma PassLeavesNoWork(op: Op, ws: seq<Workload>)
    ensures Work(op, PassedAll(op, ws)) == 0
  {
    forall w: Workload ensures !Touches(op, Passed(op, w)) { PassedSettles(op, w); }
    WorkNone(op, PassedAll(op, ws));
  }

  /** A pass with no work left touches nothing, and a pass leaves no work. */
  lemma FleetWorkNone(op: Op, fleet: Fleet)
    ensures FleetWork(op, fleet) == 0 <==> Every(fleet, w => !Touches(op, w))
    ensures FleetWork(op, fleet) == 0 ==> PassedFleet(op, fleet) == fleet
    ensures FleetWork(op, PassedFleet(op, fleet)) == 0
  {
    WorkNone(op, fleet.deployments);
    WorkNone(op, fleet.statefulSets);
    PassLeavesNoWork(op, fleet.deployments);
    PassLeavesNoWork(op, fleet.statefulSets);
  }

  // ------------------------------------------------------------------------------------------
  // A pass cut short leaves a prefix done, and a later pass finishes the job.

  lemma SplitGrows(op: Op, w: Workload, ws: seq<Workload>, ws': seq<Workload>)
    requires PassedAll(op, ws') == PassedAll(op, ws) && Advanced(op, ws, ws')
    ensures PassedAll(op, [Passed(op, w)] + ws') == PassedAll(op, [w] + ws)
    ensures Work(op, [Passed(op, w)] + ws') == Work(op, ws')
    ensures Advanced(op, [w] + ws, [Passed(op, w)] + ws')
  {
    hide Touches, Patched;
    PassedSettles(op, w);
  }

  /** Any loop, cut short or not: the items patched and the items still to patch add up, each item is
      passed or untouched, and success means that nothing is left. */
  lemma {:induction false} ItemsSplit(op: Op, ws: seq<Workload>, fuse: Fuse)
    ensures var r := PassItems(op, ws, fuse);
            && PassedAll(op, r.items) == PassedAll(op, ws)
            && r.count + Work(op, r.items) == Work(op, ws)
            && Advanced(op, ws, r.items)
            && (r.ok <==> Work(op, r.items) == 0)
            && (r.ok ==> r.items == PassedAll(op, ws))
            && (fuse.Never? ==> r.ok && r.fuse.Never?)
            && (r.count == 0 ==> r.items == ws)
  {
    hide Touches, Patched;
    if ws == [] {
    } else if Touches(op, ws[0]) && fuse.Blown() {
    } else {
      hide PassedAll, Advanced;
      var next := if Touches(op, ws[0]) then fuse.Burn() else fuse;
      ItemsSplit(op, ws[1..], next);
      var rest := PassItems(op, ws[1..], next);
      assert PassItems(op, ws, fuse) == Prepend([Passed(op, ws[0])], if Touches(op, ws[0]) then 1 else 0, rest);
      SplitGrows(op, ws[0], ws[1..], rest.items);
      assert ws == [ws[0]] + ws[1..];
    }
  }

  lemma KindSplit(op: Op, ws: seq<Workload>, fuse: Fuse)
    ensures var r := PassKind(op, ws, fuse);
            && PassedAll(op, r.items) == PassedAll(op, ws)
            && r.count + Work(op, r.items) == Work(op, ws)
            && Advanced(op, ws, r.items)
            && (r.ok ==> r.items == PassedAll(op, ws) && Work(op, r.items) == 0)
            && (fuse.Never? ==> r.ok && r.fuse.Never?)
            && (r.count == 0 ==> r.items == ws)
  {
    if !fuse.Blown() {
      ItemsSplit(op, ws, fuse.Burn());
    }
  }

  /** Each item is passed or as it was. */
  ghost predicate Advanced(op: Op, ws: seq<Workload>, ws': seq<Workload>) {
    |ws'| == |ws| && forall i :: 0 <= i < |ws| ==> ws'[i] == ws[i] || ws'[i] == Passed(op, ws[i])
  }

  /** What any pass does, cut short or not: `n` patches went through, each workload is passed or untouched, done and
      remaining work add up to the whole, and completing what is left gives what one uninterrupted pass gives. */
  ghost predicate Progress(op: Op, fleet: Fleet, fleet': Fleet, n: nat) {
    && PassedFleet(op, fleet') == PassedFleet(op, fleet)
    && n + FleetWork(op, fleet') == FleetWork(op, fleet)
    && Advanced(op, fleet.deployments, fleet'.deployments)
    && Advanced(op, fleet.statefulSets, fleet'.statefulSets)
    && (n == 0 ==> fleet' == fleet)
  }

  lemma PassSplit(op: Op, fleet: Fleet, fuse: Fuse)
    ensures var r := Pass(op, fleet, fuse);
            && Progress(op, fleet, r.fleet, r.count)
            && (r.ok ==> r.fleet == PassedFleet(op, fleet) && r.count == FleetWork(op, fleet))
            && (fuse.Never? ==> r.ok && r.fuse.Never?)
  {
    KindSplit(op, fleet.deployments, fuse);
    var d := PassKind(op, fleet.deployments, fuse);
    if d.ok {
      KindSplit(op, fleet.statefulSets, d.fuse);
    }
  }

  lemma {:induction false} ItemsUseCalls(op: Op, ws: seq<Workload>, calls: nat)
    ensures var r := PassItems(op, ws, After(calls));
            && (r.ok <==> Work(op, ws) <= calls)
            && (r.ok ==> r.fuse == After(calls - Work(op, ws)))
  {
    hide Touches, Patched;
    if ws != [] && !(Touches(op, ws[0]) && calls == 0) {
      ItemsUseCalls(op, ws[1..], if Touches(op, ws[0]) then calls - 1 else calls);
    }
  }

  /** A pass needs one call a patch, besides its two lists: with fewer it fails, with more it leaves the rest. */
  lemma PassUsesCalls(op: Op, fleet: Fleet, calls: nat)
    ensures var r := Pass(op, fleet, After(calls));
            && (r.ok <==> 2 + FleetWork(op, fleet) <= calls)
            && (r.ok ==> r.fuse == After(calls - 2 - FleetWork(op, fleet)))
  {
    if calls > 0 {
      ItemsUseCalls(op, fleet.deployments, calls - 1);
      if calls - 2 - Work(op, fleet.deployments) >= 0 {
        ItemsUseCalls(op, fleet.statefulSets, calls - 2 - Work(op, fleet.deployments));
      }
    }
  }

  // ------------------------------------------------------------------------------------------
  // The order of the patches.

  /** All workloads in the order of their patches. */
  function Members(fleet: Fleet): seq<Workload> {
    fleet.deployments + fleet.statefulSets
  }

  /** The first `k` workloads of the list are passed, the others as they were. */
  ghost predicate PrefixPassed(op: Op, ws: seq<Workload>, ws': seq<Workload>, k: int) {
    && 0 <= k <= |ws| == |ws'|
    && (forall i :: 0 <= i < k ==> ws'[i] == Passed(op, ws[i]))
    && (forall i :: k <= i < |ws| ==> ws'[i] == ws[i])
  }

  lemma PrefixGrows(op: Op, w: Workload, ws: seq<Workload>, ws': seq<Workload>, k: int)
    requires PrefixPassed(op, ws, ws', k)
    ensures PrefixPassed(op, [w] + ws, [Passed(op, w)] + ws', k + 1)
  {
    hide Passed;
  }

  lemma {:induction false} ItemsPrefix(op: Op, ws: seq<Workload>, fuse: Fuse) returns (k: nat)
    ensures var r := PassItems(op, ws, fuse); PrefixPassed(op, ws, r.items, k) && (r.ok ==> k == |ws|)
  {
    hide Touches, Patched;
    k := 0;
    if ws != [] && (!Touches(op, ws[0]) || !fuse.Blown()) {
      var next := if Touches(op, ws[0]) then fuse.Burn() else fuse;
      var rest := ItemsPrefix(op, ws[1..], next);
      k := rest + 1;
      hide PrefixPassed;
      PrefixGrows(op, ws[0], ws[1..], PassItems(op, ws[1..], next).items, rest);
      assert [ws[0]] + ws[1..] == ws;
    }
  }

  lemma KindPrefix(op: Op, ws: seq<Workload>, fuse: Fuse) returns (k: nat)
    ensures var r := PassKind(op, ws, fuse); PrefixPassed(op, ws, r.items, k) && (r.ok ==> k == |ws|)
  {
    k := 0;
    if !fuse.Blown() {
      k := ItemsPrefix(op, ws, fuse.Burn());
    }
  }

  /** Patches go strictly in order, Deployments before StatefulSets: wherever a pass is cut short, the workloads up to
      some point are passed and all later ones untouched, so no StatefulSet changes while a Deployment has work left. */
  lemma PassGoesInOrder(op: Op, fleet: Fleet, fuse: Fuse)
    ensures var f := Pass(op, fleet, fuse).fleet;
            && (exists k :: PrefixPassed(op, Members(fleet), Members(f), k))
            && |f.deployments| == |fleet.deployments|
            && (f.statefulSets != fleet.statefulSets ==> Work(op, f.deployments) == 0)
  {
    hide PassKind, PassedAll, Passed;
    var d := PassKind(op, fleet.deployments, fuse);
    var k := KindPrefix(op, fleet.deployments, fuse);
    if d.ok {
      KindSplit(op, fleet.deployments, fuse);
      k := KindPrefix(op, fleet.statefulSets, d.fuse);
      k := |fleet.deployments| + k;
    }
    assert PrefixPassed(op, Members(fleet), Members(Pass(op, fleet, fuse).fleet), k);
  }

  /** The state and the total count after a series of attempts, each cut short where its fuse says. */
  function Attempts(op: Op, fleet: Fleet, fuses: seq<Fuse>): FleetOutcome
    decreases |fuses|
  {
    if fuses == [] then FleetOutcome(fleet, 0, Never, false)
    else
      var first := Pass(op, fleet, fuses[0]);
      var rest := Attempts(op, first.fleet, fuses[1..]);
      FleetOutcome(rest.fleet, first.count + rest.count, rest.fuse,
                   if |fuses| == 1 then first.ok else rest.ok)
  }

  /** Retried passes refine the atomic pass: once the last of any series of attempts succeeds, the fleet is
      the one a single uninterrupted pass leaves, and the counts returned on the way sum to its count. */
  lemma {:induction false} RetriesRefineOnePass(op: Op, fleet: Fleet, fuses: seq<Fuse>)
    requires Attempts(op, fleet, fuses).ok
    ensures Pass(op, fleet, Never).ok
    ensures Attempts(op, fleet, fuses).fleet == Pass(op, fleet, Never).fleet
    ensures Attempts(op, fleet, fuses).count == Pass(op, fleet, Never).count
    decreases |fuses|
  {
    var first := Pass(op, fleet, fuses[0]);
    PassSplit(op, fleet, fuses[0]);
    PassSplit(op, fleet, Never);
    if |fuses| > 1 {
      RetriesRefineOnePass(op, first.fleet, fuses[1..]);
      PassSplit(op, first.fleet, Never);
    }
  }

  // ------------------------------------------------------------------------------------------
  // No replica count is lost.

  function IntendedOf(claim: Claim, ws: seq<Workload>): (r: seq<int>)
    ensures |r| == |ws| && forall i :: 0 <= i < |ws| ==> r[i] == Intended(claim, ws[i])
  {
    seq(|ws|, i requires 0 <= i < |ws| => Intended(claim, ws[i]))
  }

  /** The count owed to every workload, Deployments first. */
  function IntendedCounts(claim: Claim, fleet: Fleet): seq<int> {
    IntendedOf(claim, fleet.deployments) + IntendedOf(claim, fleet.statefulSets)
  }

  ghost predicate SoundList(claim: Claim, ws: seq<Workload>) {
    forall i :: 0 <= i < |ws| ==> Sound(claim, ws[i])
  }

  /** Every workload of the fleet has a count that a scale can save. */
  ghost predicate SoundFleet(claim: Claim, fleet: Fleet) {
    SoundList(claim, fleet.deployments) && SoundList(claim, fleet.statefulSets)
  }

  lemma ListKeepsIntent(claim: Claim, op: Op, ws: seq<Workload>, ws': seq<Workload>)
    requires SoundList(claim, ws) && Advanced(op, ws, ws')
    ensures IntendedOf(claim, ws') == IntendedOf(claim, ws) && SoundList(claim, ws')
    ensures forall i :: 0 <= i < |ws| ==> SameBesides(ws[i], ws'[i])
  {
    forall i | 0 <= i < |ws|
      ensures Intended(claim, ws'[i]) == Intended(claim, ws[i])
      ensures Sound(claim, ws'[i]) && SameBesides(ws[i], ws'[i])
    {
      IntentKeptExactly(claim, ws[i]);
      SoundKept(claim, op, ws[i]);
      PassedSettles(op, ws[i]);
    }
  }

  /** A pass of either kind, cut short anywhere, keeps all counts owed by a sound fleet, keeps it sound,
      and leaves exempt workloads and all other fields alone. */
  lemma ProgressKeepsIntent(claim: Claim, op: Op, fleet: Fleet, f: Fleet, n: nat)
    requires SoundFleet(claim, fleet) && Progress(op, fleet, f, n)
    ensures IntendedCounts(claim, f) == IntendedCounts(claim, fleet) && SoundFleet(claim, f)
    ensures Pairwise(fleet, f, SameBesides)
  {
    ListKeepsIntent(claim, op, fleet.deployments, f.deployments);
    ListKeepsIntent(claim, op, fleet.statefulSets, f.statefulSets);
  }

  /** One pass of an interleaving. */
  datatype Attempt = Attempt(op: Op, fuse: Fuse)

  /** Any interleaving of scale and restore passes, each cut short where its fuse says. */
  function Interleaved(fleet: Fleet, attempts: seq<Attempt>): Fleet
    decreases |attempts|
  {
    if attempts == [] then fleet
    else Interleaved(Pass(attempts[0].op, fleet, attempts[0].fuse).fleet, attempts[1..])
  }

  lemma {:induction false} SoundFleetKeepsIntent(claim: Claim, fleet: Fleet, attempts: seq<Attempt>)
    requires SoundFleet(claim, fleet)
    ensures IntendedCounts(claim, Interleaved(fleet, attempts)) == IntendedCounts(claim, fleet)
    ensures Pairwise(fleet, Interleaved(fleet, attempts), SameBesides)
    decreases |attempts|
  {
    if attempts != [] {
      var first := Pass(attempts[0].op, fleet, attempts[0].fuse);
      PassSplit(attempts[0].op, fleet, attempts[0].fuse);
      ProgressKeepsIntent(claim, attempts[0].op, fleet, first.fleet, first.count);
      SoundFleetKeepsIntent(claim, first.fleet, attempts[1..]);
    }
  }

  /** One full scale already loses the count of a workload that is not sound. */
  lemma UnsoundFleetLosesIntent(claim: Claim, fleet: Fleet)
    requires !SoundFleet(claim, fleet)
    ensures IntendedCounts(claim, Pass(ScaleToZero, fleet, Never).fleet) != IntendedCounts(claim, fleet)
  {
    PassSplit(ScaleToZero, fleet, Never);
    var f := PassedFleet(ScaleToZero, fleet);
    if i :| 0 <= i < |fleet.deployments| && !Sound(claim, fleet.deployments[i]) {
      IntentKeptExactly(claim, fleet.deployments[i]);
      assert IntendedCounts(claim, f)[i] != IntendedCounts(claim, fleet)[i];
    } else {
      var j :| 0 <= j < |fleet.statefulSets| && !Sound(claim, fleet.statefulSets[j]);
      IntentKeptExactly(claim, fleet.statefulSets[j]);
      var k := |fleet.deployments| + j;
      assert IntendedCounts(claim, f)[k] != IntendedCounts(claim, fleet)[k];
    }
  }

  ghost predicate KeepsIntent(claim: Claim, fleet: Fleet, attempts: seq<Attempt>) {
    IntendedCounts(claim, Interleaved(fleet, attempts)) == IntendedCounts(claim, fleet)
  }

  /** No replica count is lost: a fleet keeps all counts owed under every interleaving of passes, whatever patches fail,
      exactly when each of its workloads is sound. By `LastRun` this leaves out the workloads that run beside an
      annotation of another count: theirs is lost. */
  lemma NoCountIsLost(claim: Claim, fleet: Fleet)
    ensures SoundFleet(claim, fleet) <==> forall attempts :: KeepsIntent(claim, fleet, attempts)
  {
    if SoundFleet(claim, fleet) {
      forall attempts
        ensures KeepsIntent(claim, fleet, attempts)
      {
        SoundFleetKeepsIntent(claim, fleet, attempts);
      }
    } else {
      UnsoundFleetLosesIntent(claim, fleet);
      var attempts := [Attempt(ScaleToZero, Never)];
      assert Interleaved(fleet, attempts) == Pass(ScaleToZero, fleet, Never).fleet;
      assert !KeepsIntent(claim, fleet, attempts);
    }
  }

  /** The fleet after one full scale and one full restore. */
  function FullCircle(fleet: Fleet): Fleet {
    Pass(Restore, Pass(ScaleToZero, fleet, Never).fleet, Never).fleet
  }

  lemma FullCircleIsDownAndUp(fleet: Fleet)
    ensures Pairwise(fleet, FullCircle(fleet), (w, w') => w' == DownAndUp(w))
  {
    PassSplit(ScaleToZero, fleet, Never);
    PassSplit(Restore, Pass(ScaleToZero, fleet, Never).fleet, Never);
  }

  /** A full scale followed by a full restore gives every workload back as it was, nil becoming the explicit 1, exactly
      when each of them can be brought back; a fleet with no saved annotation and no negative count is one. */
  lemma FullRestoreInvertsFullScale(fleet: Fleet)
    ensures Pairwise(fleet, FullCircle(fleet), (w, w') => w' == Explicit(w)) <==> Every(fleet, Invertible)
    ensures Every(fleet, w => !HasSaved(w) && Running(w) >= 0) ==> Every(fleet, Invertible)
  {
    FullCircleIsDownAndUp(fleet);
    forall w: Workload
      ensures DownAndUp(w) == Explicit(w) <==> Invertible(w)
    {
      RestoreInvertsScale(w);
    }
  }

  /** What was scaled down runs its count again. */
  predicate RunsAgain(w: Workload, w': Workload) {
    Touches(ScaleToZero, w) ==> w'.replicas == Some(Running(w))
  }

  /** A full scale followed by a full restore brings back every running count exactly when no annotation of another
      count, readable or not, stands beside it. */
  lemma FullRestoreReturnsRunning(fleet: Fleet)
    ensures Pairwise(fleet, FullCircle(fleet), RunsAgain) <==> SoundFleet(LastRun, fleet)
  {
    FullCircleIsDownAndUp(fleet);
    forall w: Workload
      ensures RunsAgain(w, DownAndUp(w)) <==> Sound(LastRun, w)
    {
      if Touches(ScaleToZero, w) {
        RunningReturnsExactly(w);
      }
    }
  }

  // ------------------------------------------------------------------------------------------
  // The pending checks.

  datatype PendingOutcome = PendingOutcome(pending: bool, fuse: Fuse, ok: bool)

  predicate AnyPending(ws: seq<Workload>) {
    exists i :: 0 <= i < |ws| && Pending(ws[i])
  }

  function PendingKind(ws: seq<Workload>, fuse: Fuse): PendingOutcome {
    if fuse.Blown() then PendingOutcome(false, fuse, false) else PendingOutcome(AnyPending(ws), fuse.Burn(), true)
  }

  /** StatefulSets are listed only when no Deployment is pending. */
  function PendingFleet(fleet: Fleet, fuse: Fuse): PendingOutcome {
    var d := PendingKind(fleet.deployments, fuse);
    if !d.ok || d.pending then d else PendingKind(fleet.statefulSets, d.fuse)
  }

  /** When the pending check says no, a restore pass would find no work. */
  lemma NothingPending(fleet: Fleet, fuse: Fuse)
    requires PendingFleet(fleet, fuse).ok && !PendingFleet(fleet, fuse).pending
    ensures FleetWork(Restore, fleet) == 0
  {
    WorkNone(Restore, fleet.deployments);
    WorkNone(Restore, fleet.statefulSets);
  }
}
