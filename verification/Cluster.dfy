/** The API server of one managed namespace, and the passes that list, edit and patch its workloads. */
module Cluster {
  import opened Api
  import opened Passes
  import opened ReconcileSpec
  import opened Text
  import opened Workloads
  import opened Wrappers

  datatype Kind = Deployments | StatefulSets

  /** The stored objects. Every method is one API call: it fails, changing nothing, when the fuse is blown. */
  class ApiServer {
    var deployments: seq<Workload>
    var statefulSets: seq<Workload>
    var status: Status
    var deletes: nat
    var fuse: Fuse

    constructor (w: World, fuse: Fuse)
      ensures Snapshot() == w && this.fuse == fuse
    {
      deployments, statefulSets, status, deletes := w.fleet.deployments, w.fleet.statefulSets, w.status, w.deletes;
      this.fuse := fuse;
    }

    function Items(kind: Kind): seq<Workload>
      reads this
    {
      if kind.Deployments? then deployments else statefulSets
    }

    function Snapshot(): World
      reads this
    {
      World(Fleet(deployments, statefulSets), status, deletes)
    }

    /** A call that changes none of the modelled objects: Get, or ensuring the namespace and its quota objects. */
    method Call() returns (ok: bool)
      modifies this`fuse
      ensures ok == !old(fuse).Blown() && fuse == old(fuse).Burn()
    {
      ok := !fuse.Blown();
      fuse := fuse.Burn();
    }

    method List(kind: Kind) returns (items: seq<Workload>, ok: bool)
      modifies this`fuse
      ensures ok == !old(fuse).Blown() && fuse == old(fuse).Burn()
      ensures ok ==> items == Items(kind)
    {
      ok := Call();
      items := if ok then Items(kind) else [];
    }

    method Patch(kind: Kind, i: nat, w: Workload) returns (ok: bool)
      requires i < |Items(kind)|
      modifies this`deployments, this`statefulSets, this`fuse
      ensures ok == !old(fuse).Blown() && fuse == old(fuse).Burn()
      ensures Items(kind) == if ok then old(Items(kind))[i := w] else old(Items(kind))
      ensures forall other :: other != kind ==> Items(other) == old(Items(other))
    {
      ok := Call();
      if ok {
        match kind
        case Deployments => deployments := deployments[i := w];
        case StatefulSets => statefulSets := statefulSets[i := w];
      }
    }

    method DeleteNamespace() returns (ok: bool)
      modifies this`deletes, this`fuse
      ensures ok == !old(fuse).Blown() && fuse == old(fuse).Burn()
      ensures deletes == old(deletes) + if ok then 1 else 0
    {
      ok := Call();
      if ok {
        deletes := deletes + 1;
      }
    }

    method UpdateStatus(s: Status) returns (ok: bool)
      modifies this`status, this`fuse
      ensures ok == !old(fuse).Blown() && fuse == old(fuse).Burn()
      ensures status == if ok then StoredStatus(s) else old(status)
    {
      ok := Call();
      if ok {
        status := StoredStatus(s);
      }
    }
  }

  /** A listed workload in memory, edited in place before it is sent back as a patch. */
  class ListedWorkload {
    var replicas: Option<Int32>
    var annotations: map<string, string>
    const templateLabels: map<string, string>

    constructor (w: Workload)
      ensures Object() == w
    {
      replicas, annotations, templateLabels := w.replicas, w.annotations, w.templateLabels;
    }

    function Object(): Workload
      reads this
    {
      Workload(replicas, annotations, templateLabels)
    }

    /** The pod template says `ealebed.github.io/exempt: "true"`. */
    predicate IsExempt(): (r: bool)
      reads this
      ensures r <==> Exempt(Object())
    {
      EXEMPT_LABEL in templateLabels && templateLabels[EXEMPT_LABEL] == EXEMPT_LABEL_VALUE
    }

    /** Saves the count, unless one is saved already, and zeroes the replicas. */
    method EditForScale(current: Int32)
      requires Touches(ScaleToZero, Object()) && current == Running(Object())
      modifies this
      ensures Object() == Patched(ScaleToZero, old(Object()))
    {
      if PRE_SCALE_REPLICAS !in annotations {
        annotations := annotations[PRE_SCALE_REPLICAS := FormatInt(current)];
      }
      replicas := Some(0);
    }

    /** The count to put back, when there is one: not exempt, at zero, and saved as a positive number. */
    method RestorableCount() returns (prior: Option<Int32>)
      ensures prior.Some? <==> Touches(Restore, Object())
      ensures prior.Some? ==> prior == Saved(Object())
    {
      if IsExempt() { return None; }
      var current: Int32 := 0;
      if replicas.Some? {
        current := replicas.value;
      }
      if current != 0 { return None; }
      if PRE_SCALE_REPLICAS !in annotations { return None; }
      prior := ParseInt32(annotations[PRE_SCALE_REPLICAS]);
      if prior.None? || prior.value <= 0 { return None; }
    }

    /** Puts the saved count back and drops the annotation. */
    method EditForRestore(prior: Int32)
      requires Touches(Restore, Object()) && Saved(Object()) == Some(prior)
      modifies this
      ensures Object() == Patched(Restore, old(Object()))
    {
      replicas := Some(prior);
      annotations := annotations - {PRE_SCALE_REPLICAS};
    }
  }

  /** The items before `i` are done, the rest are as listed. */
  ghost predicate Midway(op: Op, listed: seq<Workload>, items: seq<Workload>, i: nat, n: nat, start: Fuse, fuse: Fuse) {
    && i <= |listed| == |items|
    && items[i..] == listed[i..]
    && PassItems(op, listed, start) == Prepend(items[..i], n, PassItems(op, listed[i..], fuse))
  }

  lemma PassItemsFrom(op: Op, listed: seq<Workload>, i: nat, fuse: Fuse)
    requires i < |listed|
    ensures PassItems(op, listed[i..], fuse) ==
            if !Touches(op, listed[i]) then Prepend([listed[i]], 0, PassItems(op, listed[i + 1..], fuse))
            else if fuse.Blown() then ListOutcome(listed[i..], 0, fuse, false)
            else Prepend([Patched(op, listed[i])], 1, PassItems(op, listed[i + 1..], fuse.Burn()))
  {
    assert listed[i..][1..] == listed[i + 1..];
  }

  lemma PrependTwice(a: seq<Workload>, m: nat, b: seq<Workload>, n: nat, r: ListOutcome)
    ensures Prepend(a, m, Prepend(b, n, r)) == Prepend(a + b, m + n, r)
  {
    assert a + (b + r.items) == (a + b) + r.items;
  }

  lemma MidwaySkips(op: Op, listed: seq<Workload>, items: seq<Workload>, i: nat, n: nat, start: Fuse, fuse: Fuse)
    requires Midway(op, listed, items, i, n, start, fuse) && i < |listed| && !Touches(op, listed[i])
    ensures Midway(op, listed, items, i + 1, n, start, fuse)
  {
    PassItemsFrom(op, listed, i, fuse);
    assert items[i] == items[i..][0] == listed[i];
    assert items[..i] + [listed[i]] == items[..i + 1];
    assert items[i + 1..] == items[i..][1..];
    PrependTwice(items[..i], n, [listed[i]], 0, PassItems(op, listed[i + 1..], fuse));
  }

  lemma MidwayPatches(op: Op, listed: seq<Workload>, items: seq<Workload>, i: nat, n: nat, start: Fuse, fuse: Fuse)
    requires Midway(op, listed, items, i, n, start, fuse) && i < |listed| && Touches(op, listed[i]) && !fuse.Blown()
    ensures Midway(op, listed, items[i := Patched(op, listed[i])], i + 1, n + 1, start, fuse.Burn())
  {
    var p := Patched(op, listed[i]);
    PassItemsFrom(op, listed, i, fuse);
    assert items[i := p][i + 1..] == items[i..][1..];
    assert items[..i] + [p] == items[i := p][..i + 1];
    PrependTwice(items[..i], n, [p], 1, PassItems(op, listed[i + 1..], fuse.Burn()));
  }

  lemma MidwayFails(op: Op, listed: seq<Workload>, items: seq<Workload>, i: nat, n: nat, start: Fuse, fuse: Fuse)
    requires Midway(op, listed, items, i, n, start, fuse) && i < |listed| && Touches(op, listed[i]) && fuse.Blown()
    ensures PassItems(op, listed, start) == ListOutcome(items, n, fuse, false)
  {
    assert items == items[..i] + items[i..];
  }

  lemma MidwayEnds(op: Op, listed: seq<Workload>, items: seq<Workload>, n: nat, start: Fuse, fuse: Fuse)
    requires Midway(op, listed, items, |listed|, n, start, fuse)
    ensures PassItems(op, listed, start) == ListOutcome(items, n, fuse, true)
  {
    assert items[..|listed|] + [] == items;
  }

  /** `scaleDeploymentsToZero` and `scaleStatefulSetsToZero`. */
  method ScaleKindToZero(server: ApiServer, kind: Kind) returns (n: nat, ok: bool)
    modifies server`deployments, server`statefulSets, server`fuse
    ensures ListOutcome(server.Items(kind), n, server.fuse, ok)
            == PassKind(ScaleToZero, old(server.Items(kind)), old(server.fuse))
    ensures forall other :: other != kind ==> server.Items(other) == old(server.Items(other))
  {
    n := 0;
    var list;
    list, ok := server.List(kind);
    if !ok { return; }
    ghost var start := server.fuse;
    assert list[0..] == list;
    for i := 0 to |list|
      invariant Midway(ScaleToZero, list, server.Items(kind), i, n, start, server.fuse)
      invariant forall other :: other != kind ==> server.Items(other) == old(server.Items(other))
    {
      var item := new ListedWorkload(list[i]);
      if item.IsExempt() {
        MidwaySkips(ScaleToZero, list, server.Items(kind), i, n, start, server.fuse);
        continue;
      }
      var replicas: Int32 := 1;
      if item.replicas.Some? {
        replicas := item.replicas.value;
      }
      if replicas == 0 {
        MidwaySkips(ScaleToZero, list, server.Items(kind), i, n, start, server.fuse);
        continue;
      }
      item.EditForScale(replicas);
      ghost var items, fuse := server.Items(kind), server.fuse;
      ok := server.Patch(kind, i, item.Object());
      if !ok {
        MidwayFails(ScaleToZero, list, items, i, n, start, fuse);
        return;
      }
      MidwayPatches(ScaleToZero, list, items, i, n, start, fuse);
      n := n + 1;
    }
    MidwayEnds(ScaleToZero, list, server.Items(kind), n, start, server.fuse);
    ok := true;
  }

  /** `scaleWorkloadsToZero`. */
  method ScaleWorkloadsToZero(server: ApiServer) returns (n: nat, ok: bool)
    modifies server`deployments, server`statefulSets, server`fuse
    ensures FleetOutcome(server.Snapshot().fleet, n, server.fuse, ok)
            == Pass(ScaleToZero, old(server.Snapshot().fleet), old(server.fuse))
  {
    var n1, n2;
    n1, ok := ScaleKindToZero(server, Deployments);
    assert server.Items(StatefulSets) == old(server.Items(StatefulSets));
    if !ok { return n1, false; }
    ghost var items := server.Items(Deployments);
    n2, ok := ScaleKindToZero(server, StatefulSets);
    assert server.Items(Deployments) == items;
    n := n1 + n2;
  }

  /** `restoreDeploymentsFromAnnotation` and `restoreStatefulSetsFromAnnotation`. */
  method RestoreKind(server: ApiServer, kind: Kind) returns (n: nat, ok: bool)
    modifies server`deployments, server`statefulSets, server`fuse
    ensures ListOutcome(server.Items(kind), n, server.fuse, ok)
            == PassKind(Restore, old(server.Items(kind)), old(server.fuse))
    ensures forall other :: other != kind ==> server.Items(other) == old(server.Items(other))
  {
    n := 0;
    var list;
    list, ok := server.List(kind);
    if !ok { return; }
    ghost var start := server.fuse;
    assert list[0..] == list;
    for i := 0 to |list|
      invariant Midway(Restore, list, server.Items(kind), i, n, start, server.fuse)
      invariant forall other :: other != kind ==> server.Items(other) == old(server.Items(other))
    {
      var item := new ListedWorkload(list[i]);
      var prior := item.RestorableCount();
      if prior.None? {
        MidwaySkips(Restore, list, server.Items(kind), i, n, start, server.fuse);
        continue;
      }
      item.EditForRestore(prior.value);
      ghost var items, fuse := server.Items(kind), server.fuse;
      ok := server.Patch(kind, i, item.Object());
      if !ok {
        MidwayFails(Restore, list, items, i, n, start, fuse);
        return;
      }
      MidwayPatches(Restore, list, items, i, n, start, fuse);
      n := n + 1;
    }
    MidwayEnds(Restore, list, server.Items(kind), n, start, server.fuse);
    ok := true;
  }

  /** `restoreScaledWorkloads`. */
  method RestoreScaledWorkloads(server: ApiServer) returns (n: nat, ok: bool)
    modifies server`deployments, server`statefulSets, server`fuse
    ensures FleetOutcome(server.Snapshot().fleet, n, server.fuse, ok)
            == Pass(Restore, old(server.Snapshot().fleet), old(server.fuse))
  {
    var n1, n2;
    n1, ok := RestoreKind(server, Deployments);
    assert server.Items(StatefulSets) == old(server.Items(StatefulSets));
    if !ok { return n1, false; }
    ghost var items := server.Items(Deployments);
    n2, ok := RestoreKind(server, StatefulSets);
    assert server.Items(Deployments) == items;
    n := n1 + n2;
  }

  /** `deploymentsPendingRestore` and `statefulSetsPendingRestore`: stops at the first pending item. */
  method KindPendingRestore(server: ApiServer, kind: Kind) returns (pending: bool, ok: bool)
    modifies server`fuse
    ensures PendingOutcome(pending, server.fuse, ok) == PendingKind(old(server.Items(kind)), old(server.fuse))
  {
    var list;
    list, ok := server.List(kind);
    if !ok { return false, false; }
    for i := 0 to |list|
      invariant forall k :: 0 <= k < i ==> !Pending(list[k])
    {
      var w := list[i];
      if Exempt(w) { continue; }
      if ReplicasOr(w, 0) != 0 { continue; }
      if PRE_SCALE_REPLICAS in w.annotations {
        assert Pending(list[i]);
        return true, true;
      }
    }
    return false, true;
  }

  /** `workloadsPendingRestore`. */
  method WorkloadsPendingRestore(server: ApiServer) returns (pending: bool, ok: bool)
    modifies server`fuse
    ensures PendingOutcome(pending, server.fuse, ok) == PendingFleet(old(server.Snapshot().fleet), old(server.fuse))
  {
    pending, ok := KindPendingRestore(server, Deployments);
    if !ok || pending { return; }
    pending, ok := KindPendingRestore(server, StatefulSets);
  }
}
