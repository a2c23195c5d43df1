/** A Deployment or StatefulSet as the API server stores it, and what one scale or restore patch does to it.
    The two kinds are treated alike, so one model serves both. */
module Workloads {
  import opened Wrappers
  import opened Text

  const EXEMPT_LABEL := "ealebed.github.io/exempt"
  const EXEMPT_LABEL_VALUE := "true"
  const PRE_SCALE_REPLICAS := "finops.ealebed.github.io/pre-scale-replicas"

  datatype Workload = Workload(
    replicas: Option<Int32>,
    annotations: map<string, string>,
    templateLabels: map<string, string>)

  datatype Op = ScaleToZero | Restore

  /** The pod template carries the exempt label. */
  predicate Exempt(w: Workload) {
    EXEMPT_LABEL in w.templateLabels && w.templateLabels[EXEMPT_LABEL] == EXEMPT_LABEL_VALUE
  }

  /** `spec.replicas`, with the default the reader uses when it is nil: scale reads 1, restore reads 0. */
  function ReplicasOr(w: Workload, default: Int32): Int32 {
    if w.replicas.Some? then w.replicas.value else default
  }

  /** The replicas Kubernetes runs: nil means 1. */
  function Running(w: Workload): Int32 {
    ReplicasOr(w, 1)
  }

  predicate HasSaved(w: Workload) {
    PRE_SCALE_REPLICAS in w.annotations
  }

  /** The saved replica count, when the annotation is there and restore accepts it. */
  function Saved(w: Workload): (r: Option<Int32>)
    ensures r.Some? ==> HasSaved(w) && r.value > 0
  {
    if !HasSaved(w) then None
    else
      var parsed := ParseInt32(w.annotations[PRE_SCALE_REPLICAS]);
      if parsed.Some? && parsed.value > 0 then parsed else None
  }

  /** Whether a pass of kind `op` patches `w`. */
  predicate Touches(op: Op, w: Workload) {
    && !Exempt(w)
    && match op
       case ScaleToZero => ReplicasOr(w, 1) != 0
       case Restore => ReplicasOr(w, 0) == 0 && Saved(w).Some?
  }

  /** What the patch makes of `w`. An annotation that is already there wins over the current count. */
  function Patched(op: Op, w: Workload): Workload
    requires Touches(op, w)
  {
    match op
    case ScaleToZero =>
      w.(replicas := Some(0),
         annotations := if HasSaved(w) then w.annotations
                        else w.annotations[PRE_SCALE_REPLICAS := FormatInt(ReplicasOr(w, 1))])
    case Restore =>
      w.(replicas := Some(Saved(w).value), annotations := w.annotations - {PRE_SCALE_REPLICAS})
  }

  /** What a pass leaves of `w` once it has gone past it. */
  function Passed(op: Op, w: Workload): Workload {
    if Touches(op, w) then Patched(op, w) else w
  }

  /** Waiting for a restore: the test of the pending checks, which look only for the key. */
  predicate Pending(w: Workload) {
    !Exempt(w) && ReplicasOr(w, 0) == 0 && HasSaved(w)
  }

  /** Taken down: explicit zero replicas, unless exempt. */
  predicate Down(w: Workload) {
    Exempt(w) || w.replicas == Some(0)
  }

  /** Two ways to say which count of a workload is owed to its owner, when it runs although a count is saved:
      `FirstSaved`, the saved one, as the annotation is meant; `LastRun`, the one it runs. They differ after somebody
      scaled a workload up by hand, which leaves the annotation behind. */
  datatype Claim = FirstSaved | LastRun

  /** The count owed: a saved count while the workload is at zero; a running workload is owed what it runs,
      unless a saved count comes first. */
  function Intended(claim: Claim, w: Workload): Int32 {
    if Saved(w).None? || (claim.LastRun? && (Exempt(w) || Running(w) != 0)) then Running(w)
    else Saved(w).value
  }

  /** The only workloads a scale may zero without losing the count owed: a positive count that is going to be saved,
      or one that is saved already, by `LastRun` the very count that runs. */
  predicate Sound(claim: Claim, w: Workload) {
    Touches(ScaleToZero, w) ==>
      || (!HasSaved(w) && Running(w) > 0)
      || (if claim.LastRun? then Saved(w) == Some(Running(w)) else Saved(w).Some?)
  }

  /** `w'` is `w` up to `spec.replicas` and the one annotation, and is `w` itself if exempt. */
  predicate SameBesides(w: Workload, w': Workload) {
    && w.templateLabels == w'.templateLabels
    && w.annotations - {PRE_SCALE_REPLICAS} == w'.annotations - {PRE_SCALE_REPLICAS}
    && (Exempt(w) ==> w' == w)
  }

  /** What scaling and restoring with nothing in between makes of `w`: a nil count becomes the explicit 1. */
  function Explicit(w: Workload): Workload {
    if Exempt(w) || w.replicas.Some? then w else w.(replicas := Some(1))
  }

  /** A patch is never repeated, never reaches an exempt workload, and writes two fields at most. */
  lemma PassedSettles(op: Op, w: Workload)
    ensures !Touches(op, Passed(op, w))
    ensures Passed(op, Passed(op, w)) == Passed(op, w)
    ensures SameBesides(w, Passed(op, w))
  {
  }

  /** After a scale a workload is down, and what it saved is the count it had. */
  lemma ScaledKeepsCount(w: Workload)
    ensures Down(Passed(ScaleToZero, w))
    ensures Touches(ScaleToZero, w) && !HasSaved(w) && Running(w) > 0 ==>
              Saved(Passed(ScaleToZero, w)) == Some(Running(w))
  {
    ParseOfFormat(Running(w));
  }

  /** Scale keeps the count owed exactly of the sound workloads; restore keeps it of all of them, and of every workload
      if a saved count comes first. */
  lemma IntentKeptExactly(claim: Claim, w: Workload)
    ensures Intended(claim, Passed(ScaleToZero, w)) == Intended(claim, w) <==> Sound(claim, w)
    ensures Sound(claim, w) || claim.FirstSaved? ==> Intended(claim, Passed(Restore, w)) == Intended(claim, w)
  {
    ParseOfFormat(Running(w));
  }

  /** Soundness is kept by both patches. */
  lemma SoundKept(claim: Claim, op: Op, w: Workload)
    requires Sound(claim, w)
    ensures Sound(claim, Passed(op, w))
  {
  }

  /** Scaled and restored with nothing in between. */
  function DownAndUp(w: Workload): Workload {
    Passed(Restore, Passed(ScaleToZero, w))
  }

  /** Exempt, or at a positive count with nothing saved, or at zero with nothing to restore. */
  predicate Invertible(w: Workload) {
    Exempt(w) || (if Running(w) == 0 then Saved(w).None? else !HasSaved(w) && Running(w) > 0)
  }

  /** Restore after scale gives back a workload as it was, annotations and all, exactly when it is invertible; a nil
      count comes back as the explicit 1. */
  lemma RestoreInvertsScale(w: Workload)
    ensures DownAndUp(w) == Explicit(w) <==> Invertible(w)
  {
    ParseOfFormat(Running(w));
    if Touches(ScaleToZero, w) && !HasSaved(w) {
      assert Passed(ScaleToZero, w).annotations - {PRE_SCALE_REPLICAS} == w.annotations;
    }
  }

  /** A running workload that is scaled and restored runs its count again exactly when that count is positive and is the
      one saved: freshly, or by an annotation that says the same. */
  lemma RunningReturnsExactly(w: Workload)
    requires Touches(ScaleToZero, w)
    ensures DownAndUp(w).replicas == Some(Running(w)) <==>
              (Running(w) > 0 && !HasSaved(w)) || Saved(w) == Some(Running(w))
  {
    ParseOfFormat(Running(w));
  }

  /** An annotation left behind wins over the count that runs: whatever two positive counts these are, the workload
      comes back at the old one. The first saved count is kept all the same, so this is a matter of what is owed. */
  lemma StaleAnnotationWins(runs: Int32, saved: Int32)
    requires runs > 0 && saved > 0 && runs != saved
    ensures var w := Workload(Some(runs), map[PRE_SCALE_REPLICAS := FormatInt(saved)], map[]);
            && DownAndUp(w) == Workload(Some(saved), map[], map[])
            && Sound(FirstSaved, w) && !Sound(LastRun, w)
  {
    ParseOfFormat(saved);
    var w := Workload(Some(runs), map[PRE_SCALE_REPLICAS := FormatInt(saved)], map[]);
    assert w.annotations - {PRE_SCALE_REPLICAS} == map[];
  }
}
