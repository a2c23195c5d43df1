/** Runs: reconciles, each of which may fail anywhere, mixed with outside edits of the workloads.
    Only the operator writes the status. */
module Runs {
  import opened Api
  import opened Passes
  import opened ReconcileSpec
  import opened Wrappers

  /** A reconcile, with what it met and what it came to, or an outside edit. */
  datatype Event = Reconcile(inp: Input, out: Outcome) | Edit

  /** `worlds[i]` is the world before event `i`. */
  datatype Run = Run(worlds: seq<World>, events: seq<Event>)

  /** Event `i` leads from one world to the next: a reconcile is a step, an edit may replace the workloads
      by anything. */
  ghost predicate Link(cfg: Config, r: Run, i: int) {
    && 0 <= i < |r.events| && |r.worlds| == |r.events| + 1
    && match r.events[i]
       case Reconcile(inp, out) => out == Step(cfg, r.worlds[i], inp) && r.worlds[i + 1] == out.world
       case Edit => r.worlds[i + 1] == r.worlds[i].(fleet := r.worlds[i + 1].fleet)
  }

  ghost predicate IsRun(cfg: Config, r: Run) {
    && |r.worlds| == |r.events| + 1
    && forall i :: 0 <= i < |r.events| ==> Link(cfg, r, i)
  }

  /** The clock does not go backwards, within a reconcile and from one to the next. */
  ghost predicate Clocked(r: Run) {
    && (forall i :: 0 <= i < |r.events| && r.events[i].Reconcile? ==>
          r.events[i].inp.now <= r.events[i].inp.untilClock <= r.events[i].inp.opClock)
    && (forall i, j :: 0 <= i < j < |r.events| && r.events[i].Reconcile? && r.events[j].Reconcile? ==>
          r.events[i].inp.opClock <= r.events[j].inp.now)
  }

  /** Nobody but the operator edits the workloads. */
  ghost predicate Undisturbed(r: Run) {
    forall i :: 0 <= i < |r.events| ==> r.events[i].Reconcile?
  }

  /** What the environment brings: the input of a reconcile, or new workloads. */
  datatype Stimulus = Arrives(inp: Input) | NewFleet(fleet: Fleet)

  function Extended(r: Run, e: Event, w: World): Run {
    Run(r.worlds + [w], r.events + [e])
  }

  /** The run that starts in `w` and meets `stimuli`. */
  function Execute(cfg: Config, w: World, stimuli: seq<Stimulus>): (r: Run)
    ensures |r.events| == |stimuli| && |r.worlds| == |stimuli| + 1 && r.worlds[0] == w
    decreases |stimuli|
  {
    if stimuli == [] then Run([w], [])
    else
      var r := Execute(cfg, w, stimuli[..|stimuli| - 1]);
      var last := r.worlds[|r.events|];
      match stimuli[|stimuli| - 1]
      case Arrives(inp) => Extended(r, Reconcile(inp, Step(cfg, last, inp)), Step(cfg, last, inp).world)
      case NewFleet(fleet) => Extended(r, Edit, last.(fleet := fleet))
  }

  /** Whatever the environment brings, there is a run that meets it. */
  lemma {:induction false} ExecuteIsRun(cfg: Config, w: World, stimuli: seq<Stimulus>)
    ensures IsRun(cfg, Execute(cfg, w, stimuli))
    decreases |stimuli|
  {
    hide Step;
    if stimuli != [] {
      var r := Execute(cfg, w, stimuli[..|stimuli| - 1]);
      ExecuteIsRun(cfg, w, stimuli[..|stimuli| - 1]);
      var r' := Execute(cfg, w, stimuli);
      forall i | 0 <= i < |r'.events| ensures Link(cfg, r', i) {
        assert i < |r.events| ==> Link(cfg, r, i);
      }
    }
  }

  /** The status of a new resource. */
  const FRESH := Status(None, None, "", None, "", map[])

  /** The run of two reconciles, one after the other. */
  lemma TwoReconciles(cfg: Config, w: World, first: Input, second: Input)
    requires first.now <= first.untilClock <= first.opClock <= second.now <= second.untilClock <= second.opClock
    ensures var r := Execute(cfg, w, [Arrives(first), Arrives(second)]);
            var w1 := Step(cfg, w, first).world;
            && Clocked(r)
            && r.events == [Reconcile(first, Step(cfg, w, first)), Reconcile(second, Step(cfg, w1, second))]
            && r.worlds == [w, w1, Step(cfg, w1, second).world]
  {
    hide Step;
    var stimuli := [Arrives(first), Arrives(second)];
    assert stimuli[..1] == [Arrives(first)];
    assert stimuli[..1][..0] == [];
    var r1 := Execute(cfg, w, stimuli[..1]);
    assert r1.worlds == [w, Step(cfg, w, first).world] && r1.events == [Reconcile(first, Step(cfg, w, first))];
  }
}
