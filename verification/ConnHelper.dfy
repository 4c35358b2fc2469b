/**
 The helper thread that runs one connection's leased DuckDB work: its lock regions, and every
 interleaving of posting threads, stopping threads and the helper itself.
 */
module ConnHelper {
  import opened Wrappers

  /** What `conn_helper::mutex` guards. */
  datatype HelperState<W> = HelperState(work: Option<W>, busy: bool, stop: bool)

  datatype Woken<W> = Took(work: W) | Leaves | Sleeps

  function Next<W>(s: HelperState<W>): Woken<W> {
    if s.work.Some? then Took(s.work.value) else if s.stop then Leaves else Sleeps
  }

  class Helper<W(0)> {
    var work: Option<W>
    var busy: bool
    var stop: bool

    constructor ()
      ensures State() == HelperState(None, false, false)
    {
      work, busy, stop := None, false, false;
    }

    ghost function State(): HelperState<W>
      reads this
    {
      HelperState(work, busy, stop)
    }

    /** `helper_post`, when it holds the lock: it waits on while a work is busy. */
    method Post(next: W) returns (posted: bool)
      modifies this
      ensures posted == !old(busy)
      ensures State() == if posted then HelperState(Some(next), true, old(stop)) else old(State())
    {
      if busy {
        return false;
      }
      busy := true;
      work := Some(next);
      posted := true;
    }

    /** `helper_main`, from its wait up to the work. */
    method Wake() returns (woken: Woken<W>)
      modifies this
      ensures woken == Next(old(State()))
      ensures State() == if woken.Took? then old(State()).(work := None) else old(State())
    {
      if !stop && work.None? {
        return Sleeps;
      }
      if work.None? {
        return Leaves;
      }
      woken := Took(work.value);
      work := None;
    }

    method WorkDone()
      modifies this
      ensures State() == old(State()).(busy := false)
    {
      busy := false;
    }

    method Stop()
      modifies this
      ensures State() == old(State()).(stop := true)
    {
      stop := true;
    }
  }

  type Work = nat

  datatype Thread = Waiting | Working(work: Work) | Exited

  /** `posted`, `begun` and `ended` record what happened, in order. */
  datatype World = World(helper: HelperState<Work>, thread: Thread, posted: seq<Work>, begun: seq<Work>,
      ended: seq<Work>)

  datatype Step = Post(work: Work) | Wake | WorkDone | Stop

  function Init(): World {
    World(HelperState(None, false, false), Waiting, [], [], [])
  }

  predicate Enabled(w: World, step: Step) {
    match step
    case Post(_) => !w.helper.busy
    case Wake => w.thread.Waiting? && !Next(w.helper).Sleeps?
    case WorkDone => w.thread.Working?
    case Stop => true
  }

  function Apply(w: World, step: Step): World
    requires Enabled(w, step)
  {
    match step
    case Post(work) => w.(helper := HelperState(Some(work), true, w.helper.stop), posted := w.posted + [work])
    case Wake =>
      (match Next(w.helper)
       case Took(work) => w.(helper := w.helper.(work := None), thread := Working(work), begun := w.begun + [work])
       case _ => w.(thread := Exited))
    case WorkDone => w.(helper := w.helper.(busy := false), thread := Waiting, ended := w.ended + [w.thread.work])
    case Stop => w.(helper := w.helper.(stop := true))
  }

  ghost predicate Run(from: World, steps: seq<Step>, to: World)
    decreases |steps|
  {
    if steps == [] then from == to
    else
      var n := |steps| - 1;
      exists before :: Run(from, steps[..n], before) && Enabled(before, steps[n]) && to == Apply(before, steps[n])
  }

  ghost predicate Reached(w: World) {
    exists steps :: Run(Init(), steps, w)
  }

  function Current(w: World): seq<Work> {
    if w.thread.Working? then [w.thread.work] else []
  }

  function Pending(w: World): seq<Work> {
    if w.helper.work.Some? then [w.helper.work.value] else []
  }

  /** What was posted is what ended, then the work running, then the work not yet taken. */
  ghost predicate Inv(w: World) {
    && w.begun == w.ended + Current(w)
    && w.posted == w.begun + Pending(w)
    && (w.helper.busy <==> w.thread.Working? || w.helper.work.Some?)
    && !(w.thread.Working? && w.helper.work.Some?)
    && (w.thread.Exited? ==> w.helper.stop)
  }

  lemma StepKeeps(w: World, step: Step)
    requires Inv(w) && Enabled(w, step)
    ensures Inv(Apply(w, step)) && w.posted <= Apply(w, step).posted
  {}

  lemma {:induction false} RunKeeps(from: World, steps: seq<Step>, to: World)
    requires Inv(from) && Run(from, steps, to)
    ensures Inv(to) && from.posted <= to.posted
    decreases |steps|
  {
    hide Inv, Apply, Enabled;
    if steps != [] {
      var n := |steps| - 1;
      var before :| Run(from, steps[..n], before) && Enabled(before, steps[n]) && to == Apply(before, steps[n]);
      RunKeeps(from, steps[..n], before);
      StepKeeps(before, steps[n]);
    }
  }

  lemma ReachedIsSound(w: World)
    requires Reached(w)
    ensures Inv(w)
  {
    var steps :| Run(Init(), steps, w);
    RunKeeps(Init(), steps, w);
  }

  /** After its exit the helper runs nothing, and can be handed one work at most. */
  lemma {:induction false} NothingRunsAfterExit(from: World, steps: seq<Step>, to: World)
    requires Inv(from) && from.thread.Exited? && Run(from, steps, to)
    ensures to.thread.Exited? && to.begun == from.begun && to.ended == from.ended
    ensures from.helper.busy ==> to.helper.busy && to.posted == from.posted
    decreases |steps|
  {
    if steps != [] {
      var n := |steps| - 1;
      var before :| Run(from, steps[..n], before) && Enabled(before, steps[n]) && to == Apply(before, steps[n]);
      NothingRunsAfterExit(from, steps[..n], before);
    }
  }

  /** In a run that never posts after the exit, an exited helper left nothing behind. */
  lemma {:induction false} ExitLeavesNothing(from: World, steps: seq<Step>, to: World)
    requires Inv(from) && !from.thread.Exited? && Run(from, steps, to) && to.thread.Exited?
    ensures from.posted <= to.ended
    decreases |steps|
  {
    if steps != [] {
      var n := |steps| - 1;
      var before :| Run(from, steps[..n], before) && Enabled(before, steps[n]) && to == Apply(before, steps[n]);
      RunKeeps(from, steps[..n], before);
      if before.thread.Exited? {
        ExitLeavesNothing(from, steps[..n], before);
      } else {
        assert Pending(before) == [] && Current(before) == [];
      }
    }
  }

  /** A posted work begins once, in its turn, exactly unless the helper had already exited;
      a stop that races with it changes nothing. */
  lemma PostedWorkRunsOnce(from: World, work: Work, steps: seq<Step>, to: World)
    requires Reached(from) && Enabled(from, Post(work)) && Run(Apply(from, Post(work)), steps, to)
    ensures to.begun <= to.posted && |from.posted| < |to.posted| && to.posted[|from.posted|] == work
    ensures from.thread.Exited? ==> |to.begun| == |from.posted|
    ensures !from.thread.Exited? && to.thread.Exited? ==> |from.posted| < |to.ended| && to.ended[|from.posted|] == work
    ensures !from.thread.Exited? && |to.begun| <= |from.posted| ==>
              to.helper.work == Some(work) && Enabled(to, Wake) && Apply(to, Wake).begun == from.posted + [work]
  {
    ReachedIsSound(from);
    var after := Apply(from, Post(work));
    RunKeeps(after, steps, to);
    assert after.posted <= to.posted && after.posted[|from.posted|] == work;
    if from.thread.Exited? {
      NothingRunsAfterExit(after, steps, to);
    } else {
      if to.thread.Exited? {
        ExitLeavesNothing(after, steps, to);
        assert to.ended[..|after.posted|] == after.posted;
      }
      if |to.begun| <= |from.posted| {
        BegunUnlessPending(from, work, to);
      }
    }
  }

  lemma BegunUnlessPending(from: World, work: Work, to: World)
    requires Inv(from) && Inv(to) && from.posted + [work] <= to.posted && |to.begun| <= |from.posted|
    requires from.helper.work.None?
    ensures to.helper.work == Some(work) && to.begun == from.posted
  {
    assert to.posted[|from.posted|] == work;
    assert |to.posted| == |to.begun| + |Pending(to)|;
    assert to.begun == to.posted[..|to.begun|];
    assert from.posted == to.posted[..|from.posted|];
  }

  /** The helper's own next step. */
  function HelperTurn(w: World): World {
    if Enabled(w, Wake) then Apply(w, Wake) else if Enabled(w, WorkDone) then Apply(w, WorkDone) else w
  }

  /** A stopped helper needs at most three steps of its own to finish what it was handed and
      exit, so that joining it returns. */
  lemma StoppedHelperExits(w: World)
    requires Reached(w) && w.helper.stop
    ensures var t := HelperTurn(HelperTurn(HelperTurn(w)));
      t.thread.Exited? && t.posted == w.posted && (!w.thread.Exited? ==> t.ended == w.posted)
  {
    ReachedIsSound(w);
  }
}
