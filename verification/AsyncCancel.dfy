/** What one cancellation and one execution of an async task achieve. */
module AsyncCancel {
  import opened Wrappers
  import opened AsyncTask
  import opened AsyncProtocol
  import opened AsyncSafety

  lemma ReachedExtends(w: World, step: Step)
    requires Reached(w) && Enabled(w, step)
    ensures Reached(Apply(w, step))
  {
    hide Enabled, Apply;
    var steps :| Run(Init(), steps, w);
    var longer := steps + [step];
    assert longer[..|longer| - 1] == steps;
    assert Run(Init(), longer, Apply(w, step));
  }

  /** The worker passed its check and its outcome is not published yet. */
  predicate InterruptibleYet(task: WorkerTask) {
    || task.point == Decided(false) || task.point == Executing
    || ((task.point == Ran || task.point == Ended) && task.executions == 1)
  }

  /** A cancellation is recorded, and its worker started, unless the outcome is published, one
      was recorded before, or that worker cannot start; whether the task's worker runs only
      decides if there is an interrupt at once. */
  lemma CancelIsRecorded(w: World, t: TaskId, threadStarts: bool)
    requires Reached(w) && Enabled(w, Cancel(t, threadStarts))
    ensures var task := w.tasks[t]; var after := Apply(w, Cancel(t, threadStarts));
      if PublishedYet(task.point) || task.state.cancelRequested || !threadStarts then after == w
      else
        && after.conns == w.conns && after.entries == w.entries && after.active == w.active
        && after.tasks ==
             w.tasks[t := task.(state := task.state.(cancelRequested := true, cancelThread := Polling))]
        && after.interrupts ==
             w.interrupts + if InterruptibleYet(task) then [Interrupt(t, Some(Worker(t)), w.conns[task.conn].running)]
               else []
  {
    hide Reached, ResultInv;
    TaskIsSound(w, t);
    assert w.tasks[t := w.tasks[t]] == w.tasks;
  }

  /** Every turn of the cancellation worker interrupts under the same condition; it leaves
      once the outcome is published. */
  lemma PulseRepeatsTheInterrupt(w: World, t: TaskId)
    requires Reached(w) && Enabled(w, Pulse(t))
    ensures var task := w.tasks[t]; var after := Apply(w, Pulse(t));
      && after.conns == w.conns && after.entries == w.entries && after.active == w.active
      && after.tasks ==
           w.tasks[t := if PublishedYet(task.point) then task.(state := task.state.(cancelThread := Exited)) else task]
      && after.interrupts ==
           w.interrupts + if InterruptibleYet(task) then [Interrupt(t, Some(Worker(t)), w.conns[task.conn].running)]
             else []
  {
    hide Reached, ResultInv;
    TaskIsSound(w, t);
  }

  /** A cancellation whose worker starts is kept: made before the task's worker checks for it,
      even while another statement holds the connection, the task never executes. */
  lemma CancelBeforeTheCheckWins(w: World, t: TaskId, steps: seq<Step>, to: World)
    requires Reached(w) && Enabled(w, Cancel(t, true)) && BeforeClaim(w.tasks[t].point)
    requires Run(Apply(w, Cancel(t, true)), steps, to)
    ensures t in to.tasks && to.tasks[t].executions == 0
    ensures to.tasks[t].state.done ==> to.tasks[t].state.error && to.tasks[t].state.consumed
  {
    CancelIsRecorded(w, t, true);
    ReachedExtends(w, Cancel(t, true));
    hide Reached, Run;
    CancelledBeforeItStarts(Apply(w, Cancel(t, true)), steps, to, t);
  }

  /** The worker found no cancellation when it checked. */
  ghost predicate Executes(task: WorkerTask) {
    && !BeforeClaim(task.point)
    && (if task.point.Decided? then !task.point.cancelled && task.executions == 0 else task.executions == 1)
  }

  lemma ExecutesStays(step: Step, t: TaskId, task: WorkerTask)
    requires Executes(task)
    ensures Executes(TaskAfter(step, t, task))
  {}

  lemma {:induction false} StaysExecuting(from: World, steps: seq<Step>, to: World, t: TaskId)
    requires t in from.tasks && Executes(from.tasks[t]) && Run(from, steps, to)
    ensures t in to.tasks && Executes(to.tasks[t])
    decreases |steps|
  {
    hide Apply, Enabled, Executes, TaskAfter, TaskReady;
    if steps != [] {
      var n := |steps| - 1;
      var before :| Run(from, steps[..n], before) && Enabled(before, steps[n]) && to == Apply(before, steps[n]);
      StaysExecuting(from, steps[..n], before, t);
      TaskSteps(before, steps[n], t);
      ExecutesStays(steps[n], t, before.tasks[t]);
    }
  }

  /** A worker that finds no cancellation at its check executes its statement once, whatever is
      requested afterwards. */
  lemma CancelAfterTheCheckIsTooLate(w: World, t: TaskId, failed: bool, steps: seq<Step>, to: World)
    requires Reached(w) && Enabled(w, Advance(t, failed))
    requires w.tasks[t].point == Holding && !w.tasks[t].state.cancelRequested
    requires Run(Apply(w, Advance(t, failed)), steps, to)
    ensures t in to.tasks && to.tasks[t].executions <= 1
    ensures to.tasks[t].state.done ==> to.tasks[t].executions == 1
  {
    var next := Apply(w, Advance(t, failed));
    ReachedExtends(w, Advance(t, failed));
    TaskIsSound(w, t);
    hide Reached, Run;
    StaysExecuting(next, steps, to, t);
    ReachedIsSound(next);
    AsyncSafety.RunKeeps(next, steps, to);
    TaskOf(to, t);
  }

  /** What the end of the execution leaves: the task fails exactly when the statement did, a
      failure's native result is destroyed at once and a success keeps it. */
  lemma ExecutionOutcome(w: World, t: TaskId, failed: bool)
    requires Reached(w) && t in w.tasks && w.tasks[t].point == Executing
    ensures Enabled(w, Advance(t, failed))
    ensures var after := Apply(w, Advance(t, failed)).tasks[t];
      && after.point == Ran && after.executions == 1 && after.made == 1
      && after.state.error == failed && after.state.consumed == failed && after.state.result == !failed
      && after.freed == if failed then 1 else 0
    ensures var conns := Apply(w, Advance(t, failed)).conns; conns[w.tasks[t].conn].running.None?
  {
    hide Reached;
    TaskIsSound(w, t);
  }

  function Place(p: Point): nat {
    match p
    case Queued => 0
    case Holding => 1
    case Decided(_) => 2
    case Executing => 3
    case Ran => 4
    case Ended => 5
    case Published => 6
    case Unlocked => 7
    case Joined => 8
    case Released => 9
    case Finished => 10
  }

  /** A worker never goes back: each of its steps leads to the next place of its way, and only
      a cancelled task leaves out the execution. It waits at two places only, for the
      connection's mutex and for its cancellation worker. */
  lemma WorkersGoOn(w: World, t: TaskId, failed: bool)
    requires Reached(w) && t in w.tasks && w.tasks[t].point != Finished
    ensures w.tasks[t].conn in w.conns
    ensures Enabled(w, Advance(t, failed)) <==>
              && (w.tasks[t].point == Queued ==> w.conns[w.tasks[t].conn].holder.None?)
              && (w.tasks[t].point == Unlocked ==> !w.tasks[t].state.cancelThread.Polling?)
    ensures Enabled(w, Advance(t, failed)) ==>
              var before, after := w.tasks[t].point, Apply(w, Advance(t, failed)).tasks[t].point;
              Place(after) == Place(before) + if before == Decided(true) then 2 else 1
  {
    hide Reached;
    TaskIsSound(w, t);
  }

  /** What `getResult()` says of a finished task: it throws exactly when the statement failed or
      was cancelled before it ran, and gives the result exactly while the task still has it. */
  lemma GetResultSays(w: World, t: TaskId)
    requires Reached(w) && Enabled(w, TakeResult(t))
    ensures var task := w.tasks[t];
      && (TakingOf(task.state) == Throws <==> task.state.error)
      && (TakingOf(task.state) == Takes <==> task.state.result)
      && (TakingOf(task.state) == AlreadyTaken <==> task.made == 1 && !task.state.error && !task.state.result)
  {
    hide Reached;
    TaskIsSound(w, t);
  }
}
