/** What async tasks, their cancellation and their registry keep in every interleaving. */
module AsyncSafety {
  import opened Wrappers
  import opened AsyncTask
  import opened AsyncProtocol

  /** Only the holder's statement runs. */
  ghost predicate ConnInv(w: World, c: ConnId)
    requires c in w.conns
  {
    var conn := w.conns[c];
    && (conn.running.Some? ==> conn.running == conn.holder)
    && (conn.holder.Some? && conn.holder.value.Worker? ==>
          conn.holder.value.task in w.tasks && w.tasks[conn.holder.value.task].conn == c)
  }

  /** A worker is between the mutex's acquisition and release exactly while it is the holder. */
  ghost predicate HoldInv(conn: Conn, t: TaskId, task: WorkerTask) {
    && (Holds(task.point) <==> conn.holder == Some(Worker(t)))
    && (task.point == Executing <==> conn.running == Some(Worker(t)))
  }

  ghost predicate MutexInv(w: World) {
    && (forall c <- w.conns :: ConnInv(w, c))
    && (forall t <- w.tasks :: w.tasks[t].conn in w.conns && HoldInv(w.conns[w.tasks[t].conn], t, w.tasks[t]))
  }

  predicate BeforeClaim(p: Point) {
    p == Queued || p == Holding
  }

  predicate PublishedYet(p: Point) {
    p == Point.Published || AfterMutex(p)
  }

  predicate AfterMutex(p: Point) {
    p == Unlocked || AfterJoin(p)
  }

  predicate AfterJoin(p: Point) {
    p == Point.Joined || p == Released || p == Finished
  }

  /** What one task's flags say at each point of its worker. */
  ghost predicate TaskInv(t: WorkerTask) {
    var s := t.state;
    && (s.workerRunning ==> Holds(t.point) && !PublishedYet(t.point))
    && (BeforeClaim(t.point) ==> !s.workerRunning)
    && (t.point == Executing ==> s.workerRunning)
    && (t.point == Ran || t.point == Ended ==> (s.workerRunning <==> t.executions == 1))
    && (s.done <==> PublishedYet(t.point))
    && (BeforeClaim(t.point) || t.point.Decided? ==> t.executions == 0 && !s.error)
    && (t.point == Executing ==> t.executions == 1 && !s.error)
    && t.executions <= 1
    && (t.point.Decided? ==> t.point.cancelled == !s.workerRunning && (t.point.cancelled ==> s.cancelRequested))
    && (!BeforeClaim(t.point) && !t.point.Decided? && t.executions == 0 ==> s.cancelRequested && s.error)
    && (s.cancelThread.NotStarted? <==> !s.cancelRequested)
    && (s.cancelThread.Exited? || s.cancelThread.Joined? ==> s.done)
    && (AfterJoin(t.point) ==> s.cancelThread.NotStarted? || s.cancelThread.Joined?)
  }

  /** Who has the native result of its execution. */
  ghost predicate ResultInv(t: WorkerTask) {
    var s := t.state;
    && (s.error ==> s.consumed) && (s.consumed ==> !s.result)
    && (s.consumed && !s.error ==> s.done)
    && (t.taken ==> s.consumed && !s.error)
    && (Freed(t) ==> s.consumed)
    && (t.freed > 0 ==> s.consumed)
    && t.made == (if t.executions == 1 && t.point != Executing then 1 else 0)
    && t.made == t.freed + (if s.result then 1 else 0) + (if t.taken then 1 else 0)
  }

  ghost predicate TasksInv(w: World) {
    forall t <- w.tasks :: TaskInv(w.tasks[t]) && ResultInv(w.tasks[t])
  }

  /** The registry holds every unfinished worker, and `active` counts them. */
  ghost predicate RegistryInv(w: World) {
    && OneEntryEach(w.entries)
    && w.active == |Unfinished(w.entries)|
    && (forall e <- w.entries :: e.task in w.tasks && (e.finished <==> w.tasks[e.task].point == Finished))
    && (forall t <- w.tasks :: w.tasks[t].point != Finished ==> Entry(t, false) in w.entries)
  }

  ghost predicate OnTarget(i: Interrupt) {
    i.holder == Some(Worker(i.task)) && (i.running.None? || i.running == Some(Worker(i.task)))
  }

  ghost predicate InterruptInv(w: World) {
    forall i <- w.interrupts :: OnTarget(i)
  }

  ghost predicate Inv(w: World) {
    MutexInv(w) && TasksInv(w) && RegistryInv(w) && InterruptInv(w)
  }

  /** Steps that touch one connection and leave its workers alone. */
  lemma MutexOther(w: World, c: ConnId, conn: Conn)
    requires MutexInv(w) && c in w.conns
    requires w.conns[c].holder in {None, Some(Other)} && conn.holder in {None, Some(Other)}
    requires conn.running in {None, Some(Other)} && (conn.running.Some? ==> conn.running == conn.holder)
    ensures MutexInv(WithConn(w, c, conn))
  {
    forall t <- w.tasks ensures HoldInv(WithConn(w, c, conn).conns[w.tasks[t].conn], t, w.tasks[t]) {
      assert HoldInv(w.conns[w.tasks[t].conn], t, w.tasks[t]);
      assert ConnInv(w, c);
    }
    forall d <- WithConn(w, c, conn).conns ensures ConnInv(WithConn(w, c, conn), d) {
      assert d != c ==> ConnInv(w, d);
    }
  }

  /** Steps that change one task but not where its worker is. */
  lemma MutexTask(w: World, t: TaskId, task: WorkerTask)
    requires MutexInv(w) && t in w.tasks && task.conn == w.tasks[t].conn && task.point == w.tasks[t].point
    ensures MutexInv(WithTask(w, t, task))
  {
    forall c <- w.conns ensures ConnInv(WithTask(w, t, task), c) {
      assert ConnInv(w, c);
    }
    forall u <- WithTask(w, t, task).tasks
        ensures HoldInv(w.conns[WithTask(w, t, task).tasks[u].conn], u, WithTask(w, t, task).tasks[u]) {
      assert HoldInv(w.conns[w.tasks[u].conn], u, w.tasks[u]);
    }
  }

  lemma HoldAdvances(conn: Conn, t: TaskId, task: WorkerTask, failed: bool)
    requires HoldInv(conn, t, task)
    requires task.point.Queued? ==> conn.holder.None?
    requires conn.running.Some? ==> conn.running == conn.holder
    ensures HoldInv(ConnAfter(conn, t, task.point), t, Advanced(task, failed))
    ensures forall u, other :: u != t && HoldInv(conn, u, other) ==> HoldInv(ConnAfter(conn, t, task.point), u, other)
    ensures ConnAfter(conn, t, task.point).holder in {None, conn.holder, Some(Worker(t))}
    ensures ConnAfter(conn, t, task.point).running.Some? ==>
              ConnAfter(conn, t, task.point).running == ConnAfter(conn, t, task.point).holder
    ensures Advanced(task, failed).conn == task.conn
  {
  }

  lemma ConnOf(w: World, c: ConnId)
    requires MutexInv(w) && c in w.conns
    ensures ConnInv(w, c)
  {}

  lemma HoldOf(w: World, t: TaskId)
    requires MutexInv(w) && t in w.tasks
    ensures w.tasks[t].conn in w.conns && HoldInv(w.conns[w.tasks[t].conn], t, w.tasks[t])
  {}

  lemma MutexFrom(w: World)
    requires forall c <- w.conns :: ConnInv(w, c)
    requires forall t <- w.tasks :: w.tasks[t].conn in w.conns && HoldInv(w.conns[w.tasks[t].conn], t, w.tasks[t])
    ensures MutexInv(w)
  {}

  lemma MutexAdvances(w: World, t: TaskId, failed: bool)
    requires MutexInv(w) && Enabled(w, Advance(t, failed))
    ensures MutexInv(AdvanceTask(w, t, failed))
  {
    hide HoldInv, Advanced, ConnAfter, Finish, MutexInv;
    var task := w.tasks[t];
    ConnOf(w, task.conn);
    HoldOf(w, t);
    HoldAdvances(w.conns[task.conn], t, task, failed);
    var after := AdvanceTask(w, t, failed);
    forall c <- after.conns ensures ConnInv(after, c) {
      ConnOf(w, c);
    }
    forall u <- after.tasks ensures after.tasks[u].conn in after.conns
        && HoldInv(after.conns[after.tasks[u].conn], u, after.tasks[u]) {
      if u != t {
        HoldOf(w, u);
      }
    }
    MutexFrom(after);
  }

  lemma MutexNew(w: World, step: Step)
    requires MutexInv(w) && Enabled(w, step) && (step.Connect? || step.Start?)
    ensures MutexInv(Apply(w, step))
  {
    var after := Apply(w, step);
    forall d <- after.conns ensures ConnInv(after, d) {
      assert d in w.conns ==> ConnInv(w, d);
    }
    assert step.conn in w.conns ==> ConnInv(w, step.conn);
  }

  lemma MutexSame(w: World, v: World)
    requires MutexInv(w) && v.conns == w.conns && v.tasks == w.tasks
    ensures MutexInv(v)
  {
    forall c <- v.conns ensures ConnInv(v, c) {
      assert ConnInv(w, c);
    }
  }

  lemma MutexKept(w: World, step: Step)
    requires MutexInv(w) && Enabled(w, step)
    ensures MutexInv(Apply(w, step))
  {
    hide MutexInv, HoldInv, LastReference, TookResult;
    match step
    case Connect(c) => MutexNew(w, step);
    case Start(t, c) => MutexNew(w, step);
    case Advance(t, failed) => MutexAdvances(w, t, failed);
    case OtherLock(c) => IdleConn(w, c); MutexOther(w, c, w.conns[c].(holder := Some(Other)));
    case OtherRuns(c) => MutexOther(w, c, w.conns[c].(running := Some(Other)));
    case OtherEnds(c) => MutexOther(w, c, w.conns[c].(running := None));
    case OtherUnlock(c) => MutexOther(w, c, w.conns[c].(holder := None));
    case ShutdownJoins => MutexSame(w, Apply(w, step));
    case _ => MutexFlags(w, step);
  }

  lemma IdleConn(w: World, c: ConnId)
    requires MutexInv(w) && c in w.conns && w.conns[c].holder.None?
    ensures w.conns[c].running.None?
  {
    assert ConnInv(w, c);
  }

  lemma MutexFlags(w: World, step: Step)
    requires MutexInv(w) && Enabled(w, step)
    requires step.Cancel? || step.Pulse? || step.DropOwner? || step.TakeResult? || step.DropResult?
    ensures MutexInv(Apply(w, step))
  {
    hide MutexInv;
    var after := Apply(w, step);
    MutexTask(w, step.task, after.tasks[step.task]);
    MutexSame(WithTask(w, step.task, after.tasks[step.task]), after);
  }

  lemma TaskAdvances(t: WorkerTask, failed: bool)
    requires TaskInv(t) && ResultInv(t) && (t.point == Unlocked ==> !t.state.cancelThread.Polling?)
    ensures TaskInv(Advanced(t, failed)) && ResultInv(Advanced(t, failed))
  {}

  lemma TaskCancelled(t: WorkerTask, threadStarts: bool)
    requires TaskInv(t) && ResultInv(t)
    ensures TaskInv(t.(state := Cancelled(t.state, threadStarts)))
        && ResultInv(t.(state := Cancelled(t.state, threadStarts)))
  {}

  lemma TaskPulsed(t: WorkerTask)
    requires TaskInv(t) && ResultInv(t) && t.state.cancelThread.Polling?
    ensures TaskInv(t.(state := Pulsed(t.state))) && ResultInv(t.(state := Pulsed(t.state)))
  {}

  lemma TaskDropped(t: WorkerTask)
    requires TaskInv(t) && ResultInv(t) && t.owned
    ensures TaskInv(LastReference(t.(owned := false))) && ResultInv(LastReference(t.(owned := false)))
  {}

  lemma TaskTaken(t: WorkerTask)
    requires TaskInv(t) && ResultInv(t) && t.owned && t.state.done
    ensures TaskInv(TookResult(t)) && ResultInv(TookResult(t))
  {}

  lemma TaskResultDropped(t: WorkerTask)
    requires TaskInv(t) && ResultInv(t) && t.taken
    ensures TaskInv(t.(taken := false, freed := t.freed + 1)) && ResultInv(t.(taken := false, freed := t.freed + 1))
  {}

  /** What a step makes of a task that exists before it. */
  function TaskAfter(step: Step, t: TaskId, task: WorkerTask): WorkerTask {
    match step
    case Advance(u, failed) => if u == t then Advanced(task, failed) else task
    case Cancel(u, threadStarts) => if u == t then task.(state := Cancelled(task.state, threadStarts)) else task
    case Pulse(u) => if u == t then task.(state := Pulsed(task.state)) else task
    case DropOwner(u) => if u == t then LastReference(task.(owned := false)) else task
    case TakeResult(u) => if u == t then TookResult(task) else task
    case DropResult(u) => if u == t then task.(taken := false, freed := task.freed + 1) else task
    case _ => task
  }

  /** What a step asks of its task. */
  predicate TaskReady(step: Step, t: TaskId, task: WorkerTask) {
    match step
    case Advance(u, _) => u == t && task.point == Unlocked ==> !task.state.cancelThread.Polling?
    case Pulse(u) => u == t ==> task.state.cancelThread.Polling?
    case DropOwner(u) => u == t ==> task.owned
    case TakeResult(u) => u == t ==> task.owned && task.state.done
    case DropResult(u) => u == t ==> task.taken
    case _ => true
  }

  lemma TaskSteps(w: World, step: Step, t: TaskId)
    requires Enabled(w, step) && t in w.tasks
    ensures TaskReady(step, t, w.tasks[t])
    ensures t in Apply(w, step).tasks && Apply(w, step).tasks[t] == TaskAfter(step, t, w.tasks[t])
  {
    hide Advanced, ConnAfter, Unfinished, Finish, LastReference, TookResult;
  }

  lemma TasksFrom(w: World, step: Step, t: TaskId)
    requires Enabled(w, step) && t in Apply(w, step).tasks && t !in w.tasks
    ensures step.Start? && step.task == t && step.conn in w.conns
    ensures Apply(w, step).tasks[t] == WorkerTask(step.conn, FRESH, Queued, 0, true, 0, 0, false)
  {
    hide Advanced, ConnAfter, Unfinished, Finish, LastReference, TookResult;
  }


  lemma TaskKept(step: Step, t: TaskId, task: WorkerTask)
    requires TaskInv(task) && ResultInv(task) && TaskReady(step, t, task)
    ensures TaskInv(TaskAfter(step, t, task)) && ResultInv(TaskAfter(step, t, task))
  {
    hide TaskInv, ResultInv, Advanced, LastReference, TookResult;
    match step
    case Advance(u, failed) => if u == t { TaskAdvances(task, failed); }
    case Cancel(u, threadStarts) => TaskCancelled(task, threadStarts);
    case Pulse(u) => if u == t { TaskPulsed(task); }
    case DropOwner(u) => if u == t { TaskDropped(task); }
    case TakeResult(u) => if u == t { TaskTaken(task); }
    case DropResult(u) => if u == t { TaskResultDropped(task); }
    case _ =>
  }

  lemma TasksKept(w: World, step: Step)
    requires TasksInv(w) && Enabled(w, step)
    ensures TasksInv(Apply(w, step))
  {
    forall t <- Apply(w, step).tasks ensures TaskInv(Apply(w, step).tasks[t]) && ResultInv(Apply(w, step).tasks[t]) {
      if t in w.tasks {
        hide TaskInv, ResultInv, Enabled, Apply, TaskAfter, TaskReady;
        TaskSteps(w, step, t);
        TaskKept(step, t, w.tasks[t]);
      } else {
        hide Enabled, Apply;
        TasksFrom(w, step, t);
      }
    }
    hide Enabled, Apply, TaskInv, ResultInv;
  }

  lemma InterruptsKept(w: World, step: Step)
    requires Inv(w) && Enabled(w, step)
    ensures InterruptInv(Apply(w, step))
  {
    hide RegistryInv, Advanced;
    match step
    case Cancel(t, _) => assert HoldInv(w.conns[w.tasks[t].conn], t, w.tasks[t]);
    case Pulse(t) => assert HoldInv(w.conns[w.tasks[t].conn], t, w.tasks[t]);
    case _ =>
  }

  lemma RegistryKept(w: World, step: Step)
    requires Inv(w) && Enabled(w, step)
    ensures RegistryInv(Apply(w, step))
  {
    hide MutexInv, TasksInv, InterruptInv, Unfinished, AdvanceTask, CancelTask, PulseTask;
    match step
    case Start(t, _) => RegistryStarts(w, step);
    case Advance(t, failed) => RegistryAdvances(w, t, failed);
    case ShutdownJoins => RegistryEmpties(w);
    case _ => RegistryUntouched(w, step);
  }

  lemma RegistryUntouched(w: World, step: Step)
    requires RegistryInv(w) && Enabled(w, step) && !step.Start? && !step.Advance? && step != ShutdownJoins
    ensures RegistryInv(Apply(w, step))
  {
    hide AdvanceTask, Unfinished, OneEntryEach;
  }

  lemma RegistryStarts(w: World, step: Step)
    requires RegistryInv(w) && Enabled(w, step) && step.Start?
    ensures RegistryInv(Apply(w, step))
  {
    StartCounts(w.entries, step.task);
    hide Unfinished, OneEntryEach;
  }

  lemma RegistryAdvances(w: World, t: TaskId, failed: bool)
    requires RegistryInv(w) && Enabled(w, Advance(t, failed))
    ensures RegistryInv(AdvanceTask(w, t, failed))
  {
    hide Unfinished, ConnAfter, Advanced;
    FinishedAfter(w.tasks[t], failed);
    if w.tasks[t].point.Released? {
      RegistryFinishes(w, t, failed);
    }
  }

  lemma FinishedAfter(task: WorkerTask, failed: bool)
    requires task.point != Finished
    ensures Advanced(task, failed).point == Finished <==> task.point == Released
  {}

  lemma RegistryFinishes(w: World, t: TaskId, failed: bool)
    requires RegistryInv(w) && Enabled(w, Advance(t, failed)) && w.tasks[t].point.Released?
    ensures RegistryInv(AdvanceTask(w, t, failed))
  {
    hide Unfinished, ConnAfter, Advanced;
    FinishedAfter(w.tasks[t], failed);
    var after := AdvanceTask(w, t, failed);
    FinishCounts(w.entries, t);
    forall u <- after.tasks | after.tasks[u].point != Finished ensures Entry(u, false) in after.entries {
      var i :| 0 <= i < |w.entries| && w.entries[i] == Entry(u, false);
      assert after.entries[i] == Entry(u, false);
    }
  }

  lemma RegistryEmpties(w: World)
    requires RegistryInv(w) && w.active == 0
    ensures RegistryInv(w.(entries := []))
  {
    forall t <- w.tasks ensures w.tasks[t].point == Finished {
      UnfinishedEntries(w.entries, Entry(t, false));
    }
  }

  lemma {:induction false} RunKeeps(from: World, steps: seq<Step>, to: World)
    requires Inv(from) && Run(from, steps, to)
    ensures Inv(to)
    decreases |steps|
  {
    hide MutexInv, TasksInv, RegistryInv, InterruptInv, Apply, Enabled;
    if steps != [] {
      var n := |steps| - 1;
      var before :| Run(from, steps[..n], before) && Enabled(before, steps[n]) && to == Apply(before, steps[n]);
      RunKeeps(from, steps[..n], before);
      MutexKept(before, steps[n]);
      TasksKept(before, steps[n]);
      RegistryKept(before, steps[n]);
      InterruptsKept(before, steps[n]);
    }
  }

  lemma TaskOf(w: World, t: TaskId)
    requires Inv(w) && t in w.tasks
    ensures TaskInv(w.tasks[t]) && ResultInv(w.tasks[t])
    ensures w.tasks[t].conn in w.conns && HoldInv(w.conns[w.tasks[t].conn], t, w.tasks[t])
  {
    hide TaskInv, ResultInv, HoldInv, RegistryInv, InterruptInv;
  }

  /** What a reached state says of one task. */
  lemma TaskIsSound(w: World, t: TaskId)
    requires Reached(w) && t in w.tasks
    ensures TaskInv(w.tasks[t]) && ResultInv(w.tasks[t])
    ensures w.tasks[t].conn in w.conns && HoldInv(w.conns[w.tasks[t].conn], t, w.tasks[t])
  {
    hide Inv, TaskInv, ResultInv, HoldInv;
    ReachedIsSound(w);
    TaskOf(w, t);
  }

  lemma ReachedIsSound(w: World)
    requires Reached(w)
    ensures Inv(w)
  {
    var steps :| Run(Init(), steps, w);
    RunKeeps(Init(), steps, w);
  }

  /** Whatever was interrupted for a task, its own worker held the connection and no other
      statement was running: a newer statement is never hit. */
  lemma InterruptsHitTheirTask(w: World, i: Interrupt)
    requires Reached(w) && i in w.interrupts
    ensures i.holder == Some(Worker(i.task))
    ensures i.running.Some? ==> i.running == Some(Worker(i.task))
  {
    ReachedIsSound(w);
    assert OnTarget(i);
  }

  /** One worker at a time is between locking and unlocking a connection, and the statement
      that runs there is the holder's. */
  lemma OneHolderPerConnection(w: World, t: TaskId, u: TaskId)
    requires Reached(w) && t in w.tasks && u in w.tasks && w.tasks[t].conn == w.tasks[u].conn
    requires Holds(w.tasks[t].point) && Holds(w.tasks[u].point)
    ensures t == u
  {
    ReachedIsSound(w);
    assert HoldInv(w.conns[w.tasks[t].conn], t, w.tasks[t]) && HoldInv(w.conns[w.tasks[u].conn], u, w.tasks[u]);
  }

  /** Cancelling a published task changes nothing and interrupts nothing. */
  lemma CancellingDoneChangesNothing(w: World, t: TaskId, threadStarts: bool)
    requires Reached(w) && Enabled(w, Cancel(t, threadStarts)) && PublishedYet(w.tasks[t].point)
    ensures Apply(w, Cancel(t, threadStarts)) == w
  {
    hide Reached;
    TaskIsSound(w, t);
    assert w.tasks[t := w.tasks[t]] == w.tasks;
  }

  lemma DoneTaskStays(step: Step, t: TaskId, task: WorkerTask)
    requires PublishedYet(task.point) && task.state.done
    ensures var after := TaskAfter(step, t, task);
      after.state.done && after.executions == task.executions && after.state.error == task.state.error
  {
    hide Advanced, PublishedYet, LastReference, TookResult;
    match step
    case Advance(_, failed) => DoneAdvances(task, failed);
    case DropOwner(_) => DoneDropped(task);
    case TakeResult(_) => DoneTaken(task);
    case _ =>
  }

  lemma DoneAdvances(task: WorkerTask, failed: bool)
    requires PublishedYet(task.point) && task.state.done
    ensures var after := Advanced(task, failed);
      after.state.done && after.executions == task.executions && after.state.error == task.state.error
  {
    hide LastReference, Claimed, Recorded, AsyncTask.Published;
    if task.point == Point.Joined {
      DoneReleased(task.(point := Released));
    }
  }

  lemma DoneReleased(task: WorkerTask)
    ensures var after := LastReference(task);
      after.state.done == task.state.done && after.executions == task.executions
          && after.state.error == task.state.error
  {}

  lemma DoneDropped(task: WorkerTask)
    ensures var after := LastReference(task.(owned := false));
      after.state.done == task.state.done && after.executions == task.executions
          && after.state.error == task.state.error
  {
    DoneReleased(task.(owned := false));
    hide LastReference;
  }

  lemma DoneTaken(task: WorkerTask)
    ensures var after := TookResult(task);
      after.state.done == task.state.done && after.executions == task.executions
          && after.state.error == task.state.error
  {}

  lemma TaskStays(w: World, step: Step, t: TaskId)
    requires Inv(w) && Enabled(w, step) && t in w.tasks && w.tasks[t].state.done
    ensures var after := Apply(w, step);
      && t in after.tasks && after.tasks[t].state.done && after.tasks[t].executions == w.tasks[t].executions
      && after.tasks[t].state.error == w.tasks[t].state.error
  {
    hide MutexInv, RegistryInv, InterruptInv, ResultInv, Enabled, Apply, TaskAfter;
    assert TaskInv(w.tasks[t]);
    hide TasksInv;
    TaskSteps(w, step, t);
    DoneTaskStays(step, t, w.tasks[t]);
  }

  lemma InterruptsGrow(w: World, step: Step, t: TaskId)
    requires Inv(w) && Enabled(w, step) && t in w.tasks && w.tasks[t].state.done
    ensures var after := Apply(w, step);
      && w.interrupts <= after.interrupts
      && forall k :: |w.interrupts| <= k < |after.interrupts| ==> after.interrupts[k].task != t
  {
    hide MutexInv, TasksInv, RegistryInv, InterruptInv, Unfinished, Finish, Advanced, ConnAfter;
  }

  /** Once its completion is published a task's outcome is final, and no interrupt is ever
      sent for it again. */
  lemma {:induction false} PublishedIsFinal(from: World, steps: seq<Step>, to: World, t: TaskId)
    requires Reached(from) && t in from.tasks && from.tasks[t].state.done && Run(from, steps, to)
    ensures t in to.tasks && to.tasks[t].state.done && to.tasks[t].executions == from.tasks[t].executions
    ensures to.tasks[t].state.error == from.tasks[t].state.error
    ensures |from.interrupts| <= |to.interrupts|
    ensures forall k :: |from.interrupts| <= k < |to.interrupts| ==> to.interrupts[k].task != t
    decreases |steps|
  {
    hide Inv, Apply, Enabled, Reached;
    if steps != [] {
      var n := |steps| - 1;
      var before :| Run(from, steps[..n], before) && Enabled(before, steps[n]) && to == Apply(before, steps[n]);
      PublishedIsFinal(from, steps[..n], before, t);
      ReachedIsSound(from);
      RunKeeps(from, steps[..n], before);
      TaskStays(before, steps[n], t);
      InterruptsGrow(before, steps[n], t);
    }
  }

  /** A task cancelled before its worker claimed it. */
  ghost predicate CancelledUnrun(t: WorkerTask) {
    && t.state.cancelRequested && t.executions == 0
    && (BeforeClaim(t.point) || !t.state.workerRunning)
    && (t.point.Decided? ==> t.point.cancelled)
    && (t.state.done ==> t.state.error)
  }

  lemma UnrunTaskStays(step: Step, t: TaskId, task: WorkerTask)
    requires TaskInv(task) && CancelledUnrun(task)
    ensures CancelledUnrun(TaskAfter(step, t, task))
  {}

  lemma CancelledUnrunStep(w: World, step: Step, t: TaskId)
    requires Inv(w) && Enabled(w, step) && t in w.tasks && CancelledUnrun(w.tasks[t])
    ensures t in Apply(w, step).tasks && CancelledUnrun(Apply(w, step).tasks[t])
  {
    hide MutexInv, RegistryInv, InterruptInv, TaskInv, ResultInv, Enabled, Apply, TaskAfter, CancelledUnrun;
    TaskSteps(w, step, t);
    UnrunTaskStays(step, t, w.tasks[t]);
  }

  lemma {:induction false} StaysUnrun(from: World, steps: seq<Step>, to: World, t: TaskId)
    requires Inv(from) && t in from.tasks && CancelledUnrun(from.tasks[t]) && Run(from, steps, to)
    ensures t in to.tasks && CancelledUnrun(to.tasks[t])
    decreases |steps|
  {
    hide Inv, Apply, Enabled, CancelledUnrun;
    if steps != [] {
      var n := |steps| - 1;
      var before :| Run(from, steps[..n], before) && Enabled(before, steps[n]) && to == Apply(before, steps[n]);
      StaysUnrun(from, steps[..n], before, t);
      RunKeeps(from, steps[..n], before);
      CancelledUnrunStep(before, steps[n], t);
    }
  }

  /** A cancellation that comes before the worker's check, even while another statement holds
      the connection, means the task never executes and reports the interruption. */
  lemma CancelledBeforeItStarts(from: World, steps: seq<Step>, to: World, t: TaskId)
    requires Reached(from) && t in from.tasks && BeforeClaim(from.tasks[t].point) && from.tasks[t].state.cancelRequested
    requires Run(from, steps, to)
    ensures t in to.tasks && to.tasks[t].executions == 0
    ensures to.tasks[t].state.done ==> to.tasks[t].state.error && to.tasks[t].state.consumed
  {
    hide Reached, Run, Inv;
    ReachedIsSound(from);
    TaskIsSound(from, t);
    StaysUnrun(from, steps, to, t);
    RunKeeps(from, steps, to);
    TaskOf(to, t);
  }

  /** A task executes at most once; a published one executed unless it was cancelled, and a
      failed one has released what its execution made. */
  lemma PublishedOutcome(w: World, t: TaskId)
    requires Reached(w) && t in w.tasks
    ensures w.tasks[t].executions <= 1
    ensures w.tasks[t].state.done && w.tasks[t].executions == 0 ==>
              w.tasks[t].state.cancelRequested && w.tasks[t].state.error
    ensures w.tasks[t].state.done ==> w.tasks[t].made == w.tasks[t].executions
    ensures w.tasks[t].state.done && w.tasks[t].state.error ==> w.tasks[t].freed == w.tasks[t].made
    ensures w.tasks[t].state.done && !w.tasks[t].state.error && !w.tasks[t].state.consumed ==>
              w.tasks[t].state.result && w.tasks[t].freed == 0
  {
    hide Reached;
    TaskIsSound(w, t);
  }

  /** The native result of an execution is destroyed at most once, by the worker, the Result
      that took it or the task's destructor; until then the task or one Result holds it; and
      with both of them gone it has been destroyed. */
  lemma ResultsAreDestroyedOnce(w: World, t: TaskId)
    requires Reached(w) && t in w.tasks
    ensures w.tasks[t].made <= 1
    ensures w.tasks[t].made ==
              w.tasks[t].freed + (if w.tasks[t].state.result then 1 else 0) + (if w.tasks[t].taken then 1 else 0)
    ensures Freed(w.tasks[t]) && !w.tasks[t].taken ==> w.tasks[t].freed == w.tasks[t].made
  {
    hide Reached;
    TaskIsSound(w, t);
  }

  /** `getResult()` gives the result to one Result object at most, exactly when the task did
      not fail and gave it to none before. */
  lemma ResultIsTakenOnce(w: World, t: TaskId)
    requires Reached(w) && Enabled(w, TakeResult(t))
    ensures var after := Apply(w, TakeResult(t)).tasks[t];
      && (w.tasks[t].state.result ==> after.taken && !after.state.result && !w.tasks[t].taken)
      && (!w.tasks[t].state.result ==> Apply(w, TakeResult(t)).tasks[t] == w.tasks[t])
      && TakingOf(after.state) != Takes
  {
    hide Reached;
    TaskIsSound(w, t);
  }

  /** The cancellation worker uses the task by a raw pointer: it is joined before the worker
      drops its reference, and none starts afterwards. */
  lemma CancellationEndsBeforeTheTask(w: World, t: TaskId)
    requires Reached(w) && t in w.tasks && Freed(w.tasks[t])
    ensures w.tasks[t].state.cancelThread in {NotStarted, CancelThread.Joined}
    ensures !Enabled(w, Pulse(t)) && !Enabled(w, Cancel(t, true))
  {
    hide Reached;
    TaskIsSound(w, t);
  }

  /** The join itself cannot hang: the cancellation worker's next turn lets it through. */
  lemma JoinGoesThrough(w: World, t: TaskId, failed: bool)
    requires Reached(w) && t in w.tasks && w.tasks[t].point == Unlocked
    ensures Enabled(w, Advance(t, failed)) || (Enabled(w, Pulse(t)) && Enabled(Apply(w, Pulse(t)), Advance(t, failed)))
  {
    hide Reached;
    TaskIsSound(w, t);
  }

  /** `duckdb_async_active` is the number of registered workers that did not finish, and every
      unfinished worker is registered once. */
  lemma ActiveCountsTheUnfinished(w: World, t: TaskId)
    requires Reached(w) && t in w.tasks
    ensures w.active == |Unfinished(w.entries)|
    ensures Entry(t, false) in Unfinished(w.entries) <==> w.tasks[t].point != Finished
  {
    ReachedIsSound(w);
    UnfinishedEntries(w.entries, Entry(t, false));
  }

  /** Shutdown that saw no active worker left nothing running: no worker holds a connection
      and no cancellation worker is alive. */
  lemma ShutdownLeavesNothingRunning(w: World, t: TaskId)
    requires Reached(w) && w.active == 0 && t in w.tasks
    ensures w.tasks[t].point == Finished && !w.tasks[t].state.cancelThread.Polling?
    ensures w.tasks[t].conn in w.conns && w.conns[w.tasks[t].conn].holder != Some(Worker(t))
  {
    ReachedIsSound(w);
    UnfinishedEntries(w.entries, Entry(t, false));
    assert TaskInv(w.tasks[t]) && HoldInv(w.conns[w.tasks[t].conn], t, w.tasks[t]);
  }

  /** Cancelling a task whose statement runs interrupts it at once, and so does every turn of
      its cancellation worker, which goes on until completion is published. */
  lemma RunningStatementsAreInterrupted(w: World, t: TaskId)
    requires Reached(w) && t in w.tasks && w.tasks[t].point == Executing
    ensures var hit := Interrupt(t, Some(Worker(t)), Some(Worker(t)));
      && (w.tasks[t].owned && !w.tasks[t].state.cancelRequested ==>
            Enabled(w, Cancel(t, true)) && Apply(w, Cancel(t, true)).interrupts == w.interrupts + [hit])
      && (w.tasks[t].state.cancelRequested ==>
            Enabled(w, Pulse(t)) && Apply(w, Pulse(t)).interrupts == w.interrupts + [hit]
            && Enabled(Apply(w, Pulse(t)), Pulse(t)))
  {
    hide Reached;
    TaskIsSound(w, t);
  }
}
