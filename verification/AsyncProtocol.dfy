/**
 Any number of connections, async tasks on them, their cancellation workers and other
 threads that run statements, as a state machine whose steps are the lock regions of
 `duckdb_async_run_task`, `duckdb_async_worker_start` and `duckdb_task_cancel`.
 */
module AsyncProtocol {
  import opened Wrappers
  import opened AsyncTask

  type TaskId = nat
  type ConnId = nat

  datatype Who = Worker(task: TaskId) | Other

  /** `holder` holds the connection mutex; `running` is whose statement DuckDB executes. */
  datatype Conn = Conn(holder: Option<Who>, running: Option<Who>)

  datatype Point =
    | Queued                    // waits for the connection mutex
    | Holding                   // before the cancellation check
    | Decided(cancelled: bool)
    | Executing
    | Ran                       // the outcome is recorded
    | Ended                     // `duckdb_conn_worker_end` is done
    | Published                 // `done` is set, the connection mutex still held
    | Unlocked                  // about to join the cancellation worker
    | Joined
    | Released                  // the worker's reference to the task is gone
    | Finished                  // registered as finished

  /** `made` and `freed` count the native results that the task's execution made and those
      destroyed; `taken` says whether a Result object holds one. */
  datatype WorkerTask = WorkerTask(conn: ConnId, state: TaskState, point: Point, executions: nat, owned: bool,
                                   made: nat, freed: nat, taken: bool)

  datatype Interrupt = Interrupt(task: TaskId, holder: Option<Who>, running: Option<Who>)

  /** `interrupts` records each interrupt with its connection's state at that moment. */
  datatype World = World(conns: map<ConnId, Conn>, tasks: map<TaskId, WorkerTask>, entries: seq<Entry>, active: int,
                         interrupts: seq<Interrupt>)

  datatype Step =
    | Connect(conn: ConnId)
    | Start(task: TaskId, conn: ConnId)
    | Advance(task: TaskId, failed: bool)          // the worker's next step
    | Cancel(task: TaskId, threadStarts: bool)
    | Pulse(task: TaskId)                          // a turn of the cancellation worker
    | DropOwner(task: TaskId)                      // PHP releases its PendingQuery
    | TakeResult(task: TaskId)                     // getResult() on a done task
    | DropResult(task: TaskId)                     // PHP releases the Result
    | OtherLock(conn: ConnId)
    | OtherRuns(conn: ConnId)
    | OtherEnds(conn: ConnId)
    | OtherUnlock(conn: ConnId)
    | ShutdownJoins                                // the end of `duckdb_async_shutdown`

  function Init(): World {
    World(map[], map[], [], 0, [])
  }

  /** The worker holds its connection's mutex. */
  predicate Holds(p: Point) {
    p == Holding || p.Decided? || p == Executing || p == Ran || p == Ended || p == Point.Published
  }

  /** Both references are gone, and with them the memory that the worker threads use. */
  predicate Freed(t: WorkerTask) {
    !t.owned && (t.point == Released || t.point == Finished)
  }

  predicate MayAdvance(w: World, t: TaskId)
    requires t in w.tasks && w.tasks[t].conn in w.conns
  {
    match w.tasks[t].point
    case Queued => w.conns[w.tasks[t].conn].holder.None?
    case Unlocked => !w.tasks[t].state.cancelThread.Polling?
    case Finished => false
    case _ => true
  }

  predicate Enabled(w: World, step: Step) {
    match step
    case Connect(c) => c !in w.conns
    case Start(t, c) => t !in w.tasks && c in w.conns
    case Advance(t, _) => t in w.tasks && w.tasks[t].conn in w.conns && MayAdvance(w, t)
    case Cancel(t, _) => t in w.tasks && w.tasks[t].conn in w.conns && w.tasks[t].owned
    case Pulse(t) => t in w.tasks && w.tasks[t].conn in w.conns && w.tasks[t].state.cancelThread.Polling?
    case DropOwner(t) => t in w.tasks && w.tasks[t].owned
    case TakeResult(t) => t in w.tasks && w.tasks[t].owned && w.tasks[t].state.done
    case DropResult(t) => t in w.tasks && w.tasks[t].taken
    case OtherLock(c) => c in w.conns && w.conns[c].holder.None?
    case OtherRuns(c) => c in w.conns && w.conns[c] == Conn(Some(Other), None)
    case OtherEnds(c) => c in w.conns && w.conns[c] == Conn(Some(Other), Some(Other))
    case OtherUnlock(c) => c in w.conns && w.conns[c] == Conn(Some(Other), None)
    case ShutdownJoins => w.active == 0
  }

  function WithConn(w: World, c: ConnId, conn: Conn): World {
    w.(conns := w.conns[c := conn])
  }

  function WithTask(w: World, t: TaskId, task: WorkerTask): World {
    w.(tasks := w.tasks[t := task])
  }

  function Interrupted(w: World, t: TaskId): World
    requires t in w.tasks && w.tasks[t].conn in w.conns
  {
    var c := w.conns[w.tasks[t].conn];
    w.(interrupts := w.interrupts + [Interrupt(t, c.holder, c.running)])
  }

  /** The destructor runs once both references are gone. */
  function LastReference(task: WorkerTask): WorkerTask {
    if Freed(task) then
      task.(state := Destructed(task.state),
            freed := task.freed + if task.state.result && !task.state.consumed then 1 else 0)
    else task
  }

  function TookResult(task: WorkerTask): WorkerTask {
    task.(state := Taken(task.state), taken := task.taken || TakingOf(task.state) == Takes)
  }

  /** A worker's next step, as its task sees it. */
  function Advanced(task: WorkerTask, failed: bool): WorkerTask {
    match task.point
    case Queued => task.(point := Holding)
    case Holding => task.(point := Decided(task.state.cancelRequested), state := Claimed(task.state))
    case Decided(cancelled) =>
      if cancelled then task.(point := Ran, state := Recorded(task.state, NotRun))
      else task.(point := Executing, executions := task.executions + 1)
    case Executing =>
      task.(point := Ran, state := Recorded(task.state, if failed then Failed else Succeeded),
            made := task.made + 1, freed := task.freed + if failed then 1 else 0)
    case Ran => task.(point := Ended)
    case Ended => task.(point := Point.Published, state := AsyncTask.Published(task.state))
    case Published => task.(point := Unlocked)
    case Unlocked =>
      var thread := if task.state.cancelThread.Exited? then CancelThread.Joined else task.state.cancelThread;
      task.(point := Point.Joined, state := task.state.(cancelThread := thread))
    case Joined => LastReference(task.(point := Released))
    case Released => task.(point := Finished)
    case Finished => task
  }

  /** The same step, as its connection sees it. */
  function ConnAfter(conn: Conn, t: TaskId, point: Point): Conn {
    match point
    case Queued => conn.(holder := Some(Worker(t)))
    case Decided(cancelled) => if cancelled then conn else conn.(running := Some(Worker(t)))
    case Executing => conn.(running := None)
    case Published => conn.(holder := None)
    case _ => conn
  }

  function AdvanceTask(w: World, t: TaskId, failed: bool): World
    requires t in w.tasks && w.tasks[t].conn in w.conns && MayAdvance(w, t)
  {
    var task := w.tasks[t];
    var after := WithConn(WithTask(w, t, Advanced(task, failed)), task.conn,
        ConnAfter(w.conns[task.conn], t, task.point));
    if task.point.Released? then after.(entries := Finish(w.entries, t), active := w.active - 1) else after
  }

  function CancelTask(w: World, t: TaskId, threadStarts: bool): World
    requires t in w.tasks && w.tasks[t].conn in w.conns
  {
    var task := w.tasks[t];
    var after := WithTask(w, t, task.(state := Cancelled(task.state, threadStarts)));
    if CancelOf(task.state, threadStarts) == Requested(true) then Interrupted(after, t) else after
  }

  function PulseTask(w: World, t: TaskId): World
    requires t in w.tasks && w.tasks[t].conn in w.conns
  {
    var task := w.tasks[t];
    var after := WithTask(w, t, task.(state := Pulsed(task.state)));
    if PulseInterrupts(task.state) then Interrupted(after, t) else after
  }

  function Apply(w: World, step: Step): World
    requires Enabled(w, step)
  {
    match step
    case Connect(c) => WithConn(w, c, Conn(None, None))
    case Start(t, c) =>
      WithTask(w, t, WorkerTask(c, FRESH, Queued, 0, true, 0, 0, false)).(
        entries := Unfinished(w.entries) + [Entry(t, false)], active := w.active + 1)
    case Advance(t, failed) => AdvanceTask(w, t, failed)
    case Cancel(t, threadStarts) => CancelTask(w, t, threadStarts)
    case Pulse(t) => PulseTask(w, t)
    case DropOwner(t) => WithTask(w, t, LastReference(w.tasks[t].(owned := false)))
    case TakeResult(t) => WithTask(w, t, TookResult(w.tasks[t]))
    case DropResult(t) => WithTask(w, t, w.tasks[t].(taken := false, freed := w.tasks[t].freed + 1))
    case OtherLock(c) => WithConn(w, c, w.conns[c].(holder := Some(Other)))
    case OtherRuns(c) => WithConn(w, c, w.conns[c].(running := Some(Other)))
    case OtherEnds(c) => WithConn(w, c, w.conns[c].(running := None))
    case OtherUnlock(c) => WithConn(w, c, w.conns[c].(holder := None))
    case ShutdownJoins => w.(entries := [])
  }

  ghost predicate Run(from: World, steps: seq<Step>, to: World)
    decreases |steps|
  {
    if steps == [] then from == to
    else
      var n := |steps| - 1;
      exists before :: Run(from, steps[..n], before) && Enabled(before, steps[n]) && to == Apply(before, steps[n])
  }

  ghost predicate Reached(w: World) {
    exists steps :: Run(Init(), steps, w)
  }
}
