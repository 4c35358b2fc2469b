/**
 Async workers and the cleanup of their connections together: whether destroying a prepared
 statement can meet a statement that DuckDB runs on the connection, whose context lock it
 would have to wait for.
 */
module StatementSafety {
  import opened Wrappers
  import AsyncTask
  import opened AsyncProtocol
  import AsyncSafety
  import ConnCleanup

  /** Who acts: a worker, named by its task, or the request thread. */
  type Actor = Option<TaskId>

  /** Cleanup that a thread has decided to perform. `locks` says that it performs it while it
      holds the connection mutex. */
  datatype Hand = Hand(work: ConnCleanup.Work, actor: Actor, locks: bool)

  /** `depth` counts the request thread's handlers of this connection. */
  datatype Owned = Owned(state: ConnCleanup.ConnState, depth: nat, hands: multiset<Hand>)

  datatype Linked = Linked(async: AsyncProtocol.World, cleanup: map<ConnId, Owned>)

  /** A step that decides ends with its lock region; `Performs` is the native call after it. */
  datatype LinkedStep =
    | Async(step: AsyncProtocol.Step)
    | HandlerBegins(conn: ConnId)
    | HandlerEnds(conn: ConnId)
    | Releases(conn: ConnId, statement: nat, actor: Actor)
    | HandsOver(conn: ConnId, work: ConnCleanup.Work, actor: Actor)
    | Drains(conn: ConnId)
    | Performs(conn: ConnId, hand: Hand)

  const START := Linked(AsyncProtocol.Init(), map[])

  predicate Known(l: Linked, c: ConnId) {
    c in l.async.conns && c in l.cleanup
  }

  predicate BusyNow(l: Linked, c: ConnId, actor: Actor)
    requires c in l.cleanup
  {
    actor.None? && l.cleanup[c].depth > 0
  }

  /** A thread with cleanup in hand does nothing else on the connection before it is done. */
  ghost predicate Idle(l: Linked, c: ConnId, actor: Actor)
    requires c in l.cleanup
  {
    forall h <- l.cleanup[c].hands :: h.actor != actor
  }

  /** The worker's reference is the last one, and it is about to drop it. */
  predicate DropsLast(task: WorkerTask) {
    task.point == Point.Joined && !task.owned
  }

  /** The request thread acts outside DuckDB or in a handler, a worker when it destroys its task. */
  ghost predicate MayAct(l: Linked, c: ConnId, actor: Actor)
    requires Known(l, c)
  {
    && Idle(l, c, actor)
    && match actor
       case None => l.async.conns[c].running != Some(Other) || l.cleanup[c].depth > 0
       case Some(t) => t in l.async.tasks && l.async.tasks[t].conn == c && DropsLast(l.async.tasks[t])
  }

  /** The worker's step that ends its count on the connection. */
  predicate EndsWorker(l: Linked, step: AsyncProtocol.Step) {
    && step.Advance? && step.task in l.async.tasks && l.async.tasks[step.task].point == Ran
    && l.async.tasks[step.task].conn in l.cleanup && l.cleanup[l.async.tasks[step.task].conn].state.workers > 0
  }

  /** Steps of the request thread on a connection, outside its handlers. */
  predicate RequestStep(step: AsyncProtocol.Step) {
    step.Start? || step.OtherLock? || step.OtherRuns? || step.OtherEnds? || step.OtherUnlock?
  }

  predicate MayPerform(l: Linked, c: ConnId, h: Hand)
    requires Known(l, c)
  {
    var holder := l.async.conns[c].holder;
    h.locks ==> holder.None? || (h.actor.Some? && holder == Some(Worker(h.actor.value)))
  }

  ghost predicate Enabled(l: Linked, step: LinkedStep) {
    match step
    case Async(s) =>
      && AsyncProtocol.Enabled(l.async, s)
      && (RequestStep(s) ==> s.conn in l.cleanup && Idle(l, s.conn, None))
      && (RequestStep(s) && !s.Start? ==> l.cleanup[s.conn].depth == 0)
      && (s.Advance? ==>
            && s.task in l.async.tasks && l.async.tasks[s.task].conn in l.cleanup
            && Idle(l, l.async.tasks[s.task].conn, Some(s.task)))
    case HandlerBegins(c) => Known(l, c) && Idle(l, c, None)
    case HandlerEnds(c) => Known(l, c) && Idle(l, c, None) && l.cleanup[c].depth > 0
    case Releases(c, _, actor) => Known(l, c) && MayAct(l, c, actor)
    case HandsOver(c, work, actor) => Known(l, c) && work != ConnCleanup.Disconnect && MayAct(l, c, actor)
    case Drains(c) => Known(l, c) && MayAct(l, c, None) && l.cleanup[c].depth == 0
    case Performs(c, h) => Known(l, c) && h in l.cleanup[c].hands && MayPerform(l, c, h)
  }

  function HandsOf(works: seq<ConnCleanup.Work>, actor: Actor, locks: bool): multiset<Hand> {
    multiset(seq(|works|, i requires 0 <= i < |works| => Hand(works[i], actor, locks)))
  }

  function Decides(o: Owned, d: ConnCleanup.Decision, actor: Actor, locks: bool): Owned {
    o.(state := d.state, hands := o.hands + HandsOf(d.inHand, actor, locks))
  }

  function With(l: Linked, c: ConnId, o: Owned): Linked {
    l.(cleanup := l.cleanup[c := o])
  }

  /** What an async step does to the cleanup of one connection. */
  function OwnedAfter(l: Linked, step: AsyncProtocol.Step, c: ConnId): Owned
    requires c in l.cleanup
  {
    var o := l.cleanup[c];
    if step.Start? && step.conn == c then o.(state := o.state.(workers := o.state.workers + 1))
    else if EndsWorker(l, step) && l.async.tasks[step.task].conn == c then
      Decides(o, ConnCleanup.EndsWorker(o.state), Some(step.task), true)
    else o
  }

  function AfterAsync(l: Linked, step: AsyncProtocol.Step): Linked
    requires AsyncProtocol.Enabled(l.async, step)
  {
    Linked(AsyncProtocol.Apply(l.async, step),
           map c | c in l.cleanup.Keys + (if step.Connect? then {step.conn} else {}) ::
             if step.Connect? && step.conn == c then Owned(ConnCleanup.FRESH, 0, multiset{})
                 else OwnedAfter(l, step, c))
  }

  function Apply(l: Linked, step: LinkedStep): Linked
    requires Enabled(l, step)
  {
    match step
    case Async(s) => AfterAsync(l, s)
    case HandlerBegins(c) => With(l, c, l.cleanup[c].(depth := l.cleanup[c].depth + 1))
    case HandlerEnds(c) => With(l, c, l.cleanup[c].(depth := l.cleanup[c].depth - 1))
    case Releases(c, statement, actor) =>
      var o := l.cleanup[c];
      With(l, c, Decides(o, ConnCleanup.Releases(o.state, statement, BusyNow(l, c, actor)), actor, false))
    case HandsOver(c, work, actor) =>
      var o := l.cleanup[c];
      With(l, c, Decides(o, ConnCleanup.CleansUp(o.state, work, BusyNow(l, c, actor)), actor, true))
    case Drains(c) =>
      var o := l.cleanup[c];
      With(l, c, Decides(o, ConnCleanup.TakesDeferred(o.state), None, true))
    case Performs(c, h) =>
      var o := l.cleanup[c];
      With(l, c, o.(state := o.state.(done := o.state.done + [h.work]), hands := o.hands - multiset{h}))
  }

  ghost predicate Run(from: Linked, steps: seq<LinkedStep>, to: Linked)
    decreases |steps|
  {
    if steps == [] then from == to
    else
      var n := |steps| - 1;
      exists before :: Run(from, steps[..n], before) && Enabled(before, steps[n]) && to == Apply(before, steps[n])
  }

  ghost predicate Reached(l: Linked) {
    exists steps :: Run(START, steps, l)
  }

  predicate Unended(p: Point) {
    p == Queued || p == Holding || p.Decided? || p == Executing || p == Ran
  }

  function UnendedOn(tasks: map<TaskId, WorkerTask>, c: ConnId): set<TaskId> {
    set t | t in tasks && tasks[t].conn == c && Unended(tasks[t].point)
  }

  ghost predicate CountsWorkers(l: Linked, c: ConnId)
    requires c in l.cleanup
  {
    l.cleanup[c].state.workers == |UnendedOn(l.async.tasks, c)|
  }

  /** Where the threads are that have cleanup in hand. */
  ghost predicate HandInv(l: Linked, c: ConnId, h: Hand)
    requires Known(l, c)
  {
    match h.actor
    case None => !h.locks ==> l.cleanup[c].state.workers == 0 && l.async.conns[c].running != Some(Other)
    case Some(t) =>
      && t in l.async.tasks && l.async.tasks[t].conn == c
      && (DropsLast(l.async.tasks[t]) || (h.locks && l.async.tasks[t].point == Ended))
  }

  ghost predicate HandsInv(l: Linked, c: ConnId)
    requires Known(l, c)
  {
    forall h <- l.cleanup[c].hands :: HandInv(l, c, h)
  }

  /** A connection counts the workers that have not ended on it. */
  ghost predicate Inv(l: Linked) {
    && AsyncSafety.Inv(l.async)
    && l.cleanup.Keys == l.async.conns.Keys
    && (forall c <- l.cleanup :: CountsWorkers(l, c))
    && (forall c <- l.cleanup :: HandsInv(l, c))
  }

  lemma AsyncKeeps(w: AsyncProtocol.World, step: AsyncProtocol.Step)
    requires AsyncSafety.Inv(w) && AsyncProtocol.Enabled(w, step)
    ensures AsyncSafety.Inv(AsyncProtocol.Apply(w, step))
  {
    AsyncSafety.MutexKept(w, step);
    AsyncSafety.TasksKept(w, step);
    AsyncSafety.RegistryKept(w, step);
    AsyncSafety.InterruptsKept(w, step);
    hide AsyncSafety.MutexInv, AsyncSafety.TasksInv, AsyncSafety.RegistryInv, AsyncSafety.InterruptInv;
  }

  /** A step moves at most its own task in or out of the unended ones. */
  lemma UnendedChanges(w: AsyncProtocol.World, step: AsyncProtocol.Step, c: ConnId)
    requires AsyncProtocol.Enabled(w, step)
    ensures var before, after := UnendedOn(w.tasks, c), UnendedOn(AsyncProtocol.Apply(w, step).tasks, c);
      if step.Start? && step.conn == c then step.task !in before && after == before + {step.task}
      else if step.Advance? && w.tasks[step.task].point == Ran && w.tasks[step.task].conn == c then
        step.task in before && after == before - {step.task}
      else after == before
  {
    var after := AsyncProtocol.Apply(w, step);
    forall t ensures t in UnendedOn(after.tasks, c) <==>
      (if step.Start? && step.task == t then step.conn == c
       else t in UnendedOn(w.tasks, c) && !(step.Advance? && step.task == t && w.tasks[t].point == Ran)) {
      UnendedChange(w, step, c, t);
    }
    assert step.Start? ==> step.task !in w.tasks;
    assert step.Advance? ==> step.task in w.tasks;
    hide AsyncProtocol.Apply, AsyncProtocol.Enabled;
  }

  lemma UnendedChange(w: AsyncProtocol.World, step: AsyncProtocol.Step, c: ConnId, t: TaskId)
    requires AsyncProtocol.Enabled(w, step)
    ensures t in UnendedOn(AsyncProtocol.Apply(w, step).tasks, c) <==>
      (if step.Start? && step.task == t then step.conn == c
       else t in UnendedOn(w.tasks, c) && !(step.Advance? && step.task == t && w.tasks[t].point == Ran))
  {
    if t in w.tasks {
      assert !(step.Start? && step.task == t);
      hide AsyncProtocol.Apply, AsyncProtocol.Enabled;
      AsyncSafety.TaskSteps(w, step, t);
      PointAfter(step, t, w.tasks[t]);
      hide AsyncSafety.TaskAfter;
    } else if t in AsyncProtocol.Apply(w, step).tasks {
      AsyncSafety.TasksFrom(w, step, t);
      hide AsyncProtocol.Apply, AsyncProtocol.Enabled;
    } else {
      assert step.Start? ==> step.task in AsyncProtocol.Apply(w, step).tasks;
      hide AsyncProtocol.Apply, AsyncProtocol.Enabled;
    }
  }

  lemma PointAfter(step: AsyncProtocol.Step, t: TaskId, task: WorkerTask)
    ensures var after := AsyncSafety.TaskAfter(step, t, task);
      && after.conn == task.conn
      && (Unended(after.point) <==> Unended(task.point) && !(step.Advance? && step.task == t && task.point == Ran))
  {}

  lemma NoTasksYet(w: AsyncProtocol.World, c: ConnId)
    requires AsyncSafety.Inv(w) && c !in w.conns
    ensures UnendedOn(w.tasks, c) == {}
  {}

  lemma CountMoves(s: set<TaskId>, t: TaskId)
    ensures t !in s ==> |s + {t}| == |s| + 1
    ensures t in s ==> |s| > 0 && |s - {t}| == |s| - 1
  {}

  lemma WorkersAfter(l: Linked, step: AsyncProtocol.Step, c: ConnId)
    requires c in l.cleanup
    ensures var before, after := l.cleanup[c].state.workers, OwnedAfter(l, step, c).state.workers;
      after ==
        if step.Start? && step.conn == c then before + 1
        else if EndsWorker(l, step) && l.async.tasks[step.task].conn == c then before - 1
        else before
  {
    hide HandsOf;
  }

  lemma AsyncCounts(l: Linked, step: AsyncProtocol.Step, c: ConnId)
    requires Inv(l) && Enabled(l, Async(step)) && c in AfterAsync(l, step).cleanup
    ensures CountsWorkers(AfterAsync(l, step), c)
  {
    hide UnendedOn, AsyncSafety.Inv, AsyncProtocol.Apply, AsyncProtocol.Enabled, HandsInv, Idle, OwnedAfter;
    UnendedChanges(l.async, step, c);
    ConnsKept(l.async, step);
    if c in l.cleanup {
      WorkersAfter(l, step, c);
    }
    if step.Connect? && step.conn == c {
      NoTasksYet(l.async, c);
    } else {
      assert CountsWorkers(l, c);
      if step.Start? || step.Advance? {
        CountMoves(UnendedOn(l.async.tasks, c), step.task);
      }
    }
  }

  /** A step leaves a thread with cleanup in hand where it is. */
  lemma HandStays(l: Linked, step: AsyncProtocol.Step, c: ConnId, h: Hand)
    requires Inv(l) && Enabled(l, Async(step)) && Known(l, c) && h in l.cleanup[c].hands
    ensures Known(AfterAsync(l, step), c) && HandInv(AfterAsync(l, step), c, h)
  {
    hide AsyncSafety.Inv, CountsWorkers, UnendedOn, AsyncProtocol.Apply, AsyncProtocol.Enabled;
    assert HandsInv(l, c) && HandInv(l, c, h);
    ConnsKept(l.async, step);
    match h.actor
    case None => OtherStays(l.async, step, c);
    case Some(t) => AsyncSafety.TaskSteps(l.async, step, t); PointStays(step, t, l.async.tasks[t]);
  }

  /** Only the request thread begins a statement of its own. */
  lemma OtherStays(w: AsyncProtocol.World, step: AsyncProtocol.Step, c: ConnId)
    requires AsyncProtocol.Enabled(w, step) && c in w.conns
    ensures c in AsyncProtocol.Apply(w, step).conns
    ensures AsyncProtocol.Apply(w, step).conns[c].running == Some(Other) ==>
              w.conns[c].running == Some(Other) || (step.OtherRuns? && step.conn == c)
  {
    hide AsyncTask.Unfinished, AsyncTask.Finish, Advanced, LastReference, TookResult;
    hide AsyncTask.Cancelled, AsyncTask.CancelOf, AsyncTask.Pulsed;
  }

  lemma PointStays(step: AsyncProtocol.Step, t: TaskId, task: WorkerTask)
    ensures var after := AsyncSafety.TaskAfter(step, t, task);
      && after.conn == task.conn && (!task.owned ==> !after.owned)
      && (!(step.Advance? && step.task == t) ==> after.point == task.point)
  {
    hide Advanced;
    if step.Advance? && step.task == t {
      AdvanceStays(task, step.failed);
    }
  }

  lemma AdvanceStays(task: WorkerTask, failed: bool)
    ensures Advanced(task, failed).conn == task.conn && Advanced(task, failed).owned == task.owned
  {}

  /** What an async step takes in hand, a worker that has just ended has taken. */
  lemma NewHand(l: Linked, step: AsyncProtocol.Step, c: ConnId, h: Hand)
    requires Inv(l) && Enabled(l, Async(step)) && c in AfterAsync(l, step).cleanup
    requires h in AfterAsync(l, step).cleanup[c].hands && (c in l.cleanup ==> h !in l.cleanup[c].hands)
    ensures Known(AfterAsync(l, step), c) && HandInv(AfterAsync(l, step), c, h)
  {
    hide AsyncSafety.Inv, CountsWorkers, UnendedOn, AsyncProtocol.Apply, AsyncProtocol.Enabled, HandsInv;
    ConnsKept(l.async, step);
    HandsAre(if c in l.cleanup && l.cleanup[c].state.workers > 0
        then ConnCleanup.EndsWorker(l.cleanup[c].state).inHand else [],
             Some(if step.Advance? then step.task else 0), true, h);
    AsyncSafety.TaskSteps(l.async, step, step.task);
    EndedAfter(l.async.tasks[step.task], step.failed);
  }

  lemma HandsAre(works: seq<ConnCleanup.Work>, actor: Actor, locks: bool, h: Hand)
    ensures h in HandsOf(works, actor, locks) <==> h.work in works && h.actor == actor && h.locks == locks
  {
    var hands := seq(|works|, i requires 0 <= i < |works| => Hand(works[i], actor, locks));
    assert h in multiset(hands) <==> h in hands;
    if h.work in works && h.actor == actor && h.locks == locks {
      var k :| 0 <= k < |works| && works[k] == h.work;
      assert hands[k] == h;
    }
  }

  lemma EndedAfter(task: WorkerTask, failed: bool)
    requires task.point == Ran
    ensures Advanced(task, failed).point == Ended && Advanced(task, failed).conn == task.conn
  {}

  lemma AsyncHands(l: Linked, step: AsyncProtocol.Step, c: ConnId)
    requires Inv(l) && Enabled(l, Async(step)) && c in AfterAsync(l, step).cleanup
    ensures Known(AfterAsync(l, step), c) && HandsInv(AfterAsync(l, step), c)
  {
    hide AsyncSafety.Inv, CountsWorkers, AsyncProtocol.Apply, AsyncProtocol.Enabled, HandInv, OwnedAfter, Idle;
    ConnsStay(l, step, c);
    forall h <- AfterAsync(l, step).cleanup[c].hands ensures HandInv(AfterAsync(l, step), c, h) {
      if c in l.cleanup && h in l.cleanup[c].hands {
        HandStays(l, step, c, h);
      } else {
        NewHand(l, step, c, h);
      }
    }
  }

  lemma ConnsStay(l: Linked, step: AsyncProtocol.Step, c: ConnId)
    requires Inv(l) && Enabled(l, Async(step)) && c in AfterAsync(l, step).cleanup
    ensures Known(AfterAsync(l, step), c) && (c in l.cleanup ==> Known(l, c))
  {
    hide AsyncSafety.Inv, AsyncProtocol.Apply, AsyncProtocol.Enabled;
    ConnsKept(l.async, step);
  }

  lemma AsyncStepKeeps(l: Linked, step: AsyncProtocol.Step)
    requires Inv(l) && Enabled(l, Async(step))
    ensures Inv(AfterAsync(l, step))
  {
    hide AsyncSafety.Inv, AsyncProtocol.Apply, AsyncProtocol.Enabled, CountsWorkers, HandsInv, OwnedAfter;
    AsyncKeeps(l.async, step);
    ConnsKept(l.async, step);
    forall c <- AfterAsync(l, step).cleanup
      ensures CountsWorkers(AfterAsync(l, step), c) && Known(AfterAsync(l, step), c) && HandsInv(AfterAsync(l, step), c)
    {
      AsyncCounts(l, step, c);
      AsyncHands(l, step, c);
    }
  }

  /** A step on one connection's cleanup that leaves its count alone. */
  lemma OwnedKeeps(l: Linked, c: ConnId, o: Owned)
    requires Inv(l) && Known(l, c) && o.state.workers == l.cleanup[c].state.workers
    requires forall h <- o.hands :: HandInv(l, c, h)
    ensures Inv(With(l, c, o))
  {
    hide AsyncSafety.Inv, UnendedOn;
    var after := With(l, c, o);
    forall d <- after.cleanup ensures CountsWorkers(after, d) && HandsInv(after, d) {
      assert CountsWorkers(l, d) && HandsInv(l, d);
    }
  }

  lemma DecisionKeeps(l: Linked, c: ConnId, d: ConnCleanup.Decision, actor: Actor, locks: bool)
    requires Inv(l) && Known(l, c) && d.state.workers == l.cleanup[c].state.workers
    requires forall work <- d.inHand :: HandInv(l, c, Hand(work, actor, locks))
    ensures Inv(With(l, c, Decides(l.cleanup[c], d, actor, locks)))
  {
    hide AsyncSafety.Inv, CountsWorkers, HandInv;
    var o := Decides(l.cleanup[c], d, actor, locks);
    assert HandsInv(l, c);
    forall h <- o.hands ensures HandInv(l, c, h) {
      HandsAre(d.inHand, actor, locks, h);
    }
    hide Inv;
    OwnedKeeps(l, c, o);
  }

  lemma StepKeeps(l: Linked, step: LinkedStep)
    requires Inv(l) && Enabled(l, step)
    ensures Inv(Apply(l, step))
  {
    hide Inv, HandsOf, AfterAsync;
    match step
    case Async(s) => AsyncStepKeeps(l, s);
    case HandlerBegins(c) => HandsOfConn(l, c); OwnedKeeps(l, c, l.cleanup[c].(depth := l.cleanup[c].depth + 1));
    case HandlerEnds(c) => HandsOfConn(l, c); OwnedKeeps(l, c, l.cleanup[c].(depth := l.cleanup[c].depth - 1));
    case Releases(c, statement, actor) =>
      DecisionKeeps(l, c, ConnCleanup.Releases(l.cleanup[c].state, statement, BusyNow(l, c, actor)), actor, false);
    case HandsOver(c, work, actor) =>
      DecisionKeeps(l, c, ConnCleanup.CleansUp(l.cleanup[c].state, work, BusyNow(l, c, actor)), actor, true);
    case Drains(c) => DecisionKeeps(l, c, ConnCleanup.TakesDeferred(l.cleanup[c].state), None, true);
    case Performs(c, h) =>
      HandsOfConn(l, c);
      var o := l.cleanup[c];
      OwnedKeeps(l, c, o.(state := o.state.(done := o.state.done + [h.work]), hands := o.hands - multiset{h}));
  }

  lemma HandsOfConn(l: Linked, c: ConnId)
    requires Inv(l) && Known(l, c)
    ensures forall h <- l.cleanup[c].hands :: HandInv(l, c, h)
  {
    assert HandsInv(l, c);
  }

  lemma ConnsKept(w: AsyncProtocol.World, step: AsyncProtocol.Step)
    requires AsyncSafety.Inv(w) && AsyncProtocol.Enabled(w, step)
    ensures AsyncProtocol.Apply(w, step).conns.Keys == w.conns.Keys + if step.Connect? then {step.conn} else {}
    ensures step.Start? ==> step.conn in w.conns
    ensures step.Connect? ==> step.conn !in w.conns
    ensures step.Advance? ==> step.task in w.tasks
  {
    hide AsyncTask.Unfinished, AsyncTask.Finish, ConnAfter, Advanced, LastReference, TookResult;
    hide AsyncTask.Cancelled, AsyncTask.CancelOf, AsyncTask.Pulsed;
  }

  lemma {:induction false} RunKeeps(from: Linked, steps: seq<LinkedStep>, to: Linked)
    requires Inv(from) && Run(from, steps, to)
    ensures Inv(to)
    decreases |steps|
  {
    hide Inv, Apply, Enabled;
    if steps != [] {
      var n := |steps| - 1;
      var before :| Run(from, steps[..n], before) && Enabled(before, steps[n]) && to == Apply(before, steps[n]);
      RunKeeps(from, steps[..n], before);
      StepKeeps(before, steps[n]);
    }
  }

  lemma ReachedIsSound(l: Linked)
    requires Reached(l)
    ensures Inv(l)
  {
    var steps :| Run(START, steps, l);
    RunKeeps(START, steps, l);
  }

  /** A connection's worker count is the number of its tasks that have not ended. */
  lemma WorkersAreUnendedTasks(l: Linked, c: ConnId)
    requires Reached(l) && c in l.cleanup
    ensures l.cleanup[c].state.workers == |UnendedOn(l.async.tasks, c)|
  {
    ReachedIsSound(l);
  }

  lemma RunningIsUnended(l: Linked, c: ConnId)
    requires Inv(l) && Known(l, c)
    ensures l.async.conns[c].running.Some? ==> l.async.conns[c].holder == l.async.conns[c].running
    ensures l.async.conns[c].running.Some? && l.async.conns[c].running.value.Worker? ==>
              l.async.conns[c].running.value.task in UnendedOn(l.async.tasks, c) && l.cleanup[c].state.workers > 0
  {
    assert AsyncSafety.ConnInv(l.async, c);
    var running := l.async.conns[c].running;
    if running.Some? && running.value.Worker? {
      var t := running.value.task;
      assert AsyncSafety.HoldInv(l.async.conns[l.async.tasks[t].conn], t, l.async.tasks[t]);
    }
  }

  /** A destroyed statement can only meet a statement that runs on the connection when a
      worker, dropping the last reference to its task, had decided to destroy it outside the
      connection mutex. Nothing that the request thread destroys meets one, nor what a worker
      destroys at its end. */
  lemma DestroysMeetNoQuery(l: Linked, c: ConnId, h: Hand)
    requires Reached(l) && Enabled(l, Performs(c, h))
    ensures var running := l.async.conns[c].running;
      && (h.actor.None? || h.locks ==> running.None?)
      && (h.actor.Some? ==> h.actor.value in l.async.tasks && running != Some(Worker(h.actor.value)))
      && (h.actor.Some? && !h.locks ==> DropsLast(l.async.tasks[h.actor.value]))
      && (running.Some? && running.value.Worker? ==> running.value.task in UnendedOn(l.async.tasks, c))
  {
    hide Inv, Run, Reached, AsyncProtocol.Enabled, UnendedOn, Idle;
    ReachedIsSound(l);
    RunningIsUnended(l, c);
    HandsOfConn(l, c);
    if h.actor.Some? {
      NotExecuting(l, c, h.actor.value);
    }
  }

  lemma NotExecuting(l: Linked, c: ConnId, t: TaskId)
    requires Inv(l) && Known(l, c) && t in l.async.tasks && l.async.tasks[t].point != Executing
    ensures l.async.conns[c].running != Some(Worker(t))
  {
    assert AsyncSafety.ConnInv(l.async, c);
    assert AsyncSafety.HoldInv(l.async.conns[l.async.tasks[t].conn], t, l.async.tasks[t]);
  }

  lemma ReleaseHands(l: Linked, c: ConnId, statement: nat, actor: Actor)
    requires Enabled(l, Releases(c, statement, actor))
    ensures var h := Hand(ConnCleanup.DestroyPrepare(statement), actor, false);
      Apply(l, Releases(c, statement, actor)).cleanup[c].hands == l.cleanup[c].hands
        + (if l.cleanup[c].state.workers == 0 && !BusyNow(l, c, actor) then multiset{h} else multiset{})
  {
    HandOfOne(ConnCleanup.DestroyPrepare(statement), actor, false);
    hide HandsOf;
  }

  /** A release goes into a thread's own hand exactly when no task on the connection is unended
      and it comes from outside the connection's handlers; then no worker's query runs there,
      and for the request thread's release no statement at all. */
  lemma ReleasesDecidedWhenIdle(l: Linked, c: ConnId, statement: nat, actor: Actor)
    requires Reached(l) && Enabled(l, Releases(c, statement, actor))
    ensures var h := Hand(ConnCleanup.DestroyPrepare(statement), actor, false);
      var decides := UnendedOn(l.async.tasks, c) == {} && !BusyNow(l, c, actor);
      && Apply(l, Releases(c, statement, actor)).cleanup[c].hands ==
           l.cleanup[c].hands + (if decides then multiset{h} else multiset{})
      && (decides ==> l.async.conns[c].running in {None, Some(Who.Other)})
      && (decides && actor.None? ==> l.async.conns[c].running.None?)
  {
    hide *;
    ReachedIsSound(l);
    CountOf(l, c, statement, actor);
    ReleaseHands(l, c, statement, actor);
    if l.cleanup[c].state.workers == 0 {
      RunningAtRelease(l, c, statement, actor);
    }
  }

  lemma CountOf(l: Linked, c: ConnId, statement: nat, actor: Actor)
    requires Inv(l) && Enabled(l, Releases(c, statement, actor))
    ensures Known(l, c) && c in l.cleanup && c in l.async.conns
    ensures l.cleanup[c].state.workers == 0 <==> UnendedOn(l.async.tasks, c) == {}
  {
    assert CountsWorkers(l, c);
    hide UnendedOn, AsyncSafety.Inv, MayAct;
  }

  lemma RunningAtRelease(l: Linked, c: ConnId, statement: nat, actor: Actor)
    requires Inv(l) && Enabled(l, Releases(c, statement, actor)) && l.cleanup[c].state.workers == 0
    ensures l.async.conns[c].running in {None, Some(Who.Other)}
    ensures actor.None? && !BusyNow(l, c, actor) ==> l.async.conns[c].running.None?
  {
    hide Inv, Idle, UnendedOn, AsyncProtocol.Enabled, DropsLast, MayPerform, RequestStep;
    RunningIsUnended(l, c);
  }

  lemma HandOfOne(work: ConnCleanup.Work, actor: Actor, locks: bool)
    ensures HandsOf([work], actor, locks) == multiset{Hand(work, actor, locks)}
    ensures HandsOf([], actor, locks) == multiset{}
  {
    assert seq(1, i requires 0 <= i < 1 => Hand([work][i], actor, locks)) == [Hand(work, actor, locks)];
  }

  lemma Extends(l: Linked, step: LinkedStep)
    requires Reached(l) && Enabled(l, step)
    ensures Reached(Apply(l, step))
  {
    hide Enabled, Apply;
    var steps :| Run(START, steps, l);
    assert (steps + [step])[..|steps|] == steps;
    assert Run(START, steps + [step], Apply(l, step));
  }

  /** The state of a task that succeeded and whose result nobody took. */
  const DONE := AsyncTask.TaskState(false, false, true, AsyncTask.NotStarted, false, false, true)

  function SoloTask(state: AsyncTask.TaskState, point: Point, executions: nat): WorkerTask {
    WorkerTask(0, state, point, executions, true, if state.result then 1 else 0, 0, false)
  }

  /** One connection with one task. */
  function Solo(conn: Conn, state: AsyncTask.TaskState, point: Point, executions: nat, workers: nat): Linked {
    Linked(AsyncProtocol.World(map[0 := conn], map[0 := SoloTask(state, point, executions)],
                               [AsyncTask.Entry(0, false)], 1, []),
           map[0 := Owned(ConnCleanup.ConnState(workers, [], [], []), 0, multiset{})])
  }

  lemma SoloAdvances(conn: Conn, state: AsyncTask.TaskState, point: Point, executions: nat, workers: nat)
    requires Reached(Solo(conn, state, point, executions, workers))
    requires point != Finished && point != Released && point != Decided(true)
    requires (point == Executing ==> !state.result) && (point == Queued ==> conn.holder.None?)
    requires !state.cancelThread.Polling?
    requires point == Ran ==> workers == 1
    ensures var after := Advanced(SoloTask(state, point, executions), false);
      var left := if point == Ran then 0 else workers;
      Reached(Solo(ConnAfter(conn, 0, point), after.state, after.point, after.executions, left))
  {
    hide Reached, Run, Advanced, ConnAfter;
    var l := Solo(conn, state, point, executions, workers);
    var after := Advanced(SoloTask(state, point, executions), false);
    SoloSteps(conn, state, point, executions, workers);
    Extends(l, Async(Advance(0, false)));
    EndsIdle();
    hide AsyncProtocol.Apply, AsyncProtocol.Enabled;
    var left := if point == Ran then 0 else workers;
    var to := Solo(ConnAfter(conn, 0, point), after.state, after.point, after.executions, left);
    hide HandsOf;
    assert OwnedAfter(l, Advance(0, false), 0) == to.cleanup[0];
    assert Apply(l, Async(Advance(0, false))).cleanup == to.cleanup;
  }

  lemma EndsIdle()
    ensures ConnCleanup.EndsWorker(ConnCleanup.ConnState(1, [], [], []))
        == ConnCleanup.Decision(ConnCleanup.ConnState(0, [], [], []), [])
    ensures HandsOf([], Some(0), true) == multiset{}
  {
    assert ConnCleanup.Destroys([]) == [];
    HandOfOne(ConnCleanup.Disconnect, Some(0), true);
  }

  lemma SoloSteps(conn: Conn, state: AsyncTask.TaskState, point: Point, executions: nat, workers: nat)
    requires point != Finished && point != Released && point != Decided(true)
    requires (point == Executing ==> !state.result) && (point == Queued ==> conn.holder.None?)
    requires !state.cancelThread.Polling?
    ensures var l := Solo(conn, state, point, executions, workers);
      var after := Advanced(SoloTask(state, point, executions), false);
      && AsyncProtocol.Enabled(l.async, Advance(0, false))
      && AsyncProtocol.Apply(l.async, Advance(0, false))
           == Solo(ConnAfter(conn, 0, point), after.state, after.point, after.executions, workers).async
  {
    hide Advanced, ConnAfter;
    var l := Solo(conn, state, point, executions, workers);
    var after := Advanced(SoloTask(state, point, executions), false);
    AdvancedAlone(state, point, executions);
    var w := AsyncProtocol.Apply(l.async, Advance(0, false));
    assert w.tasks == map[0 := after];
    assert w.conns == map[0 := ConnAfter(conn, 0, point)];
  }

  lemma AdvancedAlone(state: AsyncTask.TaskState, point: Point, executions: nat)
    requires point != Decided(true) && (point == Executing ==> !state.result)
    ensures var after := Advanced(SoloTask(state, point, executions), false);
      after == SoloTask(after.state, after.point, after.executions)
  {}

  const IDLE := Conn(None, None)
  const HELD := Conn(Some(Worker(0)), None)
  const CLAIMED := AsyncTask.Claimed(AsyncTask.FRESH)

  lemma SoloRuns()
    ensures Reached(Solo(HELD, CLAIMED.(result := true), Ran, 1, 1))
  {
    hide Reached, Solo;
    SoloStarts();
    SoloAdvances(IDLE, AsyncTask.FRESH, Queued, 0, 1);
    SoloAdvances(HELD, AsyncTask.FRESH, Holding, 0, 1);
    SoloAdvances(HELD, CLAIMED, Decided(false), 0, 1);
    SoloAdvances(Conn(Some(Worker(0)), Some(Worker(0))), CLAIMED, Executing, 1, 1);
  }

  lemma SoloJoins()
    ensures Reached(Solo(IDLE, DONE, Point.Joined, 1, 0))
  {
    hide Reached, Solo;
    var ran := CLAIMED.(result := true);
    SoloRuns();
    SoloAdvances(HELD, ran, Ran, 1, 1);
    SoloAdvances(HELD, ran, Ended, 1, 0);
    SoloAdvances(HELD, DONE, Point.Published, 1, 0);
    SoloAdvances(IDLE, DONE, Unlocked, 1, 0);
  }

  function Doomed(statement: nat): Hand {
    Hand(ConnCleanup.DestroyPrepare(statement), Some(0), false)
  }

  /** PHP has dropped its query, and the worker, which drops the last reference to it, has
      decided to destroy a statement and not destroyed it yet. */
  function Deciding(statement: nat): Linked {
    var l := Solo(IDLE, DONE, Point.Joined, 1, 0);
    Linked(l.async.(tasks := map[0 := SoloTask(DONE, Point.Joined, 1).(owned := false)]),
           map[0 := Owned(ConnCleanup.FRESH, 0, multiset{Doomed(statement)})])
  }

  lemma SoloDecides(statement: nat)
    ensures Reached(Deciding(statement))
  {
    SoloJoins();
    hide Reached, Run;
    var l := Solo(IDLE, DONE, Point.Joined, 1, 0);
    Extends(l, Async(DropOwner(0)));
    var dropped := Apply(l, Async(DropOwner(0)));
    assert dropped.async.tasks == map[0 := SoloTask(DONE, Point.Joined, 1).(owned := false)];
    assert dropped.cleanup == l.cleanup;
    var step := Releases(0, statement, Some(0));
    Extends(dropped, step);
    HandOfOne(ConnCleanup.DestroyPrepare(statement), Some(0), false);
    hide HandsOf;
    assert Apply(dropped, step).cleanup[0] == Deciding(statement).cleanup[0];
    assert Apply(dropped, step).cleanup == Deciding(statement).cleanup;
  }

  /** It does happen: between the worker's decision and its destroy the request thread begins
      a statement of its own. */
  lemma ADestroyCanMeetTheRequestThread(statement: nat) returns (l: Linked)
    ensures Reached(l) && Enabled(l, Performs(0, Doomed(statement))) && l.async.conns[0].running == Some(Who.Other)
  {
    SoloDecides(statement);
    hide Reached, Run;
    l := Deciding(statement);
    Extends(l, Async(OtherLock(0)));
    l := Apply(l, Async(OtherLock(0)));
    assert l.async.conns[0] == Conn(Some(Who.Other), None) && l.cleanup == Deciding(statement).cleanup;
    Extends(l, Async(OtherRuns(0)));
    l := Apply(l, Async(OtherRuns(0)));
    assert l.async.conns[0].running == Some(Who.Other) && l.cleanup == Deciding(statement).cleanup;
  }

  /** And it can start a newer task there, whose worker's query is running when the older
      worker destroys the statement. */
  lemma ADestroyCanMeetANewerWorker(statement: nat) returns (l: Linked)
    ensures Reached(l) && Enabled(l, Performs(0, Doomed(statement))) && l.async.conns[0].running == Some(Worker(1))
  {
    SoloDecides(statement);
    hide Reached, Run;
    var queued := WorkerTask(0, AsyncTask.FRESH, Queued, 0, true, 0, 0, false);
    l := Newer(statement, IDLE, queued);
    NewerStarts(statement);
    NewerAdvances(statement, IDLE, queued);
    var held := Conn(Some(Worker(1)), None);
    NewerAdvances(statement, held, queued.(point := Holding));
    NewerAdvances(statement, held, queued.(point := Decided(false), state := CLAIMED));
    l := Newer(statement, Conn(Some(Worker(1)), Some(Worker(1))),
        queued.(point := Executing, state := CLAIMED, executions := 1));
  }

  /** The same with a second task on the connection. */
  function Newer(statement: nat, conn: Conn, task: WorkerTask): Linked {
    Linked(AsyncProtocol.World(map[0 := conn], map[0 := SoloTask(DONE, Point.Joined, 1).(owned := false), 1 := task],
                               [AsyncTask.Entry(0, false), AsyncTask.Entry(1, false)], 2, []),
           map[0 := Owned(ConnCleanup.ConnState(1, [], [], []), 0, multiset{Doomed(statement)})])
  }

  lemma NewerStarts(statement: nat)
    requires Reached(Deciding(statement))
    ensures Reached(Newer(statement, IDLE, WorkerTask(0, AsyncTask.FRESH, Queued, 0, true, 0, 0, false)))
  {
    hide Reached, Run;
    var l := Deciding(statement);
    Extends(l, Async(Start(1, 0)));
    var to := Newer(statement, IDLE, WorkerTask(0, AsyncTask.FRESH, Queued, 0, true, 0, 0, false));
    var entries := [AsyncTask.Entry(0, false)];
    assert entries[1..] == [] && AsyncTask.Unfinished(entries) == entries;
    assert Apply(l, Async(Start(1, 0))).async == to.async;
    assert Apply(l, Async(Start(1, 0))).cleanup == to.cleanup;
  }

  lemma NewerAdvances(statement: nat, conn: Conn, task: WorkerTask)
    requires Reached(Newer(statement, conn, task)) && task.conn == 0
    requires (task.point == Queued && conn.holder.None?) || task.point == Holding || task.point == Decided(false)
    ensures Reached(Newer(statement, ConnAfter(conn, 1, task.point), Advanced(task, false)))
  {
    hide Reached, Run, Advanced, ConnAfter;
    AdvanceStays(task, false);
    var l := Newer(statement, conn, task);
    Extends(l, Async(Advance(1, false)));
    var to := Newer(statement, ConnAfter(conn, 1, task.point), Advanced(task, false));
    var after := Apply(l, Async(Advance(1, false)));
    assert after.async.conns == to.async.conns;
    assert after.async.tasks == to.async.tasks;
    assert after.cleanup == to.cleanup;
  }

  lemma SoloConnects() returns (l: Linked)
    ensures Reached(l)
    ensures l == Linked(AsyncProtocol.World(map[0 := IDLE], map[], [], 0, []),
                        map[0 := Owned(ConnCleanup.FRESH, 0, multiset{})])
  {
    assert Run(START, [], START);
    assert Reached(START);
    hide Reached, Run;
    Extends(START, Async(Connect(0)));
    l := Apply(START, Async(Connect(0)));
    assert l.async.conns == map[0 := IDLE];
    assert l.cleanup == map[0 := Owned(ConnCleanup.FRESH, 0, multiset{})];
  }

  lemma SoloStarts()
    ensures Reached(Solo(Conn(None, None), AsyncTask.FRESH, Queued, 0, 1))
  {
    hide Reached, Run;
    var l := SoloConnects();
    Extends(l, Async(Start(0, 0)));
    var after, to := Apply(l, Async(Start(0, 0))), Solo(IDLE, AsyncTask.FRESH, Queued, 0, 1);
    assert after.async.tasks == to.async.tasks && after.async.entries == to.async.entries;
    assert after.cleanup == to.cleanup;
  }
}
