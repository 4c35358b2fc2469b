/**
 The fields of `async_task` that the worker, the cancelling thread and the cancellation
 worker share, and the registry of workers. Each method is one lock region and does what a
 function on values says; `AsyncProtocol` interleaves exactly these functions.
 */
module AsyncTask {
  import ConnCleanup

  datatype CancelThread = NotStarted | Polling | Exited | Joined

  /** What `async_task::m` guards, and the outcome the worker writes before publishing it.
      `result` says whether the task holds a native result. */
  datatype TaskState = TaskState(cancelRequested: bool, workerRunning: bool, done: bool,
                                 cancelThread: CancelThread, error: bool, consumed: bool, result: bool)

  const FRESH := TaskState(false, false, false, NotStarted, false, false, false)

  function Claimed(s: TaskState): TaskState {
    s.(workerRunning := !s.cancelRequested)
  }

  /** How an execution ended, if there was one; each gives a native result, also on error. */
  datatype Execution = NotRun | Failed | Succeeded

  function Recorded(s: TaskState, execution: Execution): TaskState {
    if execution == Succeeded then s.(result := true) else s.(error := true, consumed := true, result := false)
  }

  /** What `getResult()` makes of a done task. */
  datatype Taking = Throws | AlreadyTaken | Takes

  function TakingOf(s: TaskState): Taking {
    if s.error then Throws else if s.consumed then AlreadyTaken else Takes
  }

  function Taken(s: TaskState): TaskState {
    if TakingOf(s) == Takes then s.(consumed := true, result := false) else s
  }

  /** The destructor's part: a result that nobody consumed is destroyed. */
  function Destructed(s: TaskState): TaskState {
    if s.consumed then s else s.(consumed := true, result := false)
  }

  function Published(s: TaskState): TaskState {
    s.(workerRunning := false, done := true)
  }

  /** `NoThread`: the cancellation worker could not start, and an exception says so. */
  datatype CancelOutcome = Ignored | NoThread | Requested(interrupts: bool)

  function CancelOf(s: TaskState, threadStarts: bool): CancelOutcome {
    if s.done || s.cancelRequested then Ignored
    else if !threadStarts then NoThread
    else Requested(s.workerRunning)
  }

  function Cancelled(s: TaskState, threadStarts: bool): TaskState {
    if CancelOf(s, threadStarts).Requested? then s.(cancelThread := Polling, cancelRequested := true) else s
  }

  /** A turn of the cancellation worker's loop. */
  function Pulsed(s: TaskState): TaskState {
    if s.done then s.(cancelThread := Exited) else s
  }

  predicate PulseInterrupts(s: TaskState) {
    !s.done && s.workerRunning
  }

  class Task {
    var cancelRequested: bool
    var workerRunning: bool
    var done: bool
    var cancelThread: CancelThread
    var error: bool
    var consumed: bool
    var result: bool

    constructor ()
      ensures State() == FRESH
    {
      cancelRequested, workerRunning, done, cancelThread := false, false, false, NotStarted;
      error, consumed, result := false, false, false;
    }

    ghost function State(): TaskState
      reads this
    {
      TaskState(cancelRequested, workerRunning, done, cancelThread, error, consumed, result)
    }

    /** The worker's first lock region. */
    method Claim() returns (cancelled: bool)
      modifies this
      ensures cancelled == old(cancelRequested) && State() == Claimed(old(State()))
    {
      cancelled := cancelRequested;
      workerRunning := !cancelled;
    }

    /** What the worker leaves of the execution: an error releases its native result.
        `destroys` says whether there was one. */
    method Record(execution: Execution) returns (destroys: bool)
      requires !error && !consumed && !result
      modifies this
      ensures State() == Recorded(old(State()), execution)
      ensures destroys == (execution == Failed)
    {
      result := execution != NotRun;
      if execution != Succeeded {
        error := true;
      }
      destroys := false;
      if error {
        destroys := result;
        result := false;
        consumed := true;
      }
    }

    /** `duckdb_pending_complete`: a successful result goes to a Result object, once. */
    method Take() returns (taking: Taking)
      modifies this
      ensures taking == TakingOf(old(State())) && State() == Taken(old(State()))
    {
      if error {
        return Throws;
      }
      if consumed {
        return AlreadyTaken;
      }
      consumed := true;
      result := false;
      taking := Takes;
    }

    /** The destructor's cleanup of the result. */
    method Destruct() returns (destroys: bool)
      modifies this
      ensures State() == Destructed(old(State())) && destroys == (old(result) && !old(consumed))
    {
      destroys := false;
      if !consumed {
        destroys := result;
        consumed, result := true, false;
      }
    }

    /** The worker's last lock region. */
    method Publish()
      modifies this
      ensures State() == Published(old(State()))
    {
      workerRunning := false;
      done := true;
    }

    /** `duckdb_task_cancel` for a worker's task; `threadStarts` says whether the
        cancellation worker could be started. */
    method Cancel(threadStarts: bool) returns (outcome: CancelOutcome)
      modifies this
      ensures outcome == CancelOf(old(State()), threadStarts)
      ensures State() == Cancelled(old(State()), threadStarts)
    {
      if done || cancelRequested {
        return Ignored;
      }
      if !threadStarts {
        return NoThread;
      }
      cancelThread := Polling;
      cancelRequested := true;
      outcome := Requested(workerRunning);
    }

    method Pulse() returns (interrupts: bool)
      modifies this
      ensures interrupts == PulseInterrupts(old(State())) && State() == Pulsed(old(State()))
    {
      interrupts := false;
      if done {
        cancelThread := Exited;
        return;
      }
      interrupts := workerRunning;
    }
  }

  /* The registry of worker threads */

  datatype Entry = Entry(task: nat, finished: bool)

  function Unfinished(entries: seq<Entry>): seq<Entry> {
    if entries == [] then []
    else (if entries[0].finished then [] else [entries[0]]) + Unfinished(entries[1..])
  }

  function Finish(entries: seq<Entry>, task: nat): seq<Entry> {
    seq(|entries|, i requires 0 <= i < |entries| =>
      if entries[i].task == task then entries[i].(finished := true) else entries[i])
  }

  lemma {:induction false} UnfinishedJoins(a: seq<Entry>, b: seq<Entry>)
    ensures Unfinished(a + b) == Unfinished(a) + Unfinished(b)
  {
    if a == [] {
      assert a + b == b;
    } else {
      assert (a + b)[1..] == a[1..] + b;
      UnfinishedJoins(a[1..], b);
    }
  }

  lemma {:induction false} UnfinishedEntries(entries: seq<Entry>, e: Entry)
    ensures e in Unfinished(entries) <==> e in entries && !e.finished
  {
    if entries != [] {
      UnfinishedEntries(entries[1..], e);
      assert entries == [entries[0]] + entries[1..];
    }
  }

  lemma {:induction false} UnfinishedTwice(entries: seq<Entry>)
    ensures Unfinished(Unfinished(entries)) == Unfinished(entries)
  {
    if entries != [] {
      UnfinishedTwice(entries[1..]);
      UnfinishedJoins(if entries[0].finished then [] else [entries[0]], Unfinished(entries[1..]));
    }
  }

  ghost predicate OneEntryEach(entries: seq<Entry>) {
    forall i, j :: 0 <= i < j < |entries| ==> entries[i].task != entries[j].task
  }

  lemma {:induction false} FinishElsewhere(entries: seq<Entry>, task: nat)
    requires forall e <- entries :: e.task != task
    ensures Finish(entries, task) == entries
  {}

  /** Finishing a worker takes one from the unfinished. */
  lemma {:induction false} FinishCounts(entries: seq<Entry>, task: nat)
    requires OneEntryEach(entries) && Entry(task, false) in entries
    ensures |Unfinished(Finish(entries, task))| == |Unfinished(entries)| - 1
  {
    var rest := entries[1..];
    assert entries == [entries[0]] + rest;
    assert Finish(entries, task)[1..] == Finish(rest, task);
    if entries[0].task == task {
      FinishElsewhere(rest, task);
    } else {
      FinishCounts(rest, task);
    }
  }

  class Registry {
    var entries: seq<Entry>
    var active: nat

    ghost predicate Valid()
      reads this
    {
      OneEntryEach(entries) && active == |Unfinished(entries)|
    }

    constructor ()
      ensures Valid() && entries == []
    {
      entries, active := [], 0;
    }

    /** `duckdb_async_worker_start`: joins finished workers, then registers a new one and counts
        it on its connection, unless its thread cannot start. */
    method Start(task: nat, conn: ConnCleanup.Connection, threadStarts: bool) returns (joined: seq<nat>)
      requires Valid() && forall e <- entries :: e.task != task
      requires conn.workers == 0 ==> conn.workerPrepares == []
      modifies this, conn
      ensures Valid()
      ensures conn.State() == if threadStarts then old(conn.State()).(workers := old(conn.workers) + 1)
          else old(conn.State())
      ensures entries == Unfinished(old(entries)) + if threadStarts then [Entry(task, false)] else []
      ensures active == old(active) + if threadStarts then 1 else 0
      ensures forall t :: t in joined <==> Entry(t, true) in old(entries)
    {
      joined := [];
      var kept: seq<Entry> := [];
      ghost var all := entries;
      for i := 0 to |entries|
        invariant entries == all && active == old(active) && conn.State() == old(conn.State())
        invariant kept == Unfinished(all[..i])
        invariant forall t :: t in joined <==> Entry(t, true) in all[..i]
      {
        assert all[..i + 1] == all[..i] + [all[i]];
        UnfinishedJoins(all[..i], [all[i]]);
        if entries[i].finished {
          joined := joined + [entries[i].task];
        } else {
          kept := kept + [entries[i]];
        }
      }
      assert all[..|all|] == all;
      KeptOnce(all);
      UnfinishedTwice(all);
      UnfinishedJoins(kept, [Entry(task, false)]);
      forall e | e in kept ensures e.task != task {
        UnfinishedEntries(all, e);
      }
      entries := kept + [Entry(task, false)];
      conn.WorkerBegin();
      if !threadStarts {
        conn.WorkerEnd();
        assert ConnCleanup.Destroys([]) == [];
        entries := entries[..|entries| - 1];
        assert entries == kept;
        return;
      }
      active := active + 1;
    }

    /** A worker's thread, after its task is released. */
    method Complete(task: nat)
      requires Valid() && Entry(task, false) in entries
      modifies this
      ensures Valid()
      ensures entries == Finish(old(entries), task) && active == old(active) - 1
    {
      FinishCounts(entries, task);
      entries := Finish(entries, task);
      active := active - 1;
    }

    /** The end of `duckdb_async_shutdown`, once no worker is active. */
    method JoinAll() returns (joined: seq<nat>)
      requires Valid() && active == 0
      modifies this
      ensures Valid() && entries == []
      ensures forall t :: t in joined <==> exists e <- old(entries) :: e.task == t
      ensures forall e <- old(entries) :: e.finished
    {
      forall e | e in entries ensures e.finished {
        UnfinishedEntries(entries, e);
      }
      joined := [];
      for i := 0 to |entries|
        invariant entries == old(entries) && active == 0
        invariant forall t :: t in joined <==> exists e <- entries[..i] :: e.task == t
      {
        assert entries[..i + 1] == entries[..i] + [entries[i]];
        joined := joined + [entries[i].task];
      }
      assert entries[..|entries|] == entries;
      entries := [];
    }
  }

  lemma {:induction false} KeptOnce(entries: seq<Entry>)
    requires OneEntryEach(entries)
    ensures OneEntryEach(Unfinished(entries))
  {
    if entries != [] {
      KeptOnce(entries[1..]);
      forall e | e in Unfinished(entries[1..]) ensures e.task != entries[0].task {
        UnfinishedEntries(entries[1..], e);
      }
    }
  }

  /** Registering a worker drops the finished ones and counts one more. */
  lemma StartCounts(entries: seq<Entry>, task: nat)
    requires OneEntryEach(entries) && forall e <- entries :: e.task != task
    ensures OneEntryEach(Unfinished(entries) + [Entry(task, false)])
    ensures |Unfinished(Unfinished(entries) + [Entry(task, false)])| == |Unfinished(entries)| + 1
    ensures forall e :: e in Unfinished(entries) + [Entry(task, false)] <==>
              (e in entries && !e.finished) || e == Entry(task, false)
  {
    KeptOnce(entries);
    UnfinishedTwice(entries);
    UnfinishedJoins(Unfinished(entries), [Entry(task, false)]);
    forall e: Entry ensures e in Unfinished(entries) <==> e in entries && !e.finished {
      UnfinishedEntries(entries, e);
    }
  }
}
