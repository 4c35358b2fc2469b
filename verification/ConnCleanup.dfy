/**
 Native cleanup that a connection postpones: prepared statements released while its async
 workers run, and work that destructors hand over inside a PHP handler.
 */
module ConnCleanup {

  /** `Disconnect` is what the connection's own destructor does at the end. */
  datatype Work = DestroyPrepare(statement: nat) | Other(id: nat) | Disconnect

  /** `done` records, in order, the native cleanup that was performed. */
  datatype ConnState = ConnState(workers: nat, workerPrepares: seq<nat>, deferred: seq<Work>, done: seq<Work>)

  const FRESH := ConnState(0, [], [], [])

  function Destroys(statements: seq<nat>): (works: seq<Work>) {
    seq(|statements|, i requires 0 <= i < |statements| => DestroyPrepare(statements[i]))
  }

  /** A lock region's outcome: the state it leaves, and the native cleanup that its thread has
      in hand then, to perform after the region. */
  datatype Decision = Decision(state: ConnState, inHand: seq<Work>)

  function Performed(d: Decision): ConnState {
    d.state.(done := d.state.done + d.inHand)
  }

  function EndsWorker(s: ConnState): Decision
    requires s.workers > 0
  {
    if s.workers == 1 then Decision(s.(workers := 0, workerPrepares := []), Destroys(s.workerPrepares))
    else Decision(s.(workers := s.workers - 1), [])
  }

  function CleansUp(s: ConnState, work: Work, busyHere: bool): Decision {
    if busyHere then Decision(s.(deferred := s.deferred + [work]), []) else Decision(s, [work])
  }

  function Releases(s: ConnState, statement: nat, busyHere: bool): Decision {
    if s.workers > 0 then Decision(s.(workerPrepares := s.workerPrepares + [statement]), [])
    else CleansUp(s, DestroyPrepare(statement), busyHere)
  }

  function TakesDeferred(s: ConnState): Decision {
    Decision(s.(deferred := []), s.deferred)
  }

  function Disconnected(s: ConnState): ConnState {
    var drained := Performed(TakesDeferred(s));
    drained.(done := drained.done + [Disconnect])
  }

  class Connection {
    var workers: nat
    var workerPrepares: seq<nat>
    var deferred: seq<Work>
    var connected: bool
    /** Whether the calling thread runs a PHP handler of this connection. */
    var busyHere: bool
    /** The native cleanup performed so far. */
    var done: seq<Work>

    constructor ()
      ensures State() == FRESH && connected && !busyHere
    {
      workers, workerPrepares, deferred, connected, busyHere, done := 0, [], [], true, false, [];
    }

    ghost function State(): ConnState
      reads this
    {
      ConnState(workers, workerPrepares, deferred, done)
    }

    method WorkerBegin()
      modifies this`workers
      ensures State() == old(State()).(workers := old(workers) + 1)
    {
      workers := workers + 1;
    }

    method WorkerEnd()
      requires workers > 0
      modifies this`workers, this`workerPrepares, this`done
      ensures State() == Performed(EndsWorker(old(State())))
    {
      var released := LeaveWorkers();
      for i := 0 to |released|
        invariant State() == Performed(Decision(EndsWorker(old(State())).state, Destroys(released[..i])))
      {
        done := done + [DestroyPrepare(released[i])];
      }
      assert released[..|released|] == released;
    }

    /** Its lock region: the last worker takes what was left to the workers. */
    method LeaveWorkers() returns (released: seq<nat>)
      requires workers > 0
      modifies this`workers, this`workerPrepares
      ensures Decision(State(), Destroys(released)) == EndsWorker(old(State()))
    {
      released := [];
      workers := workers - 1;
      if workers == 0 {
        released := workerPrepares;
        workerPrepares := [];
      }
    }

    /** `duckdb_conn_cleanup`; `waits` says whether the connection joined the thread's list
        of those with deferred cleanup. */
    method Cleanup(work: Work) returns (waits: bool)
      modifies this`deferred, this`done
      ensures State() == Performed(CleansUp(old(State()), work, busyHere)) && waits == busyHere
    {
      if busyHere {
        deferred := deferred + [work];
        return true;
      }
      done := done + [work];
      waits := false;
    }

    /** `duckdb_conn_destroy_prepare`. */
    method ReleasePrepare(statement: nat) returns (waits: bool)
      modifies this`workerPrepares, this`deferred, this`done
      ensures State() == Performed(Releases(old(State()), statement, busyHere))
      ensures waits == (old(workers) == 0 && busyHere)
    {
      waits := false;
      var left := LeaveToWorkers(statement);
      if left {
        return;
      }
      if busyHere {
        waits := Cleanup(DestroyPrepare(statement));
        return;
      }
      done := done + [DestroyPrepare(statement)];
    }

    /** Its lock region; the worker count may change as soon as this returns. */
    method LeaveToWorkers(statement: nat) returns (left: bool)
      modifies this`workerPrepares
      ensures left == (workers > 0)
      ensures State() == if left then Releases(old(State()), statement, busyHere).state else old(State())
    {
      left := workers > 0;
      if left {
        workerPrepares := workerPrepares + [statement];
      }
    }

    method DrainDeferred()
      modifies this`deferred, this`done
      ensures State() == Performed(TakesDeferred(old(State())))
    {
      var pending := deferred;
      deferred := [];
      for i := 0 to |pending|
        invariant done == old(done) + pending[..i] && deferred == []
      {
        done := done + [pending[i]];
      }
      assert pending[..|pending|] == pending;
    }

    /** The destructor: deferred cleanup runs before the connection is closed. */
    method Destroy()
      requires connected
      modifies this
      ensures State() == Disconnected(old(State())) && !connected
    {
      for i := 0 to |deferred|
        invariant deferred == old(deferred) && done == old(done) + deferred[..i]
        invariant workers == old(workers) && workerPrepares == old(workerPrepares)
      {
        done := done + [deferred[i]];
      }
      assert deferred[..|deferred|] == deferred;
      deferred := [];
      done := done + [Disconnect];
      connected := false;
    }
  }

  /** `duckdb_drain_deferred_connections`. A connection may stand in `waiting` many times;
      `null` is one whose last owner is gone. */
  method DrainAll(waiting: seq<Connection?>) returns (again: seq<Connection?>)
    modifies set c | c in waiting && c != null
    ensures forall c <- waiting :: c != null ==>
              && c.busyHere == old(c.busyHere)
              && c.State() == if c.busyHere then old(c.State()) else Performed(TakesDeferred(old(c.State())))
    ensures forall c :: c in again <==> c in waiting && c != null && c.busyHere
  {
    again := [];
    for i := 0 to |waiting|
      invariant forall c <- waiting :: c != null ==>
                  && c.busyHere == old(c.busyHere)
                  && c.State() ==
                       if c in waiting[..i] && !c.busyHere then Performed(TakesDeferred(old(c.State())))
                       else old(c.State())
      invariant forall c :: c in again <==> c in waiting[..i] && c != null && c.busyHere
    {
      var conn := waiting[i];
      assert waiting[..i + 1] == waiting[..i] + [conn];
      if conn == null {
        continue;
      }
      if conn.busyHere {
        again := again + [conn];
        continue;
      }
      conn.DrainDeferred();
      DrainedTwice(old(conn.State()));
    }
    assert waiting[..|waiting|] == waiting;
  }

  lemma DrainedTwice(s: ConnState)
    ensures Performed(TakesDeferred(Performed(TakesDeferred(s)))) == Performed(TakesDeferred(s))
  {
    assert s.done + s.deferred + [] == s.done + s.deferred;
  }

  /* Every interleaving over any number of connections */

  type ConnId = nat

  /** `handed` counts what was handed over for cleanup, `inHand` what threads have decided to
      perform and have not performed yet; `depth` counts the request thread's handlers. */
  datatype Tracked = Tracked(state: ConnState, depth: nat, gone: bool, handed: multiset<Work>, inHand: multiset<Work>)

  datatype World = World(conns: map<ConnId, Tracked>, waiting: seq<ConnId>)

  /** `here` says whether the request thread, which runs the handlers, does the step. A step
      that decides ends with its lock region; what it takes in hand `PerformsWork` performs. */
  datatype Step =
    | Connect(conn: ConnId)
    | WorkerBegins(conn: ConnId)
    | WorkerEnds(conn: ConnId)
    | HandlerBegins(conn: ConnId)
    | HandlerEnds(conn: ConnId)
    | ReleasesPrepare(conn: ConnId, statement: nat, here: bool)
    | HandsOver(conn: ConnId, work: Work, here: bool)
    | DrainsAll
    | PerformsWork(conn: ConnId, work: Work)
    | LastOwnerGone(conn: ConnId)

  predicate Alive(w: World, c: ConnId) {
    c in w.conns && !w.conns[c].gone
  }

  /** Workers, handlers and threads with cleanup in hand own the connection. */
  predicate Enabled(w: World, step: Step) {
    match step
    case Connect(c) => c !in w.conns
    case WorkerBegins(c) => Alive(w, c)
    case WorkerEnds(c) => Alive(w, c) && w.conns[c].state.workers > 0
    case HandlerBegins(c) => Alive(w, c)
    case HandlerEnds(c) => Alive(w, c) && w.conns[c].depth > 0
    case ReleasesPrepare(c, _, _) => Alive(w, c)
    case HandsOver(c, work, _) => Alive(w, c) && work != Disconnect
    case DrainsAll => true
    case PerformsWork(c, work) => Alive(w, c) && work in w.conns[c].inHand
    case LastOwnerGone(c) =>
      Alive(w, c) && w.conns[c].state.workers == 0 && w.conns[c].depth == 0 && w.conns[c].inHand == multiset{}
  }

  function BusyHere(t: Tracked, here: bool): bool {
    here && t.depth > 0
  }

  function Decided(t: Tracked, d: Decision): Tracked {
    t.(state := d.state, inHand := t.inHand + multiset(d.inHand))
  }

  function PerformedOne(t: Tracked, work: Work): Tracked {
    t.(state := t.state.(done := t.state.done + [work]), inHand := t.inHand - multiset{work})
  }

  function DrainsOne(t: Tracked): Tracked {
    if t.gone || t.depth > 0 then t else Decided(t, TakesDeferred(t.state))
  }

  function StillBusy(conns: map<ConnId, Tracked>, waiting: seq<ConnId>): (again: seq<ConnId>)
    ensures forall c :: c in again <==> c in waiting && c in conns && !conns[c].gone && conns[c].depth > 0
  {
    if waiting == [] then [] else
      var c := waiting[0];
      (if c in conns && !conns[c].gone && conns[c].depth > 0 then [c] else []) + StillBusy(conns, waiting[1..])
  }

  function Handed(t: Tracked, work: Work): Tracked {
    t.(handed := t.handed + multiset{work})
  }

  function Apply(w: World, step: Step): World
    requires Enabled(w, step)
  {
    match step
    case Connect(c) => w.(conns := w.conns[c := Tracked(FRESH, 0, false, multiset{}, multiset{})])
    case WorkerBegins(c) =>
      var t := w.conns[c];
      w.(conns := w.conns[c := t.(state := t.state.(workers := t.state.workers + 1))])
    case WorkerEnds(c) => w.(conns := w.conns[c := Decided(w.conns[c], EndsWorker(w.conns[c].state))])
    case HandlerBegins(c) => w.(conns := w.conns[c := w.conns[c].(depth := w.conns[c].depth + 1)])
    case HandlerEnds(c) => w.(conns := w.conns[c := w.conns[c].(depth := w.conns[c].depth - 1)])
    case ReleasesPrepare(c, statement, here) =>
      var t := w.conns[c];
      var after := Decided(Handed(t, DestroyPrepare(statement)), Releases(t.state, statement, BusyHere(t, here)));
      World(w.conns[c := after], if t.state.workers == 0 && BusyHere(t, here) then w.waiting + [c] else w.waiting)
    case HandsOver(c, work, here) =>
      var t := w.conns[c];
      var after := Decided(Handed(t, work), CleansUp(t.state, work, BusyHere(t, here)));
      World(w.conns[c := after], if BusyHere(t, here) then w.waiting + [c] else w.waiting)
    case PerformsWork(c, work) => w.(conns := w.conns[c := PerformedOne(w.conns[c], work)])
    case DrainsAll =>
      World(map c | c in w.conns :: if c in w.waiting then DrainsOne(w.conns[c]) else w.conns[c],
            StillBusy(w.conns, w.waiting))
    case LastOwnerGone(c) =>
      w.(conns := w.conns[c := Handed(w.conns[c], Disconnect).(state := Disconnected(w.conns[c].state), gone := true)])
  }

  ghost predicate Run(from: World, steps: seq<Step>, to: World)
    decreases |steps|
  {
    if steps == [] then from == to
    else
      var n := |steps| - 1;
      exists before :: Run(from, steps[..n], before) && Enabled(before, steps[n]) && to == Apply(before, steps[n])
  }

  ghost predicate Reached(w: World) {
    exists steps :: Run(World(map[], []), steps, w)
  }

  /** What was handed over is done, in hand, deferred, or left to the last worker; nothing twice. */
  ghost predicate Conserves(t: Tracked) {
    && t.handed ==
         multiset(t.state.done) + t.inHand + multiset(t.state.deferred) + multiset(Destroys(t.state.workerPrepares))
    && (t.state.workers == 0 ==> t.state.workerPrepares == [])
    && (t.gone ==>
          t.state.workers == 0 && t.state.deferred == [] && t.inHand == multiset{} && EndsConnection(t.state.done))
    && (!t.gone ==> Disconnect !in t.state.done && Disconnect !in t.state.deferred && Disconnect !in t.inHand)
  }

  /** The disconnect is the last thing done, and done once. */
  ghost predicate EndsConnection(done: seq<Work>) {
    done != [] && done[|done| - 1] == Disconnect && Disconnect !in done[..|done| - 1]
  }

  ghost predicate Inv(w: World) {
    && (forall c <- w.conns :: Conserves(w.conns[c]))
    && (forall c <- w.conns :: w.conns[c].state.deferred != [] ==> c in w.waiting)
  }

  lemma DestroysAppend(a: seq<nat>, statement: nat)
    ensures Destroys(a + [statement]) == Destroys(a) + [DestroyPrepare(statement)]
  {}

  lemma EndConserves(t: Tracked)
    requires Conserves(t) && t.state.workers > 0 && !t.gone
    ensures Conserves(Decided(t, EndsWorker(t.state)))
  {
    assert Destroys([]) == [];
    assert forall w <- Destroys(t.state.workerPrepares) :: w != Disconnect;
  }

  lemma ReleaseConserves(t: Tracked, statement: nat, busyHere: bool)
    requires Conserves(t) && !t.gone
    ensures Conserves(Decided(Handed(t, DestroyPrepare(statement)), Releases(t.state, statement, busyHere)))
  {
    DestroysAppend(t.state.workerPrepares, statement);
  }

  lemma CleanupConserves(t: Tracked, work: Work, busyHere: bool)
    requires Conserves(t) && !t.gone && work != Disconnect
    ensures Conserves(Decided(Handed(t, work), CleansUp(t.state, work, busyHere)))
  {}

  lemma DrainConserves(t: Tracked)
    requires Conserves(t) && !t.gone
    ensures Conserves(Decided(t, TakesDeferred(t.state)))
  {}

  lemma PerformConserves(t: Tracked, work: Work)
    requires Conserves(t) && !t.gone && work in t.inHand
    ensures Conserves(PerformedOne(t, work))
  {}

  lemma DisconnectConserves(t: Tracked)
    requires Conserves(t) && !t.gone && t.state.workers == 0 && t.inHand == multiset{}
    ensures Conserves(Handed(t, Disconnect).(state := Disconnected(t.state), gone := true))
  {
    var cleaned := t.state.done + t.state.deferred;
    assert (cleaned + [Disconnect])[..|cleaned|] == cleaned;
    assert multiset(cleaned) == multiset(t.state.done) + multiset(t.state.deferred);
  }

  /** A step that changes one connection. */
  lemma OneKept(w: World, c: ConnId, after: Tracked, waiting: seq<ConnId>)
    requires Inv(w) && Conserves(after) && w.waiting <= waiting && (after.state.deferred != [] ==> c in waiting)
    ensures Inv(World(w.conns[c := after], waiting))
  {
    hide Conserves;
  }

  lemma StepKeeps(w: World, step: Step)
    requires Inv(w) && Enabled(w, step)
    ensures Inv(Apply(w, step))
  {
    if step.DrainsAll? {
      DrainKeeps(w);
    } else {
      hide Inv, Apply, Enabled;
      ConnKeeps(w, step);
      OnlyOneChanges(w, step);
      OneKept(w, step.conn, Apply(w, step).conns[step.conn], Apply(w, step).waiting);
    }
  }

  lemma OnlyOneChanges(w: World, step: Step)
    requires Enabled(w, step) && step != DrainsAll
    ensures step.conn in Apply(w, step).conns && w.waiting <= Apply(w, step).waiting
    ensures Apply(w, step) == World(w.conns[step.conn := Apply(w, step).conns[step.conn]], Apply(w, step).waiting)
  {
    hide Decided, PerformedOne, Handed, Disconnected;
  }

  lemma ConnKeeps(w: World, step: Step)
    requires Inv(w) && Enabled(w, step) && step != DrainsAll
    ensures step.conn in Apply(w, step).conns
    ensures var after := Apply(w, step).conns[step.conn];
      Conserves(after) && (after.state.deferred != [] ==> step.conn in Apply(w, step).waiting)
  {
    hide Conserves;
    match step
    case Connect(_) => FreshConserves();
    case WorkerBegins(c) => CountsConserve(w.conns[c], w.conns[c].state.workers + 1, w.conns[c].depth);
    case WorkerEnds(c) => EndConserves(w.conns[c]);
    case HandlerBegins(c) => CountsConserve(w.conns[c], w.conns[c].state.workers, w.conns[c].depth + 1);
    case HandlerEnds(c) => CountsConserve(w.conns[c], w.conns[c].state.workers, w.conns[c].depth - 1);
    case ReleasesPrepare(c, statement, here) => ReleaseConserves(w.conns[c], statement, BusyHere(w.conns[c], here));
    case HandsOver(c, work, here) => CleanupConserves(w.conns[c], work, BusyHere(w.conns[c], here));
    case PerformsWork(c, work) => PerformConserves(w.conns[c], work);
    case LastOwnerGone(c) => DisconnectConserves(w.conns[c]);
  }

  lemma FreshConserves()
    ensures Conserves(Tracked(FRESH, 0, false, multiset{}, multiset{}))
  {
    assert Destroys([]) == [];
  }

  lemma CountsConserve(t: Tracked, workers: nat, depth: nat)
    requires Conserves(t) && !t.gone && workers >= t.state.workers
    ensures Conserves(t.(state := t.state.(workers := workers), depth := depth))
  {}

  lemma DrainKeeps(w: World)
    requires Inv(w)
    ensures Inv(Apply(w, DrainsAll))
  {
    var after := Apply(w, DrainsAll);
    forall c <- after.conns ensures Conserves(after.conns[c])
        && (after.conns[c].state.deferred != [] ==> c in after.waiting) {
      hide StillBusy;
      var t := w.conns[c];
      assert Conserves(t);
      if !t.gone {
        DrainConserves(t);
      }
      hide Conserves;
    }
    hide Conserves, StillBusy, Apply;
  }

  lemma {:induction false} RunKeeps(from: World, steps: seq<Step>, to: World)
    requires Inv(from) && Run(from, steps, to)
    ensures Inv(to)
    decreases |steps|
  {
    hide Inv, Apply, Enabled;
    if steps != [] {
      var n := |steps| - 1;
      var before :| Run(from, steps[..n], before) && Enabled(before, steps[n]) && to == Apply(before, steps[n]);
      RunKeeps(from, steps[..n], before);
      StepKeeps(before, steps[n]);
    }
  }

  /** Everything handed over is performed once, in some thread's hand, or still waits, in one
      place only. */
  lemma NothingLostOrDoneTwice(w: World, c: ConnId)
    requires Reached(w) && c in w.conns
    ensures var t := w.conns[c];
      t.handed ==
        multiset(t.state.done) + t.inHand + multiset(t.state.deferred) + multiset(Destroys(t.state.workerPrepares))
    ensures w.conns[c].state.workers == 0 ==> w.conns[c].state.workerPrepares == []
  {
    var steps :| Run(World(map[], []), steps, w);
    RunKeeps(World(map[], []), steps, w);
  }

  /** At the disconnect every statement and every deferred cleanup has had its one turn, and
      nothing comes after it. */
  lemma DisconnectLeavesNothing(w: World, c: ConnId)
    requires Reached(w) && c in w.conns && w.conns[c].gone
    ensures multiset(w.conns[c].state.done) == w.conns[c].handed
    ensures EndsConnection(w.conns[c].state.done)
  {
    var steps :| Run(World(map[], []), steps, w);
    RunKeeps(World(map[], []), steps, w);
    assert Conserves(w.conns[c]) && Destroys([]) == [];
  }

  lemma {:induction false} NoneBusy(conns: map<ConnId, Tracked>, waiting: seq<ConnId>)
    requires forall c <- conns :: conns[c].depth == 0
    ensures StillBusy(conns, waiting) == []
  {
    if waiting != [] {
      NoneBusy(conns, waiting[1..]);
    }
  }

  /** When the outermost method ends, outside every handler, nothing stays deferred on any
      connection, whichever of them were noted and how often. */
  lemma OutermostMethodDrains(w: World, c: ConnId)
    requires Reached(w) && (forall d <- w.conns :: w.conns[d].depth == 0) && c in w.conns
    ensures Apply(w, DrainsAll).conns[c].state.deferred == [] && Apply(w, DrainsAll).waiting == []
  {
    var steps :| Run(World(map[], []), steps, w);
    RunKeeps(World(map[], []), steps, w);
    assert Conserves(w.conns[c]);
    NoneBusy(w.conns, w.waiting);
  }

  predicate TakesInHand(before: Tracked, after: Tracked, work: Work) {
    after.inHand[work] > before.inHand[work]
  }

  /** While workers remain counted, a lock region takes a statement in hand only with what a
      handler deferred, or with cleanup outside one; both go on to lock the connection. What is
      taken in hand stays there until it is performed, and may meet later workers. */
  lemma TakenWhileWorkersRemain(w: World, step: Step, c: ConnId, statement: nat)
    requires Reached(w) && Enabled(w, step) && c in w.conns && w.conns[c].state.workers > 0
    ensures c in Apply(w, step).conns
    ensures Apply(w, step).conns[c].state.workers > 0
            && TakesInHand(w.conns[c], Apply(w, step).conns[c], DestroyPrepare(statement)) <==>
              || (step == DrainsAll && c in w.waiting && w.conns[c].depth == 0
                  && DestroyPrepare(statement) in w.conns[c].state.deferred)
              || (step.HandsOver? && step.conn == c && step.work == DestroyPrepare(statement)
                  && !BusyHere(w.conns[c], step.here))
  {
    hide Reached, StillBusy, TakesInHand, Decided, PerformedOne, Conserves;
    NotGone(w, c);
    var t, work := w.conns[c], DestroyPrepare(statement);
    NothingTaken(t, t, work);
    match step
    case WorkerBegins(_) => NothingTaken(t, t.(state := t.state.(workers := t.state.workers + 1)), work);
    case WorkerEnds(_) => TakesWhat(t, t, EndsWorker(t.state), work);
    case HandlerBegins(_) => NothingTaken(t, t.(depth := t.depth + 1), work);
    case HandlerEnds(d) => if d == c { NothingTaken(t, t.(depth := t.depth - 1), work); }
    case ReleasesPrepare(_, released, here) =>
      TakesWhat(t, Handed(t, DestroyPrepare(released)), Releases(t.state, released, BusyHere(t, here)), work);
    case HandsOver(_, other, here) => TakesWhat(t, Handed(t, other), CleansUp(t.state, other, BusyHere(t, here)), work);
    case DrainsAll => TakesWhat(t, t, TakesDeferred(t.state), work);
    case PerformsWork(d, other) => if d == c { NothingTaken(t, PerformedOne(t, other), work); PerformsOnly(t, other); }
    case _ =>
  }

  lemma NotGone(w: World, c: ConnId)
    requires Reached(w) && c in w.conns && w.conns[c].state.workers > 0
    ensures !w.conns[c].gone
  {
    ReachedConserves(w, c);
  }

  lemma NothingTaken(t: Tracked, after: Tracked, work: Work)
    requires after.inHand == t.inHand || exists w <- t.inHand :: after == PerformedOne(t, w)
    ensures !TakesInHand(t, after, work)
  {}

  lemma PerformsOnly(t: Tracked, work: Work)
    ensures PerformedOne(t, work).state.workers == t.state.workers
  {}

  lemma TakesWhat(t: Tracked, handed: Tracked, d: Decision, work: Work)
    requires handed.inHand == t.inHand
    ensures TakesInHand(t, Decided(handed, d), work) <==> work in d.inHand
    ensures Decided(handed, d).state == d.state
  {
    assert work in multiset(d.inHand) <==> work in d.inHand;
  }

  lemma ReachedConserves(w: World, c: ConnId)
    requires Reached(w) && c in w.conns
    ensures Conserves(w.conns[c])
  {
    var steps :| Run(World(map[], []), steps, w);
    RunKeeps(World(map[], []), steps, w);
  }

  /** The last worker to end takes in hand every statement that was left to the workers, and
      no other worker takes any. */
  lemma LastWorkerTakesAll(w: World, c: ConnId, statement: nat)
    requires Enabled(w, WorkerEnds(c)) && statement in w.conns[c].state.workerPrepares
    ensures var after := Apply(w, WorkerEnds(c)).conns[c];
      if w.conns[c].state.workers == 1
      then after.state.workerPrepares == [] && DestroyPrepare(statement) in after.inHand
      else after.state.workerPrepares == w.conns[c].state.workerPrepares && after.inHand == w.conns[c].inHand
  {
    var waiting := w.conns[c].state.workerPrepares;
    var k :| 0 <= k < |waiting| && waiting[k] == statement;
    assert Destroys(waiting)[k] == DestroyPrepare(statement);
  }

  /** Nothing stays in hand for want of permission: each such work can be performed next. */
  lemma InHandIsPerformed(w: World, c: ConnId, work: Work)
    requires Reached(w) && c in w.conns && work in w.conns[c].inHand
    ensures Enabled(w, PerformsWork(c, work))
    ensures var after := Apply(w, PerformsWork(c, work)).conns[c];
      after.inHand[work] == w.conns[c].inHand[work] - 1 && after.state.done == w.conns[c].state.done + [work]
  {
    ReachedConserves(w, c);
  }

  /** Deferred cleanup is performed in the order of its handing over, and before the disconnect. */
  lemma DeferredRunsInOrder(s: ConnState, work: Work)
    ensures Performed(TakesDeferred(CleansUp(s, work, true).state)).done ==
              Performed(TakesDeferred(s)).done + [work]
    ensures Disconnected(CleansUp(s, work, true).state).done ==
              Performed(TakesDeferred(s)).done + [work, Disconnect]
    ensures s.deferred == [] ==> Performed(TakesDeferred(s)).done == s.done
  {
    assert s.done + (s.deferred + [work]) == s.done + s.deferred + [work];
    assert s.done + s.deferred + [work] + [Disconnect] == s.done + s.deferred + [work, Disconnect];
  }

  /** Statements left to the workers are destroyed in the order of their release. */
  lemma LeftStatementsGoInOrder(s: ConnState, statement: nat, busyHere: bool)
    requires s.workers == 1
    ensures var left := Releases(s, statement, busyHere);
      && left.inHand == [] && left.state.workers == 1
      && EndsWorker(left.state).inHand == EndsWorker(s).inHand + [DestroyPrepare(statement)]
    ensures s.workerPrepares == [] ==> EndsWorker(s).inHand == []
  {
    DestroysAppend(s.workerPrepares, statement);
  }
}
