/**
 One request thread, its sessions, the helpers that run its leases and any number of DuckDB
 threads that submit callbacks, as a state machine whose steps are the lock regions of
 `submit`, `service`, `close` and `duckdb_session_lease` and the PHP work between them.
 The clock only moves forward; everything else may interleave freely.
 */
module LeaseProtocol {
  import opened Wrappers
  import opened CopySession

  type SessionId = nat
  type RequestId = nat

  datatype Submitter = Waiting | Returned(ok: bool)

  /** A submitted request. `runs` and `completions` count how often its work began and
      ended; the source keeps no such counters. */
  datatype Request = Request(session: SessionId, queuedAt: nat, started: bool, finished: bool,
                             submitter: Submitter, runs: nat, completions: nat)

  /** Where the request thread is inside one lease. */
  datatype Point =
    | CheckBefore               // first unwinding check of a turn
    | Serve                     // in service(), about to take a request
    | Running(running: RequestId)   // in the request's work; nested leases sit above
    | Finishing(finishing: RequestId) // the work returned, `finished` is not set yet
    | AfterWork                 // service()'s unwinding check
    | CheckAfter                // second unwinding check of a turn
    | Decide                    // the locked test: next turn, leave or wait
    | Parked(notified: bool)    // in cv.wait

  /** `began` is the time of the lease's begin, which the source keeps nowhere else than in
      the driver state; `outer` is the driver state that the lease restores. */
  datatype Frame = Frame(session: SessionId, stuck: bool, done: bool, unwindingSeen: bool, point: Point,
                         began: nat, outer: DriverState<SessionId>)

  /** `stack` holds the request thread's leases, the innermost last. */
  datatype State = State(sessions: map<SessionId, SessionState<RequestId>>, requests: map<RequestId, Request>,
                         stack: seq<Frame>, unwinding: bool, now: nat,
                         driver: DriverState<SessionId>)

  datatype Step =
    | OpenSession(session: SessionId)
    | CloseSession(session: SessionId, reason: string)      // any thread
    | Submit(request: RequestId, session: SessionId)        // a DuckDB thread enters submit()
    | Look(request: RequestId)                              // its wait loop looks once
    | BeginLease(session: SessionId, stuck: bool)
    | HelperDone(frame: nat)                                // the frame's leased work completed
    | Turn(reason: string)                                  // the request thread's next lock region
    | WorkReturns(unwinds: bool)
    | PhpUnwinds                                            // exit() or a fatal error in PHP code
    | Reraise                                               // the outermost method re-raises it
    | Wake                                                  // cv.wait returns, notified or not
    | Tick(now: nat)

  function Init(): State {
    State(map[], map[], [], false, 1, Home())
  }

  predicate InPhp(s: State) {
    s.stack == [] || Top(s).point.Running?
  }

  function Top(s: State): Frame
    requires s.stack != []
  {
    s.stack[|s.stack| - 1]
  }

  function WithTop(s: State, frame: Frame): State
    requires s.stack != []
  {
    s.(stack := s.stack[|s.stack| - 1 := frame])
  }

  function AtPoint(s: State, point: Point): State
    requires s.stack != []
  {
    WithTop(s, Top(s).(point := point))
  }

  /** `cv.notify_all()` on a session wakes the lease that waits on it. */
  function Notify(s: State, session: SessionId): State {
    if s.stack != [] && Top(s).session == session && Top(s).point.Parked? then AtPoint(s, Parked(true)) else s
  }

  function CloseIn(s: State, session: SessionId, reason: string): State {
    if session in s.sessions then s.(sessions := s.sessions[session := Closed(s.sessions[session], reason)]) else s
  }

  function Outcome(s: State, r: RequestId, limit: nat): Poll
    requires r in s.requests && s.requests[r].session in s.sessions
  {
    var q := s.requests[r];
    PollOutcome(q.finished, q.started, s.sessions[q.session].open,
                UnservicedFor(s.driver, q.session, q.queuedAt, s.now), limit)
  }

  function LookOnce(s: State, r: RequestId, limit: nat): State
    requires r in s.requests && s.requests[r].session in s.sessions
  {
    var q := s.requests[r];
    match Outcome(s, r, limit)
    case KeepWaiting => s
    case Delivered => s.(requests := s.requests[r := q.(submitter := Returned(true))])
    case Refused => s.(requests := s.requests[r := q.(submitter := Returned(false))])
    case Abandoned =>
      var after := CloseIn(s, q.session, ABANDONED);
      Notify(after.(requests := after.requests[r := q.(submitter := Returned(false))]), q.session)
  }

  function SubmitRequest(s: State, r: RequestId, session: SessionId): State
    requires session in s.sessions && r !in s.requests
  {
    var q := Request(session, s.now, false, false, Waiting, 0, 0);
    if s.sessions[session].open then
      Notify(s.(requests := s.requests[r := q],
                sessions := s.sessions[session := Entered(s.sessions[session], r)]), session)
    else
      s.(requests := s.requests[r := q.(submitter := Returned(false))])
  }

  function BeginLeaseOn(s: State, session: SessionId, stuck: bool): State {
    s.(stack := s.stack + [Frame(session, stuck, false, false, CheckBefore, s.now, s.driver)],
       driver := Away(if stuck then None else Some(session), s.now))
  }

  /** `check_unwinding`: the first time this lease sees it, close the session. */
  function CheckUnwinding(s: State, reason: string): State
    requires s.stack != []
  {
    if s.unwinding && !Top(s).unwindingSeen then
      WithTop(CloseIn(s, Top(s).session, reason), Top(s).(unwindingSeen := true))
    else s
  }

  /** A turn of `service` up to the work: take the front request, or return. */
  function TakeOne(s: State): State
    requires s.stack != [] && Top(s).session in s.sessions
    requires HasWork(s.sessions[Top(s).session]) ==> s.sessions[Top(s).session].queue[0] in s.requests
  {
    var session := Top(s).session;
    if HasWork(s.sessions[session]) then
      var r := s.sessions[session].queue[0];
      var q := s.requests[r];
      AtPoint(s, Running(r)).(sessions := s.sessions[session := Taken(s.sessions[session])],
                              requests := s.requests[r := q.(started := true, runs := q.runs + 1)])
    else
      AtPoint(s, CheckAfter)
  }

  predicate MayLeave(s: State)
    requires s.stack != [] && Top(s).session in s.sessions
  {
    Top(s).done && (Top(s).stuck || !HasWork(s.sessions[Top(s).session]))
  }

  function DecideTurn(s: State): State
    requires s.stack != [] && Top(s).session in s.sessions
  {
    var f := Top(s);
    if !f.stuck && HasWork(s.sessions[f.session]) then AtPoint(s, CheckBefore)
    else if f.done then s.(stack := s.stack[..|s.stack| - 1], driver := f.outer)
    else AtPoint(s, Parked(false))
  }

  /** The request thread's next step inside its innermost lease, outside PHP. */
  function NextTurn(s: State, reason: string): State
    requires s.stack != [] && Top(s).session in s.sessions
    requires Top(s).point == Serve && HasWork(s.sessions[Top(s).session]) ==>
               s.sessions[Top(s).session].queue[0] in s.requests
    requires Top(s).point.Finishing? ==> Top(s).point.finishing in s.requests
  {
    match Top(s).point
    case CheckBefore => AtPoint(CheckUnwinding(s, reason), if Top(s).stuck then CheckAfter else Serve)
    case Serve => TakeOne(s)
    case Running(_) => s
    case Finishing(r) =>
      AtPoint(s, AfterWork).(requests := s.requests[r := s.requests[r].(finished := true)])
    case AfterWork =>
      if s.unwinding then AtPoint(CloseIn(s, Top(s).session, reason), CheckAfter) else AtPoint(s, Serve)
    case CheckAfter => AtPoint(CheckUnwinding(s, reason), Decide)
    case Decide => DecideTurn(s)
    case Parked(_) => s
  }

  ghost predicate Enabled(s: State, step: Step) {
    match step
    case OpenSession(session) => session !in s.sessions
    case CloseSession(session, _) => session in s.sessions
    case Submit(r, session) => session in s.sessions && r !in s.requests
    case Look(r) => r in s.requests && s.requests[r].session in s.sessions && s.requests[r].submitter.Waiting?
    case BeginLease(session, _) => session in s.sessions && InPhp(s)
    case HelperDone(i) => i < |s.stack|
    case Turn(_) =>
      && s.stack != [] && Top(s).session in s.sessions && !Top(s).point.Running? && !Top(s).point.Parked?
      && (Top(s).point == Serve && HasWork(s.sessions[Top(s).session]) ==>
            s.sessions[Top(s).session].queue[0] in s.requests)
      && (Top(s).point.Finishing? ==> Top(s).point.finishing in s.requests)
    case WorkReturns(_) => s.stack != [] && Top(s).point.Running? && Top(s).point.running in s.requests
    case PhpUnwinds => InPhp(s)
    case Reraise => s.stack == []
    case Wake => s.stack != [] && Top(s).point.Parked?
    case Tick(now) => now >= s.now
  }

  function MarkDone(s: State, i: nat): State
    requires i < |s.stack|
  {
    Notify(s.(stack := s.stack[i := s.stack[i].(done := true)]), s.stack[i].session)
  }

  function FinishWork(s: State, unwinds: bool): State
    requires s.stack != [] && Top(s).point.Running? && Top(s).point.running in s.requests
  {
    var r := Top(s).point.running;
    var q := s.requests[r];
    AtPoint(s, Finishing(r)).(unwinding := s.unwinding || unwinds,
                              requests := s.requests[r := q.(completions := q.completions + 1)])
  }

  function Apply(s: State, step: Step, limit: nat): State
    requires Enabled(s, step)
  {
    match step
    case OpenSession(session) => s.(sessions := s.sessions[session := SessionState(true, "", [])])
    case CloseSession(session, reason) => Notify(CloseIn(s, session, reason), session)
    case Submit(r, session) => SubmitRequest(s, r, session)
    case Look(r) => LookOnce(s, r, limit)
    case BeginLease(session, stuck) => BeginLeaseOn(s, session, stuck)
    case HelperDone(i) => MarkDone(s, i)
    case Turn(reason) => NextTurn(s, reason)
    case WorkReturns(unwinds) => FinishWork(s, unwinds)
    case PhpUnwinds => s.(unwinding := true)
    case Reraise => s.(unwinding := false)
    case Wake => AtPoint(s, CheckBefore)
    case Tick(now) => s.(now := now)
  }

  /** `steps` lead from one state to another. `limit` is the stuck limit. */
  ghost predicate Run(from: State, steps: seq<Step>, limit: nat, to: State)
    decreases |steps|
  {
    if steps == [] then from == to
    else
      var n := |steps| - 1;
      exists before :: Run(from, steps[..n], limit, before) && Enabled(before, steps[n])
          && to == Apply(before, steps[n], limit)
  }

  ghost predicate Reached(s: State, limit: nat) {
    exists steps :: Run(Init(), steps, limit, s)
  }
}
