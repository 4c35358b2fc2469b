/**
 The objects of the callback protocol and their lock regions: each method is one critical
 section of `copy_session`, `copy_driver` or `driver_away`, and does what one function on
 values says. `LeaseProtocol` interleaves these functions.
 */
module CopySession {
  import opened Wrappers

  /** What `copy_session::mutex` guards. */
  datatype SessionState<R> = SessionState(open: bool, closeReason: string, queue: seq<R>)

  /** `copy_session::close`, and the abandonment in `submit`. */
  function Closed<R>(s: SessionState<R>, reason: string): SessionState<R> {
    if s.open then SessionState(false, reason, []) else s
  }

  /** Whether `service` finds a request to take. */
  predicate HasWork<R>(s: SessionState<R>) {
    s.open && s.queue != []
  }

  function Taken<R>(s: SessionState<R>): SessionState<R>
    requires HasWork(s)
  {
    s.(queue := s.queue[1..])
  }

  function Entered<R>(s: SessionState<R>, request: R): SessionState<R> {
    if s.open then s.(queue := s.queue + [request]) else s
  }

  /** What a submitter does when it looks at its request. */
  datatype Poll = Delivered | Refused | Abandoned | KeepWaiting

  function PollOutcome(finished: bool, started: bool, open: bool, unserviced: int, limit: nat): Poll {
    if finished then Delivered
    else if started then KeepWaiting
    else if !open then Refused
    else if unserviced > limit then Abandoned
    else KeepWaiting
  }

  const ABANDONED := "COPY callback abandoned: the driving thread stayed inside DuckDB too long"

  /** What `copy_driver::mutex` guards. */
  datatype DriverState<+S> = DriverState(serving: Option<S>, awaySince: nat)

  function Home<S>(): DriverState<S> {
    DriverState(None, 0)
  }

  /** The state that `driver_away` installs; it keeps the outer one and restores it. */
  function Away<S>(serving: Option<S>, now: nat): DriverState<S> {
    DriverState(serving, now)
  }

  /** `copy_driver::unserviced_for`: how long a session's request has gone unserviced. */
  function UnservicedFor<S(==)>(d: DriverState<S>, session: S, queuedAt: nat, now: nat): int {
    if d.awaySince == 0 || d.serving == Some(session) then 0
    else now - (if d.awaySince >= queuedAt then d.awaySince else queuedAt)
  }

  class CopyRequest {
    var queuedAt: nat
    var started: bool
    var finished: bool

    constructor ()
      ensures !started && !finished
    {
      queuedAt, started, finished := 0, false, false;
    }
  }

  class Session {
    var open: bool
    var closeReason: string
    var queue: seq<CopyRequest>

    constructor ()
      ensures State() == SessionState(true, "", [])
    {
      open, closeReason, queue := true, "", [];
    }

    ghost function State(): SessionState<CopyRequest>
      reads this
    {
      SessionState(open, closeReason, queue)
    }

    method Close(reason: string)
      modifies this
      ensures State() == Closed(old(State()), reason)
    {
      if !open {
        return;
      }
      open := false;
      closeReason := reason;
      queue := [];
    }

    /** First lock region of a turn of `service`. */
    method Take() returns (request: CopyRequest?)
      modifies this, queue
      ensures HasWork(old(State())) ==>
                && request == old(queue[0]) && State() == Taken(old(State()))
                && request.started && request.finished == old(queue[0].finished)
      ensures !HasWork(old(State())) ==> request == null && State() == old(State())
      ensures forall r <- old(queue) :: r != request ==> unchanged(r)
    {
      if !open || queue == [] {
        return null;
      }
      request := queue[0];
      queue := queue[1..];
      request.started := true;
    }

    /** Second lock region of a turn of `service`. */
    method Finish(request: CopyRequest)
      modifies request
      ensures request.finished && request.started == old(request.started)
    {
      request.finished := true;
    }

    /** The entry of `submit`. */
    method Enter(request: CopyRequest, now: nat) returns (entered: bool, error: string)
      modifies this, request
      ensures entered == old(open) && State() == Entered(old(State()), request)
      ensures !entered ==> error == old(closeReason) && unchanged(request)
      ensures entered ==>
                && request.queuedAt == now
                && request.started == old(request.started) && request.finished == old(request.finished)
    {
      error := "";
      if !open {
        return false, closeReason;
      }
      request.queuedAt := now;
      queue := queue + [request];
      entered := true;
    }

    /** One look of `submit`'s wait loop. */
    method Look(request: CopyRequest, unserviced: int, limit: nat) returns (outcome: Poll, error: string)
      modifies this
      ensures outcome == PollOutcome(request.finished, request.started, old(open), unserviced, limit)
      ensures outcome == Refused ==> error == old(closeReason)
      ensures outcome == Abandoned ==> error == ABANDONED
      ensures State() == if outcome == Abandoned then Closed(old(State()), ABANDONED) else old(State())
    {
      error := "";
      if request.finished {
        return Delivered, "";
      }
      if !request.started {
        if !open {
          return Refused, closeReason;
        }
        if unserviced > limit {
          open := false;
          closeReason := ABANDONED;
          queue := [];
          return Abandoned, closeReason;
        }
      }
      outcome := KeepWaiting;
    }
  }

  /** The session that a pointer names, if any. */
  function Lease(session: Session?): Option<Session> {
    if session == null then None else Some(session)
  }

  class CopyDriver {
    var serving: Session?
    var awaySince: nat

    constructor ()
      ensures State() == Home()
    {
      serving, awaySince := null, 0;
    }

    function State(): DriverState<Session>
      reads this
    {
      DriverState(Lease(serving), awaySince)
    }

    method Unserviced(session: Session, queuedAt: nat, now: nat) returns (ns: int)
      ensures ns == UnservicedFor(State(), session, queuedAt, now)
    {
      if awaySince == 0 || serving == session {
        return 0;
      }
      ns := now - if awaySince >= queuedAt then awaySince else queuedAt;
    }

    /** The constructor of `driver_away`. */
    method Enter(session: Session?, now: nat) returns (outer: DriverState<Session>)
      modifies this
      ensures outer == old(State())
      ensures State() == Away(Lease(session), now)
    {
      outer := State();
      serving, awaySince := session, now;
    }

    /** Its destructor. */
    method Leave(outer: DriverState<Session>)
      modifies this
      ensures State() == outer
    {
      serving := if outer.serving.None? then null else outer.serving.value;
      awaySince := outer.awaySince;
    }
  }
}
