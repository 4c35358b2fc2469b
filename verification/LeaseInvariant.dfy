/** What every step of the callback protocol keeps. */
module LeaseInvariant {
  import opened Wrappers
  import opened CopySession
  import opened LeaseProtocol

  /** Points of a lease that services its session. */
  predicate Services(p: Point) {
    p.Serve? || p.Running? || p.Finishing? || p.AfterWork?
  }

  /** Every lease below the innermost one is inside the PHP work of a request, and a lease that
      cannot service its session has none. */
  ghost predicate StackInv(s: State) {
    forall i :: 0 <= i < |s.stack| ==>
      && s.stack[i].session in s.sessions
      && (i < |s.stack| - 1 ==> s.stack[i].point.Running?)
      && (s.stack[i].stuck ==> !Services(s.stack[i].point))
  }

  ghost predicate NoDuplicates(q: seq<RequestId>) {
    forall i, j :: 0 <= i < j < |q| ==> q[i] != q[j]
  }

  ghost predicate QueueInv(s: State) {
    forall id <- s.sessions ::
      && (!s.sessions[id].open ==> s.sessions[id].queue == [])
      && NoDuplicates(s.sessions[id].queue)
      && forall r <- s.sessions[id].queue ::
           r in s.requests && s.requests[r].session == id && s.requests[r].submitter.Waiting? && !s.requests[r].started
  }

  ghost predicate RequestSound(q: Request) {
    && (!q.started ==> q.runs == 0 && q.completions == 0 && !q.finished)
    && (q.started ==> q.runs == 1 && q.completions <= 1)
    && (q.finished ==> q.started && q.completions == 1)
    && (q.submitter == Returned(true) ==> q.finished)
    && (q.submitter == Returned(false) ==> !q.started)
  }

  /** No request is lost: one that waits unstarted on an open session is still queued. */
  ghost predicate RequestInv(s: State) {
    forall r <- s.requests ::
      && RequestSound(s.requests[r])
      && s.requests[r].session in s.sessions
      && (s.requests[r].submitter.Waiting? && !s.requests[r].started && s.sessions[s.requests[r].session].open ==>
            r in s.sessions[s.requests[r].session].queue)
  }

  function WorkOf(p: Point): Option<RequestId> {
    match p
    case Running(r) => Some(r)
    case Finishing(r) => Some(r)
    case _ => None
  }

  ghost predicate FrameWork(s: State, f: Frame) {
    WorkOf(f.point).Some? ==>
      var r := WorkOf(f.point).value;
      && r in s.requests && s.requests[r].session == f.session
      && s.requests[r].started && !s.requests[r].finished && s.requests[r].submitter.Waiting?
      && s.requests[r].completions == (if f.point.Finishing? then 1 else 0)
  }

  /** Work on the stack belongs to a submitter that still waits for it. */
  ghost predicate WorkInv(s: State) {
    && (forall i :: 0 <= i < |s.stack| ==> FrameWork(s, s.stack[i]))
    && (forall i, j :: 0 <= i < j < |s.stack| ==>
          WorkOf(s.stack[i].point).None? || WorkOf(s.stack[i].point) != WorkOf(s.stack[j].point))
  }

  /** Points that a lease reaches outside PHP only after a check for the unwinding. */
  predicate Checked(p: Point) {
    p.Serve? || p.Decide? || p.Parked?
  }

  /** A lease that saw the unwinding closed its session, and none takes requests after. */
  ghost predicate UnwindInv(s: State) {
    && (forall i :: 0 <= i < |s.stack| ==>
          s.stack[i].session in s.sessions && (s.stack[i].unwindingSeen ==> !s.sessions[s.stack[i].session].open))
    && (s.unwinding && s.stack != [] && Checked(Top(s).point) ==> !s.sessions[Top(s).session].open)
  }

  /** A waiting lease has nothing to do: no wakeup was lost. */
  ghost predicate WaitInv(s: State) {
    s.stack != [] && Top(s).point == Parked(false) && Top(s).session in s.sessions ==>
      !Top(s).done && (Top(s).stuck || !HasWork(s.sessions[Top(s).session]))
  }

  function ServedBy(f: Frame): Option<SessionId> {
    if f.stuck then None else Some(f.session)
  }

  /** The driver state of the innermost of the first `n` leases: what it serves, since when. */
  function DriverOf(stack: seq<Frame>, n: nat): DriverState<SessionId>
    requires n <= |stack|
  {
    if n == 0 then Home() else Away(ServedBy(stack[n - 1]), stack[n - 1].began)
  }

  predicate KeepsOuter(stack: seq<Frame>, i: nat, now: nat)
    requires i < |stack|
  {
    stack[i].outer == DriverOf(stack, i) && 0 < stack[i].began <= now
  }

  /** The driver state is that of the innermost lease, and each lease keeps the outer one. */
  ghost predicate DriverInv(s: State) {
    && s.now > 0
    && s.driver == DriverOf(s.stack, |s.stack|)
    && forall i :: 0 <= i < |s.stack| ==> KeepsOuter(s.stack, i, s.now)
  }

  ghost predicate CoreInv(s: State) {
    StackInv(s) && QueueInv(s) && RequestInv(s) && WorkInv(s) && UnwindInv(s) && DriverInv(s)
  }

  ghost predicate Inv(s: State) {
    CoreInv(s) && WaitInv(s)
  }

  /** Points, `done` and `unwindingSeen` do not matter to the driver state. */
  lemma DriverKept(s: State, t: State)
    requires DriverInv(s) && |t.stack| == |s.stack|
    requires t.driver == s.driver && t.now >= s.now
    requires forall i :: 0 <= i < |s.stack| ==>
               t.stack[i] == s.stack[i].(point := t.stack[i].point, done := t.stack[i].done,
                   unwindingSeen := t.stack[i].unwindingSeen)
    ensures DriverInv(t)
  {
    forall i | 0 <= i < |s.stack| ensures KeepsOuter(t.stack, i, t.now) {
      assert KeepsOuter(s.stack, i, s.now);
    }
  }

  lemma PrefixKept(stack: seq<Frame>, longer: seq<Frame>, i: nat)
    requires i < |stack| <= |longer| && longer[..|stack|] == stack
    ensures forall now :: KeepsOuter(stack, i, now) == KeepsOuter(longer, i, now)
  {
    assert forall j :: 0 <= j < |stack| ==> stack[j] == longer[j];
  }

  lemma ClosedQueues(s: State, session: SessionId, reason: string)
    requires QueueInv(s)
    ensures QueueInv(CloseIn(s, session, reason))
  {}

  lemma ClosedRequests(s: State, session: SessionId, reason: string)
    requires RequestInv(s)
    ensures RequestInv(CloseIn(s, session, reason))
  {}

  lemma CloseKeeps(s: State, session: SessionId, reason: string)
    requires CoreInv(s)
    ensures CoreInv(CloseIn(s, session, reason))
  {
    var t := CloseIn(s, session, reason);
    assert StackInv(t) by { hide QueueInv, RequestInv, WorkInv, UnwindInv, DriverInv; }
    ClosedQueues(s, session, reason);
    ClosedRequests(s, session, reason);
    assert WorkInv(t) by { hide StackInv, QueueInv, RequestInv, UnwindInv, DriverInv; }
    assert UnwindInv(t) by { hide StackInv, QueueInv, RequestInv, WorkInv, DriverInv; }
    assert DriverInv(t) by { hide StackInv, QueueInv, RequestInv, WorkInv, UnwindInv; DriverKept(s, t); }
    hide StackInv, QueueInv, RequestInv, WorkInv, UnwindInv, DriverInv;
  }

  /** Moving the innermost lease to a point without work. */
  lemma MoveKeeps(s: State, point: Point)
    requires CoreInv(s) && s.stack != [] && WorkOf(point).None?
    requires Top(s).stuck ==> !Services(point)
    requires Checked(point) && s.unwinding ==> !s.sessions[Top(s).session].open
    ensures CoreInv(AtPoint(s, point))
  {
    var t := AtPoint(s, point);
    assert StackInv(t) by { hide QueueInv, RequestInv, WorkInv, UnwindInv, DriverInv; }
    assert QueueInv(t) by { hide StackInv, RequestInv, WorkInv, UnwindInv, DriverInv; }
    assert RequestInv(t) by { hide StackInv, QueueInv, WorkInv, UnwindInv, DriverInv; }
    assert WorkInv(t) by { hide StackInv, QueueInv, RequestInv, UnwindInv, DriverInv; }
    assert UnwindInv(t) by { hide QueueInv, RequestInv, WorkInv, DriverInv; }
    assert DriverInv(t) by { hide StackInv, QueueInv, RequestInv, WorkInv, UnwindInv; DriverKept(s, t); }
    hide StackInv, QueueInv, RequestInv, WorkInv, UnwindInv, DriverInv;
  }

  lemma CheckedIsClosed(s: State)
    requires CoreInv(s) && s.stack != []
    ensures Top(s).session in s.sessions
    ensures Checked(Top(s).point) && s.unwinding ==> !s.sessions[Top(s).session].open
  {
    hide QueueInv, RequestInv, WorkInv, DriverInv;
  }

  lemma NotifyKeeps(s: State, session: SessionId)
    requires CoreInv(s)
    ensures CoreInv(Notify(s, session))
  {
    if s.stack != [] && Top(s).session == session && Top(s).point.Parked? {
      CheckedIsClosed(s);
      hide CoreInv;
      MoveKeeps(s, Parked(true));
    }
  }

  function Enqueued(s: State, r: RequestId, session: SessionId): State
    requires session in s.sessions
  {
    s.(requests := s.requests[r := Request(session, s.now, false, false, Waiting, 0, 0)],
       sessions := s.sessions[session := Entered(s.sessions[session], r)])
  }

  lemma EnqueuedQueues(s: State, r: RequestId, session: SessionId)
    requires QueueInv(s) && session in s.sessions && r !in s.requests
    ensures QueueInv(Enqueued(s, r, session))
  {}

  lemma EnqueuedRequests(s: State, r: RequestId, session: SessionId)
    requires RequestInv(s) && session in s.sessions && r !in s.requests
    ensures RequestInv(Enqueued(s, r, session))
  {}

  lemma EnqueueKeeps(s: State, r: RequestId, session: SessionId)
    requires CoreInv(s) && session in s.sessions && r !in s.requests && s.sessions[session].open
    ensures CoreInv(Enqueued(s, r, session))
  {
    var t := Enqueued(s, r, session);
    assert StackInv(t) by { hide QueueInv, RequestInv, WorkInv, UnwindInv, DriverInv; }
    EnqueuedQueues(s, r, session);
    EnqueuedRequests(s, r, session);
    assert WorkInv(t) by { hide StackInv, QueueInv, RequestInv, UnwindInv, DriverInv; }
    assert UnwindInv(t) by { hide QueueInv, RequestInv, WorkInv, DriverInv; }
    assert DriverInv(t) by { hide StackInv, QueueInv, RequestInv, WorkInv, UnwindInv; DriverKept(s, t); }
    hide StackInv, QueueInv, RequestInv, WorkInv, UnwindInv, DriverInv;
  }

  lemma RefuseKeeps(s: State, r: RequestId, session: SessionId)
    requires CoreInv(s) && session in s.sessions && r !in s.requests && !s.sessions[session].open
    ensures CoreInv(SubmitRequest(s, r, session))
  {
    var t := SubmitRequest(s, r, session);
    assert StackInv(t) by { hide QueueInv, RequestInv, WorkInv, UnwindInv, DriverInv; }
    assert QueueInv(t) by { hide StackInv, RequestInv, WorkInv, UnwindInv, DriverInv; }
    assert RequestInv(t) by { hide StackInv, QueueInv, WorkInv, UnwindInv, DriverInv; }
    assert WorkInv(t) by { hide StackInv, QueueInv, RequestInv, UnwindInv, DriverInv; }
    assert UnwindInv(t) by { hide StackInv, QueueInv, RequestInv, WorkInv, DriverInv; }
    assert DriverInv(t) by { hide StackInv, QueueInv, RequestInv, WorkInv, UnwindInv; DriverKept(s, t); }
    hide StackInv, QueueInv, RequestInv, WorkInv, UnwindInv, DriverInv;
  }

  lemma SubmitKeeps(s: State, r: RequestId, session: SessionId)
    requires CoreInv(s) && session in s.sessions && r !in s.requests
    ensures CoreInv(SubmitRequest(s, r, session))
  {
    hide CoreInv;
    if s.sessions[session].open {
      EnqueueKeeps(s, r, session);
      NotifyKeeps(Enqueued(s, r, session), session);
    } else {
      RefuseKeeps(s, r, session);
    }
  }

  function Answered(s: State, r: RequestId, ok: bool): State
    requires r in s.requests
  {
    s.(requests := s.requests[r := s.requests[r].(submitter := Returned(ok))])
  }

  lemma AnswerKeeps(s: State, r: RequestId, ok: bool)
    requires CoreInv(s) && r in s.requests && s.requests[r].session in s.sessions && s.requests[r].submitter.Waiting?
    requires if ok then s.requests[r].finished else !s.requests[r].started && !s.sessions[s.requests[r].session].open
    ensures CoreInv(Answered(s, r, ok))
  {
    var t := Answered(s, r, ok);
    assert StackInv(t) by { hide QueueInv, RequestInv, WorkInv, UnwindInv, DriverInv; }
    assert QueueInv(t) by { hide StackInv, WorkInv, UnwindInv, DriverInv; }
    assert RequestInv(t) by { hide StackInv, QueueInv, WorkInv, UnwindInv, DriverInv; }
    assert WorkInv(t) by { hide StackInv, QueueInv, RequestInv, UnwindInv, DriverInv; }
    assert UnwindInv(t) by { hide StackInv, QueueInv, RequestInv, WorkInv, DriverInv; }
    assert DriverInv(t) by { hide StackInv, QueueInv, RequestInv, WorkInv, UnwindInv; DriverKept(s, t); }
    hide StackInv, QueueInv, RequestInv, WorkInv, UnwindInv, DriverInv;
  }

  lemma LookKeeps(s: State, r: RequestId, limit: nat)
    requires CoreInv(s) && r in s.requests && s.requests[r].session in s.sessions && s.requests[r].submitter.Waiting?
    ensures CoreInv(LookOnce(s, r, limit))
  {
    hide CoreInv, UnservicedFor;
    var q := s.requests[r];
    match Outcome(s, r, limit)
    case KeepWaiting =>
    case Delivered => AnswerKeeps(s, r, true);
    case Refused => AnswerKeeps(s, r, false);
    case Abandoned =>
      var after := CloseIn(s, q.session, ABANDONED);
      CloseKeeps(s, q.session, ABANDONED);
      AnswerKeeps(after, r, false);
      NotifyKeeps(Answered(after, r, false), q.session);
  }

  lemma BeginKeeps(s: State, session: SessionId, stuck: bool)
    requires CoreInv(s) && session in s.sessions && InPhp(s)
    ensures CoreInv(BeginLeaseOn(s, session, stuck))
  {
    var t := BeginLeaseOn(s, session, stuck);
    assert StackInv(t) by { hide QueueInv, RequestInv, WorkInv, UnwindInv, DriverInv; }
    assert QueueInv(t) by { hide StackInv, RequestInv, WorkInv, UnwindInv, DriverInv; }
    assert RequestInv(t) by { hide StackInv, QueueInv, WorkInv, UnwindInv, DriverInv; }
    assert WorkInv(t) by { hide StackInv, QueueInv, RequestInv, UnwindInv, DriverInv; }
    assert UnwindInv(t) by { hide QueueInv, RequestInv, WorkInv, DriverInv; }
    assert DriverInv(t) by {
      hide StackInv, QueueInv, RequestInv, WorkInv, UnwindInv;
      forall i | 0 <= i < |s.stack| ensures KeepsOuter(t.stack, i, t.now) {
        PrefixKept(s.stack, t.stack, i);
        assert KeepsOuter(s.stack, i, s.now);
      }
    }
    hide StackInv, QueueInv, RequestInv, WorkInv, UnwindInv, DriverInv;
  }

  lemma TakenQueues(s: State)
    requires StackInv(s) && QueueInv(s) && s.stack != [] && HasWork(s.sessions[Top(s).session])
    ensures s.sessions[Top(s).session].queue[0] in s.requests
    ensures QueueInv(TakeOne(s))
  {}

  lemma TakenRequests(s: State)
    requires StackInv(s) && QueueInv(s) && RequestInv(s) && s.stack != [] && HasWork(s.sessions[Top(s).session])
    requires s.sessions[Top(s).session].queue[0] in s.requests
    ensures RequestInv(TakeOne(s))
  {}

  lemma TakenWork(s: State)
    requires StackInv(s) && QueueInv(s) && WorkInv(s) && s.stack != [] && Top(s).point.Serve?
    requires HasWork(s.sessions[Top(s).session]) && s.sessions[Top(s).session].queue[0] in s.requests
    requires RequestSound(s.requests[s.sessions[Top(s).session].queue[0]])
    ensures WorkInv(TakeOne(s))
  {}

  lemma TakeKeeps(s: State)
    requires CoreInv(s) && s.stack != [] && Top(s).point.Serve?
    requires HasWork(s.sessions[Top(s).session])
    ensures s.sessions[Top(s).session].queue[0] in s.requests
    ensures CoreInv(TakeOne(s))
  {
    TakenQueues(s);
    var t := TakeOne(s);
    assert StackInv(t) by { hide QueueInv, RequestInv, WorkInv, UnwindInv, DriverInv; }
    assert RequestSound(s.requests[s.sessions[Top(s).session].queue[0]]) by {
      hide StackInv, QueueInv, WorkInv, UnwindInv, DriverInv, RequestSound;
    }
    assert UnwindInv(t) by { hide QueueInv, RequestInv, WorkInv, DriverInv; }
    assert DriverInv(t) by { hide StackInv, QueueInv, RequestInv, WorkInv, UnwindInv; DriverKept(s, t); }
    hide StackInv, QueueInv, RequestInv, WorkInv, UnwindInv, DriverInv;
    TakenRequests(s);
    TakenWork(s);
  }

  lemma FinishedWork(s: State, unwinds: bool)
    requires WorkInv(s) && s.stack != [] && Top(s).point.Running? && Top(s).point.running in s.requests
    ensures WorkInv(FinishWork(s, unwinds))
  {}

  lemma FinishKeeps(s: State, unwinds: bool)
    requires CoreInv(s) && s.stack != [] && Top(s).point.Running? && Top(s).point.running in s.requests
    ensures CoreInv(FinishWork(s, unwinds))
  {
    var t := FinishWork(s, unwinds);
    assert StackInv(t) by { hide QueueInv, RequestInv, WorkInv, UnwindInv, DriverInv; }
    assert QueueInv(t) by { hide StackInv, RequestInv, UnwindInv, DriverInv; }
    assert RequestInv(t) by { hide StackInv, QueueInv, UnwindInv, DriverInv; }
    FinishedWork(s, unwinds);
    assert UnwindInv(t) by { hide StackInv, QueueInv, RequestInv, WorkInv, DriverInv; }
    assert DriverInv(t) by { hide StackInv, QueueInv, RequestInv, WorkInv, UnwindInv; DriverKept(s, t); }
    hide StackInv, QueueInv, RequestInv, WorkInv, UnwindInv, DriverInv;
  }

  lemma FinishedQueues(s: State, reason: string)
    requires QueueInv(s) && WorkInv(s) && s.stack != [] && Top(s).point.Finishing?
        && Top(s).point.finishing in s.requests
    requires Top(s).session in s.sessions
    ensures QueueInv(NextTurn(s, reason))
  {}

  lemma FinishedFrames(s: State, reason: string)
    requires WorkInv(s) && s.stack != [] && Top(s).point.Finishing? && Top(s).point.finishing in s.requests
    requires Top(s).session in s.sessions
    ensures WorkInv(NextTurn(s, reason))
  {}

  lemma FinishedKeeps(s: State, reason: string)
    requires CoreInv(s) && s.stack != [] && Top(s).point.Finishing? && Top(s).point.finishing in s.requests
    requires Top(s).session in s.sessions
    ensures CoreInv(NextTurn(s, reason))
  {
    var t := NextTurn(s, reason);
    assert StackInv(t) by { hide QueueInv, RequestInv, WorkInv, UnwindInv, DriverInv; }
    FinishedQueues(s, reason);
    assert RequestInv(t) by { hide StackInv, QueueInv, UnwindInv, DriverInv; }
    FinishedFrames(s, reason);
    assert UnwindInv(t) by { hide StackInv, QueueInv, RequestInv, WorkInv, DriverInv; }
    assert DriverInv(t) by { hide StackInv, QueueInv, RequestInv, WorkInv, UnwindInv; DriverKept(s, t); }
    hide StackInv, QueueInv, RequestInv, WorkInv, UnwindInv, DriverInv;
  }

  lemma PopKeeps(s: State)
    requires CoreInv(s) && s.stack != [] && Top(s).session in s.sessions && Top(s).point.Decide? && MayLeave(s)
    ensures CoreInv(DecideTurn(s))
  {
    var t := DecideTurn(s);
    assert StackInv(t) by { hide QueueInv, RequestInv, WorkInv, UnwindInv, DriverInv; }
    assert QueueInv(t) by { hide StackInv, RequestInv, WorkInv, UnwindInv, DriverInv; }
    assert RequestInv(t) by { hide StackInv, QueueInv, WorkInv, UnwindInv, DriverInv; }
    assert WorkInv(t) by { hide StackInv, QueueInv, RequestInv, UnwindInv, DriverInv; }
    assert UnwindInv(t) by { hide QueueInv, RequestInv, WorkInv, DriverInv; }
    assert DriverInv(t) by {
      hide StackInv, QueueInv, RequestInv, WorkInv, UnwindInv;
      assert KeepsOuter(s.stack, |t.stack|, s.now);
      forall i | 0 <= i < |t.stack| ensures KeepsOuter(t.stack, i, t.now) {
        PrefixKept(t.stack, s.stack, i);
        assert KeepsOuter(s.stack, i, s.now);
      }
    }
    hide StackInv, QueueInv, RequestInv, WorkInv, UnwindInv, DriverInv;
  }

  lemma DoneKeeps(s: State, i: nat)
    requires CoreInv(s) && i < |s.stack|
    ensures CoreInv(s.(stack := s.stack[i := s.stack[i].(done := true)]))
  {
    var t := s.(stack := s.stack[i := s.stack[i].(done := true)]);
    assert StackInv(t) by { hide QueueInv, RequestInv, WorkInv, UnwindInv, DriverInv; }
    assert QueueInv(t) by { hide StackInv, RequestInv, WorkInv, UnwindInv, DriverInv; }
    assert RequestInv(t) by { hide StackInv, QueueInv, WorkInv, UnwindInv, DriverInv; }
    assert WorkInv(t) by { hide StackInv, QueueInv, RequestInv, UnwindInv, DriverInv; }
    assert UnwindInv(t) by { hide StackInv, QueueInv, RequestInv, WorkInv, DriverInv; }
    assert DriverInv(t) by { hide StackInv, QueueInv, RequestInv, WorkInv, UnwindInv; DriverKept(s, t); }
    hide StackInv, QueueInv, RequestInv, WorkInv, UnwindInv, DriverInv;
  }

  lemma SeenKeeps(s: State)
    requires CoreInv(s) && s.stack != [] && !s.sessions[Top(s).session].open
    ensures CoreInv(WithTop(s, Top(s).(unwindingSeen := true)))
  {
    var t := WithTop(s, Top(s).(unwindingSeen := true));
    assert StackInv(t) by { hide QueueInv, RequestInv, WorkInv, UnwindInv, DriverInv; }
    assert QueueInv(t) by { hide StackInv, RequestInv, WorkInv, UnwindInv, DriverInv; }
    assert RequestInv(t) by { hide StackInv, QueueInv, WorkInv, UnwindInv, DriverInv; }
    assert WorkInv(t) by { hide StackInv, QueueInv, RequestInv, UnwindInv, DriverInv; }
    assert UnwindInv(t) by { hide QueueInv, RequestInv, WorkInv, DriverInv; }
    assert DriverInv(t) by { hide StackInv, QueueInv, RequestInv, WorkInv, UnwindInv; DriverKept(s, t); }
    hide StackInv, QueueInv, RequestInv, WorkInv, UnwindInv, DriverInv;
  }

  lemma FlagKeeps(s: State, unwinding: bool)
    requires CoreInv(s) && (unwinding && s.stack != [] ==> !Checked(Top(s).point))
    ensures CoreInv(s.(unwinding := unwinding))
  {
    var t := s.(unwinding := unwinding);
    assert StackInv(t) by { hide QueueInv, RequestInv, WorkInv, UnwindInv, DriverInv; }
    assert QueueInv(t) by { hide StackInv, RequestInv, WorkInv, UnwindInv, DriverInv; }
    assert RequestInv(t) by { hide StackInv, QueueInv, WorkInv, UnwindInv, DriverInv; }
    assert WorkInv(t) by { hide StackInv, QueueInv, RequestInv, UnwindInv, DriverInv; }
    assert UnwindInv(t) by { hide StackInv, QueueInv, RequestInv, WorkInv, DriverInv; }
    assert DriverInv(t) by { hide StackInv, QueueInv, RequestInv, WorkInv, UnwindInv; DriverKept(s, t); }
    hide StackInv, QueueInv, RequestInv, WorkInv, UnwindInv, DriverInv;
  }

  lemma OpenKeeps(s: State, session: SessionId)
    requires CoreInv(s) && session !in s.sessions
    ensures CoreInv(s.(sessions := s.sessions[session := SessionState(true, "", [])]))
  {
    var t := s.(sessions := s.sessions[session := SessionState(true, "", [])]);
    assert StackInv(t) by { hide QueueInv, RequestInv, WorkInv, UnwindInv, DriverInv; }
    assert QueueInv(t) by { hide StackInv, RequestInv, WorkInv, UnwindInv, DriverInv; }
    assert RequestInv(t) by { hide StackInv, QueueInv, WorkInv, UnwindInv, DriverInv; }
    assert WorkInv(t) by { hide StackInv, QueueInv, RequestInv, UnwindInv, DriverInv; }
    assert UnwindInv(t) by { hide QueueInv, RequestInv, WorkInv, DriverInv; }
    assert DriverInv(t) by { hide StackInv, QueueInv, RequestInv, WorkInv, UnwindInv; DriverKept(s, t); }
    hide StackInv, QueueInv, RequestInv, WorkInv, UnwindInv, DriverInv;
  }

  /** Where nothing forbids it, a turn that sees the unwinding closes its session. */
  lemma CheckKeeps(s: State, reason: string)
    requires CoreInv(s) && s.stack != []
    ensures var t := CheckUnwinding(s, reason);
      && CoreInv(t) && t.unwinding == s.unwinding && |t.stack| == |s.stack| && Top(t).stuck == Top(s).stuck
      && Top(t).session == Top(s).session && Top(s).session in t.sessions
      && (s.unwinding ==> !t.sessions[Top(s).session].open)
  {
    hide QueueInv, RequestInv, WorkInv, DriverInv;
    if s.unwinding && !Top(s).unwindingSeen {
      CloseKeeps(s, Top(s).session, reason);
      SeenKeeps(CloseIn(s, Top(s).session, reason));
    }
  }

  lemma TurnKeeps(s: State, reason: string)
    requires CoreInv(s) && Enabled(s, Turn(reason))
    ensures CoreInv(NextTurn(s, reason))
  {
    CheckedIsClosed(s);
    hide QueueInv, RequestInv, WorkInv, UnwindInv, DriverInv, CheckUnwinding;
    match Top(s).point
    case CheckBefore =>
      CheckKeeps(s, reason);
      MoveKeeps(CheckUnwinding(s, reason), if Top(s).stuck then CheckAfter else Serve);
    case Serve =>
      if HasWork(s.sessions[Top(s).session]) { TakeKeeps(s); } else { MoveKeeps(s, CheckAfter); }
    case Finishing(_) => FinishedKeeps(s, reason);
    case AfterWork =>
      if s.unwinding {
        CloseKeeps(s, Top(s).session, reason);
        MoveKeeps(CloseIn(s, Top(s).session, reason), CheckAfter);
      } else {
        MoveKeeps(s, Serve);
      }
    case CheckAfter =>
      CheckKeeps(s, reason);
      MoveKeeps(CheckUnwinding(s, reason), Decide);
    case Decide =>
      if MayLeave(s) { PopKeeps(s); } else { MoveKeeps(s, CheckBefore); MoveKeeps(s, Parked(false)); }
  }

  lemma CoreKept(s: State, step: Step, limit: nat)
    requires CoreInv(s) && Enabled(s, step)
    ensures CoreInv(Apply(s, step, limit))
  {
    hide CoreInv, SubmitRequest, LookOnce, BeginLeaseOn, NextTurn, FinishWork, CloseIn, Notify;
    match step
    case OpenSession(session) => OpenKeeps(s, session);
    case CloseSession(session, reason) =>
      CloseKeeps(s, session, reason);
      NotifyKeeps(CloseIn(s, session, reason), session);
    case Submit(r, session) => SubmitKeeps(s, r, session);
    case Look(r) => LookKeeps(s, r, limit);
    case BeginLease(session, stuck) => BeginKeeps(s, session, stuck);
    case HelperDone(i) =>
      DoneKeeps(s, i);
      NotifyKeeps(s.(stack := s.stack[i := s.stack[i].(done := true)]), s.stack[i].session);
    case Turn(reason) => TurnKeeps(s, reason);
    case WorkReturns(unwinds) => FinishKeeps(s, unwinds);
    case PhpUnwinds => FlagKeeps(s, true);
    case Reraise => FlagKeeps(s, false);
    case Wake => MoveKeeps(s, CheckBefore);
    case Tick(now) => TickKeeps(s, now);
  }

  lemma TickKeeps(s: State, now: nat)
    requires CoreInv(s) && now >= s.now
    ensures CoreInv(s.(now := now))
  {
    var t := s.(now := now);
    assert StackInv(t) by { hide QueueInv, RequestInv, WorkInv, UnwindInv, DriverInv; }
    assert QueueInv(t) by { hide StackInv, RequestInv, WorkInv, UnwindInv, DriverInv; }
    assert RequestInv(t) by { hide StackInv, QueueInv, WorkInv, UnwindInv, DriverInv; }
    assert WorkInv(t) by { hide StackInv, QueueInv, RequestInv, UnwindInv, DriverInv; }
    assert UnwindInv(t) by { hide StackInv, QueueInv, RequestInv, WorkInv, DriverInv; }
    assert DriverInv(t) by { hide StackInv, QueueInv, RequestInv, WorkInv, UnwindInv; DriverKept(s, t); }
    hide StackInv, QueueInv, RequestInv, WorkInv, UnwindInv, DriverInv;
  }

  lemma WaitsKept(s: State, step: Step, limit: nat)
    requires Inv(s) && Enabled(s, step)
    ensures WaitInv(Apply(s, step, limit))
  {
    hide QueueInv, RequestInv, WorkInv, UnwindInv, DriverInv, UnservicedFor;
    match step
    case Turn(reason) => TurnWaits(s, reason);
    case _ =>
      hide NextTurn, FinishWork;
  }

  lemma TurnWaits(s: State, reason: string)
    requires Inv(s) && Enabled(s, Turn(reason))
    ensures WaitInv(NextTurn(s, reason))
  {
    hide QueueInv, RequestInv, WorkInv, UnwindInv, DriverInv, Closed;
    if Top(s).point != Decide {
      hide CoreInv, StackInv, WaitInv;
      OnlyDecidingParks(s, reason);
      hide NextTurn;
    } else {
      hide CheckUnwinding, TakeOne;
    }
  }

  lemma OnlyDecidingParks(s: State, reason: string)
    requires Enabled(s, Turn(reason)) && Top(s).point != Decide
    ensures NextTurn(s, reason).stack != [] ==> !Top(NextTurn(s, reason)).point.Parked?
    ensures WaitInv(NextTurn(s, reason))
  {
    hide Closed;
  }

  /** Every state of every run keeps the invariant. */
  lemma {:induction false} RunKeeps(from: State, steps: seq<Step>, limit: nat, to: State)
    requires Inv(from) && Run(from, steps, limit, to)
    ensures Inv(to)
    decreases |steps|
  {
    hide CoreInv, WaitInv, Enabled, Apply;
    if steps != [] {
      var n := |steps| - 1;
      var before :| Run(from, steps[..n], limit, before) && Enabled(before, steps[n])
          && to == Apply(before, steps[n], limit);
      RunKeeps(from, steps[..n], limit, before);
      CoreKept(before, steps[n], limit);
      WaitsKept(before, steps[n], limit);
    }
  }

  lemma ReachedIsSound(s: State, limit: nat)
    requires Reached(s, limit)
    ensures Inv(s)
  {
    var steps :| Run(Init(), steps, limit, s);
    RunKeeps(Init(), steps, limit, s);
  }
}
