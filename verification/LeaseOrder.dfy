/** Requests of a session start in the order of their submission. */
module LeaseOrder {
  import opened Wrappers
  import opened CopySession
  import opened LeaseProtocol
  import opened LeaseInvariant

  /** A request submitted to an open session comes last in its queue and waits; a closed session
      refuses it at once. Nothing else changes but a sleeping lease, which wakes. */
  lemma SubmitQueuesLast(s: State, limit: nat, r: RequestId, id: SessionId)
    requires Enabled(s, Submit(r, id))
    ensures var t := Apply(s, Submit(r, id), limit); var open := s.sessions[id].open;
      && t.requests ==
           s.requests[r := Request(id, s.now, false, false, if open then Waiting else Returned(false), 0, 0)]
      && t.sessions ==
           (if open then s.sessions[id := s.sessions[id].(queue := s.sessions[id].queue + [r])] else s.sessions)
      && t.unwinding == s.unwinding && t.now == s.now && t.driver == s.driver && |t.stack| == |s.stack|
      && forall i :: 0 <= i < |s.stack| ==>
           t.stack[i] ==
             if open && i == |s.stack| - 1 && s.stack[i].session == id && s.stack[i].point.Parked?
             then s.stack[i].(point := Parked(true)) else s.stack[i]
  {}

  function QueueOf(s: State, id: SessionId): seq<RequestId> {
    if id in s.sessions then s.sessions[id].queue else []
  }

  predicate OpenIn(s: State, id: SessionId) {
    id in s.sessions && s.sessions[id].open
  }

  /** `a` was queued before `b`, and neither is taken yet. */
  predicate InOrder(q: seq<RequestId>, a: RequestId, b: RequestId) {
    exists i, j :: 0 <= i < j < |q| && q[i] == a && q[j] == b
  }

  ghost predicate StartedIn(s: State, r: RequestId) {
    r in s.requests && s.requests[r].started
  }

  /** `b` cannot start before `a`. */
  ghost predicate Ordered(s: State, id: SessionId, a: RequestId, b: RequestId) {
    && a in s.requests && b in s.requests && s.requests[b].session == id && id in s.sessions
    && (StartedIn(s, a) || (!StartedIn(s, b) && (OpenIn(s, id) ==> InOrder(QueueOf(s, id), a, b))))
  }

  /** One step changes a session's queue at its ends only. */
  lemma QueueSteps(s: State, step: Step, limit: nat, id: SessionId)
    requires CoreInv(s) && Enabled(s, step) && id in s.sessions
    ensures id in Apply(s, step, limit).sessions
    ensures var q, after := s.sessions[id].queue, Apply(s, step, limit).sessions[id];
      if !after.open then after.queue == []
      else if step.Submit? && step.session == id then after.queue == q + [step.request]
      else if step.Turn? && Top(s).point == Serve && Top(s).session == id && q != [] then
        after.queue == q[1..] && StartedIn(Apply(s, step, limit), q[0])
      else after.queue == q
    ensures Apply(s, step, limit).sessions[id].open ==> s.sessions[id].open
  {
    hide StackInv, RequestInv, WorkInv, UnwindInv, DriverInv, UnservicedFor;
    match step
    case Turn(reason) => TurnQueues(s, reason, id); hide NextTurn, QueueInv;
    case _ => hide NextTurn;
  }

  lemma TurnQueues(s: State, reason: string, id: SessionId)
    requires CoreInv(s) && Enabled(s, Turn(reason)) && id in s.sessions
    ensures id in NextTurn(s, reason).sessions
    ensures var q, after := s.sessions[id].queue, NextTurn(s, reason).sessions[id];
      if !after.open then after.queue == []
      else if Top(s).point == Serve && Top(s).session == id && q != [] then
        after.queue == q[1..] && StartedIn(NextTurn(s, reason), q[0])
      else after.queue == q
    ensures NextTurn(s, reason).sessions[id].open ==> s.sessions[id].open
  {
    hide StackInv, RequestInv, WorkInv, UnwindInv, DriverInv;
  }

  lemma TurnStarts(s: State, reason: string, r: RequestId)
    requires CoreInv(s) && Enabled(s, Turn(reason)) && r in s.requests
    ensures var t := NextTurn(s, reason);
      && r in t.requests && t.requests[r].session == s.requests[r].session
      && (StartedIn(s, r) ==> StartedIn(t, r))
      && (StartedIn(t, r) && !StartedIn(s, r) ==>
            Top(s).point == Serve && Top(s).session == s.requests[r].session
            && OpenIn(s, s.requests[r].session) && QueueOf(s, s.requests[r].session) != []
            && QueueOf(s, s.requests[r].session)[0] == r)
  {
    hide StackInv, RequestInv, WorkInv, UnwindInv, DriverInv;
  }

  /** Only a turn that services a session starts one of its requests: the first of its queue. */
  lemma OnlyTheFirstStarts(s: State, step: Step, limit: nat, r: RequestId)
    requires CoreInv(s) && Enabled(s, step) && r in s.requests
    ensures var t := Apply(s, step, limit);
      && r in t.requests && t.requests[r].session == s.requests[r].session
      && (StartedIn(s, r) ==> StartedIn(t, r))
      && (StartedIn(t, r) && !StartedIn(s, r) ==>
            step.Turn? && Top(s).point == Serve && Top(s).session == s.requests[r].session
            && OpenIn(s, s.requests[r].session) && QueueOf(s, s.requests[r].session) != []
            && QueueOf(s, s.requests[r].session)[0] == r)
  {
    hide StackInv, RequestInv, WorkInv, UnwindInv, DriverInv, UnservicedFor;
    match step
    case Turn(reason) => TurnStarts(s, reason, r); hide NextTurn, QueueInv;
    case _ => hide NextTurn, QueueInv;
  }

  lemma OrderKept(s: State, step: Step, limit: nat, id: SessionId, a: RequestId, b: RequestId)
    requires CoreInv(s) && Enabled(s, step) && Ordered(s, id, a, b)
    ensures Ordered(Apply(s, step, limit), id, a, b)
  {
    QueueSteps(s, step, limit, id);
    OnlyTheFirstStarts(s, step, limit, a);
    OnlyTheFirstStarts(s, step, limit, b);
    assert NoDuplicates(QueueOf(s, id)) by { hide StackInv, RequestInv, WorkInv, UnwindInv, DriverInv, Apply, Enabled; }
    hide CoreInv, Apply, Enabled;
    if !StartedIn(s, a) && OpenIn(s, id) {
      var q := QueueOf(s, id);
      var i, j :| 0 <= i < j < |q| && q[i] == a && q[j] == b;
      var after := QueueOf(Apply(s, step, limit), id);
      if after == q[1..] && i > 0 {
        assert after[i - 1] == a && after[j - 1] == b;
      } else if q <= after {
        assert after[i] == a && after[j] == b;
      }
    }
  }

  /** First in, first started: of two requests queued in one session the earlier starts first,
      in every run; when the session closes between, the later never starts. */
  lemma {:induction false} FirstInFirstStarted(from: State, steps: seq<Step>, limit: nat, to: State, id: SessionId,
                                               a: RequestId, b: RequestId)
    requires Reached(from, limit) && Run(from, steps, limit, to)
    requires id in from.sessions && InOrder(from.sessions[id].queue, a, b)
    ensures StartedIn(to, b) ==> StartedIn(to, a)
  {
    ReachedIsSound(from, limit);
    QueuedUnstarted(from, id, a);
    QueuedUnstarted(from, id, b);
    hide Reached, Inv, Run;
    OrderedThroughout(from, steps, limit, to, id, a, b);
  }

  lemma QueuedUnstarted(s: State, id: SessionId, r: RequestId)
    requires CoreInv(s) && id in s.sessions && r in s.sessions[id].queue
    ensures r in s.requests && s.requests[r].session == id && !s.requests[r].started
  {
    hide StackInv, RequestInv, WorkInv, UnwindInv, DriverInv;
  }

  lemma {:induction false} OrderedThroughout(from: State, steps: seq<Step>, limit: nat, to: State, id: SessionId,
                                             a: RequestId, b: RequestId)
    requires Inv(from) && Ordered(from, id, a, b) && Run(from, steps, limit, to)
    ensures Ordered(to, id, a, b)
    decreases |steps|
  {
    hide CoreInv, WaitInv, Ordered, Enabled, Apply;
    if steps != [] {
      var n := |steps| - 1;
      var before :| Run(from, steps[..n], limit, before) && Enabled(before, steps[n])
          && to == Apply(before, steps[n], limit);
      OrderedThroughout(from, steps[..n], limit, before, id, a, b);
      LeaseInvariant.RunKeeps(from, steps[..n], limit, before);
      OrderKept(before, steps[n], limit, id, a, b);
    }
  }

  /** The first reason stays: whoever closes a session again, and whatever else happens, a closed
      session keeps its reason and stays empty, and refuses every later request with it. */
  lemma {:induction false} ClosedForGood(from: State, steps: seq<Step>, limit: nat, to: State, id: SessionId)
    requires Reached(from, limit) && Run(from, steps, limit, to)
    requires id in from.sessions && !from.sessions[id].open
    ensures id in to.sessions && to.sessions[id] == from.sessions[id] && to.sessions[id].queue == []
    decreases |steps|
  {
    hide CoreInv, WaitInv, Enabled, Apply, Reached;
    ReachedIsSound(from, limit);
    if steps == [] {
      QueuesOfClosed(from, id);
    } else {
      var n := |steps| - 1;
      var before :| Run(from, steps[..n], limit, before) && Enabled(before, steps[n])
          && to == Apply(before, steps[n], limit);
      ClosedForGood(from, steps[..n], limit, before, id);
      ClosedOnce(before, steps[n], limit, id);
    }
  }

  lemma QueuesOfClosed(s: State, id: SessionId)
    requires CoreInv(s) && id in s.sessions && !s.sessions[id].open
    ensures s.sessions[id].queue == []
  {
    hide StackInv, RequestInv, WorkInv, UnwindInv, DriverInv;
  }

  lemma ClosedOnce(s: State, step: Step, limit: nat, id: SessionId)
    requires Enabled(s, step) && id in s.sessions && !s.sessions[id].open
    ensures id in Apply(s, step, limit).sessions && Apply(s, step, limit).sessions[id] == s.sessions[id]
  {
    hide UnservicedFor;
    match step
    case Turn(reason) => ClosedInTurn(s, reason, id); hide NextTurn;
    case _ => hide NextTurn, FinishWork;
  }

  lemma ClosedInTurn(s: State, reason: string, id: SessionId)
    requires Enabled(s, Turn(reason)) && id in s.sessions && !s.sessions[id].open
    ensures id in NextTurn(s, reason).sessions && NextTurn(s, reason).sessions[id] == s.sessions[id]
  {}

  /** The first close sets the reason and drops what is queued. */
  lemma FirstCloseWins(s: State, limit: nat, id: SessionId, reason: string)
    requires Enabled(s, CloseSession(id, reason))
    ensures var t := Apply(s, CloseSession(id, reason), limit);
      && t.requests == s.requests
      && t.sessions == if s.sessions[id].open then s.sessions[id := SessionState(false, reason, [])] else s.sessions
  {
    assert s.sessions[id := s.sessions[id]] == s.sessions;
  }

  /** A session is open and empty at first: the first request submitted to it heads its queue. */
  lemma NewSessionTakesRequests(s: State, limit: nat, id: SessionId, r: RequestId)
    requires Enabled(s, OpenSession(id)) && r !in s.requests
    ensures var t := Apply(s, OpenSession(id), limit);
      && t.requests == s.requests && t.sessions - {id} == s.sessions
      && Enabled(t, Submit(r, id))
      && var u := Apply(t, Submit(r, id), limit);
      u.sessions[id].queue == [r] && u.requests[r].submitter == Waiting && !u.requests[r].started
  {
    SubmitQueuesLast(Apply(s, OpenSession(id), limit), limit, r, id);
  }
}
