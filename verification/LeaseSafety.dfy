/** What the callback protocol promises, in every interleaving. */
module LeaseSafety {
  import opened Wrappers
  import opened CopySession
  import opened LeaseProtocol
  import opened LeaseInvariant

  ghost predicate OnStack(s: State, r: RequestId) {
    exists i :: 0 <= i < |s.stack| && WorkOf(s.stack[i].point) == Some(r)
  }

  ghost predicate Queued(s: State, r: RequestId) {
    exists id <- s.sessions :: r in s.sessions[id].queue
  }

  /** `submit`: true means that the work ran once and ended, false that it never began; work
      is queued or running only while its submitter, which owns what it uses, still waits. */
  lemma SubmitContract(s: State, limit: nat, r: RequestId)
    requires Reached(s, limit) && r in s.requests
    ensures s.requests[r].runs <= 1 && s.requests[r].completions <= s.requests[r].runs
    ensures s.requests[r].submitter == Returned(true) ==> s.requests[r].runs == 1 && s.requests[r].completions == 1
    ensures s.requests[r].submitter == Returned(false) ==> s.requests[r].runs == 0
    ensures s.requests[r].submitter.Returned? ==> !OnStack(s, r) && !Queued(s, r)
  {
    ReachedIsSound(s, limit);
    hide StackInv, UnwindInv, WaitInv, DriverInv;
  }

  lemma AnswerStaysForOneStep(s: State, step: Step, limit: nat, r: RequestId)
    requires CoreInv(s) && Enabled(s, step) && r in s.requests && s.requests[r].submitter.Returned?
    ensures var t := Apply(s, step, limit); r in t.requests && t.requests[r] == s.requests[r]
  {
    hide StackInv, RequestInv, UnwindInv, DriverInv, UnservicedFor;
    match step
    case Turn(reason) => AnswerStaysForOneTurn(s, reason, r);
    case _ => hide QueueInv, NextTurn;
  }

  lemma AnswerStaysForOneTurn(s: State, reason: string, r: RequestId)
    requires CoreInv(s) && Enabled(s, Turn(reason)) && r in s.requests && s.requests[r].submitter.Returned?
    ensures var t := NextTurn(s, reason); r in t.requests && t.requests[r] == s.requests[r]
  {
    hide RequestInv, UnwindInv, DriverInv;
  }

  /** Once `submit` has returned nothing about its request ever changes: work refused by a
      closed or abandoned session never starts later. */
  lemma {:induction false} AnswersAreFinal(from: State, steps: seq<Step>, limit: nat, to: State, r: RequestId)
    requires Reached(from, limit) && Run(from, steps, limit, to)
    requires r in from.requests && from.requests[r].submitter.Returned?
    ensures r in to.requests && to.requests[r] == from.requests[r]
    decreases |steps|
  {
    hide CoreInv, WaitInv, Enabled, Apply, Reached;
    if steps != [] {
      var n := |steps| - 1;
      var before :| Run(from, steps[..n], limit, before) && Enabled(before, steps[n])
          && to == Apply(before, steps[n], limit);
      AnswersAreFinal(from, steps[..n], limit, before, r);
      ReachedIsSound(from, limit);
      RunKeeps(from, steps[..n], limit, before);
      AnswerStaysForOneStep(before, steps[n], limit, r);
    }
  }

  function Runs(s: State, r: RequestId): nat {
    if r in s.requests then s.requests[r].runs else 0
  }

  lemma UnwindingStep(s: State, step: Step, limit: nat, r: RequestId)
    requires CoreInv(s) && Enabled(s, step) && s.unwinding && step != Reraise
    ensures Apply(s, step, limit).unwinding && Runs(Apply(s, step, limit), r) == Runs(s, r)
  {
    hide StackInv, RequestInv, WorkInv, QueueInv, DriverInv, UnservicedFor;
    match step
    case Turn(reason) => UnwindingTurn(s, reason, r);
    case _ => hide UnwindInv, NextTurn;
  }

  lemma UnwindingTurn(s: State, reason: string, r: RequestId)
    requires CoreInv(s) && Enabled(s, Turn(reason)) && s.unwinding
    ensures NextTurn(s, reason).unwinding && Runs(NextTurn(s, reason), r) == Runs(s, r)
  {
    hide StackInv, RequestInv, WorkInv, QueueInv, DriverInv;
  }

  /** After exit() or a fatal error, until the outermost method re-raises it, no request of
      any session is started, whatever leases begin or end meanwhile. */
  lemma {:induction false} UnwindingStartsNothing(from: State, steps: seq<Step>, limit: nat, to: State, r: RequestId)
    requires Reached(from, limit) && from.unwinding && Run(from, steps, limit, to)
    requires Reraise !in steps
    ensures to.unwinding && Runs(to, r) == Runs(from, r)
    decreases |steps|
  {
    hide CoreInv, WaitInv, Enabled, Apply, Reached, Runs;
    if steps != [] {
      var n := |steps| - 1;
      var before :| Run(from, steps[..n], limit, before) && Enabled(before, steps[n])
          && to == Apply(before, steps[n], limit);
      UnwindingStartsNothing(from, steps[..n], limit, before, r);
      ReachedIsSound(from, limit);
      RunKeeps(from, steps[..n], limit, before);
      UnwindingStep(before, steps[n], limit, r);
    }
  }

  /** A lease ends exactly at its locked test, with the helper's work completed and nothing
      left to service; it then restores what the driver served outside it. */
  lemma LeaseReturns(s: State, step: Step, limit: nat)
    requires Reached(s, limit) && Enabled(s, step)
    ensures var t := Apply(s, step, limit);
      |t.stack| < |s.stack| <==> step.Turn? && Top(s).point == Decide && MayLeave(s)
    ensures var t := Apply(s, step, limit);
      |t.stack| < |s.stack| ==>
        && t.stack == s.stack[..|s.stack| - 1]
        && t.driver == Top(s).outer == if t.stack == [] then Home() else Away(ServedBy(Top(t)), Top(t).began)
  {
    ReachedIsSound(s, limit);
    LeaseLength(s, step, limit);
    CoreKept(s, step, limit);
    hide StackInv, RequestInv, WorkInv, UnwindInv, QueueInv, WaitInv, UnservicedFor;
  }

  lemma LeaseLength(s: State, step: Step, limit: nat)
    requires Enabled(s, step)
    ensures var t := Apply(s, step, limit);
      if step.BeginLease? then |t.stack| == |s.stack| + 1
      else if step.Turn? && Top(s).point == Decide && MayLeave(s) then t.stack == s.stack[..|s.stack| - 1]
      else |t.stack| == |s.stack|
  {
    hide UnservicedFor;
  }

  /** The begin time of a lease is that of its begin, for as long as it lasts. */
  lemma BeginTimesStay(s: State, step: Step, limit: nat)
    requires Enabled(s, step)
    ensures var t := Apply(s, step, limit);
      if step.BeginLease? then Begins(t) == Begins(s) + [s.now] else Begins(t) <= Begins(s)
  {
    hide UnservicedFor, Closed;
    match step
    case Turn(reason) => TurnBegins(s, reason); hide NextTurn;
    case _ => hide NextTurn;
  }

  function Begins(s: State): seq<nat> {
    seq(|s.stack|, i requires 0 <= i < |s.stack| => s.stack[i].began)
  }

  lemma TurnBegins(s: State, reason: string)
    requires Enabled(s, Turn(reason))
    ensures Begins(NextTurn(s, reason)) <= Begins(s)
  {
    hide Closed;
  }

  /** No wakeup is lost: a lease that sleeps without a notification has nothing to do. */
  lemma SleepersHaveNothingToDo(s: State, limit: nat)
    requires Reached(s, limit) && s.stack != [] && Top(s).point == Parked(false)
    ensures !Top(s).done
    ensures Top(s).session in s.sessions
    ensures Top(s).stuck || !s.sessions[Top(s).session].open || s.sessions[Top(s).session].queue == []
  {
    ReachedIsSound(s, limit);
    hide RequestInv, WorkInv, UnwindInv, QueueInv, DriverInv;
  }

  /** A waiting, unstarted request keeps the lease of its session awake. */
  lemma WaitingRequestWakesItsLease(s: State, limit: nat, r: RequestId)
    requires Reached(s, limit) && r in s.requests && s.requests[r].submitter.Waiting? && !s.requests[r].started
    requires s.requests[r].session in s.sessions && s.sessions[s.requests[r].session].open
    requires s.stack != [] && Top(s).session == s.requests[r].session && !Top(s).stuck
    ensures Top(s).point != Parked(false)
    ensures r in s.sessions[s.requests[r].session].queue
  {
    ReachedIsSound(s, limit);
    hide WorkInv, UnwindInv, QueueInv, DriverInv, StackInv;
  }

  lemma ClosedQueuesAreEmpty(s: State, limit: nat, id: SessionId)
    requires Reached(s, limit) && id in s.sessions && !s.sessions[id].open
    ensures s.sessions[id].queue == []
  {
    ReachedIsSound(s, limit);
    hide WorkInv, UnwindInv, RequestInv, DriverInv, StackInv;
  }

  /** A request is abandoned only while the request thread is inside a lease that does not
      serve its session, for longer than the limit since both that lease and the request began. */
  lemma AbandonedOnlyWhileAway(s: State, limit: nat, r: RequestId)
    requires Reached(s, limit) && r in s.requests && s.requests[r].session in s.sessions
    ensures Outcome(s, r, limit) == Abandoned <==>
      && !s.requests[r].finished && !s.requests[r].started && s.sessions[s.requests[r].session].open
      && s.stack != [] && ServedBy(Top(s)) != Some(s.requests[r].session)
      && s.now - Top(s).began > limit && s.now - s.requests[r].queuedAt > limit
  {
    ReachedIsSound(s, limit);
    assert s.stack != [] ==> KeepsOuter(s.stack, |s.stack| - 1, s.now);
    hide WorkInv, UnwindInv, QueueInv, RequestInv, StackInv, WaitInv;
  }

  /** What a submitter's look finds: it is answered exactly when its work ended, or will not
      begin because the session is closed or the request thread stayed away. */
  lemma LooksAreAnswered(s: State, limit: nat, r: RequestId)
    requires Reached(s, limit) && Enabled(s, Look(r))
    ensures var after := Apply(s, Look(r), limit).requests[r].submitter; var q := s.requests[r];
      && (after == Returned(true) <==> q.finished)
      && (after == Returned(false) <==>
            !q.started && (!s.sessions[q.session].open || Outcome(s, r, limit) == Abandoned))
    ensures Outcome(s, r, limit) == Abandoned ==>
              !Apply(s, Look(r), limit).sessions[s.requests[r].session].open
  {
    ReachedIsSound(s, limit);
    hide StackInv, QueueInv, WorkInv, UnwindInv, WaitInv, DriverInv, UnservicedFor;
  }

  /** A lease that serves takes the oldest queued request, and runs it. */
  lemma ServingTakesTheOldest(s: State, limit: nat, reason: string)
    requires Reached(s, limit) && Enabled(s, Turn(reason)) && Top(s).point == Serve
    ensures var session := s.sessions[Top(s).session]; var t := Apply(s, Turn(reason), limit);
      if session.open && session.queue != [] then
        var r := session.queue[0];
        && r in t.requests && t.requests[r].runs == 1 && t.requests[r].started && Top(t).point == Running(r)
        && t.sessions[Top(s).session].queue == session.queue[1..]
      else
        Top(t).point == CheckAfter && t.requests == s.requests && t.sessions == s.sessions
  {
    ReachedIsSound(s, limit);
    hide StackInv, WorkInv, UnwindInv, WaitInv, DriverInv;
  }
}
