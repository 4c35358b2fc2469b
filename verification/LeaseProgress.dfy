/** How far the request thread's own turns lead, whatever other threads do between them. */
module LeaseProgress {
  import opened Wrappers
  import opened CopySession
  import opened LeaseProtocol
  import opened LeaseInvariant

  /** A step of the request thread inside its innermost lease, outside PHP. */
  predicate Own(step: Step) {
    step.Turn? || step.Wake?
  }

  function OwnSteps(steps: seq<Step>): nat {
    if steps == [] then 0
    else OwnSteps(steps[..|steps| - 1]) + if Own(steps[|steps| - 1]) then 1 else 0
  }

  /** Outside PHP the request thread always has a next step. */
  lemma NeverStuck(s: State, limit: nat, reason: string)
    requires Reached(s, limit) && s.stack != [] && !Top(s).point.Running?
    ensures Enabled(s, if Top(s).point.Parked? then Wake else Turn(reason))
  {
    ReachedIsSound(s, limit);
    SoundTurns(s, reason);
    hide Reached, Inv, Enabled;
  }

  lemma SoundTurns(s: State, reason: string)
    requires Inv(s) && s.stack != [] && !Top(s).point.Running?
    ensures Enabled(s, if Top(s).point.Parked? then Wake else Turn(reason))
  {
    hide UnwindInv, RequestInv, DriverInv, WaitInv;
  }

  /* Service */

  /** How many own turns a lease takes from a point outside PHP work to the start of the
      oldest request. */
  function ToService(p: Point): nat {
    match p
    case Serve => 1
    case CheckBefore => 2
    case AfterWork => 2
    case Finishing(_) => 3
    case Decide => 3
    case Parked(_) => 3
    case CheckAfter => 4
    case Running(_) => 0
  }

  /** The innermost lease is about to service `r` within `n` of its turns. */
  ghost predicate Upcoming(s: State, id: SessionId, r: RequestId, n: int) {
    && s.stack != [] && Top(s).session == id && !Top(s).stuck && !s.unwinding && !Top(s).point.Running?
    && id in s.sessions && s.sessions[id].open && s.sessions[id].queue != [] && s.sessions[id].queue[0] == r
    && ToService(Top(s).point) <= n
  }

  predicate Servicing(s: State, id: SessionId, r: RequestId) {
    && s.stack != [] && Top(s).session == id && Top(s).point == Running(r)
    && r in s.requests && s.requests[r].started
  }

  predicate Serviced(s: State, id: SessionId, r: RequestId) {
    || (r in s.requests && s.requests[r].started)
    || (id in s.sessions && !s.sessions[id].open)
  }

  lemma ServicedStays(s: State, step: Step, limit: nat, id: SessionId, r: RequestId)
    requires Enabled(s, step) && Serviced(s, id, r)
    ensures Serviced(Apply(s, step, limit), id, r)
  {
    hide UnservicedFor;
    match step
    case Turn(reason) => ServicedStaysInTurn(s, reason, id, r); hide NextTurn;
    case _ => hide NextTurn;
  }

  lemma ServicedStaysInTurn(s: State, reason: string, id: SessionId, r: RequestId)
    requires Enabled(s, Turn(reason)) && Serviced(s, id, r)
    ensures Serviced(NextTurn(s, reason), id, r)
  {}

  lemma TurnsLeadToService(s: State, reason: string, id: SessionId, r: RequestId, n: int)
    requires Enabled(s, Turn(reason)) && Upcoming(s, id, r, n)
    ensures if Top(s).point == Serve then Servicing(NextTurn(s, reason), id, r)
            else Upcoming(NextTurn(s, reason), id, r, n - 1)
  {
    hide Closed;
  }

  lemma OthersLeaveServiceAhead(s: State, step: Step, limit: nat, id: SessionId, r: RequestId, n: int)
    requires Enabled(s, step) && Upcoming(s, id, r, n) && !Own(step)
    ensures Serviced(Apply(s, step, limit), id, r) || Upcoming(Apply(s, step, limit), id, r, n)
  {
    hide UnservicedFor, NextTurn;
  }

  lemma ServiceComesNearer(s: State, step: Step, limit: nat, id: SessionId, r: RequestId, n: int)
    requires Enabled(s, step) && (Serviced(s, id, r) || Upcoming(s, id, r, n))
    ensures var m := if Own(step) then n - 1 else n;
      Serviced(Apply(s, step, limit), id, r) || Upcoming(Apply(s, step, limit), id, r, m)
  {
    if Serviced(s, id, r) {
      hide *;
      ServicedStays(s, step, limit, id, r);
    } else if Own(step) {
      hide NextTurn;
      if step.Turn? {
        TurnsLeadToService(s, step.reason, id, r, n);
      }
    } else {
      hide *;
      OthersLeaveServiceAhead(s, step, limit, id, r, n);
    }
  }

  lemma {:induction false} UpcomingInTime(from: State, steps: seq<Step>, limit: nat, to: State, id: SessionId,
                                          r: RequestId, n: nat)
    requires Upcoming(from, id, r, n) && Run(from, steps, limit, to)
    ensures Serviced(to, id, r) || Upcoming(to, id, r, n - OwnSteps(steps))
    decreases |steps|
  {
    hide Upcoming, Serviced, Enabled, Apply;
    if steps != [] {
      var k := |steps| - 1;
      var before :| Run(from, steps[..k], limit, before) && Enabled(before, steps[k])
          && to == Apply(before, steps[k], limit);
      UpcomingInTime(from, steps[..k], limit, before, id, r, n);
      ServiceComesNearer(before, steps[k], limit, id, r, n - OwnSteps(steps[..k]));
    }
  }

  /** Progress: whatever other threads do, after a bounded number of its own turns a lease that
      serves an open session has started the oldest request, unless the session was closed. */
  lemma OldestStartsInTime(from: State, steps: seq<Step>, limit: nat, to: State)
    requires Reached(from, limit) && Run(from, steps, limit, to)
    requires from.stack != [] && !Top(from).stuck && !from.unwinding && !Top(from).point.Running?
    requires Top(from).session in from.sessions && HasWork(from.sessions[Top(from).session])
    requires OwnSteps(steps) >= ToService(Top(from).point)
    ensures var id := Top(from).session; var r := from.sessions[id].queue[0];
      || (r in to.requests && to.requests[r].started && to.requests[r].runs == 1)
      || (id in to.sessions && !to.sessions[id].open)
  {
    hide Run, Reached, Inv, OwnSteps;
    var id := Top(from).session;
    var r := from.sessions[id].queue[0];
    UpcomingInTime(from, steps, limit, to, id, r, ToService(Top(from).point));
    ReachedIsSound(from, limit);
    LeaseInvariant.RunKeeps(from, steps, limit, to);
    StartedRunsOnce(to, r);
  }

  lemma StartedRunsOnce(s: State, r: RequestId)
    requires Inv(s)
    ensures r in s.requests && s.requests[r].started ==> s.requests[r].runs == 1
  {
    hide StackInv, QueueInv, WorkInv, UnwindInv, DriverInv, WaitInv;
  }

  /** The state after `n` turns of the request thread alone. */
  ghost function AfterTurns(s: State, n: nat, reason: string, limit: nat): State
    decreases n
  {
    if n == 0 || s.stack == [] then s
    else
      var step := if Top(s).point.Parked? then Wake else Turn(reason);
      if Enabled(s, step) then AfterTurns(Apply(s, step, limit), n - 1, reason, limit) else s
  }

  lemma {:induction false} TurnsServe(s: State, n: nat, reason: string, limit: nat, id: SessionId, r: RequestId)
    requires Inv(s) && Upcoming(s, id, r, n) && ToService(Top(s).point) == n
    ensures Servicing(AfterTurns(s, n, reason, limit), id, r) && Inv(AfterTurns(s, n, reason, limit))
    decreases n
  {
    hide Servicing, CoreInv, WaitInv, NextTurn;
    var step := if Top(s).point.Parked? then Wake else Turn(reason);
    SoundTurns(s, reason);
    CoreKept(s, step, limit);
    WaitsKept(s, step, limit);
    ExactTurn(s, reason, limit, id, r);
    hide Inv, Apply, Enabled;
    if Top(s).point != Serve {
      TurnsServe(Apply(s, step, limit), n - 1, reason, limit, id, r);
    }
  }

  lemma ExactTurn(s: State, reason: string, limit: nat, id: SessionId, r: RequestId)
    requires s.stack != [] && Upcoming(s, id, r, ToService(Top(s).point))
    requires Enabled(s, if Top(s).point.Parked? then Wake else Turn(reason))
    ensures var t := Apply(s, if Top(s).point.Parked? then Wake else Turn(reason), limit);
      if Top(s).point == Serve then Servicing(t, id, r)
      else Upcoming(t, id, r, ToService(Top(s).point) - 1) && ToService(Top(t).point) == ToService(Top(s).point) - 1
  {
    hide Closed;
  }

  /** Undisturbed, the lease runs the oldest request after exactly that many turns. */
  lemma OldestRunsNext(s: State, reason: string, limit: nat)
    requires Reached(s, limit)
    requires s.stack != [] && !Top(s).stuck && !s.unwinding && !Top(s).point.Running?
    requires Top(s).session in s.sessions && HasWork(s.sessions[Top(s).session])
    ensures var r := s.sessions[Top(s).session].queue[0];
      var t := AfterTurns(s, ToService(Top(s).point), reason, limit);
      && t.stack != [] && Top(t).point == Running(r) && Top(t).session == Top(s).session
      && r in t.requests && t.requests[r].started && t.requests[r].runs == 1
  {
    var id := Top(s).session;
    var r := s.sessions[id].queue[0];
    var n := ToService(Top(s).point);
    ReachedIsSound(s, limit);
    hide Reached, Inv, AfterTurns;
    TurnsServe(s, n, reason, limit, id, r);
    StartedRunsOnce(AfterTurns(s, n, reason, limit), r);
  }

  /* Return */

  /** How many own turns a lease takes from a point outside PHP work to its end, once its leased
      work is done and it has nothing to service. */
  function ToReturn(p: Point): nat {
    match p
    case Decide => 1
    case CheckAfter => 2
    case Serve => 3
    case CheckBefore => 4
    case AfterWork => 4
    case Finishing(_) => 5
    case Parked(_) => 5
    case Running(_) => 0
  }

  /** The innermost of `depth` leases ends within `n` of its turns. With `quiet` that counts on
      its queue staying empty. */
  ghost predicate Returning(s: State, depth: nat, id: SessionId, quiet: bool, n: int) {
    && s.stack != [] && |s.stack| == depth && Top(s).session == id && Top(s).done && !Top(s).point.Running?
    && (Top(s).stuck ==> !Services(Top(s).point))
    && id in s.sessions && (Top(s).stuck || !s.sessions[id].open || (quiet && s.sessions[id].queue == []))
    && ToReturn(Top(s).point) <= n
  }

  lemma TurnsLeadToReturn(s: State, reason: string, depth: nat, id: SessionId, quiet: bool, n: int)
    requires Enabled(s, Turn(reason)) && Returning(s, depth, id, quiet, n)
    ensures if Top(s).point == Decide then |NextTurn(s, reason).stack| == depth - 1
            else Returning(NextTurn(s, reason), depth, id, quiet, n - 1)
  {}

  lemma OthersLeaveReturnAhead(s: State, step: Step, limit: nat, depth: nat, id: SessionId, quiet: bool, n: int)
    requires Enabled(s, step) && Returning(s, depth, id, quiet, n) && !Own(step)
    requires quiet && step.Submit? ==> step.session != id
    ensures Returning(Apply(s, step, limit), depth, id, quiet, n)
  {
    hide UnservicedFor, NextTurn;
    match step
    case Look(r) => LooksLeaveReturnAhead(s, r, limit, depth, id, quiet, n); hide LookOnce;
    case Submit(r, session) => hide LookOnce, FinishWork, CloseIn;
    case _ => hide LookOnce, SubmitRequest, FinishWork;
  }

  lemma LooksLeaveReturnAhead(s: State, r: RequestId, limit: nat, depth: nat, id: SessionId, quiet: bool, n: int)
    requires Enabled(s, Look(r)) && Returning(s, depth, id, quiet, n)
    ensures Returning(LookOnce(s, r, limit), depth, id, quiet, n)
  {
    hide Outcome;
  }

  lemma ReturnComesNearer(s: State, step: Step, limit: nat, depth: nat, id: SessionId, quiet: bool, n: int)
    requires Enabled(s, step) && Returning(s, depth, id, quiet, n)
    requires quiet && step.Submit? ==> step.session != id
    ensures var t := Apply(s, step, limit); var m := if Own(step) then n - 1 else n;
      |t.stack| == depth - 1 || Returning(t, depth, id, quiet, m)
  {
    if Own(step) {
      hide NextTurn;
      if step.Turn? {
        TurnsLeadToReturn(s, step.reason, depth, id, quiet, n);
      }
    } else {
      hide *;
      OthersLeaveReturnAhead(s, step, limit, depth, id, quiet, n);
    }
  }

  /** Somewhere in a run from `from` by `steps` the innermost lease has ended. */
  ghost predicate Ended(from: State, steps: seq<Step>, limit: nat) {
    exists k, mid :: EndedAt(from, steps, limit, k, mid)
  }

  ghost predicate EndedAt(from: State, steps: seq<Step>, limit: nat, k: nat, mid: State) {
    k <= |steps| && Run(from, steps[..k], limit, mid) && |mid.stack| == |from.stack| - 1
  }

  lemma EndedStays(from: State, steps: seq<Step>, limit: nat)
    requires steps != [] && Ended(from, steps[..|steps| - 1], limit)
    ensures Ended(from, steps, limit)
  {
    hide Run;
    var k: nat, mid :| EndedAt(from, steps[..|steps| - 1], limit, k, mid);
    assert steps[..|steps| - 1][..k] == steps[..k];
    assert EndedAt(from, steps, limit, k, mid);
  }

  lemma {:induction false} ReturningInTime(from: State, steps: seq<Step>, limit: nat, to: State, id: SessionId,
                                           quiet: bool, n: nat)
    requires Returning(from, |from.stack|, id, quiet, n) && Run(from, steps, limit, to)
    requires quiet ==> forall step <- steps :: step.Submit? ==> step.session != id
    ensures Ended(from, steps, limit) || Returning(to, |from.stack|, id, quiet, n - OwnSteps(steps))
    decreases |steps|
  {
    hide Returning, Enabled, Apply, Ended;
    if steps != [] {
      var k := |steps| - 1;
      var before :| Run(from, steps[..k], limit, before) && Enabled(before, steps[k])
          && to == Apply(before, steps[k], limit);
      ReturningInTime(from, steps[..k], limit, before, id, quiet, n);
      if Ended(from, steps[..k], limit) {
        EndedStays(from, steps, limit);
      } else {
        ReturnComesNearer(before, steps[k], limit, |from.stack|, id, quiet, n - OwnSteps(steps[..k]));
        EndedNow(from, steps, limit, to);
      }
    }
  }

  lemma EndedNow(from: State, steps: seq<Step>, limit: nat, to: State)
    requires Run(from, steps, limit, to)
    ensures |to.stack| == |from.stack| - 1 ==> Ended(from, steps, limit)
  {
    hide Run;
    assert steps[..|steps|] == steps;
    assert |to.stack| == |from.stack| - 1 ==> EndedAt(from, steps, limit, |steps|, to);
  }

  /** A lease that cannot service its session is never in its requests' work. */
  lemma StuckServicesNothing(s: State, limit: nat, i: nat)
    requires Reached(s, limit) && i < |s.stack|
    ensures s.stack[i].stuck ==> !Services(s.stack[i].point)
  {
    ReachedIsSound(s, limit);
    hide QueueInv, RequestInv, WorkInv, UnwindInv, DriverInv, WaitInv;
  }

  /** Progress: once its leased work is done, a lease whose session is closed or that does not
      serve ends after a bounded number of its own turns, whatever other threads do; one that
      serves an open session does so too unless a request is submitted to it meanwhile. */
  lemma DoneLeaseReturnsInTime(from: State, steps: seq<Step>, limit: nat, to: State)
    requires Reached(from, limit) && Run(from, steps, limit, to)
    requires from.stack != [] && Top(from).done && !Top(from).point.Running?
    requires Top(from).session in from.sessions && MayLeave(from)
    requires !Top(from).stuck && from.sessions[Top(from).session].open ==>
               forall step <- steps :: step.Submit? ==> step.session != Top(from).session
    requires OwnSteps(steps) >= ToReturn(Top(from).point)
    ensures exists k, mid :: EndedAt(from, steps, limit, k, mid)
  {
    hide Run, Reached, Enabled, OwnSteps, EndedAt, Services;
    StuckServicesNothing(from, limit, |from.stack| - 1);
    var id := Top(from).session;
    var quiet := !Top(from).stuck && from.sessions[id].open;
    ReturningInTime(from, steps, limit, to, id, quiet, ToReturn(Top(from).point));
  }

  /* Unwinding */

  /** Outside PHP work a lease never takes long to close its session after an unwinding: it is
      closed where the lease takes requests, decides or waits, the next check closes it, and
      work that returns comes to a check. */
  lemma UnwindingCloses(s: State, limit: nat, reason: string)
    requires Reached(s, limit) && s.stack != [] && s.unwinding && !Top(s).point.Running?
    ensures Top(s).session in s.sessions
    ensures Checked(Top(s).point) ==> !s.sessions[Top(s).session].open
    ensures !Top(s).point.Parked? ==> Enabled(s, Turn(reason))
    ensures Top(s).point.Finishing? ==>
              var t := Apply(s, Turn(reason), limit);
              t.stack != [] && Top(t).point == AfterWork && Top(t).session == Top(s).session
    ensures Top(s).point in {CheckBefore, AfterWork, CheckAfter} ==>
              var id, t := Top(s).session, Apply(s, Turn(reason), limit);
              id in t.sessions
              && t.sessions[id] == if s.sessions[id].open then SessionState(false, reason, []) else s.sessions[id]
  {
    ReachedIsSound(s, limit);
    SoundTurns(s, reason);
    CheckedIsClosed(s);
    hide QueueInv, RequestInv, WorkInv, DriverInv, WaitInv;
  }

  /** Work that returns is answered: one turn later its request is finished, and its
      submitter's next look returns true. */
  lemma WorkIsAnswered(s: State, limit: nat, unwinds: bool, reason: string)
    requires Reached(s, limit) && Enabled(s, WorkReturns(unwinds))
    ensures var r := Top(s).point.running; var t := Apply(s, WorkReturns(unwinds), limit);
      && t.unwinding == (s.unwinding || unwinds) && Enabled(t, Turn(reason))
      && var u := Apply(t, Turn(reason), limit);
      && r in u.requests && u.requests[r] == s.requests[r].(finished := true, completions := 1)
      && u.requests[r].runs == 1 && Enabled(u, Look(r)) && Outcome(u, r, limit) == Delivered
  {
    ReachedIsSound(s, limit);
    hide QueueInv, UnwindInv, DriverInv, WaitInv, UnservicedFor;
  }

  /** The flag of exit() or a fatal error: set by such an end of PHP code or of a request's work,
      cleared by the outermost method only, and by nothing else. */
  lemma UnwindingIsRecorded(s: State, step: Step, limit: nat)
    requires Enabled(s, step)
    ensures Apply(s, step, limit).unwinding <==>
              step == PhpUnwinds || step == WorkReturns(true) || (s.unwinding && step != Reraise)
  {
    hide UnservicedFor;
    match step
    case Turn(reason) => TurnsLeaveTheFlag(s, reason); hide NextTurn;
    case _ => hide NextTurn;
  }

  lemma TurnsLeaveTheFlag(s: State, reason: string)
    requires Enabled(s, Turn(reason))
    ensures NextTurn(s, reason).unwinding == s.unwinding
  {}

  lemma LeaseBegins(s: State, id: SessionId, limit: nat)
    requires Reached(s, limit) && Enabled(s, BeginLease(id, false)) && !s.unwinding && HasWork(s.sessions[id])
    ensures var t := Apply(s, BeginLease(id, false), limit);
      && Inv(t) && t.sessions == s.sessions && t.requests == s.requests && !t.unwinding
      && |t.stack| == |s.stack| + 1 && !Top(t).stuck && Top(t).session == id && Top(t).point == CheckBefore
  {
    ReachedIsSound(s, limit);
    CoreKept(s, BeginLease(id, false), limit);
    WaitsKept(s, BeginLease(id, false), limit);
    hide CoreInv;
  }

  /** A lease that begins on a session with requests, also one nested in a request's work, runs the
      oldest of them after two turns. */
  lemma NewLeaseServesAtOnce(s: State, id: SessionId, reason: string, limit: nat)
    requires Reached(s, limit) && Enabled(s, BeginLease(id, false)) && !s.unwinding && HasWork(s.sessions[id])
    ensures var t := AfterTurns(Apply(s, BeginLease(id, false), limit), 2, reason, limit);
      var r := s.sessions[id].queue[0];
      && t.stack != [] && Top(t).session == id && Top(t).point == Running(r)
      && r in t.requests && t.requests[r].started && t.requests[r].runs == 1
  {
    LeaseBegins(s, id, limit);
    var begun := Apply(s, BeginLease(id, false), limit);
    var r := s.sessions[id].queue[0];
    hide Reached, Inv, Enabled, Apply, AfterTurns;
    TurnsServe(begun, 2, reason, limit, id, r);
    StartedRunsOnce(AfterTurns(begun, 2, reason, limit), r);
  }
}
