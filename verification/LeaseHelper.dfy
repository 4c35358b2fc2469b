/**
 The lease protocol and its helper threads together. A lease posts one work to a connection's
 helper; the helper sets the lease's `done` when that work has returned, as the last thing it
 does for the lease.
 */
module LeaseHelper {
  import LeaseProtocol
  import CopySession
  import ConnHelper
  import LeaseSafety

  type HelperId = nat

  /** A work, named by its helper and its place among that helper's posted ones. */
  datatype Posted = Posted(helper: HelperId, index: nat)

  /** `posts` has the work of each lease on the stack; `returned` counts, per helper, the works
      that have returned and set their lease's `done`. */
  datatype Linked = Linked(lease: LeaseProtocol.State, helpers: map<HelperId, ConnHelper.World>,
                           returned: map<HelperId, nat>, posts: seq<Posted>)

  datatype LinkedStep =
    | Lease(step: LeaseProtocol.Step)
    | NewHelper(helper: HelperId)
    | Posts(session: LeaseProtocol.SessionId, stuck: bool, helper: HelperId, work: ConnHelper.Work)
    | Helper(helper: HelperId, own: ConnHelper.Step)
    | Returns(helper: HelperId)

  function Start(): Linked {
    Linked(LeaseProtocol.Init(), map[], map[], [])
  }

  predicate Known(l: Linked, h: HelperId) {
    h in l.helpers && h in l.returned
  }

  ghost predicate Enabled(l: Linked, step: LinkedStep) {
    match step
    case Lease(s) => LeaseProtocol.Enabled(l.lease, s) && !s.BeginLease? && !s.HelperDone?
    case NewHelper(h) => h !in l.helpers && h !in l.returned
    case Posts(session, stuck, h, work) =>
      && LeaseProtocol.Enabled(l.lease, LeaseProtocol.BeginLease(session, stuck))
      && Known(l, h) && ConnHelper.Enabled(l.helpers[h], ConnHelper.Post(work))
    case Helper(h, s) =>
      && Known(l, h) && ConnHelper.Enabled(l.helpers[h], s) && !s.Post?
      && (s.WorkDone? ==> l.returned[h] >= |l.helpers[h].begun|)
    case Returns(h) =>
      Known(l, h) && l.helpers[h].thread.Working? && l.returned[h] < |l.helpers[h].begun|
  }

  /** Which lease a work that returns belongs to. */
  function LeaseOf(posts: seq<Posted>, p: Posted): (i: nat)
    ensures i <= |posts| && (i < |posts| ==> posts[i] == p)
    ensures p in posts ==> i < |posts|
  {
    if posts == [] || posts[0] == p then 0 else 1 + LeaseOf(posts[1..], p)
  }

  function WithHelper(l: Linked, h: HelperId, w: ConnHelper.World): Linked {
    l.(helpers := l.helpers[h := w])
  }

  function ReturnOne(l: Linked, h: HelperId): Linked
    requires Known(l, h)
  {
    var i := LeaseOf(l.posts, Posted(h, l.returned[h]));
    var after := l.(returned := l.returned[h := l.returned[h] + 1]);
    if i < |l.lease.stack| then after.(lease := LeaseProtocol.MarkDone(l.lease, i)) else after
  }

  function Shorter(l: Linked, lease: LeaseProtocol.State): Linked {
    l.(lease := lease, posts := if |lease.stack| < |l.posts| then l.posts[..|lease.stack|] else l.posts)
  }

  function Apply(l: Linked, step: LinkedStep, limit: nat): Linked
    requires Enabled(l, step)
  {
    match step
    case Lease(s) => Shorter(l, LeaseProtocol.Apply(l.lease, s, limit))
    case NewHelper(h) => l.(helpers := l.helpers[h := ConnHelper.Init()], returned := l.returned[h := 0])
    case Posts(session, stuck, h, work) =>
      var w := l.helpers[h];
      WithHelper(l, h, ConnHelper.Apply(w, ConnHelper.Post(work))).(
        lease := LeaseProtocol.BeginLeaseOn(l.lease, session, stuck), posts := l.posts + [Posted(h, |w.posted|)])
    case Helper(h, s) => WithHelper(l, h, ConnHelper.Apply(l.helpers[h], s))
    case Returns(h) => ReturnOne(l, h)
  }

  ghost predicate Run(from: Linked, steps: seq<LinkedStep>, limit: nat, to: Linked)
    decreases |steps|
  {
    if steps == [] then from == to
    else
      var n := |steps| - 1;
      exists before ::
        Run(from, steps[..n], limit, before) && Enabled(before, steps[n]) && to == Apply(before, steps[n], limit)
  }

  ghost predicate Reached(l: Linked, limit: nat) {
    exists steps :: Run(Start(), steps, limit, l)
  }

  function Dones(s: LeaseProtocol.State): seq<bool> {
    seq(|s.stack|, i requires 0 <= i < |s.stack| => s.stack[i].done)
  }

  /** A helper's works return one after the other, between their begin and their end. */
  ghost predicate HelperInv(l: Linked, h: HelperId)
    requires h in l.helpers
  {
    && h in l.returned && ConnHelper.Inv(l.helpers[h])
    && |l.helpers[h].ended| <= l.returned[h] <= |l.helpers[h].begun|
  }

  /** A lease is done exactly when its own work has returned. */
  ghost predicate PostInv(l: Linked, i: nat)
    requires i < |l.posts|
  {
    var p := l.posts[i];
    && Known(l, p.helper) && p.index < |l.helpers[p.helper].posted|
    && i < |l.lease.stack| && (Dones(l.lease)[i] <==> p.index < l.returned[p.helper])
  }

  ghost predicate Inv(l: Linked) {
    && |l.posts| == |l.lease.stack|
    && l.returned.Keys == l.helpers.Keys
    && (forall h <- l.helpers :: HelperInv(l, h))
    && (forall i :: 0 <= i < |l.posts| ==> PostInv(l, i))
    && (forall i, j :: 0 <= i < j < |l.posts| ==> l.posts[i] != l.posts[j])
    && (forall h <- l.helpers :: Placed(l, h))
  }

  /** A step of the request thread that begins no lease only drops the innermost one, which is
      done then, or keeps every lease's `done`. */
  lemma DonesStay(s: LeaseProtocol.State, step: LeaseProtocol.Step, limit: nat)
    requires LeaseProtocol.Enabled(s, step) && !step.BeginLease? && !step.HelperDone?
    ensures var t := LeaseProtocol.Apply(s, step, limit);
      && Dones(t) <= Dones(s) && |s.stack| <= |t.stack| + 1
      && (|t.stack| < |s.stack| ==> LeaseProtocol.Top(s).done)
  {
    LeaseSafety.LeaseLength(s, step, limit);
    hide CopySession.UnservicedFor, CopySession.Closed;
    match step
    case Turn(reason) => TurnDones(s, reason); hide LeaseProtocol.NextTurn;
    case _ => hide LeaseProtocol.NextTurn;
  }

  lemma TurnDones(s: LeaseProtocol.State, reason: string)
    requires LeaseProtocol.Enabled(s, LeaseProtocol.Turn(reason))
    ensures Dones(LeaseProtocol.NextTurn(s, reason)) <= Dones(s)
  {
    hide CopySession.Closed;
  }

  lemma DonesAfterMark(s: LeaseProtocol.State, i: nat)
    requires i < |s.stack|
    ensures Dones(LeaseProtocol.MarkDone(s, i)) == Dones(s)[i := true]
  {}

  /** Only leases that are done are missing among the posts. */
  ghost predicate Placed(l: Linked, h: HelperId)
    requires Known(l, h)
  {
    forall k: nat :: l.returned[h] <= k < |l.helpers[h].posted| ==> Posted(h, k) in l.posts
  }

  lemma LeaseKeeps(l: Linked, step: LeaseProtocol.Step, limit: nat)
    requires Inv(l) && Enabled(l, Lease(step))
    ensures Inv(Apply(l, Lease(step), limit))
  {
    DonesStay(l.lease, step, limit);
    var lease := LeaseProtocol.Apply(l.lease, step, limit);
    hide LeaseProtocol.Apply, LeaseProtocol.Enabled, ConnHelper.Inv;
    ShorterKeeps(l, lease);
  }

  lemma ShorterKeeps(l: Linked, lease: LeaseProtocol.State)
    requires Inv(l) && Dones(lease) <= Dones(l.lease) && |l.lease.stack| <= |lease.stack| + 1
    requires |lease.stack| < |l.lease.stack| ==> LeaseProtocol.Top(l.lease).done
    ensures Inv(Shorter(l, lease))
  {
    hide ConnHelper.Inv;
    var after := Shorter(l, lease);
    forall i | 0 <= i < |after.posts| ensures PostInv(after, i) {
      assert PostInv(l, i);
      assert Dones(lease)[i] == Dones(l.lease)[i];
    }
    forall h <- after.helpers ensures HelperInv(after, h) && Placed(after, h) {
      assert HelperInv(l, h) && Placed(l, h);
      if |lease.stack| < |l.lease.stack| {
        PlacedWithoutTop(l, after, h);
      }
    }
  }

  lemma PlacedWithoutTop(l: Linked, after: Linked, h: HelperId)
    requires Inv(l) && h in l.helpers && |l.posts| > 0 && Dones(l.lease)[|l.posts| - 1]
    requires after.helpers == l.helpers && after.returned == l.returned && after.posts == l.posts[..|l.posts| - 1]
    ensures Known(after, h) && Placed(after, h)
  {
    hide ConnHelper.Inv;
    var n := |l.posts| - 1;
    assert PostInv(l, n) && Placed(l, h);
    forall k: nat | l.returned[h] <= k < |l.helpers[h].posted| ensures Posted(h, k) in after.posts {
      var i :| 0 <= i < |l.posts| && l.posts[i] == Posted(h, k);
      assert i != n;
      assert after.posts[i] == Posted(h, k);
    }
  }

  lemma PostKeeps(l: Linked, step: LinkedStep, limit: nat)
    requires Inv(l) && Enabled(l, step) && step.Posts?
    ensures Inv(Apply(l, step, limit))
  {
    hide LeaseProtocol.Enabled;
    var h, w := step.helper, l.helpers[step.helper];
    var after := Apply(l, step, limit);
    assert HelperInv(l, h);
    ConnHelper.StepKeeps(w, ConnHelper.Post(step.work));
    hide ConnHelper.Inv, ConnHelper.Enabled;
    var n := |l.posts|;
    forall i | 0 <= i < |after.posts| ensures PostInv(after, i) {
      if i < n {
        assert PostInv(l, i);
        assert Dones(after.lease)[i] == Dones(l.lease)[i];
      }
    }
    forall i, j | 0 <= i < j < |after.posts| ensures after.posts[i] != after.posts[j] {
      assert PostInv(l, i);
    }
    forall g <- after.helpers ensures HelperInv(after, g) && Placed(after, g) {
      assert HelperInv(l, g) && Placed(l, g);
      assert after.posts[n] == Posted(h, |w.posted|);
    }
  }

  lemma HelperKeeps(l: Linked, step: LinkedStep, limit: nat)
    requires Inv(l) && Enabled(l, step) && step.Helper?
    ensures Inv(Apply(l, step, limit))
  {
    var h := step.helper;
    var after := Apply(l, step, limit);
    assert HelperInv(l, h);
    ConnHelper.StepKeeps(l.helpers[h], step.own);
    OwnStep(l.helpers[h], step.own);
    hide ConnHelper.Inv, ConnHelper.Apply, ConnHelper.Enabled;
    forall i | 0 <= i < |after.posts| ensures PostInv(after, i) {
      assert PostInv(l, i);
    }
    forall g <- after.helpers ensures HelperInv(after, g) && Placed(after, g) {
      assert HelperInv(l, g) && Placed(l, g);
    }
  }

  /** What the helper's own steps do to its records. */
  lemma OwnStep(w: ConnHelper.World, step: ConnHelper.Step)
    requires ConnHelper.Inv(w) && ConnHelper.Enabled(w, step) && !step.Post?
    ensures var t := ConnHelper.Apply(w, step);
      && t.posted == w.posted && |w.begun| <= |t.begun|
      && (step.WorkDone? ==> |t.ended| <= |w.begun|) && (!step.WorkDone? ==> t.ended == w.ended)
  {}

  lemma ReturnKeeps(l: Linked, h: HelperId)
    requires Inv(l) && Enabled(l, Returns(h))
    ensures Inv(ReturnOne(l, h))
  {
    var after, p := ReturnOne(l, h), Posted(h, l.returned[h]);
    assert HelperInv(l, h) && Placed(l, h);
    BegunArePosted(l.helpers[h]);
    hide ConnHelper.Inv, ConnHelper.Enabled;
    var i := LeaseOf(l.posts, p);
    DonesAfterMark(l.lease, i);
    hide LeaseProtocol.MarkDone, LeaseOf;
    DonesLength(l.lease, LeaseProtocol.MarkDone(l.lease, i));
    forall j | 0 <= j < |after.posts| ensures PostInv(after, j) {
      assert PostInv(l, j);
      assert j != i ==> l.posts[j] != p;
    }
    forall g <- after.helpers ensures HelperInv(after, g) && Placed(after, g) {
      assert HelperInv(l, g) && Placed(l, g);
    }
  }

  lemma DonesLength(s: LeaseProtocol.State, t: LeaseProtocol.State)
    requires |Dones(t)| == |Dones(s)|
    ensures |t.stack| == |s.stack|
  {}

  lemma BegunArePosted(w: ConnHelper.World)
    requires ConnHelper.Inv(w)
    ensures |w.begun| <= |w.posted|
  {}

  lemma NewKeeps(l: Linked, h: HelperId, limit: nat)
    requires Inv(l) && Enabled(l, NewHelper(h))
    ensures Inv(Apply(l, NewHelper(h), limit))
  {
    var after := Apply(l, NewHelper(h), limit);
    forall i | 0 <= i < |after.posts| ensures PostInv(after, i) {
      assert PostInv(l, i);
    }
    forall g <- after.helpers ensures HelperInv(after, g) && Placed(after, g) {
      assert g != h ==> HelperInv(l, g) && Placed(l, g);
    }
  }

  lemma {:induction false} RunKeeps(from: Linked, steps: seq<LinkedStep>, limit: nat, to: Linked)
    requires Inv(from) && Run(from, steps, limit, to)
    ensures Inv(to)
    decreases |steps|
  {
    hide Inv, Apply, Enabled;
    if steps != [] {
      var n := |steps| - 1;
      var before :| Run(from, steps[..n], limit, before) && Enabled(before, steps[n])
          && to == Apply(before, steps[n], limit);
      RunKeeps(from, steps[..n], limit, before);
      StepKeeps(before, steps[n], limit);
    }
  }

  lemma StepKeeps(l: Linked, step: LinkedStep, limit: nat)
    requires Inv(l) && Enabled(l, step)
    ensures Inv(Apply(l, step, limit))
  {
    hide Inv;
    match step
    case Lease(s) => LeaseKeeps(l, s, limit);
    case NewHelper(h) => NewKeeps(l, h, limit);
    case Posts(_, _, _, _) => PostKeeps(l, step, limit);
    case Helper(_, _) => HelperKeeps(l, step, limit);
    case Returns(h) => ReturnKeeps(l, h);
  }

  lemma ReachedIsSound(l: Linked, limit: nat)
    requires Reached(l, limit)
    ensures Inv(l)
  {
    var steps :| Run(Start(), steps, limit, l);
    RunKeeps(Start(), steps, limit, l);
  }

  /** A lease is done exactly when the work it posted has returned on its helper; until then
      that work is the helper's next to return. */
  lemma DoneMeansReturned(l: Linked, limit: nat, i: nat)
    requires Reached(l, limit) && i < |l.lease.stack|
    ensures i < |l.posts| && Known(l, l.posts[i].helper)
    ensures var p, h := l.posts[i], l.posts[i].helper;
      && (l.lease.stack[i].done <==> p.index < l.returned[h])
      && (!l.lease.stack[i].done ==> p.index == l.returned[h])
      && l.returned[h] <= |l.helpers[h].begun| && |l.helpers[h].ended| <= l.returned[h]
  {
    ReachedIsSound(l, limit);
    assert PostInv(l, i) && HelperInv(l, l.posts[i].helper);
    OneUnreturned(l.helpers[l.posts[i].helper]);
    hide ConnHelper.Inv;
  }

  lemma OneUnreturned(w: ConnHelper.World)
    requires ConnHelper.Inv(w)
    ensures |w.begun| <= |w.posted| <= |w.ended| + 1
  {}

  /** A lease that ends has had its own work begun, and returned, on its helper. */
  lemma LeaseEndsAfterItsWork(l: Linked, limit: nat, step: LeaseProtocol.Step)
    requires Reached(l, limit) && Enabled(l, Lease(step))
    requires |LeaseProtocol.Apply(l.lease, step, limit).stack| < |l.lease.stack|
    ensures |l.posts| == |l.lease.stack| && Known(l, l.posts[|l.posts| - 1].helper)
    ensures var p := l.posts[|l.posts| - 1];
      p.index < l.returned[p.helper] <= |l.helpers[p.helper].begun|
  {
    hide LeaseProtocol.Apply, LeaseProtocol.Enabled, LeaseProtocol.InPhp, Reached, Inv, ConnHelper.Enabled;
    DonesStay(l.lease, step, limit);
    DoneMeansReturned(l, limit, |l.lease.stack| - 1);
    PostsMatch(l, limit);
  }

  lemma PostsMatch(l: Linked, limit: nat)
    requires Reached(l, limit)
    ensures |l.posts| == |l.lease.stack|
  {
    ReachedIsSound(l, limit);
    hide HelperInv, PostInv, Placed, Reached;
  }
}
