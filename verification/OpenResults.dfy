/**
 Streaming and pending results that hold a connection: the record a connection's registry
 shares with the PHP owner, and every run of opening, fetching, finishing, cancelling and
 releasing them.
 */
module OpenResults {
  import opened Wrappers
  import CopySession

  type Handle = nat

  datatype Phase = Open | Errored | Drained | Destroyed

  /** `stream` and `pending` are the native handles the record owns. */
  datatype Record = Record(phase: Phase, stream: Option<Handle>, pending: Option<Handle>, holds: bool)

  function Slot(h: Option<Handle>): seq<Handle> {
    if h.Some? then [h.value] else []
  }

  /** `duckdb_open_result_destroy`, and the native handles that it destroys. */
  function Released(r: Record): Record {
    r.(phase := Destroyed, stream := None, pending := None)
  }

  function Releases(r: Record): seq<Handle> {
    Slot(r.pending) + Slot(r.stream)
  }

  /** `duckdb_task_finish_pending`. */
  function PendingFinished(r: Record): Record {
    r.(phase := Drained, pending := None)
  }

  function Without<T(==)>(entries: seq<T>, e: T): (r: seq<T>)
    ensures e !in r
  {
    if entries == [] then []
    else (if entries[0] == e then [] else [entries[0]]) + Without(entries[1..], e)
  }

  lemma {:induction false} WithoutJoins<T>(a: seq<T>, b: seq<T>, e: T)
    ensures Without(a + b, e) == Without(a, e) + Without(b, e)
  {
    if a == [] {
      assert a + b == b;
    } else {
      assert (a + b)[1..] == a[1..] + b;
      WithoutJoins(a[1..], b, e);
    }
  }

  lemma {:induction false} WithoutKeeps<T>(entries: seq<T>, e: T, x: T)
    ensures x in Without(entries, e) <==> x in entries && x != e
  {
    if entries != [] {
      assert entries == [entries[0]] + entries[1..];
      WithoutKeeps(entries[1..], e, x);
    }
  }

  class OpenResult {
    var phase: Phase
    var stream: Option<Handle>
    var pending: Option<Handle>
    var holds: bool
    /** The callback session of a pumped statement. */
    const session: CopySession.Session?

    constructor (stream: Option<Handle>, pending: Option<Handle>, session: CopySession.Session?)
      ensures View() == Record(Open, stream, pending, true) && this.session == session
    {
      this.phase, this.stream, this.pending, this.holds := Open, stream, pending, true;
      this.session := session;
    }

    function View(): Record
      reads this
    {
      Record(phase, stream, pending, holds)
    }
  }

  /** The fields of a polled `async_task`. */
  class PolledTask {
    var record: OpenResult?
    var result: Option<Handle>
    var consumed: bool
    var done: bool
    var error: bool

    constructor (record: OpenResult)
      ensures this.record == record && result.None? && !consumed && !done && !error
    {
      this.record, result, consumed, done, error := record, None, false, false, false;
    }
  }

  const DESTROYED := "Result destroyed"
  const INTERRUPTED := "Query interrupted"

  /** What one connection keeps of its open results, and the handles destroyed so far. */
  class Registry {
    var open: seq<OpenResult>
    var freed: seq<Handle>

    constructor ()
      ensures open == [] && freed == []
    {
      open, freed := [], [];
    }

    method OpenStream(handle: Handle, session: CopySession.Session?) returns (record: OpenResult)
      modifies this`open
      ensures fresh(record) && record.session == session && record.View() == Record(Open, Some(handle), None, true)
      ensures open == old(open) + [record]
    {
      record := new OpenResult(Some(handle), None, session);
      open := open + [record];
    }

    method OpenPending(handle: Handle, session: CopySession.Session?) returns (record: OpenResult)
      modifies this`open
      ensures fresh(record) && record.session == session && record.View() == Record(Open, None, Some(handle), true)
      ensures open == old(open) + [record]
    {
      record := new OpenResult(None, Some(handle), session);
      open := open + [record];
    }

    method Unregister(record: OpenResult)
      modifies this`open
      ensures open == Without(old(open), record)
    {
      var kept: seq<OpenResult> := [];
      for i := 0 to |open|
        invariant open == old(open) && kept == Without(open[..i], record)
      {
        assert open[..i + 1] == open[..i] + [open[i]];
        WithoutJoins(open[..i], [open[i]], record);
        if open[i] != record {
          kept := kept + [open[i]];
        }
      }
      assert open[..|open|] == open;
      open := kept;
    }

    method MarkDrained(record: OpenResult)
      modifies this`open, record`phase
      ensures record.View() == old(record.View()).(phase := Drained)
      ensures open == Without(old(open), record)
    {
      record.phase := Drained;
      Unregister(record);
    }

    /** `duckdb_open_result_destroy`: the session is closed before DuckDB cancels the
        statement, so no worker waits for a callback then. */
    method Destroy(record: OpenResult, reason: string)
      modifies this, record, record.session
      ensures record.View() == Released(old(record.View())) && open == Without(old(open), record)
      ensures freed == old(freed) + Releases(old(record.View()))
      ensures record.session != null ==>
                record.session.State() ==
                  CopySession.Closed(old(record.session.State()), if reason == "" then DESTROYED else reason)
    {
      if record.session != null {
        record.session.Close(if reason == "" then DESTROYED else reason);
      }
      DestroyHandles(record);
      record.phase := Destroyed;
      Unregister(record);
    }

    method DestroyHandles(record: OpenResult)
      requires record.session != null ==> !record.session.open
      modifies this`freed, record`stream, record`pending
      ensures record.stream.None? && record.pending.None?
      ensures freed == old(freed) + Releases(old(record.View()))
    {
      if record.pending.Some? {
        freed := freed + [record.pending.value];
        record.pending := None;
      }
      if record.stream.Some? {
        freed := freed + [record.stream.value];
        record.stream := None;
      }
    }

    /** `duckdb_task_finish_pending`, with the result that executing the query gave. */
    method FinishPending(task: PolledTask, handle: Handle, failed: bool)
      requires task.record != null && !task.error && !task.consumed
      modifies this, task, task.record
      ensures var record: OpenResult := old(task.record);
        record.View() == PendingFinished(old(task.record.View())) && open == Without(old(open), record)
      ensures task.record == null && task.error == task.consumed == failed && task.done == old(task.done)
      ensures task.result == if failed then None else Some(handle)
      ensures freed == old(freed) + Slot(old(task.record.pending)) + if failed then [handle] else []
    {
      task.result := Some(handle);
      task.error := failed;
      var record := task.record;
      if record.pending.Some? {
        freed := freed + [record.pending.value];
        record.pending := None;
      }
      MarkDrained(record);
      task.record := null;
      if task.error {
        freed := freed + [handle];
        task.result := None;
        task.consumed := true;
      }
    }

    /** `duckdb_task_cancel` for a polled query. */
    method CancelPolled(task: PolledTask)
      modifies this, task, task.record, if task.record == null then null else task.record.session
      ensures !old(task.done) && old(task.record) != null && old(task.record.session) != null ==>
                old(task.record.session).State() == CopySession.Closed(old(task.record.session.State()), INTERRUPTED)
      ensures old(task.done) ==> unchanged(this) && unchanged(task) && (task.record != null ==> unchanged(task.record))
      ensures !old(task.done) ==>
                && task.record == null && task.result.None? && task.consumed && task.error && task.done
                && freed == old(freed) + (if old(task.record) == null then []
                    else Releases(old(task.record.View()))) + Slot(old(task.result))
                && open == if old(task.record) == null then old(open)
                    else Without(old(open), old(task.record) as OpenResult)
    {
      if task.done {
        return;
      }
      if task.record != null {
        Destroy(task.record, INTERRUPTED);
        task.record := null;
      }
      if task.result.Some? {
        freed := freed + [task.result.value];
        task.result := None;
      }
      task.consumed, task.error, task.done := true, true, true;
    }

    /** `duckdb_conn_check_no_open_result`; `refuses` is DuckDB's answer to the probe. */
    method CheckNoOpenResult(refuses: bool) returns (ok: bool)
      modifies open
      ensures open == old(open)
      ensures !ok <==> refuses && exists r <- open :: old(r.phase) == Open && old(r.holds)
      ensures forall r <- open :: r.View() ==
                old(r.View()).(holds := r.holds) && (r.holds ==> old(r.holds))
      ensures ok && (exists r <- open :: old(r.phase) == Open && old(r.holds)) ==> forall r <- open :: !r.holds
      ensures !ok ==> forall r <- open :: unchanged(r)
    {
      var candidate := false;
      for i := 0 to |open|
        invariant candidate <==> exists r <- open[..i] :: r.phase == Open && r.holds
      {
        assert open[..i + 1] == open[..i] + [open[i]];
        if open[i].phase == Open && open[i].holds {
          candidate := true;
        }
      }
      assert open[..|open|] == open;
      if !candidate {
        return true;
      }
      if refuses {
        return false;
      }
      for i := 0 to |open|
        invariant forall r <- open ::
                    r.phase == old(r.phase) && r.stream == old(r.stream) && r.pending == old(r.pending)
                        && (r.holds ==> old(r.holds))
        invariant forall r <- open[..i] :: !r.holds
      {
        assert open[..i + 1] == open[..i] + [open[i]];
        open[i].holds := false;
      }
      assert open[..|open|] == open;
      ok := true;
    }
  }

  /* Every run */

  type OwnerId = nat

  datatype Stage = Live | Releasing | Gone

  /** The PHP owner of a record or a result: a polled PendingQuery or a Result. While it is
      `Releasing` its cleanup waits for a handler to return. */
  datatype Owner = Owner(polled: bool, record: Option<Record>, result: Option<Handle>, consumed: bool, done: bool,
                         error: bool, stage: Stage)

  /** `frees` counts the destructions of each native handle ever made. */
  datatype World = World(owners: map<OwnerId, Owner>, registry: seq<OwnerId>, frees: map<Handle, nat>)

  datatype Step =
    | OpensStream(owner: OwnerId, handle: Handle)
    | OpensPending(owner: OwnerId, handle: Handle)
    | OpensMaterialized(owner: OwnerId, handle: Handle)
    | FetchDrains(owner: OwnerId)
    | FetchFails(owner: OwnerId)
    | PollFinishes(owner: OwnerId, handle: Handle, failed: bool)
    | LeaseFails(owner: OwnerId)
    | Cancels(owner: OwnerId)
    | Completes(owner: OwnerId, result: OwnerId)
    | Drops(owner: OwnerId)
    | Probes(refuses: bool)                  // an operation asks whether a result holds the connection
    | CleansUp(owner: OwnerId)

  predicate LiveOwner(w: World, o: OwnerId) {
    o in w.owners && w.owners[o].stage == Live
  }

  predicate StreamOpen(w: World, o: OwnerId) {
    LiveOwner(w, o) && !w.owners[o].polled && w.owners[o].record.Some? && w.owners[o].record.value.phase == Open
  }

  predicate PollOpen(w: World, o: OwnerId) {
    LiveOwner(w, o) && w.owners[o].polled && w.owners[o].record.Some?
  }

  predicate Enabled(w: World, step: Step) {
    match step
    case OpensStream(o, h) => o !in w.owners && h !in w.frees
    case OpensPending(o, h) => o !in w.owners && h !in w.frees
    case OpensMaterialized(o, h) => o !in w.owners && h !in w.frees
    case FetchDrains(o) => StreamOpen(w, o)
    case FetchFails(o) => StreamOpen(w, o)
    case PollFinishes(o, h, _) => PollOpen(w, o) && h !in w.frees
    case LeaseFails(o) => PollOpen(w, o)
    case Cancels(o) => LiveOwner(w, o) && w.owners[o].polled
    case Completes(o, d) => LiveOwner(w, o) && w.owners[o].polled && w.owners[o].done && d !in w.owners
    case Drops(o) => LiveOwner(w, o)
    case CleansUp(o) => o in w.owners && w.owners[o].stage == Releasing
    case Probes(_) => true
  }

  /** A registered record that is open and, as far as is known, holds the connection. */
  predicate Candidate(o: Owner) {
    o.record.Some? && o.record.value.phase == Open && o.record.value.holds
  }

  ghost predicate SomeCandidate(w: World) {
    exists o <- w.owners :: o in w.registry && Candidate(w.owners[o])
  }

  /** `duckdb_conn_check_no_open_result` throws; `refuses` is DuckDB's answer to the probe. */
  ghost predicate Refused(w: World, refuses: bool) {
    SomeCandidate(w) && refuses
  }

  function Cleared(o: Owner): Owner {
    if o.record.Some? then o.(record := Some(o.record.value.(holds := false))) else o
  }

  /** Once DuckDB accepts the probe, no record registered by then holds the connection. */
  ghost function Probed(w: World, refuses: bool): World {
    if SomeCandidate(w) && !refuses then
      w.(owners := map o | o in w.owners :: if o in w.registry then Cleared(w.owners[o]) else w.owners[o])
    else w
  }

  function Free(frees: map<Handle, nat>, handles: seq<Handle>): map<Handle, nat> {
    map h | h in frees :: frees[h] + multiset(handles)[h]
  }

  function With(w: World, o: OwnerId, owner: Owner): World {
    w.(owners := w.owners[o := owner])
  }

  function DestroyRecord(w: World, o: OwnerId): World
    requires o in w.owners
  {
    var owner := w.owners[o];
    if owner.record.None? then w
    else World(w.owners[o := owner.(record := None)], Without(w.registry, o),
        Free(w.frees, Releases(owner.record.value)))
  }

  function DestroyResult(w: World, o: OwnerId): World
    requires o in w.owners
  {
    var owner := w.owners[o];
    World(w.owners[o := owner.(result := None)], w.registry, Free(w.frees, Slot(owner.result)))
  }

  function FinishPoll(w: World, o: OwnerId, h: Handle, failed: bool): World
    requires o in w.owners && w.owners[o].record.Some?
  {
    var owner := w.owners[o];
    var after := World(w.owners[o := owner.(record := None, result := Some(h), done := true)], Without(w.registry, o),
                       Free(w.frees, Slot(owner.record.value.pending))[h := 0]);
    if failed then
      var freed := DestroyResult(after, o);
      With(freed, o, freed.owners[o].(consumed := true, error := true))
    else after
  }

  function Cancel(w: World, o: OwnerId): World
    requires o in w.owners
  {
    if w.owners[o].done then w
    else
      var after := DestroyResult(DestroyRecord(w, o), o);
      With(after, o, after.owners[o].(consumed := true, error := true, done := true))
  }

  /** Which owner gets the result: `getResult` refuses a failed or a consumed task. */
  function Complete(w: World, o: OwnerId, d: OwnerId): World
    requires o in w.owners
  {
    var owner := w.owners[o];
    if owner.error || owner.consumed then w
    else With(With(w, o, owner.(consumed := true, result := None)), d,
        Owner(false, None, owner.result, false, true, false, Live))
  }

  /** The destructors: a polled query's result is released with its record, a Result's at once. */
  function Drop(w: World, o: OwnerId): World
    requires o in w.owners
  {
    var owner := w.owners[o];
    if owner.polled then
      With(w, o, owner.(stage := if owner.record.Some? || !owner.consumed then Releasing else Gone))
    else
      var after := DestroyResult(w, o);
      With(after, o, after.owners[o].(stage := if owner.record.Some? then Releasing else Gone))
  }

  ghost function Apply(w: World, step: Step): World
    requires Enabled(w, step)
  {
    match step
    case OpensStream(o, h) =>
      World(w.owners[o := Owner(false, Some(Record(Open, Some(h), None, true)), None, false, false, false, Live)],
            w.registry + [o], w.frees[h := 0])
    case OpensPending(o, h) =>
      World(w.owners[o := Owner(true, Some(Record(Open, None, Some(h), true)), None, false, false, false, Live)],
            w.registry + [o], w.frees[h := 0])
    case OpensMaterialized(o, h) =>
      World(w.owners[o := Owner(false, None, Some(h), false, true, false, Live)], w.registry, w.frees[h := 0])
    case FetchDrains(o) =>
      var owner := w.owners[o];
      World(w.owners[o := owner.(record := Some(owner.record.value.(phase := Drained)))], Without(w.registry, o),
          w.frees)
    case FetchFails(o) =>
      var owner := w.owners[o];
      With(w, o, owner.(record := Some(owner.record.value.(phase := Errored))))
    case PollFinishes(o, h, failed) => FinishPoll(w, o, h, failed)
    case LeaseFails(o) =>
      var after := DestroyRecord(w, o);
      With(after, o, after.owners[o].(consumed := true, error := true, done := true))
    case Cancels(o) => Cancel(w, o)
    case Completes(o, d) => Complete(w, o, d)
    case Drops(o) => Drop(w, o)
    case CleansUp(o) =>
      var after := DestroyResult(DestroyRecord(w, o), o);
      With(after, o, after.owners[o].(stage := Gone))
    case Probes(refuses) => Probed(w, refuses)
  }

  ghost predicate Run(from: World, steps: seq<Step>, to: World)
    decreases |steps|
  {
    if steps == [] then from == to
    else
      var n := |steps| - 1;
      exists before :: Run(from, steps[..n], before) && Enabled(before, steps[n]) && to == Apply(before, steps[n])
  }

  ghost predicate Reached(w: World) {
    exists steps :: Run(World(map[], [], map[]), steps, w)
  }

  /** The native handles an owner still has to destroy. */
  function Held(owner: Owner): seq<Handle> {
    (if owner.record.Some? then Releases(owner.record.value) else []) + Slot(owner.result)
  }

  ghost predicate Distinct<T>(s: seq<T>) {
    forall i, j :: 0 <= i < j < |s| ==> s[i] != s[j]
  }

  /** What a record and the flags beside it say at each stage. */
  ghost predicate OwnerInv(o: Owner) {
    && (o.record.Some? ==> o.result.None? && o.record.value.phase != Destroyed)
    && (o.record.Some? && o.polled ==>
          o.record.value.phase == Open && o.record.value.stream.None? && o.record.value.pending.Some?)
    && (o.record.Some? && !o.polled ==> o.record.value.stream.Some? && o.record.value.pending.None?)
    && (o.polled ==> (o.record.Some? ==> !o.done && !o.consumed) && (o.record.None? && o.stage != Gone ==> o.done))
    && (o.polled && o.consumed ==> o.result.None?)
    && (o.polled && o.error ==> o.consumed)
    && (o.polled && o.done && !o.consumed && o.stage != Gone ==> o.result.Some?)
    && (o.stage == Gone ==> o.record.None? && o.result.None?)
  }

  ghost predicate Registered(o: Owner) {
    o.record.Some? && (o.record.value.phase == Open || o.record.value.phase == Errored)
  }

  ghost predicate RegistryInv(w: World) {
    && Distinct(w.registry)
    && forall o :: o in w.registry <==> o in w.owners && Registered(w.owners[o])
  }

  /** Every native handle is destroyed once, or has one owner that has not destroyed it. */
  ghost predicate HandleInv(w: World) {
    && (forall h <- w.frees :: w.frees[h] <= 1)
    && (forall o <- w.owners, h <- Held(w.owners[o]) :: h in w.frees && w.frees[h] == 0)
    && (forall o <- w.owners, p <- w.owners, h <- Held(w.owners[o]) :: h in Held(w.owners[p]) ==> o == p)
    && (forall h <- w.frees :: w.frees[h] == 0 ==> exists o <- w.owners :: h in Held(w.owners[o]))
  }

  ghost predicate OwnersInv(w: World) {
    forall o <- w.owners :: OwnerInv(w.owners[o])
  }

  ghost predicate Inv(w: World) {
    OwnersInv(w) && RegistryInv(w) && HandleInv(w)
  }

  lemma {:induction false} WithoutDistinct<T>(entries: seq<T>, e: T)
    requires Distinct(entries)
    ensures Distinct(Without(entries, e))
  {
    if entries != [] {
      var rest := entries[1..];
      WithoutDistinct(rest, e);
      WithoutKeeps(rest, e, entries[0]);
      assert forall k :: 0 <= k < |rest| ==> rest[k] == entries[k + 1];
    }
  }

  lemma RegistryOpens(w: World, o: OwnerId, owner: Owner, frees: map<Handle, nat>)
    requires RegistryInv(w) && o !in w.owners && Registered(owner)
    ensures RegistryInv(World(w.owners[o := owner], w.registry + [o], frees))
  {}

  lemma RegistryStays(w: World, o: OwnerId, owner: Owner, frees: map<Handle, nat>)
    requires RegistryInv(w) && (Registered(owner) <==> o in w.owners && Registered(w.owners[o]))
    ensures RegistryInv(World(w.owners[o := owner], w.registry, frees))
  {}

  lemma RegistryDrops(w: World, o: OwnerId, owner: Owner, frees: map<Handle, nat>)
    requires RegistryInv(w) && !Registered(owner)
    ensures RegistryInv(World(w.owners[o := owner], Without(w.registry, o), frees))
  {
    WithoutDistinct(w.registry, o);
    forall p: OwnerId ensures p in Without(w.registry, o) <==> p in w.registry && p != o {
      WithoutKeeps(w.registry, o, p);
    }
  }

  lemma FreeKeeps(w: World, o: OwnerId, owner: Owner, freed: seq<Handle>, registry: seq<OwnerId>)
    requires HandleInv(w) && o in w.owners && |freed| <= 1
    requires forall h <- freed :: h in Held(w.owners[o])
    requires forall h :: h in Held(owner) <==> h in Held(w.owners[o]) && h !in freed
    ensures HandleInv(World(w.owners[o := owner], registry, Free(w.frees, freed)))
  {
    hide Held;
    var after := World(w.owners[o := owner], registry, Free(w.frees, freed));
    forall h <- after.frees | after.frees[h] == 0 ensures exists p <- after.owners :: h in Held(after.owners[p]) {
      var p :| p in w.owners && h in Held(w.owners[p]);
      assert p in after.owners && h in Held(after.owners[p]);
    }
  }

  lemma MakeKeeps(w: World, o: OwnerId, owner: Owner, made: Handle, registry: seq<OwnerId>)
    requires HandleInv(w) && made !in w.frees
    requires forall h :: h in Held(owner) <==> h == made || (o in w.owners && h in Held(w.owners[o]))
    ensures HandleInv(World(w.owners[o := owner], registry, w.frees[made := 0]))
  {
    hide Held;
    var after := World(w.owners[o := owner], registry, w.frees[made := 0]);
    forall h <- after.frees | after.frees[h] == 0 ensures exists p <- after.owners :: h in Held(after.owners[p]) {
      if h == made {
        assert h in Held(after.owners[o]);
      } else {
        var p :| p in w.owners && h in Held(w.owners[p]);
        assert p in after.owners && h in Held(after.owners[p]);
      }
    }
  }

  lemma MoveKeeps(w: World, o: OwnerId, owner: Owner, d: OwnerId, to: Owner)
    requires HandleInv(w) && o in w.owners && d !in w.owners && Held(owner) == [] && Held(to) == Held(w.owners[o])
    ensures HandleInv(With(With(w, o, owner), d, to))
  {
    hide Held;
    var after := With(With(w, o, owner), d, to);
    forall h <- after.frees | after.frees[h] == 0 ensures exists p <- after.owners :: h in Held(after.owners[p]) {
      var p :| p in w.owners && h in Held(w.owners[p]);
      assert h in Held(after.owners[if p == o then d else p]);
    }
  }

  lemma DestroyRecordKeeps(w: World, o: OwnerId)
    requires HandleInv(w) && RegistryInv(w) && o in w.owners && OwnerInv(w.owners[o])
    ensures HandleInv(DestroyRecord(w, o)) && RegistryInv(DestroyRecord(w, o))
  {
    var owner := w.owners[o];
    if owner.record.Some? {
      FreeKeeps(w, o, owner.(record := None), Releases(owner.record.value), Without(w.registry, o));
      RegistryDrops(w, o, owner.(record := None), Free(w.frees, Releases(owner.record.value)));
    }
  }

  lemma DestroyResultKeeps(w: World, o: OwnerId)
    requires HandleInv(w) && RegistryInv(w) && o in w.owners && (w.owners[o].record.Some? ==> w.owners[o].result.None?)
    ensures HandleInv(DestroyResult(w, o)) && RegistryInv(DestroyResult(w, o))
  {
    var owner := w.owners[o];
    FreeKeeps(w, o, owner.(result := None), Slot(owner.result), w.registry);
    RegistryStays(w, o, owner.(result := None), Free(w.frees, Slot(owner.result)));
  }

  /** A change of flags that neither a handle nor the registry depends on. */
  lemma FlagsKeep(w: World, o: OwnerId, owner: Owner)
    requires HandleInv(w) && RegistryInv(w) && o in w.owners
    requires Held(owner) == Held(w.owners[o]) && (Registered(owner) <==> Registered(w.owners[o]))
    ensures HandleInv(With(w, o, owner)) && RegistryInv(With(w, o, owner))
  {
    RegistryStays(w, o, owner, w.frees);
    assert Free(w.frees, []) == w.frees;
    FreeKeeps(w, o, owner, [], w.registry);
  }

  lemma OpenKeeps(w: World, step: Step)
    requires Inv(w) && Enabled(w, step) && (step.OpensStream? || step.OpensPending? || step.OpensMaterialized?)
    ensures HandleInv(Apply(w, step)) && RegistryInv(Apply(w, step))
  {
    hide HandleInv, RegistryInv;
    match step
    case OpensStream(o, h) =>
      var owner := Owner(false, Some(Record(Open, Some(h), None, true)), None, false, false, false, Live);
      MakeKeeps(w, o, owner, h, w.registry + [o]);
      RegistryOpens(w, o, owner, w.frees[h := 0]);
    case OpensPending(o, h) =>
      var owner := Owner(true, Some(Record(Open, None, Some(h), true)), None, false, false, false, Live);
      MakeKeeps(w, o, owner, h, w.registry + [o]);
      RegistryOpens(w, o, owner, w.frees[h := 0]);
    case OpensMaterialized(o, h) =>
      var owner := Owner(false, None, Some(h), false, true, false, Live);
      MakeKeeps(w, o, owner, h, w.registry);
      RegistryStays(w, o, owner, w.frees[h := 0]);
  }

  lemma CancelKeeps(w: World, o: OwnerId)
    requires Inv(w) && Enabled(w, Cancels(o))
    ensures HandleInv(Cancel(w, o)) && RegistryInv(Cancel(w, o))
  {
    hide HandleInv, RegistryInv;
    if !w.owners[o].done {
      DestroyRecordKeeps(w, o);
      DestroyResultKeeps(DestroyRecord(w, o), o);
      var after := DestroyResult(DestroyRecord(w, o), o);
      FlagsKeep(after, o, after.owners[o].(consumed := true, error := true, done := true));
    }
  }

  lemma DrainKeeps(w: World, o: OwnerId)
    requires Inv(w) && Enabled(w, FetchDrains(o))
    ensures HandleInv(Apply(w, FetchDrains(o))) && RegistryInv(Apply(w, FetchDrains(o)))
  {
    hide HandleInv, RegistryInv;
    var owner := w.owners[o].(record := Some(w.owners[o].record.value.(phase := Drained)));
    assert Free(w.frees, []) == w.frees;
    FreeKeeps(w, o, owner, [], Without(w.registry, o));
    RegistryDrops(w, o, owner, w.frees);
  }

  lemma LeaseFailKeeps(w: World, o: OwnerId)
    requires Inv(w) && Enabled(w, LeaseFails(o))
    ensures HandleInv(Apply(w, LeaseFails(o))) && RegistryInv(Apply(w, LeaseFails(o)))
  {
    hide HandleInv, RegistryInv;
    DestroyRecordKeeps(w, o);
    var after := DestroyRecord(w, o);
    FlagsKeep(after, o, after.owners[o].(consumed := true, error := true, done := true));
  }

  lemma CleanupKeeps(w: World, o: OwnerId)
    requires Inv(w) && Enabled(w, CleansUp(o))
    ensures HandleInv(Apply(w, CleansUp(o))) && RegistryInv(Apply(w, CleansUp(o)))
  {
    hide HandleInv, RegistryInv;
    DestroyRecordKeeps(w, o);
    DestroyResultKeeps(DestroyRecord(w, o), o);
    var after := DestroyResult(DestroyRecord(w, o), o);
    FlagsKeep(after, o, after.owners[o].(stage := Gone));
  }

  lemma FailKeeps(w: World, o: OwnerId)
    requires Inv(w) && Enabled(w, FetchFails(o))
    ensures HandleInv(Apply(w, FetchFails(o))) && RegistryInv(Apply(w, FetchFails(o)))
  {
    hide HandleInv, RegistryInv;
    FlagsKeep(w, o, w.owners[o].(record := Some(w.owners[o].record.value.(phase := Errored))));
  }

  lemma ProbeSame(w: World, refuses: bool)
    ensures var after := Probed(w, refuses);
      && after.registry == w.registry && after.frees == w.frees && after.owners.Keys == w.owners.Keys
      && forall o <- w.owners :: Held(after.owners[o]) == Held(w.owners[o])
                                 && (Registered(after.owners[o]) <==> Registered(w.owners[o]))
  {
    hide SomeCandidate;
  }

  lemma ProbeKeeps(w: World, refuses: bool)
    requires HandleInv(w) && RegistryInv(w)
    ensures HandleInv(Probed(w, refuses)) && RegistryInv(Probed(w, refuses))
  {
    hide Held, Registered, Probed, HandleInv, RegistryInv;
    ProbeSame(w, refuses);
    SameKeeps(w, Probed(w, refuses));
  }

  lemma SameKeeps(w: World, after: World)
    requires HandleInv(w) && RegistryInv(w)
    requires after.registry == w.registry && after.frees == w.frees && after.owners.Keys == w.owners.Keys
    requires forall o <- w.owners :: Held(after.owners[o]) == Held(w.owners[o])
                                     && (Registered(after.owners[o]) <==> Registered(w.owners[o]))
    ensures HandleInv(after) && RegistryInv(after)
  {
    hide Held, Registered;
    forall h <- after.frees | after.frees[h] == 0 ensures exists p <- after.owners :: h in Held(after.owners[p]) {
      var p :| p in w.owners && h in Held(w.owners[p]);
      assert p in after.owners && h in Held(after.owners[p]);
    }
  }

  lemma StepKeepsHandles(w: World, step: Step)
    requires Inv(w) && Enabled(w, step)
    ensures HandleInv(Apply(w, step)) && RegistryInv(Apply(w, step))
  {
    hide HandleInv, RegistryInv, Held, Registered;
    match step
    case OpensStream(_, _) => OpenKeeps(w, step);
    case OpensPending(_, _) => OpenKeeps(w, step);
    case OpensMaterialized(_, _) => OpenKeeps(w, step);
    case FetchDrains(o) => DrainKeeps(w, o);
    case FetchFails(o) => FailKeeps(w, o);
    case PollFinishes(o, h, failed) => FinishKeeps(w, o, h, failed);
    case LeaseFails(o) => LeaseFailKeeps(w, o);
    case Cancels(o) => CancelKeeps(w, o);
    case Completes(o, d) => CompleteKeeps(w, o, d);
    case Drops(o) => DropKeeps(w, o);
    case Probes(refuses) => ProbeKeeps(w, refuses);
    case CleansUp(o) => CleanupKeeps(w, o);
  }

  lemma FinishKeeps(w: World, o: OwnerId, h: Handle, failed: bool)
    requires Inv(w) && Enabled(w, PollFinishes(o, h, failed))
    ensures HandleInv(FinishPoll(w, o, h, failed)) && RegistryInv(FinishPoll(w, o, h, failed))
  {
    hide HandleInv, RegistryInv;
    var owner := w.owners[o];
    assert OwnerInv(owner);
    var none := owner.(record := None, done := true);
    var some := none.(result := Some(h));
    var frees := Free(w.frees, Slot(owner.record.value.pending));
    FreeKeeps(w, o, none, Slot(owner.record.value.pending), Without(w.registry, o));
    RegistryDrops(w, o, none, frees);
    var freed := World(w.owners[o := none], Without(w.registry, o), frees);
    MakeKeeps(freed, o, some, h, freed.registry);
    RegistryStays(freed, o, some, frees[h := 0]);
    assert freed.owners[o := some] == w.owners[o := some];
    var after := World(w.owners[o := some], Without(w.registry, o), frees[h := 0]);
    if failed {
      DestroyResultKeeps(after, o);
      var last := DestroyResult(after, o);
      FlagsKeep(last, o, last.owners[o].(consumed := true, error := true));
    }
  }

  lemma CompleteKeeps(w: World, o: OwnerId, d: OwnerId)
    requires Inv(w) && Enabled(w, Completes(o, d))
    ensures HandleInv(Complete(w, o, d)) && RegistryInv(Complete(w, o, d))
  {
    hide HandleInv, RegistryInv;
    var owner := w.owners[o];
    assert OwnerInv(owner);
    if !owner.error && !owner.consumed {
      var from, to := owner.(consumed := true, result := None),
          Owner(false, None, owner.result, false, true, false, Live);
      MoveKeeps(w, o, from, d, to);
      RegistryStays(w, o, from, w.frees);
      RegistryStays(With(w, o, from), d, to, w.frees);
    }
  }

  lemma DropKeeps(w: World, o: OwnerId)
    requires Inv(w) && Enabled(w, Drops(o))
    ensures HandleInv(Drop(w, o)) && RegistryInv(Drop(w, o))
  {
    hide HandleInv, RegistryInv;
    var owner := w.owners[o];
    assert OwnerInv(owner);
    if owner.polled {
      FlagsKeep(w, o, Drop(w, o).owners[o]);
    } else {
      DestroyResultKeeps(w, o);
      FlagsKeep(DestroyResult(w, o), o, Drop(w, o).owners[o]);
    }
  }

  lemma StepKeepsOwners(w: World, step: Step)
    requires OwnersInv(w) && Enabled(w, step)
    ensures OwnersInv(Apply(w, step))
  {
    hide Free, Without, Registered;
  }

  lemma {:induction false} RunKeeps(from: World, steps: seq<Step>, to: World)
    requires Inv(from) && Run(from, steps, to)
    ensures Inv(to)
    decreases |steps|
  {
    hide OwnersInv, RegistryInv, HandleInv, Apply, Enabled;
    if steps != [] {
      var n := |steps| - 1;
      var before :| Run(from, steps[..n], before) && Enabled(before, steps[n]) && to == Apply(before, steps[n]);
      RunKeeps(from, steps[..n], before);
      StepKeepsOwners(before, steps[n]);
      StepKeepsHandles(before, steps[n]);
    }
  }

  lemma ReachedIsSound(w: World)
    requires Reached(w)
    ensures Inv(w)
  {
    var steps :| Run(World(map[], [], map[]), steps, w);
    RunKeeps(World(map[], [], map[]), steps, w);
  }

  /** A record stands in the connection's registry, once, exactly while it is open or failed. */
  lemma RegisteredWhileOpen(w: World, o: OwnerId)
    requires Reached(w)
    ensures multiset(w.registry)[o] == if o in w.owners && Registered(w.owners[o]) then 1 else 0
  {
    ReachedIsSound(w);
    DistinctCounts(w.registry, o);
  }

  lemma {:induction false} DistinctCounts<T>(s: seq<T>, e: T)
    requires Distinct(s)
    ensures multiset(s)[e] == if e in s then 1 else 0
  {
    if s != [] {
      var rest := s[1..];
      assert s == [s[0]] + rest;
      assert forall k :: 0 <= k < |rest| ==> rest[k] == s[k + 1];
      DistinctCounts(rest, e);
    }
  }

  /** No native handle is destroyed twice, and one that is not destroyed has one owner. */
  lemma HandlesFreedOnce(w: World, h: Handle)
    requires Reached(w) && h in w.frees
    ensures w.frees[h] <= 1
    ensures w.frees[h] == 0 <==> exists o <- w.owners :: h in Held(w.owners[o])
    ensures forall o <- w.owners, p <- w.owners :: h in Held(w.owners[o]) && h in Held(w.owners[p]) ==> o == p
  {
    ReachedIsSound(w);
    hide OwnersInv, RegistryInv;
    hide Held;
  }

  lemma FirstIsMember<T>(s: seq<T>)
    ensures s == [] || s[0] in s
  {}

  /** Once every owner is released and its cleanup ran, each handle ever made was destroyed
      exactly once and no record is left in the registry. */
  lemma NothingLeaks(w: World)
    requires Reached(w) && forall o <- w.owners :: w.owners[o].stage == Gone
    ensures w.registry == []
    ensures forall h <- w.frees :: w.frees[h] == 1
  {
    ReachedIsSound(w);
    forall o <- w.owners ensures Held(w.owners[o]) == [] && !Registered(w.owners[o]) {
      assert OwnerInv(w.owners[o]);
    }
    FirstIsMember(w.registry);
    forall h <- w.frees ensures w.frees[h] == 1 {
      HandlesFreedOnce(w, h);
    }
  }

  /** Cancelling after completion, or twice, changes nothing. */
  lemma CancelIsIdempotent(w: World, o: OwnerId)
    requires Reached(w) && Enabled(w, Cancels(o))
    ensures Enabled(Cancel(w, o), Cancels(o)) && Cancel(Cancel(w, o), o) == Cancel(w, o)
    ensures Cancel(w, o) == w <==> w.owners[o].done
    ensures Cancel(w, o).owners[o].done
        && Held(Cancel(w, o).owners[o]) == if w.owners[o].done then Held(w.owners[o]) else []
  {
    ReachedIsSound(w);
    assert OwnerInv(w.owners[o]);
  }

  /** A finished query's result goes to one Result object at most. */
  lemma ResultIsTakenOnce(w: World, o: OwnerId, d: OwnerId, e: OwnerId)
    requires Reached(w) && Enabled(w, Completes(o, d)) && e !in Complete(w, o, d).owners
    ensures Complete(Complete(w, o, d), o, e) == Complete(w, o, d)
    ensures d in Complete(w, o, d).owners <==> !w.owners[o].consumed
    ensures d in Complete(w, o, d).owners ==>
              Held(Complete(w, o, d).owners[d]) == Held(w.owners[o]) != [] && Held(Complete(w, o, d).owners[o]) == []
  {
    ReachedIsSound(w);
    assert OwnerInv(w.owners[o]);
  }

  /** A stream that ends, or fails, keeps its handle until its owner releases it; only one
      that ends leaves the registry. */
  lemma StreamEnds(w: World, o: OwnerId)
    requires Reached(w) && Enabled(w, FetchDrains(o))
    ensures var drained := Apply(w, FetchDrains(o));
      && o !in drained.registry && Held(drained.owners[o]) == Held(w.owners[o]) != [] && drained.frees == w.frees
    ensures var failed := Apply(w, FetchFails(o));
      && o in failed.registry && Held(failed.owners[o]) == Held(w.owners[o]) && failed.frees == w.frees
    ensures Enabled(Apply(w, FetchDrains(o)), Drops(o)) && Enabled(Apply(w, FetchFails(o)), Drops(o))
  {
    ReachedIsSound(w);
    assert OwnerInv(w.owners[o]);
  }

  /** A polled query that finishes has destroyed its pending handle; it keeps its result
      exactly when it succeeded. */
  lemma PollEnds(w: World, o: OwnerId, h: Handle, failed: bool)
    requires Reached(w) && Enabled(w, PollFinishes(o, h, failed))
    ensures var after := Apply(w, PollFinishes(o, h, failed));
      && o !in after.registry && Held(after.owners[o]) == (if failed then [] else [h])
      && (forall p <- Held(w.owners[o]) :: p in after.frees && after.frees[p] == 1)
      && h in after.frees && after.frees[h] == (if failed then 1 else 0)
      && after.owners[o].done && after.owners[o].error == failed && after.owners[o].consumed == failed
  {
    ReachedIsSound(w);
    assert OwnerInv(w.owners[o]);
    hide RegistryInv;
  }

  function Holds(w: World, o: OwnerId): bool {
    o in w.owners && w.owners[o].record.Some? && w.owners[o].record.value.holds
  }

  /** A record holds the connection from its opening on; it stops when it is released, or with
      the first probe that DuckDB accepts while it is registered. */
  lemma WhenARecordStopsHolding(w: World, step: Step, o: OwnerId)
    requires Reached(w) && Enabled(w, step) && o in w.owners && w.owners[o].record.Some?
    requires o in Apply(w, step).owners && Apply(w, step).owners[o].record.Some?
    ensures Holds(Apply(w, step), o) != Holds(w, o) <==>
              Holds(w, o) && step == Probes(false) && SomeCandidate(w) && o in w.registry
  {
    hide Reached, SomeCandidate, Free, Without, Held;
  }

  /** After an accepted probe nothing is refused, whatever DuckDB would answer, until a new
      stream or pending query is opened. */
  lemma {:induction false} AcceptedProbeLasts(w: World, refuses: bool, steps: seq<Step>, to: World, again: bool)
    requires !Refused(w, refuses) && Run(Probed(w, refuses), steps, to)
    requires forall k :: 0 <= k < |steps| ==> !steps[k].OpensStream? && !steps[k].OpensPending?
    ensures !Refused(to, again)
    decreases |steps|
  {
    if steps != [] {
      var n := |steps| - 1;
      var from := Probed(w, refuses);
      var before :| Run(from, steps[..n], before) && Enabled(before, steps[n]) && to == Apply(before, steps[n]);
      AcceptedProbeLasts(w, refuses, steps[..n], before, true);
      NoNewCandidate(before, steps[n]);
      hide Apply, Enabled;
    }
  }

  lemma WithoutLess(entries: seq<OwnerId>, e: OwnerId)
    ensures forall x :: x in Without(entries, e) ==> x in entries
  {
    forall x | x in Without(entries, e) ensures x in entries {
      WithoutKeeps(entries, e, x);
    }
  }

  lemma NoNewCandidate(w: World, step: Step)
    requires !SomeCandidate(w) && Enabled(w, step) && !step.OpensStream? && !step.OpensPending?
    ensures !SomeCandidate(Apply(w, step))
  {
    hide Free, Held;
    if !step.OpensMaterialized? && !step.Probes? {
      WithoutLess(w.registry, step.owner);
    }
    hide Without;
  }
}
