/** How long an open result holds its connection, and how each end of one leaves its handles. */
module OpenResultEnds {
  import opened Wrappers
  import opened OpenResults

  /** A polled query that did not finish, or a stream that neither drained nor failed, which no
      probe has cleared. */
  predicate StillHolds(o: Owner) {
    o.record.Some? && o.record.value.holds && (o.polled || o.record.value.phase == Open)
  }

  /** An operation is refused exactly when DuckDB refuses it and some such result is there. */
  lemma RefusedWhileHeld(w: World, refuses: bool)
    requires Reached(w)
    ensures Refused(w, refuses) <==> refuses && exists o <- w.owners :: StillHolds(w.owners[o])
  {
    ReachedIsSound(w);
    hide Reached;
    forall o <- w.owners ensures StillHolds(w.owners[o]) <==> o in w.registry && Candidate(w.owners[o]) {
      assert OwnerInv(w.owners[o]);
    }
    hide Inv, StillHolds, Candidate;
  }

  /** Every new stream or pending query holds the connection. */
  lemma OpeningHolds(w: World, step: Step)
    requires Reached(w) && Enabled(w, step) && (step.OpensStream? || step.OpensPending?)
    ensures step.owner in Apply(w, step).owners && StillHolds(Apply(w, step).owners[step.owner])
    ensures Refused(Apply(w, step), true)
  {
    assert step.owner in Apply(w, step).registry && Candidate(Apply(w, step).owners[step.owner]);
  }

  /** Each of these was destroyed, once. */
  ghost predicate AllFreed(w: World, handles: seq<Handle>) {
    forall h <- handles :: h in w.frees && w.frees[h] == 1
  }

  lemma FreedWhenUnheld(w: World, after: World, handles: seq<Handle>)
    requires Inv(after) && w.frees.Keys <= after.frees.Keys && (forall h <- handles :: h in w.frees)
    requires forall h <- handles, p <- after.owners :: h !in Held(after.owners[p])
    ensures AllFreed(after, handles)
  {
    hide Held, OwnersInv, RegistryInv;
  }

  /** The steps after which an owner has nothing left to destroy. */
  predicate Ends(w: World, step: Step)
    requires Enabled(w, step)
  {
    match step
    case LeaseFails(_) => true
    case Cancels(o) => !w.owners[o].done
    case CleansUp(_) => true
    case _ => false
  }

  /** `after` differs from `w` in one owner, its registration and counts. */
  ghost predicate OnlyOwner(w: World, after: World, o: OwnerId) {
    && after.owners.Keys == w.owners.Keys && after.frees.Keys == w.frees.Keys && o !in after.registry
    && forall p <- w.owners :: p != o ==> after.owners[p] == w.owners[p]
  }

  lemma RecordDestroyed(w: World, o: OwnerId)
    requires RegistryInv(w) && o in w.owners
    ensures var after := DestroyRecord(w, o);
      OnlyOwner(w, after, o) && after.owners[o] == w.owners[o].(record := None)
  {
    WithoutKeeps(w.registry, o, o);
    assert w.owners[o].record.None? ==> o !in w.registry;
    hide Without, Registered;
  }

  lemma ResultDestroyed(w: World, o: OwnerId)
    requires o in w.owners && o !in w.registry
    ensures var after := DestroyResult(w, o);
      OnlyOwner(w, after, o) && after.owners[o] == w.owners[o].(result := None)
  {}

  lemma BothDestroyed(w: World, o: OwnerId)
    requires RegistryInv(w) && o in w.owners
    ensures var after := DestroyResult(DestroyRecord(w, o), o);
      OnlyOwner(w, after, o) && after.owners[o] == w.owners[o].(record := None, result := None)
  {
    RecordDestroyed(w, o);
    ResultDestroyed(DestroyRecord(w, o), o);
    hide DestroyRecord, DestroyResult, RegistryInv;
  }

  lemma FlagsChange(w: World, after: World, o: OwnerId, owner: Owner)
    requires OnlyOwner(w, after, o) && o in w.owners
    ensures OnlyOwner(w, With(after, o, owner), o) && With(after, o, owner).owners[o] == owner
  {}

  lemma EndsEmptyHanded(w: World, step: Step)
    requires Inv(w) && Enabled(w, step) && Ends(w, step)
    ensures var after := Apply(w, step);
      OnlyOwner(w, after, step.owner) && Held(after.owners[step.owner]) == []
  {
    var o := step.owner;
    assert OwnerInv(w.owners[o]);
    hide HandleInv, RegistryInv, OwnersInv, DestroyRecord, DestroyResult, With, OnlyOwner, Releases;
    if step.LeaseFails? {
      RecordDestroyed(w, o);
      var after := DestroyRecord(w, o);
      FlagsChange(w, after, o, after.owners[o].(consumed := true, error := true, done := true));
    } else {
      BothDestroyed(w, o);
      var after := DestroyResult(DestroyRecord(w, o), o);
      FlagsChange(w, after, o, after.owners[o].(consumed := true, error := true, done := true));
      FlagsChange(w, after, o, after.owners[o].(stage := Gone));
    }
  }

  /** A lease that fails, a cancellation and the cleanup after the owner's release each destroy every
      native handle the owner had, once, and unregister its record; the first two end in error. */
  lemma EndsDestroyEverything(w: World, step: Step)
    requires Reached(w) && Enabled(w, step) && Ends(w, step)
    ensures var after := Apply(w, step);
      && AllFreed(after, Held(w.owners[step.owner])) && Held(after.owners[step.owner]) == []
      && step.owner !in after.registry
      && (if step.CleansUp? then after.owners[step.owner].stage == Gone
          else after.owners[step.owner].done && after.owners[step.owner].error && after.owners[step.owner].consumed)
  {
    hide Reached, Apply, Inv, Held;
    SoundAfter(w, step);
    EndsEmptyHanded(w, step);
    EndsInError(w, step);
    OwnsNothing(w, Apply(w, step), step.owner);
  }

  lemma SoundAfter(w: World, step: Step)
    requires Reached(w) && Enabled(w, step)
    ensures Inv(w) && Inv(Apply(w, step))
  {
    ReachedIsSound(w);
    hide Reached, Apply, Enabled, OwnersInv, RegistryInv, HandleInv;
    StepKeepsOwners(w, step);
    StepKeepsHandles(w, step);
  }

  /** What one owner had and no longer has was destroyed, if the other owners stay as they were. */
  lemma OwnsNothing(w: World, after: World, o: OwnerId)
    requires Inv(w) && Inv(after) && o in w.owners && after.owners.Keys == w.owners.Keys
    requires w.frees.Keys <= after.frees.Keys && Held(after.owners[o]) == []
    requires forall p <- w.owners :: p != o ==> after.owners[p] == w.owners[p]
    ensures AllFreed(after, Held(w.owners[o]))
  {
    hide Held, OwnersInv, RegistryInv;
    FreedWhenUnheld(w, after, Held(w.owners[o]));
  }

  lemma EndsInError(w: World, step: Step)
    requires Enabled(w, step) && Ends(w, step)
    ensures var after := Apply(w, step).owners[step.owner];
      if step.CleansUp? then after.stage == Gone else after.done && after.error && after.consumed
  {
    hide Without, Free;
  }

  /** A released owner is gone at once, with nothing left to destroy, or its cleanup can run. */
  lemma ReleasedOwnersEnd(w: World, o: OwnerId)
    requires Reached(w) && Enabled(w, Drops(o))
    ensures var after := Apply(w, Drops(o));
      if after.owners[o].stage == Gone then AllFreed(after, Held(w.owners[o])) && Held(after.owners[o]) == []
      else Enabled(after, CleansUp(o)) && Apply(after, CleansUp(o)).owners[o].stage == Gone
  {
    hide Reached, Inv, Held;
    SoundAfter(w, Drops(o));
    DropsOnly(w, o);
    var after := Apply(w, Drops(o));
    if after.owners[o].stage == Gone {
      hide Apply, Enabled;
      OwnsNothing(w, after, o);
    } else {
      EndsInError(after, CleansUp(o));
    }
  }

  lemma DropsOnly(w: World, o: OwnerId)
    requires Inv(w) && Enabled(w, Drops(o))
    ensures var after := Apply(w, Drops(o));
      && after.owners.Keys == w.owners.Keys && after.frees.Keys == w.frees.Keys
      && (forall p <- w.owners :: p != o ==> after.owners[p] == w.owners[p])
      && after.owners[o].stage != Live && (after.owners[o].stage == Gone ==> Held(after.owners[o]) == [])
  {
    assert OwnerInv(w.owners[o]);
    hide HandleInv, RegistryInv, OwnersInv;
  }
}
