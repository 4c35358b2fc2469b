/** A statement's bindings against the last-write-wins map they stand for. */
module BindingRuns {
  import opened Wrappers
  import opened Bindings

  /** The typed values of a map, in any order. */
  ghost predicate Defers(bound: map<nat, PhpValue>, deferred: seq<Entry>) {
    && Distinct(deferred)
    && forall e: Entry :: e in deferred <==> e.index in bound && bound[e.index] == e.value && e.value.Typed?
  }

  /** What the native and the deferred bindings say together. */
  ghost predicate Represents(s: Bound, bound: map<nat, PhpValue>) {
    && Defers(bound, s.deferred)
    && (forall i <- s.native :: i in bound)
    && (forall i <- bound :: bound[i] != Unusable)
    && (forall i <- bound :: bound[i].Plain? ==> i in s.native && s.native[i] == bound[i].value)
  }

  lemma {:induction false} PutMembers(d: seq<Entry>, e: Entry)
    requires Distinct(d)
    ensures Distinct(Put(d, e))
    ensures forall x: Entry :: x in Put(d, e) <==> x == e || (x in d && x.index != e.index)
  {
    if d != [] {
      var rest := d[1..];
      assert d == [d[0]] + rest;
      assert forall k :: 0 <= k < |rest| ==> rest[k] == d[k + 1];
      if d[0].index != e.index {
        PutMembers(rest, e);
        assert forall k :: 0 <= k < |Put(rest, e)| ==> Put(rest, e)[k] in Put(rest, e);
        assert forall x <- rest :: x.index != d[0].index;
      } else {
        assert forall x <- rest :: x.index != d[0].index;
      }
    }
  }

  lemma {:induction false} RemoveMembers(d: seq<Entry>, index: nat)
    requires Distinct(d)
    ensures Distinct(Remove(d, index))
    ensures forall x: Entry :: x in Remove(d, index) <==> x in d && x.index != index
  {
    if d != [] {
      var rest := d[1..];
      assert d == [d[0]] + rest;
      assert forall k :: 0 <= k < |rest| ==> rest[k] == d[k + 1];
      assert forall x <- rest :: x.index != d[0].index;
      if d[0].index != index {
        RemoveMembers(rest, index);
        Prepended(d[0], Remove(rest, index));
        hide Distinct;
      }
    }
  }

  lemma Prepended(e: Entry, rest: seq<Entry>)
    requires Distinct(rest) && forall x <- rest :: x.index != e.index
    ensures Distinct([e] + rest)
  {}

  lemma DefersTyped(bound: map<nat, PhpValue>, d: seq<Entry>, e: Entry)
    requires Defers(bound, d) && e.value.Typed?
    ensures Defers(bound[e.index := e.value], Put(d, e))
  {
    PutMembers(d, e);
  }

  lemma DefersPlain(bound: map<nat, PhpValue>, d: seq<Entry>, e: Entry)
    requires Defers(bound, d) && !e.value.Typed?
    ensures Defers(bound[e.index := e.value], Remove(d, e.index))
  {
    RemoveMembers(d, e.index);
  }

  lemma {:induction false} KeptTracks(bound: map<nat, PhpValue>, d: seq<Entry>, supplied: seq<Entry>)
    requires Defers(bound, d)
    ensures Defers(Overlay(bound, supplied), Kept(d, supplied))
  {
    if supplied != [] {
      var n := |supplied| - 1;
      KeptTracks(bound, d, supplied[..n]);
      if supplied[n].value.Typed? {
        DefersTyped(Overlay(bound, supplied[..n]), Kept(d, supplied[..n]), supplied[n]);
      } else {
        DefersPlain(Overlay(bound, supplied[..n]), Kept(d, supplied[..n]), supplied[n]);
      }
    }
  }

  lemma {:induction false} OverlayJoins(bound: map<nat, PhpValue>, a: seq<Entry>, b: seq<Entry>)
    ensures Overlay(bound, a + b) == Overlay(Overlay(bound, a), b)
  {
    if b == [] {
      assert a + b == a;
    } else {
      var n := |b| - 1;
      assert (a + b)[..|a + b| - 1] == a + b[..n];
      OverlayJoins(bound, a, b[..n]);
    }
  }

  lemma {:induction false} OverlaySame(bound: map<nat, PhpValue>, entries: seq<Entry>)
    requires forall e <- entries :: e.index in bound && bound[e.index] == e.value
    ensures Overlay(bound, entries) == bound
  {
    if entries != [] {
      var n := |entries| - 1;
      OverlaySame(bound, entries[..n]);
      assert entries[n] in entries;
    }
  }

  lemma {:induction false} OverlayKeys(bound: map<nat, PhpValue>, entries: seq<Entry>, i: nat)
    ensures i in Overlay(bound, entries) <==> i in bound || Has(entries, i)
    ensures !Has(entries, i) && i in bound ==> Overlay(bound, entries)[i] == bound[i]
    ensures i in Overlay(bound, entries) && Overlay(bound, entries)[i] == Unusable ==>
              (i in bound && bound[i] == Unusable) || Entry(i, Unusable) in entries
  {
    if entries != [] {
      var n := |entries| - 1;
      assert entries == entries[..n] + [entries[n]];
      OverlayKeys(bound, entries[..n], i);
    }
  }

  lemma {:induction false} CarriedMembers(deferred: seq<Entry>, supplied: seq<Entry>, e: Entry)
    ensures e in Carried(deferred, supplied) <==> e in deferred && !Has(supplied, e.index)
  {
    if deferred != [] {
      var n := |deferred| - 1;
      assert deferred == deferred[..n] + [deferred[n]];
      CarriedMembers(deferred[..n], supplied, e);
    }
  }

  lemma {:induction false} ConvertedAt(entries: seq<Entry>, catalog: Catalog, j: nat)
    requires ConvertAll(entries, catalog).Success? && j < |entries|
    ensures |ConvertAll(entries, catalog).value| == |entries|
    ensures Convert(entries[j].value, catalog) == Success(ConvertAll(entries, catalog).value[j])
  {
    var n := |entries| - 1;
    ConvertedLength(entries, catalog);
    ConvertedLength(entries[..n], catalog);
    if j < n {
      ConvertedAt(entries[..n], catalog, j);
    }
  }

  /** Binding one after the other leaves, for each index, the last value converted. */
  lemma {:induction false} BoundIsConverted(native: map<nat, Native>, bound: map<nat, PhpValue>, entries: seq<Entry>,
                                            values: seq<Native>, catalog: Catalog, k: nat, i: nat)
    requires k <= |entries| == |values| && ConvertAll(entries, catalog) == Success(values)
    ensures var after := BoundUpTo(native, entries, values, k);
      && (i in after <==> i in native || Has(entries[..k], i))
      && (!Has(entries[..k], i) && i in native ==> after[i] == native[i])
      && (Has(entries[..k], i) ==>
            i in Overlay(bound, entries[..k]) && Convert(Overlay(bound, entries[..k])[i], catalog) == Success(after[i]))
  {
    hide ConvertAll, Convert;
    if k > 0 {
      BoundIsConverted(native, bound, entries, values, catalog, k - 1, i);
      ConvertedAt(entries, catalog, k - 1);
      assert entries[..k][..k - 1] == entries[..k - 1];
      assert entries[..k] == entries[..k - 1] + [entries[k - 1]];
    }
  }

  /** The map a successful execution leaves bound. */
  function Overlaid(sig: Signature, bound: map<nat, PhpValue>, params: seq<Param>): map<nat, PhpValue> {
    match Collect(sig, params)
    case Failure(_) => bound
    case Success(supplied) => Overlay(bound, supplied)
  }

  /** The native bindings that an execution uses are the conversion, now, of the last value
      written for each parameter; typed values are converted again, plain ones kept. */
  lemma ExecutionUsesLastWrites(sig: Signature, s: Bound, bound: map<nat, PhpValue>, params: seq<Param>,
                                catalog: Catalog, refused: set<nat>)
    requires Represents(s, bound) && Executed(sig, s, params, catalog, refused).1.None?
    ensures var after := Executed(sig, s, params, catalog, refused).0; var now := Overlaid(sig, bound, params);
      && Represents(after, now)
      && after.native.Keys == now.Keys
      && forall i <- now :: ConvertsTo(now[i], catalog, after.native[i])
  {
    hide Overlay, Collect, Kept, Carried, ConvertAll, BoundUpTo, Executed, Defers, Has, Accepted;
    var supplied, values := ExecutedParts(sig, s, params, catalog, refused);
    var after := Executed(sig, s, params, catalog, refused).0;
    var now := Overlay(bound, supplied);
    KeptTracks(bound, s.deferred, supplied);
    forall i: nat
      ensures (i in after.native <==> i in now) && (i in now ==> ConvertsTo(now[i], catalog, after.native[i]))
    {
      BoundNow(s, bound, supplied, values, catalog, i);
    }
    forall i <- now ensures now[i] != Unusable {}
  }

  /** The value bound for an index is that of its last entry. */
  lemma {:induction false} LastEntryWins(bound: map<nat, PhpValue>, entries: seq<Entry>, k: nat)
    requires k < |entries| && forall j :: k < j < |entries| ==> entries[j].index != entries[k].index
    ensures entries[k].index in Overlay(bound, entries)
    ensures Overlay(bound, entries)[entries[k].index] == entries[k].value
  {
    if k < |entries| - 1 {
      LastEntryWins(bound, entries[..|entries| - 1], k);
    }
  }

  ghost predicate Converts(value: PhpValue, catalog: Catalog) {
    exists v :: ConvertsTo(value, catalog, v)
  }

  /** A supplied parameter, or a typed value from before that none of them overrides. */
  ghost predicate Needed(s: Bound, supplied: seq<Entry>, e: Entry) {
    e in supplied || (e in s.deferred && !Has(supplied, e.index))
  }

  /** An execution binds its parameters exactly when they can be collected, and every value that
      it needs converts and is accepted. */
  lemma WhenExecutionSucceeds(sig: Signature, s: Bound, params: seq<Param>, catalog: Catalog, refused: set<nat>)
    ensures Executed(sig, s, params, catalog, refused).1.None? <==>
              && Collect(sig, params).Success?
              && forall e: Entry :: Needed(s, Collect(sig, params).value, e) ==>
                   e.index !in refused && Converts(e.value, catalog)
  {
    hide Collect, Accepted, Carried, ConvertAll, BoundUpTo, Kept, Has;
    if Collect(sig, params).Success? {
      var supplied := Collect(sig, params).value;
      var entries := supplied + Carried(s.deferred, supplied);
      forall e: Entry ensures e in entries <==> Needed(s, supplied, e) {
        CarriedMembers(s.deferred, supplied, e);
      }
      WhenAllConvert(entries, catalog);
      ConvertedLength(entries, catalog);
      hide Needed;
      assert Accepted(entries, refused) == |entries| <==> forall e <- entries :: e.index !in refused;
      hide Converts;
    }
  }

  lemma {:induction false} WhenAllConvert(entries: seq<Entry>, catalog: Catalog)
    ensures ConvertAll(entries, catalog).Success? <==>
              forall e <- entries :: Converts(e.value, catalog)
  {
    hide Converts;
    if entries != [] {
      var n := |entries| - 1;
      WhenAllConvert(entries[..n], catalog);
      assert entries == entries[..n] + [entries[n]];
      WhenItConverts(entries[n].value, catalog);
      hide Convert;
    }
  }

  lemma WhenItConverts(value: PhpValue, catalog: Catalog)
    ensures Convert(value, catalog).Success? <==> Converts(value, catalog)
  {
    if Convert(value, catalog).Success? {
      assert ConvertsTo(value, catalog, Convert(value, catalog).value);
    }
  }

  /** What a successful execution collected and converted, and what it left. */
  lemma ExecutedParts(sig: Signature, s: Bound, params: seq<Param>, catalog: Catalog, refused: set<nat>)
    returns (supplied: seq<Entry>, values: seq<Native>)
    requires Executed(sig, s, params, catalog, refused).1.None?
    ensures Collect(sig, params) == Success(supplied)
    ensures var entries := supplied + Carried(s.deferred, supplied);
      && ConvertAll(entries, catalog) == Success(values) && |values| == |entries|
      && Executed(sig, s, params, catalog, refused).0 ==
           Bound(Kept(s.deferred, supplied), BoundUpTo(s.native, entries, values, |values|))
  {
    supplied := Collect(sig, params).value;
    values := ConvertAll(supplied + Carried(s.deferred, supplied), catalog).value;
    ConvertedLength(supplied + Carried(s.deferred, supplied), catalog);
    hide Collect, Kept, Carried, ConvertAll, BoundUpTo;
  }

  lemma BoundNow(s: Bound, bound: map<nat, PhpValue>, supplied: seq<Entry>, values: seq<Native>, catalog: Catalog,
      i: nat)
    requires Represents(s, bound)
    requires var entries := supplied + Carried(s.deferred, supplied);
      |values| == |entries| && ConvertAll(entries, catalog) == Success(values)
    ensures var after := BoundUpTo(s.native, supplied + Carried(s.deferred, supplied), values, |values|);
      var now := Overlay(bound, supplied);
      (i in after <==> i in now) && (i in now ==> Convert(now[i], catalog) == Success(after[i]))
  {
    var entries := supplied + Carried(s.deferred, supplied);
    assert entries[..|entries|] == entries;
    CarriedAlready(s, bound, supplied);
    BoundIsConverted(s.native, bound, entries, values, catalog, |entries|, i);
    OverlayKeys(bound, supplied, i);
    UntouchedIsPlain(s, bound, supplied, i);
    hide Overlay, Carried, ConvertAll, BoundUpTo, Defers, Has;
  }

  lemma CarriedAlready(s: Bound, bound: map<nat, PhpValue>, supplied: seq<Entry>)
    requires Represents(s, bound)
    ensures Overlay(bound, supplied + Carried(s.deferred, supplied)) == Overlay(bound, supplied)
  {
    var carried := Carried(s.deferred, supplied);
    OverlayJoins(bound, supplied, carried);
    forall e | e in carried ensures e.index in Overlay(bound, supplied)
        && Overlay(bound, supplied)[e.index] == e.value {
      CarriedMembers(s.deferred, supplied, e);
      OverlayKeys(bound, supplied, e.index);
    }
    OverlaySame(Overlay(bound, supplied), carried);
  }

  /** An index that an execution binds nothing for keeps a plain value. */
  lemma UntouchedIsPlain(s: Bound, bound: map<nat, PhpValue>, supplied: seq<Entry>, i: nat)
    requires Represents(s, bound)
    ensures var entries := supplied + Carried(s.deferred, supplied);
      && (Has(entries, i) ==> Has(supplied, i) || i in bound)
      && (i in bound && !Has(entries, i) ==> bound[i].Plain? && !Has(supplied, i))
  {
    var carried := Carried(s.deferred, supplied);
    if i in bound && bound[i].Typed? {
      CarriedMembers(s.deferred, supplied, Entry(i, bound[i]));
    }
    if Has(carried, i) {
      var e :| e in carried && e.index == i;
      CarriedMembers(s.deferred, supplied, e);
    }
    assert forall e: Entry :: e in supplied + carried <==> e in supplied || e in carried;
  }

  /* Every run */

  datatype Call =
    | Binds(key: Key, value: PhpValue, refused: set<nat>)
    | Clears
    | Executes(params: seq<Param>, catalog: Catalog, refused: set<nat>)

  function Called(sig: Signature, s: Bound, call: Call): (Bound, Option<Error>) {
    match call
    case Binds(key, value, refused) => BoundValue(sig, s, key, value, refused)
    case Clears => (Bound([], map[]), None)
    case Executes(params, catalog, refused) => Executed(sig, s, params, catalog, refused)
  }

  /** The last-write-wins map: a call that throws writes nothing. */
  function Intended(sig: Signature, bound: map<nat, PhpValue>, call: Call, error: Option<Error>): map<nat, PhpValue> {
    if error.Some? then bound
    else match call
      case Binds(key, value, _) =>
        (match Resolve(sig, key)
         case Success(index) => bound[index := value]
         case Failure(_) => bound)
      case Clears => map[]
      case Executes(params, _, _) => Overlaid(sig, bound, params)
  }

  /** DuckDB refused a parameter of an execution, some of which may be bound already. */
  predicate Interrupted(sig: Signature, s: Bound, call: Call) {
    call.Executes? && Called(sig, s, call).1 == Some(REFUSED)
  }

  lemma {:induction false} NoOtherRefusal(sig: Signature, params: seq<Param>, list: bool)
    ensures Resolved(sig, params, list) != Failure(REFUSED)
  {
    if params != [] {
      NoOtherRefusal(sig, params[..|params| - 1], list);
    }
  }

  lemma {:induction false} NoConversionRefusal(entries: seq<Entry>, catalog: Catalog)
    ensures ConvertAll(entries, catalog) != Failure(REFUSED)
  {
    if entries != [] {
      NoConversionRefusal(entries[..|entries| - 1], catalog);
    }
  }

  /** A call that throws changes neither map, except an execution that DuckDB refused. */
  lemma ThrowingChangesNothing(sig: Signature, s: Bound, call: Call)
    requires Called(sig, s, call).1.Some?
    ensures !Interrupted(sig, s, call) ==> Called(sig, s, call).0 == s
    ensures Called(sig, s, call).0.deferred == s.deferred
  {
    if call.Executes? {
      NoOtherRefusal(sig, call.params, IsList(call.params));
      hide Resolved, ConvertAll, BoundUpTo;
    }
  }

  lemma CallRepresents(sig: Signature, s: Bound, bound: map<nat, PhpValue>, call: Call)
    requires Represents(s, bound) && !Interrupted(sig, s, call)
    ensures Represents(Called(sig, s, call).0, Intended(sig, bound, call, Called(sig, s, call).1))
  {
    var error := Called(sig, s, call).1;
    if error.Some? {
      ThrowingChangesNothing(sig, s, call);
    } else {
      match call
      case Binds(key, value, _) =>
        var index := Resolve(sig, key).value;
        if value.Typed? {
          DefersTyped(bound, s.deferred, Entry(index, value));
        } else {
          DefersPlain(bound, s.deferred, Entry(index, value));
        }
        hide Defers;
      case Clears =>
      case Executes(params, catalog, refused) => ExecutionUsesLastWrites(sig, s, bound, params, catalog, refused);
    }
  }

  /** The bindings and the intended map after some calls. */
  function After(sig: Signature, calls: seq<Call>): (Bound, map<nat, PhpValue>)
    decreases |calls|
  {
    if calls == [] then (Bound([], map[]), map[])
    else
      var n := |calls| - 1;
      var (s, bound) := After(sig, calls[..n]);
      var (after, error) := Called(sig, s, calls[n]);
      (after, Intended(sig, bound, calls[n], error))
  }

  /** Unless DuckDB refused a parameter in some execution, the two binding tables always
      stand for the last value written for each parameter. */
  lemma {:induction false} BindingsStayRight(sig: Signature, calls: seq<Call>)
    requires forall k :: 0 <= k < |calls| ==> !Interrupted(sig, After(sig, calls[..k]).0, calls[k])
    ensures Represents(After(sig, calls).0, After(sig, calls).1)
    decreases |calls|
  {
    hide Represents, Called, Intended, Interrupted;
    if calls == [] {
      EmptyRepresents();
    } else {
      var n := |calls| - 1;
      var before := calls[..n];
      forall k | 0 <= k < n ensures !Interrupted(sig, After(sig, before[..k]).0, before[k]) {
        assert before[..k] == calls[..k];
      }
      BindingsStayRight(sig, before);
      CallRepresents(sig, After(sig, before).0, After(sig, before).1, calls[n]);
    }
  }

  lemma EmptyRepresents()
    ensures Represents(Bound([], map[]), map[])
  {}

  /** The parameters that an execution binds before DuckDB refuses one. */
  function Tried(sig: Signature, s: Bound, params: seq<Param>, refused: set<nat>): seq<Entry> {
    match Collect(sig, params)
    case Failure(_) => []
    case Success(supplied) =>
      var entries := supplied + Carried(s.deferred, supplied);
      entries[..Accepted(entries, refused)]
  }

  /** What a refused execution leaves: the parameters bound before the refusal. The tables
      stand for the intended map still, exactly when those were bound to these values before
      or are typed values that the next execution converts again. */
  lemma RefusedExecution(sig: Signature, s: Bound, bound: map<nat, PhpValue>, params: seq<Param>, catalog: Catalog,
      refused: set<nat>)
    requires Represents(s, bound) && Interrupted(sig, s, Executes(params, catalog, refused))
    ensures var wanted := Overlay(map[], Tried(sig, s, params, refused));
      Represents(Executed(sig, s, params, catalog, refused).0, bound) <==>
        forall i <- wanted :: i in bound && (bound[i].Plain? ==> Convert(wanted[i], catalog) == Success(bound[i].value))
  {
    hide Overlay, Collect, Carried, ConvertAll, BoundUpTo, Executed, Interrupted, Defers, Has, Accepted, Tried;
    var entries, values, k := RefusedParts(sig, s, params, catalog, refused);
    var after := Executed(sig, s, params, catalog, refused).0;
    var wanted := Overlay(map[], entries[..k]);
    forall i: nat
      ensures (i in wanted <==> Has(entries[..k], i)) && (i in after.native <==> i in s.native || i in wanted)
      ensures i in wanted ==> Convert(wanted[i], catalog) == Success(after.native[i])
      ensures i !in wanted && i in s.native ==> after.native[i] == s.native[i]
    {
      BoundIsConverted(s.native, map[], entries, values, catalog, k, i);
      OverlayKeys(map[], entries[..k], i);
    }
  }

  lemma RefusedParts(sig: Signature, s: Bound, params: seq<Param>, catalog: Catalog, refused: set<nat>)
    returns (entries: seq<Entry>, values: seq<Native>, k: nat)
    requires Interrupted(sig, s, Executes(params, catalog, refused))
    ensures k < |entries| == |values| && ConvertAll(entries, catalog) == Success(values)
    ensures Executed(sig, s, params, catalog, refused).0 == Bound(s.deferred, BoundUpTo(s.native, entries, values, k))
    ensures Tried(sig, s, params, refused) == entries[..k]
  {
    NoOtherRefusal(sig, params, IsList(params));
    var supplied := Collect(sig, params).value;
    entries := supplied + Carried(s.deferred, supplied);
    NoConversionRefusal(entries, catalog);
    values := ConvertAll(entries, catalog).value;
    ConvertedLength(entries, catalog);
    k := Accepted(entries, refused);
    hide Resolved, Carried, ConvertAll, BoundUpTo, Accepted;
  }

  /** Binding 1 to a first value, then an execution that would bind 1 and 2 and is refused at
      2, leaves 1 bound to the new value although the execution threw. */
  lemma RefusalMayLeaveAValueBehind()
    ensures var sig := Signature(2, map[]);
      var s := Called(sig, Bound([], map[]), Binds(Position(1), Plain(7), {})).0;
      var call := Executes([Param(Position(0), Plain(8)), Param(Position(1), Plain(9))], map[], {2});
      Interrupted(sig, s, call) && s.native == map[1 := 7] && Called(sig, s, call).0.native == map[1 := 8]
  {
    var sig := Signature(2, map[]);
    assert Called(sig, Bound([], map[]), Binds(Position(1), Plain(7), {})).0 == Bound([], map[1 := 7]);
    PairRefused(sig, Bound([], map[1 := 7]));
    hide Called, Executed;
  }

  lemma PairRefused(sig: Signature, s: Bound)
    requires sig == Signature(2, map[]) && s == Bound([], map[1 := 7])
    ensures var params := [Param(Position(0), Plain(8)), Param(Position(1), Plain(9))];
      Executed(sig, s, params, map[], {2}) == (Bound([], map[1 := 8]), Some(REFUSED))
  {
    hide Resolved, ConvertAll, Accepted, Carried, Kept, Put, Remove;
    var params := [Param(Position(0), Plain(8)), Param(Position(1), Plain(9))];
    var entries := [Entry(1, Plain(8)), Entry(2, Plain(9))];
    PairResolves(sig, params[0], params[1]);
    assert Collect(sig, params) == Success(entries);
    assert Carried([], entries) == [] by { NoneCarried(entries); }
    assert entries + [] == entries;
    PairConverts(entries[0], entries[1]);
    PairAccepted(entries);
    assert BoundUpTo(s.native, entries, [8, 9], 1) == map[1 := 8];
  }

  lemma NoneCarried(entries: seq<Entry>)
    ensures Carried([], entries) == []
  {}

  lemma PairResolves(sig: Signature, first: Param, second: Param)
    ensures Resolved(sig, [first, second], true) == Success([Entry(1, first.value), Entry(2, second.value)])
  {
    assert [first, second][..1] == [first] && [first][..0] == [];
    assert Resolved(sig, [first], true) == Success([] + [Entry(1, first.value)]);
    assert [] + [Entry(1, first.value)] + [Entry(2, second.value)] == [Entry(1, first.value), Entry(2, second.value)];
  }

  lemma PairConverts(first: Entry, second: Entry)
    requires first.value.Plain? && second.value.Plain?
    ensures ConvertAll([first, second], map[]) == Success([first.value.value, second.value.value])
  {
    assert [first, second][..1] == [first] && [first][..0] == [];
    assert ConvertAll([first], map[]) == Success([] + [first.value.value]);
    assert [] + [first.value.value] + [second.value.value] == [first.value.value, second.value.value];
  }

  lemma PairAccepted(entries: seq<Entry>)
    requires |entries| == 2 && entries[0].index == 1 && entries[1].index == 2
    ensures Accepted(entries, {2}) == 1
  {
    assert entries[1..][0] == entries[1];
  }
}
