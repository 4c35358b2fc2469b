/**
 A prepared statement's parameters: native bindings, and typed values whose conversion is
 repeated for each execution.
 */
module Bindings {
  import opened Wrappers

  type Error = string
  type Native = int

  /** A typed value names what the current catalog makes of it; `Unusable` never converts. */
  datatype PhpValue = Plain(value: Native) | Typed(id: nat) | Unusable

  type Catalog = map<nat, Native>

  function Convert(value: PhpValue, catalog: Catalog): Result<Native, Error> {
    match value
    case Plain(v) => Success(v)
    case Typed(id) => if id in catalog then Success(catalog[id]) else Failure("Unknown type")
    case Unusable => Failure("Unsupported value")
  }

  /** What a value's conversion must be. */
  predicate ConvertsTo(value: PhpValue, catalog: Catalog, native: Native) {
    match value
    case Plain(v) => native == v
    case Typed(id) => id in catalog && native == catalog[id]
    case Unusable => false
  }

  datatype Key = Position(at: int) | Name(name: string)
  datatype Param = Param(key: Key, value: PhpValue)

  /** A parameter's index with the value for it: one entry of an ordered hash table. */
  datatype Entry = Entry(index: nat, value: PhpValue)

  /** What DuckDB knows of a statement's parameters. */
  datatype Signature = Signature(count: nat, names: map<string, nat>)

  /** What `c_str()` keeps of a text: all before its first NUL. */
  function CString(text: string): string {
    if text == "" || text[0] == '\0' then "" else [text[0]] + CString(text[1..])
  }

  const BAD_INDEX: Error := "Invalid parameter index"
  const EMPTY_NAME: Error := "Invalid empty parameter name"
  const UNKNOWN_NAME: Error := "Unknown named parameter"

  /** `duckdb_resolve_param_index`. */
  function Resolve(sig: Signature, key: Key): Result<nat, Error> {
    match key
    case Position(i) =>
      if i < 1 || i > sig.count then Failure(BAD_INDEX) else Success(i)
    case Name(name) =>
      var bare := if |name| > 0 && (name[0] == '$' || name[0] == ':') then name[1..] else name;
      if bare == "" then Failure(EMPTY_NAME)
      else if CString(bare) !in sig.names then Failure(UNKNOWN_NAME)
      else Success(sig.names[CString(bare)])
  }

  predicate IsList(params: seq<Param>) {
    forall i :: 0 <= i < |params| ==> params[i].key == Position(i)
  }

  /** The index of each parameter, unless one has none. */
  function Resolved(sig: Signature, params: seq<Param>, list: bool): Result<seq<Entry>, Error> {
    if params == [] then Success([])
    else
      var n := |params| - 1;
      match Resolved(sig, params[..n], list)
      case Failure(e) => Failure(e)
      case Success(entries) =>
        if list then Success(entries + [Entry(|params|, params[n].value)])
        else match Resolve(sig, params[n].key)
          case Failure(e) => Failure(e)
          case Success(index) => Success(entries + [Entry(index, params[n].value)])
  }

  const TOO_MANY: Error := "Too many values"

  function Collect(sig: Signature, params: seq<Param>): Result<seq<Entry>, Error> {
    if IsList(params) && |params| > sig.count then Failure(TOO_MANY) else Resolved(sig, params, IsList(params))
  }

  /* Ordered tables */

  predicate Has(entries: seq<Entry>, index: nat) {
    exists e <- entries :: e.index == index
  }

  function Put(entries: seq<Entry>, e: Entry): seq<Entry> {
    if entries == [] then [e]
    else if entries[0].index == e.index then [e] + entries[1..]
    else [entries[0]] + Put(entries[1..], e)
  }

  function Remove(entries: seq<Entry>, index: nat): seq<Entry> {
    if entries == [] then []
    else if entries[0].index == index then entries[1..]
    else [entries[0]] + Remove(entries[1..], index)
  }

  /** Last write wins. */
  function Overlay(bound: map<nat, PhpValue>, entries: seq<Entry>): map<nat, PhpValue> {
    if entries == [] then bound
    else var n := |entries| - 1; Overlay(bound, entries[..n])[entries[n].index := entries[n].value]
  }

  ghost predicate Distinct(entries: seq<Entry>) {
    forall i, j :: 0 <= i < j < |entries| ==> entries[i].index != entries[j].index
  }

  /* An execution */

  /** The deferred values that an execution does not override. */
  function Carried(deferred: seq<Entry>, supplied: seq<Entry>): seq<Entry> {
    if deferred == [] then []
    else
      var n := |deferred| - 1;
      Carried(deferred[..n], supplied) + if Has(supplied, deferred[n].index) then [] else [deferred[n]]
  }

  function ConvertAll(entries: seq<Entry>, catalog: Catalog): Result<seq<Native>, Error> {
    if entries == [] then Success([])
    else
      var n := |entries| - 1;
      match ConvertAll(entries[..n], catalog)
      case Failure(e) => Failure(e)
      case Success(values) =>
        match Convert(entries[n].value, catalog)
        case Failure(e) => Failure(e)
        case Success(v) => Success(values + [v])
  }

  /** The native bindings after the first `k` of these were bound. */
  function BoundUpTo(native: map<nat, Native>, entries: seq<Entry>, values: seq<Native>, k: nat): map<nat, Native>
    requires k <= |entries| && k <= |values|
  {
    if k == 0 then native
    else BoundUpTo(native, entries, values, k - 1)[entries[k - 1].index := values[k - 1]]
  }

  /** How many are bound before DuckDB refuses one. */
  function Accepted(entries: seq<Entry>, refused: set<nat>): (k: nat)
    ensures k <= |entries|
    ensures forall i :: 0 <= i < k ==> entries[i].index !in refused
    ensures k < |entries| ==> entries[k].index in refused
  {
    if entries == [] || entries[0].index in refused then 0 else 1 + Accepted(entries[1..], refused)
  }

  /** The table of typed values after a successful execution. */
  function Kept(deferred: seq<Entry>, supplied: seq<Entry>): seq<Entry> {
    if supplied == [] then deferred
    else
      var n := |supplied| - 1;
      var before := Kept(deferred, supplied[..n]);
      if supplied[n].value.Typed? then Put(before, supplied[n]) else Remove(before, supplied[n].index)
  }

  datatype Bound = Bound(deferred: seq<Entry>, native: map<nat, Native>)

  const REFUSED: Error := "Failed to bind parameter"

  /** An execution's bindings, and its error. `refused` are the indices DuckDB refuses. */
  function Executed(sig: Signature, s: Bound, params: seq<Param>, catalog: Catalog, refused: set<nat>)
    : (Bound, Option<Error>)
  {
    match Collect(sig, params)
    case Failure(e) => (s, Some(e))
    case Success(supplied) =>
      var entries := supplied + Carried(s.deferred, supplied);
      match ConvertAll(entries, catalog)
      case Failure(e) => (s, Some(e))
      case Success(values) =>
        ConvertedLength(entries, catalog);
        var k := Accepted(entries, refused);
        var native := BoundUpTo(s.native, entries, values, k);
        if k < |entries| then (s.(native := native), Some(REFUSED))
        else (Bound(Kept(s.deferred, supplied), native), None)
  }

  lemma {:induction false} ConvertedLength(entries: seq<Entry>, catalog: Catalog)
    ensures ConvertAll(entries, catalog).Success? ==> |ConvertAll(entries, catalog).value| == |entries|
  {
    if entries != [] {
      ConvertedLength(entries[..|entries| - 1], catalog);
    }
  }

  /** `bindValue` and `bindBlob`: a typed value is deferred unless it is bound as a blob. */
  function BoundValue(sig: Signature, s: Bound, key: Key, value: PhpValue, refused: set<nat>): (Bound, Option<Error>) {
    match Resolve(sig, key)
    case Failure(e) => (s, Some(e))
    case Success(index) =>
      match value
      case Typed(_) => (s.(deferred := Put(s.deferred, Entry(index, value))), None)
      case Unusable => (s, Some("Unsupported value"))
      case Plain(v) =>
        if index in refused then (s, Some(REFUSED))
        else (Bound(Remove(s.deferred, index), s.native[index := v]), None)
  }

  class Statement {
    const sig: Signature
    var deferred: seq<Entry>
    var native: map<nat, Native>

    constructor (sig: Signature)
      ensures this.sig == sig && State() == Bound([], map[])
    {
      this.sig := sig;
      deferred, native := [], map[];
    }

    ghost function State(): Bound
      reads this
    {
      Bound(deferred, native)
    }

    method CollectParams(params: seq<Param>) returns (collected: Result<seq<Entry>, Error>)
      ensures collected == Collect(sig, params)
    {
      var positional := IsList(params);
      if positional && |params| > sig.count {
        return Failure(TOO_MANY);
      }
      var entries: seq<Entry> := [];
      for i := 0 to |params|
        invariant Resolved(sig, params[..i], positional) == Success(entries)
        invariant |entries| == i
      {
        assert params[..i + 1][..i] == params[..i];
        var index := i + 1;
        if !positional {
          match Resolve(sig, params[i].key)
          case Failure(e) =>
            ResolvedStops(sig, params, positional, i + 1);
            return Failure(e);
          case Success(at) => index := at;
        }
        entries := entries + [Entry(index, params[i].value)];
      }
      assert params[..|params|] == params;
      collected := Success(entries);
    }

    method ConvertValues(entries: seq<Entry>, catalog: Catalog) returns (converted: Result<seq<Native>, Error>)
      ensures converted == ConvertAll(entries, catalog)
    {
      var values: seq<Native> := [];
      for i := 0 to |entries|
        invariant ConvertAll(entries[..i], catalog) == Success(values)
      {
        assert entries[..i + 1][..i] == entries[..i];
        match Convert(entries[i].value, catalog)
        case Failure(e) =>
          ConversionStops(entries, catalog, i + 1);
          return Failure(e);
        case Success(v) => values := values + [v];
      }
      assert entries[..|entries|] == entries;
      converted := Success(values);
    }

    method BindConverted(entries: seq<Entry>, values: seq<Native>, refused: set<nat>) returns (ok: bool)
      requires |values| == |entries|
      modifies this`native
      ensures ok == (Accepted(entries, refused) == |entries|)
      ensures native == BoundUpTo(old(native), entries, values, Accepted(entries, refused))
    {
      for i := 0 to |entries|
        invariant i <= Accepted(entries, refused)
        invariant native == BoundUpTo(old(native), entries, values, i)
      {
        if entries[i].index in refused {
          return false;
        }
        native := native[entries[i].index := values[i]];
      }
      ok := true;
    }

    /** `duckdb_statement_bind_execution`. */
    method BindExecution(params: seq<Param>, catalog: Catalog, refused: set<nat>) returns (error: Option<Error>)
      modifies this
      ensures (State(), error) == Executed(sig, old(State()), params, catalog, refused)
    {
      var collected := CollectParams(params);
      if collected.Failure? {
        return Some(collected.error);
      }
      var supplied := collected.value;
      var carried := CarryDeferred(supplied);
      var entries := supplied + carried;
      var converted := ConvertValues(entries, catalog);
      if converted.Failure? {
        return Some(converted.error);
      }
      ConvertedLength(entries, catalog);
      var ok := BindConverted(entries, converted.value, refused);
      if !ok {
        return Some(REFUSED);
      }
      for i := 0 to |supplied|
        invariant native == BoundUpTo(old(native), entries, converted.value, |entries|)
        invariant deferred == Kept(old(deferred), supplied[..i])
      {
        assert supplied[..i + 1][..i] == supplied[..i];
        deferred := if supplied[i].value.Typed? then Put(deferred, supplied[i])
            else Remove(deferred, supplied[i].index);
      }
      assert supplied[..|supplied|] == supplied;
      error := None;
    }

    method CarryDeferred(supplied: seq<Entry>) returns (carried: seq<Entry>)
      ensures carried == Carried(deferred, supplied)
    {
      carried := [];
      for i := 0 to |deferred|
        invariant carried == Carried(deferred[..i], supplied)
      {
        assert deferred[..i + 1][..i] == deferred[..i];
        var overridden := false;
        for j := 0 to |supplied|
          invariant !overridden ==> forall k :: 0 <= k < j ==> supplied[k].index != deferred[i].index
          invariant overridden ==> Has(supplied, deferred[i].index)
        {
          if supplied[j].index == deferred[i].index {
            overridden := true;
            break;
          }
        }
        if !overridden {
          carried := carried + [deferred[i]];
        }
      }
      assert deferred[..|deferred|] == deferred;
    }

    /** `bindValue`; `bindBlob` passes a plain value. */
    method BindValue(key: Key, value: PhpValue, refused: set<nat>) returns (error: Option<Error>)
      modifies this
      ensures (State(), error) == BoundValue(sig, old(State()), key, value, refused)
    {
      var resolved := Resolve(sig, key);
      if resolved.Failure? {
        return Some(resolved.error);
      }
      match value
      case Typed(_) =>
        deferred := Put(deferred, Entry(resolved.value, value));
        error := None;
      case Unusable => error := Some("Unsupported value");
      case Plain(v) =>
        if resolved.value in refused {
          return Some(REFUSED);
        }
        native := native[resolved.value := v];
        deferred := Remove(deferred, resolved.value);
        error := None;
    }

    method ClearBindings()
      modifies this
      ensures State() == Bound([], map[])
    {
      native := map[];
      deferred := [];
    }
  }

  lemma {:induction false} ResolvedStops(sig: Signature, params: seq<Param>, list: bool, k: nat)
    requires k <= |params| && Resolved(sig, params[..k], list).Failure?
    ensures Resolved(sig, params, list) == Resolved(sig, params[..k], list)
    decreases |params|
  {
    if k < |params| {
      var n := |params| - 1;
      assert params[..n][..k] == params[..k];
      ResolvedStops(sig, params[..n], list, k);
    } else {
      assert params[..k] == params;
    }
  }

  lemma {:induction false} ConversionStops(entries: seq<Entry>, catalog: Catalog, k: nat)
    requires k <= |entries| && ConvertAll(entries[..k], catalog).Failure?
    ensures ConvertAll(entries, catalog) == ConvertAll(entries[..k], catalog)
    decreases |entries|
  {
    if k < |entries| {
      var n := |entries| - 1;
      assert entries[..n][..k] == entries[..k];
      ConversionStops(entries[..n], catalog, k);
    } else {
      assert entries[..k] == entries;
    }
  }
}
