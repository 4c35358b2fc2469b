/** Which parameter a position or a name reaches, and what a call that succeeds binds there. */
module BindingNames {
  import opened Wrappers
  import opened Bindings
  import BindingRuns

  /** A name is written bare, or after `$` or `:`. */
  predicate Written(name: string, text: string) {
    && text != ""
    && (name == "$" + text || name == ":" + text || (name == text && name[0] != '$' && name[0] != ':'))
  }

  /** DuckDB sees a text up to its first NUL. */
  predicate SeenAs(text: string, seen: string) {
    seen <= text && '\0' !in seen && (seen == text || text[|seen|] == '\0')
  }

  ghost predicate Reaches(sig: Signature, key: Key, index: nat) {
    match key
    case Position(i) => i == index && 1 <= i <= sig.count
    case Name(name) =>
      exists text, seen :: Written(name, text) && SeenAs(text, seen) && seen in sig.names && sig.names[seen] == index
  }

  /** Why a key reaches no parameter. */
  function KeyError(key: Key): Error {
    match key
    case Position(_) => BAD_INDEX
    case Name(name) => if name in {"", "$", ":"} then EMPTY_NAME else UNKNOWN_NAME
  }

  lemma {:induction false} SeenIsCString(text: string, seen: string)
    ensures SeenAs(text, seen) <==> seen == CString(text)
  {
    if text != "" && text[0] != '\0' {
      if seen == "" {
      } else {
        SeenIsCString(text[1..], seen[1..]);
        assert seen == [seen[0]] + seen[1..] && text == [text[0]] + text[1..];
        assert seen <= text <==> seen[0] == text[0] && seen[1..] <= text[1..];
      }
    }
  }

  function Bare(name: string): string {
    if |name| > 0 && (name[0] == '$' || name[0] == ':') then name[1..] else name
  }

  lemma BareIsWritten(name: string, text: string)
    ensures Written(name, text) <==> text == Bare(name) && Bare(name) != ""
    ensures Bare(name) == "" <==> name in {"", "$", ":"}
  {
    assert |name| > 0 ==> name == [name[0]] + name[1..];
    assert |name| == 1 ==> name == [name[0]];
  }

  /** A key resolves to an index exactly when it reaches it, and otherwise says why not. */
  lemma KeysReachTheirParameter(sig: Signature, key: Key)
    ensures forall index: nat :: Resolve(sig, key) == Success(index) <==> Reaches(sig, key, index)
    ensures Resolve(sig, key).Failure? ==> Resolve(sig, key) == Failure(KeyError(key))
  {
    hide CString, SeenAs, Written;
    if key.Name? {
      var name := key.name;
      BareIsWritten(name, Bare(name));
      SeenIsCString(Bare(name), CString(Bare(name)));
      forall index: nat ensures Resolve(sig, key) == Success(index) <==> Reaches(sig, key, index) {
        if Reaches(sig, key, index) {
          var text, seen :| Written(name, text) && SeenAs(text, seen) && seen in sig.names && sig.names[seen] == index;
          BareIsWritten(name, text);
          SeenIsCString(text, seen);
        }
      }
    }
  }

  /** Every parameter of a list is bound at its place; a list with too many binds nothing. In any
      other array each value goes where its key reaches, unless one reaches nothing: then the
      first such key's error is thrown. */
  lemma CollectedByKey(sig: Signature, params: seq<Param>, entries: seq<Entry>)
    ensures Collect(sig, params) == Success(entries) <==>
              && |entries| == |params|
              && (forall i :: 0 <= i < |params| ==> entries[i].value == params[i].value)
              && if IsList(params)
                 then |params| <= sig.count && forall i :: 0 <= i < |params| ==> entries[i].index == i + 1
                 else forall i :: 0 <= i < |params| ==> Reaches(sig, params[i].key, entries[i].index)
  {
    hide Reaches;
    if !IsList(params) || |params| <= sig.count {
      ResolvedByKey(sig, params, IsList(params), entries);
    }
  }

  lemma {:induction false} ResolvedByKey(sig: Signature, params: seq<Param>, list: bool, entries: seq<Entry>)
    ensures Resolved(sig, params, list) == Success(entries) <==>
              && |entries| == |params|
              && (forall i :: 0 <= i < |params| ==> entries[i].value == params[i].value)
              && forall i :: 0 <= i < |params| ==>
                   if list then entries[i].index == i + 1 else Reaches(sig, params[i].key, entries[i].index)
  {
    hide Resolve, Reaches;
    if params != [] {
      var n := |params| - 1;
      KeysReachTheirParameter(sig, params[n].key);
      if entries != [] {
        assert entries == entries[..|entries| - 1] + [entries[|entries| - 1]];
        ResolvedByKey(sig, params[..n], list, entries[..|entries| - 1]);
      }
    }
  }

  /** What is thrown when parameters cannot be collected. */
  lemma CollectionError(sig: Signature, params: seq<Param>)
    requires Collect(sig, params).Failure?
    ensures if IsList(params) then |params| > sig.count && Collect(sig, params) == Failure(TOO_MANY)
            else exists k ::
              0 <= k < |params| && FirstUnreached(sig, params, k)
              && Collect(sig, params) == Failure(KeyError(params[k].key))
  {
    if !IsList(params) || |params| <= sig.count {
      ResolutionError(sig, params, IsList(params));
    }
  }

  ghost predicate Unreached(sig: Signature, key: Key) {
    forall index: nat :: !Reaches(sig, key, index)
  }

  ghost predicate FirstUnreached(sig: Signature, params: seq<Param>, k: nat)
    requires k < |params|
  {
    Unreached(sig, params[k].key) && forall j :: 0 <= j < k ==> !Unreached(sig, params[j].key)
  }

  lemma {:induction false} ResolutionError(sig: Signature, params: seq<Param>, list: bool)
    requires Resolved(sig, params, list).Failure?
    ensures !list
    ensures exists k ::
              0 <= k < |params| && FirstUnreached(sig, params, k)
              && Resolved(sig, params, list) == Failure(KeyError(params[k].key))
  {
    hide Resolve, Reaches, KeyError;
    var n := |params| - 1;
    var before := Resolved(sig, params[..n], list);
    assert forall j :: 0 <= j < n ==> params[..n][j] == params[j];
    if before.Failure? {
      ResolutionError(sig, params[..n], list);
      var k :| 0 <= k < n && FirstUnreached(sig, params[..n], k) && before == Failure(KeyError(params[..n][k].key));
      assert FirstUnreached(sig, params, k);
    } else {
      KeysReachTheirParameter(sig, params[n].key);
      ResolvedByKey(sig, params[..n], list, before.value);
      forall j | 0 <= j < n ensures !list ==> !Unreached(sig, params[j].key) {
        assert !list ==> Reaches(sig, params[..n][j].key, before.value[j].index);
      }
      assert !list && FirstUnreached(sig, params, n);
    }
  }

  /** Binding a value changes what its key reaches and nothing else: a plain value becomes the
      native binding there, if DuckDB takes it, and ends a typed one; a typed value is kept for
      the executions to come. */
  lemma BindReachesOneParameter(sig: Signature, s: Bound, key: Key, value: PhpValue, refused: set<nat>, index: nat)
    requires Distinct(s.deferred) && Reaches(sig, key, index)
    ensures var (after, error) := BoundValue(sig, s, key, value, refused);
      match value
      case Plain(v) =>
        if index in refused then (after, error) == (s, Some(REFUSED))
        else
          && error.None? && after.native == s.native[index := v]
          && forall e: Entry :: e in after.deferred <==> e in s.deferred && e.index != index
      case Typed(_) =>
        && error.None? && after.native == s.native
        && forall e: Entry :: e in after.deferred <==> e == Entry(index, value) || (e in s.deferred && e.index != index)
      case Unusable => after == s && error.Some?
  {
    KeysReachTheirParameter(sig, key);
    BindingRuns.PutMembers(s.deferred, Entry(index, value));
    BindingRuns.RemoveMembers(s.deferred, index);
    hide Reaches, Resolve, Put, Remove, Distinct;
  }

  /** A key that reaches no parameter changes nothing. */
  lemma UnreachedBindsNothing(sig: Signature, s: Bound, key: Key, value: PhpValue, refused: set<nat>)
    requires Unreached(sig, key)
    ensures BoundValue(sig, s, key, value, refused) == (s, Some(KeyError(key)))
  {
    KeysReachTheirParameter(sig, key);
    hide Reaches, Resolve, KeyError;
  }
}
