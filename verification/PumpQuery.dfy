/** A multi-statement query, run statement by statement through the connection's helper. */
module PumpQuery {
  import opened Wrappers

  type Error = string

  /** What DuckDB makes of one extracted statement. `Unprepared(false, _)` gives no handle. */
  datatype Statement =
    | Unprepared(handle: bool, error: Error)
    | Unstarted(error: Error)                 // the pending query or its lease did not run
    | Failed(error: Error)                    // the error is a result of its own
    | Succeeded(rows: bool)

  /** Native handles, named by the statement they belong to. */
  datatype Native = Prepared(statement: nat) | Rows(statement: nat) | Extracted

  predicate Runs(s: Statement) {
    s.Failed? || s.Succeeded?
  }

  /** How many statements succeed before the first that does not. */
  function Good(statements: seq<Statement>): (n: nat)
    ensures n <= |statements|
    ensures forall i :: 0 <= i < n ==> statements[i].Succeeded?
    ensures n < |statements| ==> !statements[n].Succeeded?
  {
    if statements == [] || !statements[0].Succeeded? then 0 else 1 + Good(statements[1..])
  }

  /** The statements that a query executes: up to the first error, which it includes. */
  predicate Executes(statements: seq<Statement>, i: nat) {
    i <= Good(statements) && i < |statements| && !statements[i].Unprepared?
  }

  /** The native handles the query makes. */
  predicate Makes(statements: seq<Statement>, h: Native) {
    match h
    case Extracted => true
    case Prepared(i) =>
      i <= Good(statements) && i < |statements| && (statements[i].Unprepared? ==> statements[i].handle)
    case Rows(i) => Executes(statements, i) && Runs(statements[i])
  }

  /** The statement whose result a query returns: the first with rows, or the last. */
  ghost predicate Returns(statements: seq<Statement>, i: nat) {
    && i < |statements| && statements[i].Succeeded?
    && (forall j :: 0 <= j < i ==> statements[j] != Succeeded(true))
    && (statements[i].rows || i == |statements| - 1)
  }

  function ErrorOf(s: Statement): Option<Error> {
    if s.Succeeded? then None else Some(s.error)
  }

  /** The result held after `i` statements succeeded. */
  function Held(statements: seq<Statement>, i: nat): (out: Option<nat>)
    requires i <= |statements|
    ensures out.Some? <==> i > 0
    ensures out.Some? ==> out.value < i
  {
    if i == 0 then None
    else
      var before := Held(statements, i - 1);
      if before.Some? && statements[before.value] == Succeeded(true) then before else Some(i - 1)
  }

  /** The handles destroyed by then, in order. */
  function FreedAfter(statements: seq<Statement>, i: nat): seq<Native>
    requires i <= |statements|
  {
    if i == 0 then []
    else
      FreedAfter(statements, i - 1) + ([Prepared(i - 1)] + FreedByStep(statements, i - 1))
  }

  /** What an error at statement `i` destroys. */
  function FreedByError(statements: seq<Statement>, i: nat): seq<Native>
    requires i < |statements|
  {
    var s, held := statements[i], Held(statements, i);
    (if s.Unprepared? && !s.handle then [] else [Prepared(i)]) + [Extracted] +
    (if held.Some? then [Rows(held.value)] else []) + (if s.Failed? then [Rows(i)] else [])
  }

  function FreedByQuery(statements: seq<Statement>): seq<Native> {
    var n := Good(statements);
    FreedAfter(statements, n) + if n == |statements| then [Extracted] else FreedByError(statements, n)
  }

  function UpTo(n: nat): (indices: seq<nat>)
    ensures |indices| == n && forall i :: 0 <= i < n ==> indices[i] == i
  {
    if n == 0 then [] else UpTo(n - 1) + [n - 1]
  }

  class Connection {
    /** Statements executed and native handles destroyed, in order. */
    var executed: seq<nat>
    var freed: seq<Native>

    constructor ()
      ensures executed == [] && freed == []
    {
      executed, freed := [], [];
    }

    /** `duckdb_pump_query`. Text without statements, or that does not parse, is one native
        query, of which `whole` is the outcome. */
    method Pump(statements: seq<Statement>, whole: Statement)
        returns (out: Option<nat>, kind: Option<nat>, error: Option<Error>)
      requires !whole.Unprepared?
      modifies this
      ensures statements == [] ==>
                && error == ErrorOf(whole) && out == (if whole.Succeeded? then Some(0) else None) && kind.None?
                && executed == old(executed) + (if Runs(whole) then [0] else [])
                && freed == old(freed) + [Extracted] + if whole.Failed? then [Rows(0)] else []
      ensures statements != [] ==>
                && error == (if Good(statements) == |statements| then None else ErrorOf(statements[Good(statements)]))
                && out == kind == (if error.None? then Held(statements, Good(statements)) else None)
                && executed == old(executed) + UpTo(Started(statements))
                && freed == old(freed) + FreedByQuery(statements)
    {
      hide FreedByQuery, Held;
      if statements != [] {
        out, kind, error := Query(statements);
        return;
      }
      out, kind, error := None, None, ErrorOf(whole);
      freed := freed + [Extracted];
      if Runs(whole) {
        executed := executed + [0];
      }
      if whole.Succeeded? {
        out := Some(0);
      } else if whole.Failed? {
        freed := freed + [Rows(0)];
      }
    }

    /** At least one statement: the result it returns is named by its statement, as is the
        statement type. */
    method Query(statements: seq<Statement>) returns (out: Option<nat>, kind: Option<nat>, error: Option<Error>)
      requires statements != []
      modifies this
      ensures var n := Good(statements);
        && error == (if n == |statements| then None else ErrorOf(statements[n]))
        && out == kind == (if n == |statements| then Held(statements, n) else None)
        && executed == old(executed) + UpTo(Started(statements))
      ensures freed == old(freed) + FreedByQuery(statements)
    {
      hide FreedAfter, Held, FreedByError, FreedByStep;
      out, kind, error := None, None, None;
      var i := 0;
      StartUnfolds(statements);
      while i < |statements|
        invariant i <= Good(statements) && error.None?
        invariant out == kind == Held(statements, i)
        invariant executed == old(executed) + UpTo(i)
        invariant freed == old(freed) + FreedAfter(statements, i)
        decreases |statements| - i
      {
        if statements[i].Unprepared? {
          FailAt(statements, i, out);
          return None, None, Some(statements[i].error);
        }
        executed := executed + [i];
        if !statements[i].Succeeded? {
          FailAt(statements, i, out);
          return None, None, Some(statements[i].error);
        }
        StepUnfolds(statements, i);
        out := KeepOne(statements, i, out);
        kind := out;
        i := i + 1;
      }
      freed := freed + [Extracted];
    }

    /** The end of a statement that did not succeed. */
    method FailAt(statements: seq<Statement>, i: nat, held: Option<nat>)
      requires i < |statements| && !statements[i].Succeeded? && held == Held(statements, i)
      modifies this`freed
      ensures freed == old(freed) + FreedByError(statements, i)
    {
      hide Held;
      if !statements[i].Unprepared? || statements[i].handle {
        freed := freed + [Prepared(i)];
      }
      freed := freed + [Extracted];
      if held.Some? {
        freed := freed + [Rows(held.value)];
      }
      if statements[i].Failed? {
        freed := freed + [Rows(i)];
      }
    }

    /** The end of one that did: its result or the one held is destroyed. */
    method KeepOne(statements: seq<Statement>, i: nat, held: Option<nat>) returns (out: Option<nat>)
      requires i < |statements| && statements[i].Succeeded? && held == Held(statements, i)
      modifies this`freed
      ensures freed == old(freed) + ([Prepared(i)] + FreedByStep(statements, i)) && out == Held(statements, i + 1)
    {
      StepUnfolds(statements, i);
      hide FreedAfter, Held;
      freed := freed + [Prepared(i)];
      if held.Some? && statements[held.value] == Succeeded(true) {
        freed := freed + [Rows(i)];
        return held;
      }
      if held.Some? {
        freed := freed + [Rows(held.value)];
      }
      out := Some(i);
    }
  }

  /** How many statements are executed, counting the one that fails. */
  function Started(statements: seq<Statement>): nat {
    var n := Good(statements);
    if n < |statements| && !statements[n].Unprepared? then n + 1 else n
  }

  /** They are a prefix that ends with the first error. */
  lemma StartedIsThePrefix(statements: seq<Statement>, i: nat)
    ensures i < Started(statements) <==> Executes(statements, i)
    ensures i + 1 < Started(statements) ==> statements[i].Succeeded?
  {}

  /** A query that succeeds returns the first result with rows, or else the last. */
  lemma {:induction false} HeldReturns(statements: seq<Statement>, i: nat)
    requires 0 < i <= Good(statements)
    ensures Returns(statements[..i], Held(statements, i).value)
  {
    if i > 1 {
      HeldReturns(statements, i - 1);
      var before := Held(statements, i - 1).value;
      assert forall j :: 0 <= j < i - 1 ==> statements[..i][j] == statements[..i - 1][j];
    }
  }

  lemma ReturnsOne(statements: seq<Statement>, i: nat, j: nat)
    requires Returns(statements, i) && Returns(statements, j)
    ensures i == j
  {}

  /** So a query without an error returns the result of this one statement and of no other. */
  lemma QueryReturnsTheOne(statements: seq<Statement>, i: nat)
    requires statements != [] && Good(statements) == |statements|
    ensures Held(statements, |statements|) == Some(i) <==> Returns(statements, i)
  {
    HeldReturns(statements, |statements|);
    assert statements[..|statements|] == statements;
    if Returns(statements, i) {
      ReturnsOne(statements, i, Held(statements, |statements|).value);
    }
  }

  /** What is destroyed once `i` statements have succeeded. */
  function Count(statements: seq<Statement>, i: nat, h: Native): nat
    requires i <= |statements|
  {
    match h
    case Extracted => 0
    case Prepared(j) => if j < i then 1 else 0
    case Rows(j) => if j < i && Held(statements, i) != Some(j) then 1 else 0
  }

  lemma {:induction false} FreedCounts(statements: seq<Statement>, i: nat, h: Native)
    requires i <= |statements|
    ensures multiset(FreedAfter(statements, i))[h] == Count(statements, i, h)
  {
    if i > 0 {
      FreedCounts(statements, i - 1, h);
      CountSteps(statements, i - 1, h);
      StepUnfolds(statements, i - 1);
      hide FreedAfter, Held, Count;
    }
  }

  function FreedByStep(statements: seq<Statement>, i: nat): seq<Native>
    requires i < |statements|
  {
    var before := Held(statements, i);
    if before.None? then []
    else if statements[before.value] == Succeeded(true) then [Rows(i)]
    else [Rows(before.value)]
  }

  lemma StartUnfolds(statements: seq<Statement>)
    ensures FreedAfter(statements, 0) == [] && Held(statements, 0) == None
  {}

  lemma StepUnfolds(statements: seq<Statement>, i: nat)
    requires i < |statements|
    ensures FreedAfter(statements, i + 1) == FreedAfter(statements, i) + ([Prepared(i)] + FreedByStep(statements, i))
    ensures Held(statements, i + 1) ==
              var before := Held(statements, i);
              if before.Some? && statements[before.value] == Succeeded(true) then before else Some(i)
  {}

  lemma CountSteps(statements: seq<Statement>, i: nat, h: Native)
    requires i < |statements|
    ensures Count(statements, i + 1, h) ==
              Count(statements, i, h) + (if h == Prepared(i) then 1 else 0) + multiset(FreedByStep(statements, i))[h]
  {
    StepUnfolds(statements, i);
    hide Held;
  }

  /** Every native handle that a query makes is destroyed once, on success and on each error,
      except the result it returns. */
  lemma QueryFreesTheRest(statements: seq<Statement>, h: Native)
    ensures var n := Good(statements);
      var returned := n == |statements| && h.Rows? && Held(statements, n) == Some(h.statement);
      multiset(FreedByQuery(statements))[h] == if Makes(statements, h) && !returned then 1 else 0
  {
    QueryCounts(statements, h);
    hide FreedByQuery, Held;
    match h
    case Extracted =>
    case Prepared(j) =>
    case Rows(j) => assert j < Good(statements) ==> statements[j].Succeeded?;
  }

  lemma QueryCounts(statements: seq<Statement>, h: Native)
    ensures var n := Good(statements);
      multiset(FreedByQuery(statements))[h] ==
        Count(statements, n, h) +
        if n == |statements| then if h == Extracted then 1 else 0 else ErrorCount(statements, n, h)
  {
    var n := Good(statements);
    FreedCounts(statements, n, h);
    if n < |statements| {
      ErrorCounts(statements, n, h);
    }
    hide FreedAfter, Held, FreedByError, Count, ErrorCount, Good;
  }

  function ErrorCount(statements: seq<Statement>, n: nat, h: Native): nat
    requires n < |statements|
  {
    match h
    case Extracted => 1
    case Prepared(j) => if j == n && (statements[n].Unprepared? ==> statements[n].handle) then 1 else 0
    case Rows(j) => if Held(statements, n) == Some(j) || (j == n && statements[n].Failed?) then 1 else 0
  }

  lemma ErrorCounts(statements: seq<Statement>, n: nat, h: Native)
    requires n < |statements|
    ensures multiset(FreedByError(statements, n))[h] == ErrorCount(statements, n, h)
  {
    hide Held;
  }
}
