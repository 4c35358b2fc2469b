/**
 Forward-only fetching from a native result: row, column, whole-result, iterator and Arrow
 fetches that share one position.
 */
module ResultFetch {
  import opened Wrappers

  type Error = string

  /** A native value that decodes to a PHP value, or does not. */
  datatype Cell = Cell(value: Result<int, Error>)
  type Row = seq<Cell>

  /** Answers of the native fetch, in the order it gives them; after the last one, Null.
      `Unleased`: the pumped fetch could not start. */
  datatype Reply = Chunk(rows: seq<Row>) | Null | Failed(error: Error) | Unleased(error: Error)

  /** What a fetch tells PHP. */
  datatype Outcome<T> = Value(value: T) | NoMore | Threw(error: Error)

  /** A result as native code sees it: whether it streams, and its answers. */
  datatype Source = Source(streaming: bool, replies: seq<Reply>)

  datatype ResultState = ResultState(next: nat, chunk: Option<seq<Row>>, pos: nat, rowIndex: nat, exhausted: bool,
                                     failed: Option<Error>)

  const START := ResultState(0, None, 0, 0, false, None)

  const BUSY: Error := "Connection is busy executing a COPY handler; use another connection"
  const PARTIAL: Error := "Cannot fetch an Arrow chunk after partially reading its rows; finish the current chunk first"

  function ReplyAt(src: Source, next: nat): Reply {
    if next < |src.replies| then src.replies[next] else Null
  }

  predicate HasUnread(s: ResultState) {
    s.chunk.Some? && s.pos < |s.chunk.value|
  }

  /** The rows read from native but not yet consumed. */
  function Unread(s: ResultState): seq<Row> {
    if HasUnread(s) then s.chunk.value[s.pos..] else []
  }

  ghost predicate Valid(src: Source, s: ResultState) {
    && (s.chunk.Some? ==> s.pos <= |s.chunk.value|)
    && (s.exhausted || s.failed.Some? ==> s.chunk.None?)
    && (s.failed.Some? ==> src.streaming && !s.exhausted)
  }

  /** `duckdb_result_fetch_chunk`, with the state afterwards. */
  function FetchChunk(src: Source, s: ResultState, busy: bool): (r: (ResultState, Outcome<()>)) {
    if HasUnread(s) then (s, Value(()))
    else
      var cleared := s.(chunk := None);
      if src.streaming && busy then (cleared, Threw(BUSY))
      else if src.streaming && s.failed.Some? then (cleared, Threw(s.failed.value))
      else Asked(src, cleared)
  }

  /** What becomes of the native fetch's next answer. A materialized result asks again after
      an error; a stream keeps it. */
  function Asked(src: Source, s: ResultState): (ResultState, Outcome<()>) {
    var asked := s.(next := s.next + 1);
    match ReplyAt(src, s.next)
    case Chunk(rows) =>
      if rows == [] then (asked.(pos := 0, exhausted := true), NoMore)
      else (asked.(chunk := Some(rows), pos := 0), Value(()))
    case Null => (asked.(exhausted := true), NoMore)
    case Failed(e) => (if src.streaming then asked.(failed := Some(e)) else asked, Threw(e))
    case Unleased(e) => (asked, Threw(e))
  }

  /** A row decodes when every cell does; otherwise the first bad cell's error is thrown. */
  function Decode(row: Row): Result<seq<int>, Error> {
    if row == [] then Success([])
    else match row[0].value
      case Failure(e) => Failure(e)
      case Success(v) => Before([v], Decode(row[1..]))
  }

  function Before(values: seq<int>, rest: Result<seq<int>, Error>): Result<seq<int>, Error> {
    match rest
    case Failure(e) => Failure(e)
    case Success(later) => Success(values + later)
  }

  lemma BeforeJoins(a: seq<int>, b: seq<int>, rest: Result<seq<int>, Error>)
    ensures Before(a, Before(b, rest)) == Before(a + b, rest)
    ensures Before([], rest) == rest
  {
    if rest.Success? {
      assert a + (b + rest.value) == (a + b) + rest.value;
      assert [] + rest.value == rest.value;
    }
  }

  /** The values of a row, column by column. */
  predicate DecodedAs(row: Row, values: seq<int>) {
    |values| == |row| && forall i :: 0 <= i < |row| ==> row[i].value == Success(values[i])
  }

  predicate Decodes(row: Row) {
    forall cell <- row :: cell.value.Success?
  }

  /** The error of the first column that has one. */
  predicate FailsWith(row: Row, error: Error) {
    exists i :: 0 <= i < |row| && row[i].value == Failure(error) && forall cell <- row[..i] :: cell.value.Success?
  }

  /** A row is delivered column by column, and fails with the error of its first bad column. */
  lemma {:induction false} DecodesByColumn(row: Row)
    ensures Decode(row).Success? <==> Decodes(row)
    ensures forall values :: Decode(row) == Success(values) <==> DecodedAs(row, values)
    ensures forall error :: Decode(row) == Failure(error) <==> FailsWith(row, error)
  {
    if row != [] {
      var rest := row[1..];
      DecodesByColumn(rest);
      assert row == [row[0]] + rest;
      forall values ensures Decode(row) == Success(values) <==> DecodedAs(row, values) {
        if row[0].value.Success? && |values| > 0 {
          assert values == [values[0]] + values[1..];
          assert DecodedAs(row, values) <==> row[0].value.value == values[0] && DecodedAs(rest, values[1..]);
        }
      }
      forall error ensures Decode(row) == Failure(error) <==> FailsWith(row, error) {
        LaterFailure(row, error);
      }
    }
  }

  lemma LaterFailure(row: Row, error: Error)
    requires row != []
    ensures FailsWith(row, error) <==>
              row[0].value == Failure(error) || (row[0].value.Success? && FailsWith(row[1..], error))
  {
    var rest := row[1..];
    if FailsWith(row, error) {
      var i :| 0 <= i < |row| && row[i].value == Failure(error) && forall cell <- row[..i] :: cell.value.Success?;
      if i > 0 {
        assert row[0] in row[..i] && rest[..i - 1] == row[..i][1..] && rest[i - 1] == row[i];
      }
    }
    if row[0].value == Failure(error) {
      assert row[..0] == [];
    } else if row[0].value.Success? && FailsWith(rest, error) {
      var i :| 0 <= i < |rest| && rest[i].value == Failure(error) && forall cell <- rest[..i] :: cell.value.Success?;
      assert row[..i + 1] == [row[0]] + rest[..i] && row[i + 1] == rest[i];
    }
  }

  /** `duckdb_result_fetch_row_into`. */
  function FetchRow(src: Source, s: ResultState, busy: bool): (ResultState, Outcome<seq<int>>) {
    if s.exhausted then (s, NoMore)
    else
      var (after, fetched) := FetchChunk(src, s, busy);
      match fetched
      case NoMore => (after, NoMore)
      case Threw(e) => (after, Threw(e))
      case Value(_) =>
        if !HasUnread(after) then (after, NoMore)
        else match Decode(after.chunk.value[after.pos])
          case Failure(e) => (after, Threw(e))
          case Success(row) => (after.(pos := after.pos + 1, rowIndex := after.rowIndex + 1), Value(row))
  }

  /** `fetchArrowChunk`; `conversion` is the error of the schema or chunk export, if any. */
  function FetchArrow(src: Source, s: ResultState, busy: bool, conversion: Option<Error>)
    : (ResultState, Outcome<seq<Row>>)
  {
    if s.chunk.Some? && 0 < s.pos < |s.chunk.value| then (s, Threw(PARTIAL))
    else if s.exhausted then (s, NoMore)
    else
      var (after, fetched) := FetchChunk(src, s, busy);
      match fetched
      case NoMore => (after, NoMore)
      case Threw(e) => (after, Threw(e))
      case Value(_) =>
        if busy then (after, Threw(BUSY))
        else if conversion.Some? then (after, Threw(conversion.value))
        else if after.chunk.None? then (after, NoMore)
        else
          var rows := after.chunk.value;
          (after.(rowIndex := after.rowIndex + |rows|, pos := |rows|), Value(rows))
  }

  /** Rows that the native side can still hand out from its next answer on. */
  function RowsLeft(src: Source, next: nat): nat
    decreases |src.replies| - next
  {
    if next >= |src.replies| then 0
    else (if src.replies[next].Chunk? then |src.replies[next].rows| else 0) + RowsLeft(src, next + 1)
  }

  lemma FetchedRowsAreFewer(src: Source, s: ResultState, busy: bool)
    requires FetchRow(src, s, busy).1.Value?
    ensures var after := FetchRow(src, s, busy).0;
      |Unread(after)| + RowsLeft(src, after.next) < |Unread(s)| + RowsLeft(src, s.next)
  {}

  /** `fetchAll`: the state afterwards, what PHP gets, and the rows consumed on the way. */
  function FetchAll(src: Source, s: ResultState, busy: bool): (ResultState, Outcome<seq<seq<int>>>, seq<Row>)
    decreases |Unread(s)| + RowsLeft(src, s.next)
  {
    var (after, fetched) := FetchRow(src, s, busy);
    match fetched
    case NoMore => (after, Value([]), [])
    case Threw(e) => (after, Threw(e), [])
    case Value(row) =>
      FetchedRowsAreFewer(src, s, busy);
      var (end, rest, consumed) := FetchAll(src, after, busy);
      (end, if rest.Value? then Value([row] + rest.value) else rest, [LastRow(after)] + consumed)
  }

  /** The native row that the last row fetch took. */
  function LastRow(s: ResultState): Row {
    if s.chunk.Some? && 0 < s.pos <= |s.chunk.value| then s.chunk.value[s.pos - 1] else []
  }

  class ResultData {
    const src: Source
    var next: nat
    var chunk: Option<seq<Row>>
    var pos: nat
    var rowIndex: nat
    var exhausted: bool
    var failed: Option<Error>

    constructor (src: Source)
      ensures this.src == src && State() == START && Valid(src, State())
    {
      this.src := src;
      next, chunk, pos, rowIndex, exhausted, failed := 0, None, 0, 0, false, None;
    }

    ghost function State(): ResultState
      reads this
    {
      ResultState(next, chunk, pos, rowIndex, exhausted, failed)
    }

    /** The native fetch: the next answer. */
    method Ask() returns (reply: Reply)
      modifies this`next
      ensures reply == ReplyAt(src, old(next)) && next == old(next) + 1
    {
      reply := if next < |src.replies| then src.replies[next] else Null;
      next := next + 1;
    }

    method FetchStreamChunk(busy: bool) returns (outcome: Outcome<()>)
      requires src.streaming && chunk.None?
      modifies this
      ensures (State(), outcome) ==
                if busy then (old(State()), Threw(BUSY))
                else if old(failed).Some? then (old(State()), Threw(old(failed).value))
                else Asked(src, old(State()))
    {
      if busy {
        return Threw(BUSY);
      }
      if failed.Some? {
        return Threw(failed.value);
      }
      var reply := Ask();
      match reply
      case Unleased(e) => outcome := Threw(e);
      case Failed(e) =>
        failed := Some(e);
        outcome := Threw(e);
      case Null =>
        exhausted := true;
        outcome := NoMore;
      case Chunk(rows) =>
        pos := 0;
        if rows == [] {
          exhausted := true;
          return NoMore;
        }
        chunk := Some(rows);
        outcome := Value(());
    }

    method Fetch(busy: bool) returns (outcome: Outcome<()>)
      modifies this
      ensures (State(), outcome) == FetchChunk(src, old(State()), busy)
    {
      hide Asked;
      if chunk.Some? && pos < |chunk.value| {
        return Value(());
      }
      chunk := None;
      if src.streaming {
        outcome := FetchStreamChunk(busy);
        return;
      }
      outcome := FetchMaterializedChunk();
    }

    method FetchMaterializedChunk() returns (outcome: Outcome<()>)
      requires !src.streaming && chunk.None?
      modifies this
      ensures (State(), outcome) == Asked(src, old(State()))
    {
      var reply := Ask();
      match reply
      case Null =>
        exhausted := true;
        outcome := NoMore;
      case Chunk(rows) =>
        pos := 0;
        if rows == [] {
          exhausted := true;
          return NoMore;
        }
        chunk := Some(rows);
        outcome := Value(());
      case Failed(e) => outcome := Threw(e);
      case Unleased(e) => outcome := Threw(e);
    }

    method DecodeCells(row: Row) returns (decoded: Result<seq<int>, Error>)
      ensures decoded == Decode(row)
      ensures decoded.Success? ==> DecodedAs(row, decoded.value)
      ensures decoded.Failure? ==> FailsWith(row, decoded.error)
    {
      DecodesByColumn(row);
      hide DecodedAs, FailsWith, Decodes;
      var values: seq<int> := [];
      assert row[0..] == row;
      BeforeJoins([], [], Decode(row));
      for col := 0 to |row|
        invariant Decode(row) == Before(values, Decode(row[col..]))
      {
        assert row[col..][1..] == row[col + 1..];
        match row[col].value
        case Failure(e) => return Failure(e);
        case Success(v) =>
          BeforeJoins(values, [v], Decode(row[col + 1..]));
          values := values + [v];
      }
      assert row[|row|..] == [] && values + [] == values;
      decoded := Success(values);
    }

    method FetchRowInto(busy: bool) returns (outcome: Outcome<seq<int>>)
      modifies this
      ensures (State(), outcome) == FetchRow(src, old(State()), busy)
      ensures outcome.Value? ==> DecodedAs(LastRow(State()), outcome.value)
    {
      hide Decode, DecodedAs;
      if exhausted {
        return NoMore;
      }
      FetchFindsRows(src, State(), busy);
      hide FetchChunk;
      var fetched := Fetch(busy);
      match fetched
      case NoMore => outcome := NoMore;
      case Threw(e) => outcome := Threw(e);
      case Value(_) =>
        var decoded := DecodeCells(chunk.value[pos]);
        match decoded {
          case Failure(e) => outcome := Threw(e);
          case Success(row) =>
            pos := pos + 1;
            rowIndex := rowIndex + 1;
            outcome := Value(row);
        }
    }

    method FetchArrowChunk(busy: bool, conversion: Option<Error>) returns (outcome: Outcome<seq<Row>>)
      modifies this
      ensures (State(), outcome) == FetchArrow(src, old(State()), busy, conversion)
    {
      if chunk.Some? && pos > 0 && pos < |chunk.value| {
        return Threw(PARTIAL);
      }
      if exhausted {
        return NoMore;
      }
      FetchFindsRows(src, State(), busy);
      hide FetchChunk;
      var fetched := Fetch(busy);
      match fetched
      case NoMore => outcome := NoMore;
      case Threw(e) => outcome := Threw(e);
      case Value(_) =>
        if busy {
          return Threw(BUSY);
        }
        if conversion.Some? {
          return Threw(conversion.value);
        }
        outcome := Value(chunk.value);
        rowIndex := rowIndex + |chunk.value|;
        pos := |chunk.value|;
    }

    method FetchAllRows(busy: bool) returns (outcome: Outcome<seq<seq<int>>>)
      modifies this
      ensures (State(), outcome) ==
                (FetchAll(src, old(State()), busy).0, FetchAll(src, old(State()), busy).1)
    {
      hide FetchAll, FetchRow, Unread, RowsLeft;
      var rows: seq<seq<int>> := [];
      ghost var all := FetchAll(src, State(), busy);
      AfterJoins([], [], all.1);
      while true
        invariant FetchAll(src, State(), busy).0 == all.0 && all.1 == After(rows, FetchAll(src, State(), busy).1)
        decreases |Unread(State())| + RowsLeft(src, next)
      {
        FetchAllStep(src, State(), busy);
        var row := FetchRowInto(busy);
        match row
        case NoMore =>
          assert rows + [] == rows;
          return Value(rows);
        case Threw(e) => return Threw(e);
        case Value(values) =>
          AfterJoins(rows, [values], FetchAll(src, State(), busy).1);
          rows := rows + [values];
      }
    }
  }

  const REWOUND: Error := "Cannot rewind a DuckDB\\ResultIterator (results are forward-only)"

  class ResultIterator {
    const data: ResultData
    var started: bool
    var key: nat
    var current: Option<seq<int>>

    constructor (data: ResultData)
      ensures this.data == data && !started && key == 0 && current.None?
    {
      this.data, started, key, current := data, false, 0, None;
    }

    method Rewind(busy: bool) returns (thrown: Option<Error>)
      modifies this, data
      ensures old(started || data.rowIndex > 0 || data.exhausted) ==>
                thrown == Some(REWOUND) && unchanged(this) && unchanged(data)
      ensures !old(started || data.rowIndex > 0 || data.exhausted) ==>
                && started && key == 0
                && data.State() == FetchRow(data.src, old(data.State()), busy).0
                && (match FetchRow(data.src, old(data.State()), busy).1
                    case Value(row) => current == Some(row) && thrown.None?
                    case NoMore => current.None? && thrown.None?
                    case Threw(e) => current.None? && thrown == Some(e))
    {
      if started || data.rowIndex > 0 || data.exhausted {
        return Some(REWOUND);
      }
      started := true;
      key := 0;
      thrown := Advance(busy);
    }

    /** Both methods store the fetched row, or leave the iterator without one. */
    method Advance(busy: bool) returns (thrown: Option<Error>)
      modifies this`current, data
      ensures data.State() == FetchRow(data.src, old(data.State()), busy).0
      ensures match FetchRow(data.src, old(data.State()), busy).1
        case Value(row) => current == Some(row) && thrown.None?
        case NoMore => current.None? && thrown.None?
        case Threw(e) => current.None? && thrown == Some(e)
    {
      var outcome := data.FetchRowInto(busy);
      current, thrown := None, None;
      match outcome
      case Value(row) => current := Some(row);
      case NoMore =>
      case Threw(e) => thrown := Some(e);
    }

    method Next(busy: bool) returns (thrown: Option<Error>)
      modifies this, data
      ensures data.State() == FetchRow(data.src, old(data.State()), busy).0 && started == old(started)
      ensures match FetchRow(data.src, old(data.State()), busy).1
        case Value(row) => current == Some(row) && thrown.None? && key == old(key) + 1
        case NoMore => current.None? && thrown.None? && key == old(key)
        case Threw(e) => current.None? && thrown == Some(e) && key == old(key)
    {
      thrown := Advance(busy);
      if current.Some? {
        key := key + 1;
      }
    }
  }

  function After<T>(rows: seq<T>, rest: Outcome<seq<T>>): Outcome<seq<T>> {
    if rest.Value? then Value(rows + rest.value) else rest
  }

  lemma AfterJoins<T>(a: seq<T>, b: seq<T>, rest: Outcome<seq<T>>)
    ensures After(a, After(b, rest)) == After(a + b, rest)
    ensures After([], rest) == rest
  {
    if rest.Value? {
      assert a + (b + rest.value) == (a + b) + rest.value;
      assert [] + rest.value == rest.value;
    }
  }

  lemma FetchAllStep(src: Source, s: ResultState, busy: bool)
    ensures var (after, fetched) := FetchRow(src, s, busy); var all := FetchAll(src, s, busy);
      match fetched
      case NoMore => all.0 == after && all.1 == Value([])
      case Threw(e) => all.0 == after && all.1 == Threw(e)
      case Value(row) =>
        && |Unread(after)| + RowsLeft(src, after.next) < |Unread(s)| + RowsLeft(src, s.next)
        && all.0 == FetchAll(src, after, busy).0
        && all.1 == After([row], FetchAll(src, after, busy).1)
  {
    if FetchRow(src, s, busy).1.Value? {
      FetchedRowsAreFewer(src, s, busy);
    }
    hide FetchRow, Unread, RowsLeft;
  }

  lemma FetchFindsRows(src: Source, s: ResultState, busy: bool)
    ensures FetchChunk(src, s, busy).1.Value? ==> HasUnread(FetchChunk(src, s, busy).0)
  {}

  lemma FetchKeepsValid(src: Source, s: ResultState, busy: bool)
    requires Valid(src, s) && !s.exhausted
    ensures var (after, outcome) := FetchChunk(src, s, busy);
      Valid(src, after) && (outcome.Value? ==> HasUnread(after) && (HasUnread(s) || after.pos == 0))
  {}
}
