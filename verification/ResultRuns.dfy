/** What any mix of fetches on one result delivers. */
module ResultRuns {
  import opened Wrappers
  import opened ResultFetch

  /** Rows that native answers still hold, up to their end; a stream ends with its error. */
  function RowsFrom(src: Source, next: nat): seq<Row>
    decreases |src.replies| - next
  {
    if next >= |src.replies| then []
    else match src.replies[next]
      case Chunk(rows) => if rows == [] then [] else rows + RowsFrom(src, next + 1)
      case Null => []
      case Failed(_) => if src.streaming then [] else RowsFrom(src, next + 1)
      case Unleased(_) => RowsFrom(src, next + 1)
  }

  /** The rows not consumed yet. */
  function Pending(src: Source, s: ResultState): seq<Row> {
    if s.exhausted || s.failed.Some? then [] else Unread(s) + RowsFrom(src, s.next)
  }

  /** The rows that fetches reach before an answer that throws, or the end. */
  function RowsReached(src: Source, next: nat): seq<Row>
    decreases |src.replies| - next
  {
    if next >= |src.replies| then []
    else match src.replies[next]
      case Chunk(rows) => if rows == [] then [] else rows + RowsReached(src, next + 1)
      case _ => []
  }

  /** Whether the end comes before any answer that throws. */
  predicate EndsCleanly(src: Source, next: nat)
    decreases |src.replies| - next
  {
    next >= |src.replies| ||
    match src.replies[next]
    case Chunk(rows) => rows == [] || EndsCleanly(src, next + 1)
    case Null => true
    case _ => false
  }

  predicate Refuses(src: Source, s: ResultState, busy: bool) {
    src.streaming && (busy || s.failed.Some?)
  }

  function Reach(src: Source, s: ResultState, busy: bool): seq<Row> {
    if s.exhausted then [] else Unread(s) + if Refuses(src, s, busy) then [] else RowsReached(src, s.next)
  }

  predicate Clean(src: Source, s: ResultState, busy: bool) {
    s.exhausted || (!Refuses(src, s, busy) && EndsCleanly(src, s.next))
  }

  /** Fetching a chunk changes where rows are, not which rows are ahead. */
  lemma ChunkFetch(src: Source, s: ResultState, busy: bool)
    requires Valid(src, s) && !s.exhausted
    ensures var (after, outcome) := FetchChunk(src, s, busy);
      && Valid(src, after) && after.rowIndex == s.rowIndex && Pending(src, after) == Pending(src, s)
      && (outcome.Value? ==>
            && HasUnread(after) && !after.exhausted
            && Reach(src, after, busy) == Reach(src, s, busy) && Clean(src, after, busy) == Clean(src, s, busy))
      && (outcome.NoMore? ==> Pending(src, s) == [] && Reach(src, s, busy) == [] && Clean(src, s, busy))
      && (outcome.Threw? ==> Reach(src, s, busy) == [] && !Clean(src, s, busy))
  {
    if !HasUnread(s) && !(src.streaming && busy) && !(src.streaming && s.failed.Some?) {
      AnswerFetch(src, s.(chunk := None), busy);
    }
    assert Unread(s.(chunk := None)) == [];
    hide Asked, RowsFrom, RowsReached, EndsCleanly;
  }

  lemma AnswerFetch(src: Source, s: ResultState, busy: bool)
    requires Valid(src, s) && s.chunk.None? && !s.exhausted && !Refuses(src, s, busy)
    ensures var (after, outcome) := Asked(src, s);
      && Valid(src, after) && after.rowIndex == s.rowIndex && Pending(src, after) == Pending(src, s)
      && (outcome.Value? ==>
            && HasUnread(after) && !after.exhausted
            && Reach(src, after, busy) == Reach(src, s, busy) && Clean(src, after, busy) == Clean(src, s, busy))
      && (outcome.NoMore? ==> Pending(src, s) == [] && Reach(src, s, busy) == [] && Clean(src, s, busy))
      && (outcome.Threw? ==> Reach(src, s, busy) == [] && !Clean(src, s, busy))
  {}

  function Taken(s: ResultState): ResultState {
    s.(pos := s.pos + 1, rowIndex := s.rowIndex + 1)
  }

  lemma TakingOne(src: Source, s: ResultState, busy: bool)
    requires Valid(src, s) && HasUnread(s)
    ensures var row := s.chunk.value[s.pos];
      && Valid(src, Taken(s)) && LastRow(Taken(s)) == row
      && Reach(src, s, busy) == [row] + Reach(src, Taken(s), busy) && Clean(src, Taken(s), busy) == Clean(src, s, busy)
      && Pending(src, s) == [row] + Pending(src, Taken(s))
  {
    assert Unread(s) == [s.chunk.value[s.pos]] + Unread(Taken(s));
    hide RowsFrom, RowsReached, EndsCleanly;
  }

  /** One row fetch takes the first row of what is ahead, or leaves all of it. */
  lemma RowFetch(src: Source, s: ResultState, busy: bool)
    requires Valid(src, s)
    ensures var (after, outcome) := FetchRow(src, s, busy);
      && Valid(src, after)
      && (Reach(src, s, busy) == [] ==> if Clean(src, s, busy) then outcome.NoMore? else outcome.Threw?)
      && (Reach(src, s, busy) != [] ==>
            if Decodes(Reach(src, s, busy)[0]) then
              && outcome.Value? && DecodedAs(Reach(src, s, busy)[0], outcome.value)
              && LastRow(after) == Reach(src, s, busy)[0]
              && Reach(src, after, busy) == Reach(src, s, busy)[1..] && Clean(src, after, busy) == Clean(src, s, busy)
              && Pending(src, s) == [LastRow(after)] + Pending(src, after) && after.rowIndex == s.rowIndex + 1
            else
              && outcome.Threw? && FailsWith(Reach(src, s, busy)[0], outcome.error)
              && Reach(src, after, busy) == Reach(src, s, busy)
              && Clean(src, after, busy) == Clean(src, s, busy))
      && (!outcome.Value? ==> Pending(src, after) == Pending(src, s) && after.rowIndex == s.rowIndex)
      && (outcome.NoMore? ==> Pending(src, s) == [])
  {
    hide RowsFrom, RowsReached, EndsCleanly, Decode, DecodedAs, Decodes, FailsWith;
    if !s.exhausted {
      ChunkFetch(src, s, busy);
      var (after, fetched) := FetchChunk(src, s, busy);
      if fetched.Value? {
        DecodesByColumn(after.chunk.value[after.pos]);
        TakingOne(src, after, busy);
      }
      hide FetchChunk, Pending, Reach, Clean, Valid, Decodes, DecodedAs, FailsWith;
    }
  }

  predicate ReadInPart(s: ResultState) {
    s.chunk.Some? && 0 < s.pos < |s.chunk.value|
  }

  /** An Arrow fetch takes all the rows of the next chunk, unless that chunk was read in part, the
      connection is busy or the export fails; then it leaves everything. */
  lemma ArrowFetch(src: Source, s: ResultState, busy: bool, conversion: Option<Error>)
    requires Valid(src, s)
    ensures var (after, outcome) := FetchArrow(src, s, busy, conversion);
      && Valid(src, after)
      && (outcome.Value? ==>
            && outcome.value != [] && Pending(src, s) == outcome.value + Pending(src, after)
            && after.rowIndex == s.rowIndex + |outcome.value|
            && outcome.value ==
                 if HasUnread(s) then s.chunk.value
                 else if ReplyAt(src, s.next).Chunk? then ReplyAt(src, s.next).rows else [])
      && (ReadInPart(s) ==> (after, outcome) == (s, Threw(PARTIAL)))
      && (!ReadInPart(s) && Reach(src, s, busy) == [] ==>
            if Clean(src, s, busy) then outcome.NoMore? else outcome.Threw?)
      && (!ReadInPart(s) && Reach(src, s, busy) != [] ==>
            if busy then outcome == Threw(BUSY)
            else if conversion.Some? then outcome == Threw(conversion.value)
            else outcome.Value?)
      && (!outcome.Value? ==> Pending(src, after) == Pending(src, s) && after.rowIndex == s.rowIndex)
      && (outcome.NoMore? ==> Pending(src, s) == [])
      && (outcome.Threw? && Reach(src, s, busy) != [] ==>
            Reach(src, after, busy) == Reach(src, s, busy) && Clean(src, after, busy) == Clean(src, s, busy))
  {
    hide RowsFrom, RowsReached, EndsCleanly;
    if !ReadInPart(s) && !s.exhausted {
      ChunkFetch(src, s, busy);
      var (after, fetched) := FetchChunk(src, s, busy);
      if fetched.Value? {
        FetchKeepsValid(src, s, busy);
        FetchedChunk(src, s, busy);
        hide FetchChunk;
        TakingAll(src, after);
      }
      hide FetchChunk, Reach, Clean, Pending;
    }
  }

  lemma FetchedChunk(src: Source, s: ResultState, busy: bool)
    requires FetchChunk(src, s, busy).1.Value?
    ensures FetchChunk(src, s, busy).0.chunk.Some?
    ensures FetchChunk(src, s, busy).0.chunk.value ==
              if HasUnread(s) then s.chunk.value
              else if ReplyAt(src, s.next).Chunk? then ReplyAt(src, s.next).rows else []
  {}

  function TakenAll(s: ResultState): ResultState
    requires s.chunk.Some?
  {
    s.(rowIndex := s.rowIndex + |s.chunk.value|, pos := |s.chunk.value|)
  }

  lemma TakingAll(src: Source, s: ResultState)
    requires Valid(src, s) && HasUnread(s) && s.pos == 0
    ensures Valid(src, TakenAll(s)) && s.chunk.value != []
    ensures Pending(src, s) == s.chunk.value + Pending(src, TakenAll(s))
  {
    hide RowsFrom;
    assert Unread(s) == s.chunk.value && Unread(TakenAll(s)) == [];
  }

  /** The longest prefix of rows that decode. */
  function Decodable(rows: seq<Row>): (good: seq<Row>)
    ensures good <= rows
  {
    if rows == [] || !Decodes(rows[0]) then [] else [rows[0]] + Decodable(rows[1..])
  }

  ghost predicate DecodesTo(rows: seq<Row>, values: seq<seq<int>>) {
    |values| == |rows| && forall i :: 0 <= i < |rows| ==> DecodedAs(rows[i], values[i])
  }

  /** `fetchAll` consumes the rows that decode; it returns them, all that are left, exactly
      when nothing stops it before the end, and otherwise throws them away. */
  lemma {:induction false} AllFetch(src: Source, s: ResultState, busy: bool)
    requires Valid(src, s)
    ensures var (after, outcome, consumed) := FetchAll(src, s, busy);
      && Valid(src, after)
      && consumed == Decodable(Reach(src, s, busy))
      && Pending(src, s) == consumed + Pending(src, after) && after.rowIndex == s.rowIndex + |consumed|
      && (if consumed == Reach(src, s, busy) && Clean(src, s, busy)
          then outcome.Value? && DecodesTo(consumed, outcome.value) && Pending(src, after) == []
          else outcome.Threw?)
    decreases |Unread(s)| + RowsLeft(src, s.next)
  {
    hide FetchRow, Pending, Reach, Clean, Valid, Decodes, DecodedAs, FailsWith, Unread, RowsLeft, RowsFrom;
    RowFetch(src, s, busy);
    var (next, fetched) := FetchRow(src, s, busy);
    if fetched.Value? {
      FetchedRowsAreFewer(src, s, busy);
      AllFetch(src, next, busy);
      AllUnfolds(src, s, busy);
      hide FetchAll, Decodable, DecodesTo;
      var ahead := Reach(src, s, busy);
      var (after, rest, later) := FetchAll(src, next, busy);
      FirstDecodes(ahead, fetched.value, later, if rest.Value? then rest.value else []);
      PrefixGrows(Pending(src, s), [], [ahead[0]], Pending(src, s), Pending(src, next));
      PrefixGrows(Pending(src, s), [ahead[0]], later, Pending(src, next), Pending(src, after));
    }
  }

  lemma FirstDecodes(ahead: seq<Row>, value: seq<int>, later: seq<Row>, values: seq<seq<int>>)
    requires ahead != [] && Decodes(ahead[0]) && DecodedAs(ahead[0], value)
    ensures Decodable(ahead) == [ahead[0]] + Decodable(ahead[1..])
    ensures [ahead[0]] + later == ahead <==> later == ahead[1..]
    ensures DecodesTo(later, values) ==> DecodesTo([ahead[0]] + later, [value] + values)
  {
    hide Decodes, DecodedAs;
    assert ahead == [ahead[0]] + ahead[1..];
    assert ([ahead[0]] + later)[1..] == later;
  }

  lemma AllUnfolds(src: Source, s: ResultState, busy: bool)
    requires FetchRow(src, s, busy).1.Value?
    ensures var (next, fetched) := FetchRow(src, s, busy); var (after, rest, later) := FetchAll(src, next, busy);
      FetchAll(src, s, busy) ==
        (after, if rest.Value? then Value([fetched.value] + rest.value) else rest, [LastRow(next)] + later)
  {
    FetchedRowsAreFewer(src, s, busy);
    hide FetchRow, Unread, RowsLeft;
  }

  datatype Op = Row(busy: bool) | Arrow(busy: bool, conversion: Option<Error>) | All(busy: bool)

  /** What a call leaves, the native rows it consumed, those PHP got, and what it said. */
  datatype Effect = Effect(state: ResultState, consumed: seq<ResultFetch.Row>, given: seq<ResultFetch.Row>,
      said: Outcome<()>)

  function Said<T>(outcome: Outcome<T>): Outcome<()> {
    match outcome
    case Value(_) => Value(())
    case NoMore => NoMore
    case Threw(e) => Threw(e)
  }

  function Perform(src: Source, s: ResultState, op: Op): Effect {
    match op
    case Row(busy) =>
      var (after, outcome) := FetchRow(src, s, busy);
      var rows := if outcome.Value? then [LastRow(after)] else [];
      Effect(after, rows, rows, Said(outcome))
    case Arrow(busy, conversion) =>
      var (after, outcome) := FetchArrow(src, s, busy, conversion);
      var rows := if outcome.Value? then outcome.value else [];
      Effect(after, rows, rows, Said(outcome))
    case All(busy) =>
      var (after, outcome, consumed) := FetchAll(src, s, busy);
      Effect(after, consumed, if outcome.Value? then consumed else [], Said(outcome))
  }

  lemma OpConserves(src: Source, s: ResultState, op: Op)
    requires Valid(src, s)
    ensures var e := Perform(src, s, op);
      && Valid(src, e.state) && Pending(src, s) == e.consumed + Pending(src, e.state)
      && e.state.rowIndex == s.rowIndex + |e.consumed|
      && (e.said.NoMore? ==> Pending(src, e.state) == [] && e.consumed == [])
  {
    hide FetchRow, FetchArrow, FetchAll, Pending, Valid, Reach, Clean, Decodes, DecodedAs, FailsWith;
    hide Decodable, DecodesTo;
    match op
    case Row(busy) => RowFetch(src, s, busy);
    case Arrow(busy, conversion) => ArrowFetch(src, s, busy, conversion);
    case All(busy) => AllFetch(src, s, busy);
  }

  /** The state after a sequence of calls, and the rows they consumed. */
  function CallsFrom(src: Source, s: ResultState, ops: seq<Op>): (ResultState, seq<ResultFetch.Row>)
    decreases |ops|
  {
    if ops == [] then (s, [])
    else
      var n := |ops| - 1;
      var (before, consumed) := CallsFrom(src, s, ops[..n]);
      var e := Perform(src, before, ops[n]);
      (e.state, consumed + e.consumed)
  }

  /** On a fresh result. */
  function Calls(src: Source, ops: seq<Op>): (ResultState, seq<ResultFetch.Row>) {
    CallsFrom(src, START, ops)
  }

  /** Any mix of fetches consumes a prefix of the native rows, each row once and in order,
      and `row_index` counts it. */
  lemma {:induction false} ConsumedIsAPrefix(src: Source, ops: seq<Op>)
    ensures var (s, consumed) := Calls(src, ops);
      Valid(src, s) && RowsFrom(src, 0) == consumed + Pending(src, s) && s.rowIndex == |consumed|
    decreases |ops|
  {
    hide Valid, Pending, Perform, RowsFrom;
    if ops == [] {
      StartIsFresh(src);
    } else {
      var n := |ops| - 1;
      ConsumedIsAPrefix(src, ops[..n]);
      var (s, consumed) := Calls(src, ops[..n]);
      OpConserves(src, s, ops[n]);
      var e := Perform(src, s, ops[n]);
      assert Calls(src, ops) == (e.state, consumed + e.consumed);
      hide CallsFrom;
      PrefixGrows(RowsFrom(src, 0), consumed, e.consumed, Pending(src, s), Pending(src, e.state));
    }
  }

  lemma StartIsFresh(src: Source)
    ensures Valid(src, START) && RowsFrom(src, 0) == [] + Pending(src, START)
  {
    assert Unread(START) == [];
  }

  lemma PrefixGrows<T>(all: seq<T>, before: seq<T>, more: seq<T>, ahead: seq<T>, left: seq<T>)
    requires all == before + ahead && ahead == more + left
    ensures all == before + more + left
  {}

  /** A call returns null only when every native row was consumed before it. */
  lemma NullMeansAllConsumed(src: Source, ops: seq<Op>, op: Op)
    requires Perform(src, Calls(src, ops).0, op).said.NoMore?
    ensures Calls(src, ops).1 == RowsFrom(src, 0)
  {
    ConsumedIsAPrefix(src, ops);
    OpConserves(src, Calls(src, ops).0, op);
    hide Valid, Perform, RowsFrom, CallsFrom;
  }

  /** PHP gets what a call consumes, except when a `fetchAll` throws after decoding a row. */
  lemma GivenUnlessFetchAllThrows(src: Source, s: ResultState, op: Op)
    requires Valid(src, s)
    ensures var e := Perform(src, s, op); var ahead := Reach(src, s, op.busy);
      e.given != e.consumed <==>
        && op.All? && ahead != [] && Decodes(ahead[0])
        && !(Decodable(ahead) == ahead && Clean(src, s, op.busy))
  {
    if op.All? {
      AllFetch(src, s, op.busy);
      hide FetchAll, Valid, Reach, Clean, Pending, Decodes, DecodedAs, FailsWith;
    }
  }

  /** Two rows, the second of which does not decode: `fetchAll` throws, and the first row is
      never delivered by any later call. */
  lemma FetchAllLosesRows()
    ensures var good, bad: ResultFetch.Row := [Cell(Success(1))], [Cell(Failure("bad"))];
      var src := Source(false, [Chunk([good, bad])]);
      var e := Perform(src, START, All(false));
      e.said == Threw("bad") && e.consumed == [good] && e.given == [] && Pending(src, e.state) == [bad]
  {
    var good, bad: ResultFetch.Row := [Cell(Success(1))], [Cell(Failure("bad"))];
    var src := Source(false, [Chunk([good, bad])]);
    assert Decode(good) == Success([1]) by {
      assert good[1..] == [] && Decode(good[1..]) == Success([]) && [1] + [] == [1];
    }
    assert Decode(bad) == Failure("bad");
    var s1 := FetchRow(src, START, false).0;
    assert s1 == ResultState(1, Some([good, bad]), 1, 1, false, None);
    assert FetchRow(src, s1, false) == (s1, Threw("bad"));
    assert Unread(s1) == [bad];
    FetchedRowsAreFewer(src, START, false);
    assert FetchAll(src, s1, false) == (s1, Threw("bad"), []);
  }

  /** A row that does not decode stays: asking again gives the same error and changes nothing. */
  lemma FailedDecodeRepeats(src: Source, s: ResultState, busy: bool)
    requires Valid(src, s) && Reach(src, s, busy) != [] && FetchRow(src, s, busy).1.Threw?
    ensures var (after, outcome) := FetchRow(src, s, busy);
      && Pending(src, after) == Pending(src, s) && after.rowIndex == s.rowIndex
      && FetchRow(src, after, busy) == (after, outcome)
  {
    hide Valid, Pending, Reach, Clean, RowsFrom, RowsReached, EndsCleanly, Decode;
    RowFetch(src, s, busy);
    ThrowingRowStays(src, s, busy);
    hide FetchRow, FetchChunk;
  }

  /** A fetch that throws on a row has its chunk in place. */
  lemma ThrowingRowStays(src: Source, s: ResultState, busy: bool)
    requires Valid(src, s) && FetchRow(src, s, busy).1.Threw? && Reach(src, s, busy) != []
    ensures var (after, outcome) := FetchRow(src, s, busy); FetchRow(src, after, busy) == (after, outcome)
  {
    hide Decode, Asked, Reach, Clean, Pending;
    ChunkFetch(src, s, busy);
    var (after, fetched) := FetchChunk(src, s, busy);
    assert fetched.Value? && HasUnread(after) && !after.exhausted;
    assert FetchChunk(src, after, busy) == (after, Value(()));
    hide FetchChunk;
  }

  /** A failed Arrow fetch takes nothing: the next row fetch gives what it would have given. */
  lemma FailedArrowTakesNothing(src: Source, s: ResultState, busy: bool, conversion: Option<Error>)
    requires Valid(src, s) && FetchArrow(src, s, busy, conversion).1.Threw? && Reach(src, s, busy) != []
    ensures FetchRow(src, FetchArrow(src, s, busy, conversion).0, busy).1 == FetchRow(src, s, busy).1
  {
    var after := FetchArrow(src, s, busy, conversion).0;
    ArrowFetch(src, s, busy, conversion);
    RowFetch(src, s, busy);
    RowFetch(src, after, busy);
    DecodesByColumn(Reach(src, s, busy)[0]);
    hide FetchArrow, FetchRow, Pending, Reach, Clean, Valid, Decodes, DecodedAs, FailsWith;
  }

  function FailedCall(s: ResultState, op: Op): Effect
    requires s.failed.Some?
  {
    Effect(s, [], [], Threw(if op.busy then BUSY else s.failed.value))
  }

  lemma FailedOnce(src: Source, s: ResultState, op: Op)
    requires Valid(src, s) && s.failed.Some?
    ensures Perform(src, s, op) == FailedCall(s, op)
  {}

  /** A failed stream throws its error on every later fetch, however many and of whatever
      kind; only inside a handler of the connection it is the busy error. Nothing changes. */
  lemma {:induction false} FailedStreamKeepsItsError(src: Source, s: ResultState, ops: seq<Op>, op: Op)
    requires Valid(src, s) && s.failed.Some?
    ensures CallsFrom(src, s, ops) == (s, [])
    ensures Perform(src, CallsFrom(src, s, ops).0, op) == FailedCall(s, op)
    decreases |ops|
  {
    hide Valid, Perform;
    FailedOnce(src, s, op);
    if ops != [] {
      var n := |ops| - 1;
      FailedStreamKeepsItsError(src, s, ops[..n], ops[n]);
      assert CallsFrom(src, s, ops).1 == [] + [];
    }
  }

  lemma ExhaustedOnce(src: Source, s: ResultState, op: Op)
    requires Valid(src, s) && s.exhausted
    ensures Perform(src, s, op) == Effect(s, [], [], if op.All? then Value(()) else NoMore)
  {}

  /** An exhausted result answers every later fetch with null, or an empty list. */
  lemma {:induction false} ExhaustedStaysExhausted(src: Source, s: ResultState, ops: seq<Op>, op: Op)
    requires Valid(src, s) && s.exhausted
    ensures CallsFrom(src, s, ops) == (s, [])
    ensures Perform(src, CallsFrom(src, s, ops).0, op) == Effect(s, [], [], if op.All? then Value(()) else NoMore)
    decreases |ops|
  {
    hide Valid, Perform;
    ExhaustedOnce(src, s, op);
    if ops != [] {
      var n := |ops| - 1;
      ExhaustedStaysExhausted(src, s, ops[..n], ops[n]);
      assert CallsFrom(src, s, ops).1 == [] + [];
    }
  }

  /** An iterator that may rewind starts at the first native row. */
  lemma RewindStartsAtTheFirstRow(src: Source, ops: seq<Op>, busy: bool)
    requires Calls(src, ops).0.rowIndex == 0 && FetchRow(src, Calls(src, ops).0, busy).1.Value?
    ensures RowsFrom(src, 0) != []
    ensures DecodedAs(RowsFrom(src, 0)[0], FetchRow(src, Calls(src, ops).0, busy).1.value)
  {
    ConsumedIsAPrefix(src, ops);
    RowFetch(src, Calls(src, ops).0, busy);
    hide CallsFrom, FetchRow, Reach, Clean, Valid, Decodes, DecodedAs, FailsWith, RowsFrom;
  }
}
