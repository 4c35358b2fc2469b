/** The bounded buffer behind a registered log storage. */
module LogStorage {
  import opened Wrappers

  const MAX_BYTES: nat := 8 * 1024 * 1024
  /** What an entry occupies beside its text: a 64-bit timestamp and three string objects. */
  const OVERHEAD: nat := 104
  const ZEND_LONG_MAX: nat := 0x7FFF_FFFF_FFFF_FFFF

  datatype Entry = Entry(timestamp: int, level: string, kind: string, message: string)

  function Size(e: Entry): nat {
    OVERHEAD + |e.level| + |e.kind| + |e.message|
  }

  function Total(entries: seq<Entry>): nat {
    if entries == [] then 0 else Size(entries[0]) + Total(entries[1..])
  }

  lemma {:induction false} TotalJoins(a: seq<Entry>, b: seq<Entry>)
    ensures Total(a + b) == Total(a) + Total(b)
  {
    if a == [] {
      assert a + b == b;
    } else {
      assert (a + b)[1..] == a[1..] + b;
      TotalJoins(a[1..], b);
    }
  }

  predicate Fits(entries: seq<Entry>, capacity: nat) {
    |entries| <= capacity && Total(entries) <= MAX_BYTES
  }

  /** What eviction from the front leaves. */
  function Kept(entries: seq<Entry>, capacity: nat): (kept: seq<Entry>)
    ensures Fits(kept, capacity) && |kept| <= |entries|
  {
    if Fits(entries, capacity) then entries
    else if entries == [] then []
    else Kept(entries[1..], capacity)
  }

  /** It is the longest suffix that fits. */
  lemma {:induction false} KeptIsLongest(entries: seq<Entry>, capacity: nat, k: nat)
    requires k <= |entries|
    ensures Kept(entries, capacity) == entries[|entries| - |Kept(entries, capacity)|..]
    ensures Fits(entries[k..], capacity) <==> |entries| - k <= |Kept(entries, capacity)|
  {
    if Fits(entries, capacity) {
      assert entries[..k] + entries[k..] == entries;
      TotalJoins(entries[..k], entries[k..]);
    } else if entries != [] {
      assert k > 0 ==> entries[k..] == entries[1..][k - 1..];
      KeptIsLongest(entries[1..], capacity, if k > 0 then k - 1 else 0);
    }
  }

  /** Evicting after every entry is the same as evicting once at the end. */
  lemma {:induction false} KeptStepwise(all: seq<Entry>, e: Entry, capacity: nat)
    ensures Kept(Kept(all, capacity) + [e], capacity) == Kept(all + [e], capacity)
  {
    if !Fits(all, capacity) && all != [] {
      TotalJoins(all, [e]);
      assert (all + [e])[1..] == all[1..] + [e];
      KeptStepwise(all[1..], e, capacity);
    }
  }

  /** An entry that is small enough itself always stays. */
  lemma {:induction false} NewestStays(all: seq<Entry>, e: Entry, capacity: nat)
    requires capacity > 0 && Size(e) <= MAX_BYTES
    ensures var kept := Kept(all + [e], capacity);
      kept != [] && kept[|kept| - 1] == e && |kept| <= |all| + 1
    ensures Kept(all + [e], capacity) == all[|all| + 1 - |Kept(all + [e], capacity)|..] + [e]
  {
    if all == [] {
      assert all + [e] == [e];
    } else if !Fits(all + [e], capacity) {
      assert (all + [e])[1..] == all[1..] + [e];
      NewestStays(all[1..], e, capacity);
      assert Kept(all + [e], capacity) == Kept(all[1..] + [e], capacity);
      hide Kept, Fits;
      var kept := Kept(all[1..] + [e], capacity);
      assert all[1..][|all| - |kept|..] == all[|all| + 1 - |kept|..];
    }
  }

  /* C strings */

  ghost predicate Terminated(text: seq<char>) {
    exists i :: 0 <= i < |text| && text[i] == '\0'
  }

  /** The length of a C string: the characters before the first NUL. */
  function Length(text: seq<char>): (n: nat)
    ensures n <= |text|
    ensures n < |text| ==> text[n] == '\0'
    ensures forall i :: 0 <= i < n ==> text[i] != '\0'
  {
    if text == [] || text[0] == '\0' then 0 else 1 + Length(text[1..])
  }

  function Text(text: Option<seq<char>>): string {
    match text
    case None => ""
    case Some(chars) => chars[..Length(chars)]
  }

  /** `log_string_length`: it never reads past the NUL, nor more than `remaining + 1`
      characters. */
  method StringLength(value: Option<seq<char>>, remaining: nat) returns (ok: bool, length: nat, left: nat)
    requires value.Some? ==> Terminated(value.value)
    ensures ok <==> |Text(value)| <= remaining
    ensures ok ==> length == |Text(value)| && left == remaining - length
    ensures !ok ==> left == remaining && length == remaining
  {
    length, left := 0, remaining;
    if value.None? {
      return true, length, left;
    }
    var text := value.value;
    while length < remaining && text[length] != '\0'
      invariant length <= remaining && length <= Length(text) < |text|
    {
      length := length + 1;
    }
    if text[length] != '\0' {
      return false, length, left;
    }
    left := remaining - length;
    ok := true;
  }

  /* The buffer */

  /** What C++ allocation does during a write. */
  datatype Memory = Plenty | NoEntry | NoPush

  datatype Write = Write(timestamp: Option<int>, level: Option<seq<char>>, kind: Option<seq<char>>,
      message: Option<seq<char>>)

  ghost predicate Readable(w: Write) {
    && (w.level.Some? ==> Terminated(w.level.value))
    && (w.kind.Some? ==> Terminated(w.kind.value))
    && (w.message.Some? ==> Terminated(w.message.value))
  }

  function EntryOf(w: Write): Entry {
    Entry(if w.timestamp.Some? then w.timestamp.value else 0, Text(w.level), Text(w.kind), Text(w.message))
  }

  datatype LogState = LogState(entries: seq<Entry>, dropped: nat)

  /** The drop counter stops at its largest value. */
  function Dropped(dropped: nat, more: nat): nat {
    if dropped + more <= ZEND_LONG_MAX then dropped + more else ZEND_LONG_MAX
  }

  predicate Accepts(w: Write, locked: bool, memory: Memory) {
    Size(EntryOf(w)) <= MAX_BYTES && memory == Plenty && locked
  }

  /** A write's effect. Only a failed push evicts without adding. */
  function Written(s: LogState, w: Write, capacity: nat, locked: bool, memory: Memory): LogState {
    var e := EntryOf(w);
    var kept := Kept(s.entries + [e], capacity);
    if Size(e) > MAX_BYTES || memory == NoEntry || !locked then s.(dropped := Dropped(s.dropped, 1))
    else if memory == NoPush then
      LogState(if |kept| > 0 then kept[..|kept| - 1] else [], Dropped(s.dropped, |s.entries| + 2 - |kept|))
    else LogState(kept, Dropped(s.dropped, |s.entries| + 1 - |kept|))
  }

  /** `text` is what a C string holds: nothing, or all before the first NUL. */
  predicate Holds(field: Option<seq<char>>, text: string) {
    match field
    case None => text == ""
    case Some(chars) => text <= chars && '\0' !in text && (text == chars || chars[|text|] == '\0')
  }

  lemma LengthIs(chars: seq<char>, n: nat)
    requires n <= |chars| && (n < |chars| ==> chars[n] == '\0') && '\0' !in chars[..n]
    ensures Length(chars) == n
  {
    assert forall i :: 0 <= i < n ==> chars[i] == chars[..n][i];
  }

  lemma HeldTextIsText(field: Option<seq<char>>, text: string)
    requires Holds(field, text)
    ensures Text(field) == text
  {
    if field.Some? {
      LengthIs(field.value, |text|);
    }
  }

  /** A write is stored exactly when its text leaves room below 8 MiB beside what an entry
      occupies, the storage is still there and nothing fails; its entry comes last, with the
      write's own time, level, type and message. */
  lemma StoredAsWritten(s: LogState, w: Write, capacity: nat, locked: bool, memory: Memory, level: string, kind: string,
                        message: string)
    requires Holds(w.level, level) && Holds(w.kind, kind) && Holds(w.message, message)
    ensures Accepts(w, locked, memory) <==>
              104 + |level| + |kind| + |message| <= 8388608 && locked && memory == Plenty
    ensures Accepts(w, locked, memory) && capacity > 0 ==>
              var after := Written(s, w, capacity, locked, memory).entries;
              && after != []
              && after[|after| - 1] == Entry(if w.timestamp.Some? then w.timestamp.value else 0, level, kind, message)
  {
    HeldTextIsText(w.level, level);
    HeldTextIsText(w.kind, kind);
    HeldTextIsText(w.message, message);
    if Accepts(w, locked, memory) && capacity > 0 {
      NewestStays(s.entries, EntryOf(w), capacity);
    }
    hide Kept, Text;
  }

  /** Bounds each scan by what the earlier ones left. */
  method MeasuresUp(w: Write) returns (ok: bool)
    requires Readable(w)
    ensures ok <==> Size(EntryOf(w)) <= MAX_BYTES
  {
    var remaining: nat := MAX_BYTES - OVERHEAD;
    var length;
    ok, length, remaining := StringLength(w.level, remaining);
    if ok {
      ok, length, remaining := StringLength(w.kind, remaining);
    }
    if ok {
      ok, length, remaining := StringLength(w.message, remaining);
    }
  }

  class Storage {
    const capacity: nat
    var entries: seq<Entry>
    var bytes: nat
    var dropped: nat

    ghost predicate Valid()
      reads this
    {
      capacity > 0 && Fits(entries, capacity) && bytes == Total(entries) && dropped <= ZEND_LONG_MAX
    }

    constructor (capacity: nat)
      requires capacity > 0
      ensures Valid() && this.capacity == capacity && State() == LogState([], 0)
    {
      this.capacity := capacity;
      entries, bytes, dropped := [], 0, 0;
    }

    ghost function State(): LogState
      reads this
    {
      LogState(entries, dropped)
    }

    method Drop()
      requires dropped <= ZEND_LONG_MAX
      modifies this`dropped
      ensures dropped == Dropped(old(dropped), 1)
    {
      if dropped < ZEND_LONG_MAX {
        dropped := dropped + 1;
      }
    }

    /** `log_storage_write`; `locked` says whether `try_to_lock` got the mutex. */
    method Log(w: Write, locked: bool, memory: Memory)
      requires Valid() && Readable(w)
      modifies this
      ensures Valid() && State() == Written(old(State()), w, capacity, locked, memory)
    {
      var ok := MeasuresUp(w);
      var entry := EntryOf(w);
      hide Size, Total, Kept, EntryOf;
      if !ok || memory == NoEntry || !locked {
        Drop();
        return;
      }
      Evict(entry);
      if memory == NoPush {
        Drop();
        return;
      }
      TotalJoins(entries, [entry]);
      entries := entries + [entry];
      bytes := bytes + Size(entry);
    }

    /** Makes room: the loop pops the front, which exists whenever it runs. */
    method Evict(entry: Entry)
      requires Valid() && Size(entry) <= MAX_BYTES
      modifies this
      ensures Valid() && Fits(entries + [entry], capacity)
      ensures entries + [entry] == Kept(old(entries) + [entry], capacity)
      ensures dropped == Dropped(old(dropped), |old(entries)| - |entries|)
    {
      NewestStays(entries, entry, capacity);
      TotalJoins(entries, [entry]);
      while |entries| >= capacity || bytes > MAX_BYTES - Size(entry)
        invariant Valid() && |entries| <= |old(entries)|
        invariant Total(entries + [entry]) == bytes + Size(entry)
        invariant Kept(entries + [entry], capacity) == Kept(old(entries) + [entry], capacity)
        invariant dropped == Dropped(old(dropped), |old(entries)| - |entries|)
        decreases |entries|
      {
        assert (entries + [entry])[1..] == entries[1..] + [entry];
        bytes := bytes - Size(entries[0]);
        entries := entries[1..];
        Drop();
      }
    }

    method Drain() returns (drained: seq<Entry>)
      requires Valid()
      modifies this
      ensures Valid() && drained == old(entries) && State() == LogState([], old(dropped))
    {
      drained := entries;
      entries := [];
      bytes := 0;
    }
  }

  /* Every run */

  datatype Call = Logs(write: Write, locked: bool, memory: Memory) | Drains

  /** The state after some calls, the entries accepted since the last drain, and how many
      writes were made and entries drained. */
  datatype History = History(state: LogState, accepted: seq<Entry>, writes: nat, drained: nat)

  function After(calls: seq<Call>, capacity: nat): History
    decreases |calls|
  {
    if calls == [] then History(LogState([], 0), [], 0, 0)
    else Next(After(calls[..|calls| - 1], capacity), calls[|calls| - 1], capacity)
  }

  function Next(h: History, call: Call, capacity: nat): History {
    match call
    case Logs(w, locked, memory) =>
      History(Written(h.state, w, capacity, locked, memory),
              if Accepts(w, locked, memory) then h.accepted + [EntryOf(w)] else h.accepted, h.writes + 1, h.drained)
    case Drains => History(h.state.(entries := []), [], h.writes, h.drained + |h.state.entries|)
  }

  /** Without a failed push, the buffer is the longest suffix of the entries accepted since
      the last drain that fits both limits. */
  lemma {:induction false} BufferIsTheLongestFit(calls: seq<Call>, capacity: nat)
    requires forall c <- calls :: c.Logs? ==> c.memory != NoPush
    ensures var h := After(calls, capacity); h.state.entries == Kept(h.accepted, capacity)
    decreases |calls|
  {
    if calls != [] {
      var before := calls[..|calls| - 1];
      BufferIsTheLongestFit(before, capacity);
      var last := calls[|calls| - 1];
      assert last in calls;
      if last.Logs? {
        KeptStepwise(After(before, capacity).accepted, EntryOf(last.write), capacity);
      }
      hide Kept;
    }
  }

  /** Whatever allocation does, the buffer fits and is a suffix of those entries. */
  lemma {:induction false} BufferIsAFittingSuffix(calls: seq<Call>, capacity: nat)
    requires capacity > 0
    ensures var h := After(calls, capacity);
      Fits(h.state.entries, capacity) && SuffixOf(h.state.entries, h.accepted)
    decreases |calls|
  {
    if calls != [] {
      var before := calls[..|calls| - 1];
      BufferIsAFittingSuffix(before, capacity);
      var h, last := After(before, capacity), calls[|calls| - 1];
      if last.Logs? {
        hide After, Kept, Size, Total, Fits, SuffixOf, EntryOf, Dropped;
        WriteKeepsSuffix(h.state, h.accepted, last.write, capacity, last.locked, last.memory);
      }
    }
  }

  ghost predicate SuffixOf(part: seq<Entry>, all: seq<Entry>) {
    |part| <= |all| && part == all[|all| - |part|..]
  }

  lemma SuffixGrows(part: seq<Entry>, all: seq<Entry>, e: Entry)
    requires SuffixOf(part, all)
    ensures SuffixOf(part + [e], all + [e])
  {}

  lemma SuffixOfSuffix(a: seq<Entry>, b: seq<Entry>, c: seq<Entry>)
    requires SuffixOf(a, b) && SuffixOf(b, c)
    ensures SuffixOf(a, c)
  {}

  lemma KeptIsSuffix(entries: seq<Entry>, capacity: nat)
    ensures SuffixOf(Kept(entries, capacity), entries)
  {
    KeptIsLongest(entries, capacity, 0);
  }

  lemma LastDropped(kept: seq<Entry>, all: seq<Entry>, e: Entry, capacity: nat)
    requires kept != [] && SuffixOf(kept, all + [e]) && Fits(kept, capacity)
    ensures SuffixOf(kept[..|kept| - 1], all) && Fits(kept[..|kept| - 1], capacity)
  {
    assert kept == kept[..|kept| - 1] + [kept[|kept| - 1]];
    TotalJoins(kept[..|kept| - 1], [kept[|kept| - 1]]);
  }

  lemma WriteKeepsSuffix(s: LogState, all: seq<Entry>, w: Write, capacity: nat, locked: bool, memory: Memory)
    requires capacity > 0 && Fits(s.entries, capacity) && SuffixOf(s.entries, all)
    ensures var t := Written(s, w, capacity, locked, memory);
      Fits(t.entries, capacity) && SuffixOf(t.entries, if Accepts(w, locked, memory) then all + [EntryOf(w)] else all)
  {
    hide Size, Total, Fits, SuffixOf, EntryOf, Kept, Dropped;
    var e := EntryOf(w);
    if Size(e) <= MAX_BYTES && memory != NoEntry && locked {
      var kept := Kept(s.entries + [e], capacity);
      EvictionLeavesTheNewest(s.entries, e, capacity);
      KeptIsSuffix(s.entries + [e], capacity);
      SuffixGrows(s.entries, all, e);
      SuffixOfSuffix(kept, s.entries + [e], all + [e]);
      LastDropped(kept, all, e, capacity);
    }
  }

  /** After a failed push has made the buffer too short, a write makes it the longest fit
      again exactly when that no longer reaches behind what the buffer still held. */
  lemma WhenTheFitIsRegained(entries: seq<Entry>, all: seq<Entry>, e: Entry, capacity: nat)
    requires SuffixOf(entries, all)
    ensures Kept(entries + [e], capacity) == Kept(all + [e], capacity) <==> |Kept(all + [e], capacity)| <= |entries| + 1
  {
    var some, every := entries + [e], all + [e];
    SuffixGrows(entries, all, e);
    SuffixKeepsLess(some, every, capacity);
    KeptIsSuffix(some, capacity);
    KeptIsSuffix(every, capacity);
    hide Kept, Total;
    if |Kept(every, capacity)| == |Kept(some, capacity)| {
      SuffixOfSuffix(Kept(some, capacity), some, every);
    }
  }

  /** The longest fit of a suffix is that of the whole, or else the suffix itself. */
  lemma SuffixKeepsLess(some: seq<Entry>, every: seq<Entry>, capacity: nat)
    requires SuffixOf(some, every)
    ensures |Kept(some, capacity)| == if |Kept(every, capacity)| <= |some| then |Kept(every, capacity)| else |some|
  {
    var kept, wanted := |Kept(some, capacity)|, if |Kept(every, capacity)| <= |some| then |Kept(every, capacity)|
        else |some|;
    hide Kept, Fits, SuffixOf;
    TailsAgree(some, every, capacity, wanted);
    TailsAgree(some, every, capacity, kept);
  }

  lemma TailsAgree(some: seq<Entry>, every: seq<Entry>, capacity: nat, n: nat)
    requires SuffixOf(some, every) && n <= |some|
    ensures n <= |Kept(some, capacity)| <==> n <= |Kept(every, capacity)|
  {
    TailFits(some, capacity, n);
    TailFits(every, capacity, n);
    assert some[|some| - n..] == every[|every| - n..];
    hide Kept, Fits;
  }

  lemma TailFits(entries: seq<Entry>, capacity: nat, n: nat)
    requires n <= |entries|
    ensures Fits(entries[|entries| - n..], capacity) <==> n <= |Kept(entries, capacity)|
  {
    hide Kept, Fits;
    KeptIsLongest(entries, capacity, |entries| - n);
  }

  /** Every write is drained, buffered or dropped, whatever allocation does; the drop counter
      only stops at its largest value. */
  lemma {:induction false} WritesAreAccountedFor(calls: seq<Call>, capacity: nat)
    requires capacity > 0
    ensures var h := After(calls, capacity);
      && h.drained + |h.state.entries| <= h.writes
      && h.state.dropped == Dropped(0, h.writes - h.drained - |h.state.entries|)
    decreases |calls|
  {
    hide Next, Dropped;
    if calls == [] {
      NoDrops();
    } else {
      WritesAreAccountedFor(calls[..|calls| - 1], capacity);
      NextAccounts(After(calls[..|calls| - 1], capacity), calls[|calls| - 1], capacity);
    }
  }

  lemma NoDrops()
    ensures Dropped(0, 0) == 0
  {}

  lemma NextAccounts(h: History, call: Call, capacity: nat)
    requires capacity > 0 && h.drained + |h.state.entries| <= h.writes
    requires h.state.dropped == Dropped(0, h.writes - h.drained - |h.state.entries|)
    ensures var t := Next(h, call, capacity);
      && t.drained + |t.state.entries| <= t.writes
      && t.state.dropped == Dropped(0, t.writes - t.drained - |t.state.entries|)
  {
    hide Kept, Size, Total, Fits, EntryOf, Dropped, Written, Accepts;
    if call.Logs? {
      DropsBounded(0, h.writes - h.drained - |h.state.entries|);
      WriteCounts(h.state, call.write, capacity, call.locked, call.memory);
      DropsAdd(h.writes, h.drained, |h.state.entries|,
          |Written(h.state, call.write, capacity, call.locked, call.memory).entries|);
    }
  }

  lemma DropsBounded(dropped: nat, more: nat)
    ensures Dropped(dropped, more) <= ZEND_LONG_MAX
  {}

  lemma WriteCounts(s: LogState, w: Write, capacity: nat, locked: bool, memory: Memory)
    requires capacity > 0 && s.dropped <= ZEND_LONG_MAX
    ensures var t := Written(s, w, capacity, locked, memory);
      && |t.entries| <= |s.entries| + 1
      && t.dropped == Dropped(s.dropped, |s.entries| + 1 - |t.entries|)
  {
    hide Size, Total, Fits, EntryOf, Dropped;
    var e := EntryOf(w);
    if Size(e) <= MAX_BYTES && memory != NoEntry && locked {
      EvictionLeavesTheNewest(s.entries, e, capacity);
      hide Kept;
      var kept := Kept(s.entries + [e], capacity);
      assert |kept[..|kept| - 1]| == |kept| - 1;
    } else {
      hide Kept;
    }
  }

  lemma EvictionLeavesTheNewest(all: seq<Entry>, e: Entry, capacity: nat)
    requires capacity > 0 && Size(e) <= MAX_BYTES
    ensures 0 < |Kept(all + [e], capacity)| <= |all| + 1
  {
    NewestStays(all, e, capacity);
  }

  lemma DropsAdd(writes: nat, drained: nat, before: nat, after: nat)
    requires drained + before <= writes && after <= before + 1
    ensures Dropped(Dropped(0, writes - drained - before), before + 1 - after)
        == Dropped(0, writes + 1 - drained - after)
  {}

  /** A push that fails has already evicted: the buffer is still the longest fit of what was
      accepted exactly when nothing had to be evicted for it. */
  lemma FailedPushKeepsTheFit(all: seq<Entry>, w: Write, dropped: nat, capacity: nat)
    requires capacity > 0 && Size(EntryOf(w)) <= MAX_BYTES
    ensures var s := LogState(Kept(all, capacity), dropped);
      Written(s, w, capacity, true, NoPush).entries == Kept(all, capacity) <==> Fits(s.entries + [EntryOf(w)], capacity)
  {
    var entries, e := Kept(all, capacity), EntryOf(w);
    NewestStays(entries, e, capacity);
    KeptIsLongest(entries + [e], capacity, 0);
    assert (entries + [e])[0..] == entries + [e];
  }
}
