/**
 Arrow schema metadata (Arrow C Data Interface, section "The ArrowSchema structure"): an
 int32 pair count, then for each key and each value an int32 length and that many bytes,
 in the host's little-endian order. Keys may repeat and bytes may be zero.
 */
module ArrowMetadata {
  import opened Wrappers

  type Byte = b: nat | b < 256

  datatype Pair = Pair(key: seq<Byte>, value: seq<Byte>)

  const MAX_BYTES := 64 * 1024 * 1024
  const MAX_PAIRS := 65536

  /** `Overrun` is no error of the source: it marks an allocation that ends before a length
      that the walk would read. */
  datatype MetadataError = InvalidCount | Oversized | Overrun

  /** The little-endian unsigned number in `b`. */
  function Unsigned(b: seq<Byte>): nat {
    if b == [] then 0 else b[0] + 256 * Unsigned(b[1..])
  }

  /** The int32 stored at `at`. */
  function Int32At(b: seq<Byte>, at: nat): int
    requires at + 4 <= |b|
  {
    var unsigned := Unsigned(b[at..at + 4]);
    if unsigned < 0x8000_0000 then unsigned else unsigned - 0x1_0000_0000
  }

  /** The walk over one length-prefixed part that starts at `at`: where it ends. */
  function PartEnd(b: seq<Byte>, at: nat): (r: Result<nat, MetadataError>)
    ensures r.Success? ==> at + 4 <= r.value <= MAX_BYTES
  {
    if at > MAX_BYTES - 4 then Failure(Oversized)
    else if at + 4 > |b| then Failure(Overrun)
    else
      var size := Int32At(b, at);
      if size < 0 || size > MAX_BYTES - (at + 4) then Failure(Oversized) else Success(at + 4 + size)
  }

  /** A key and its value. */
  function PairEnd(b: seq<Byte>, at: nat): (r: Result<nat, MetadataError>)
    ensures r.Success? ==> PartEnd(b, at).Success? && PartEnd(b, at).value < r.value <= MAX_BYTES
  {
    var key := PartEnd(b, at);
    if key.Failure? then key else PartEnd(b, key.value)
  }

  function PairsEnd(b: seq<Byte>, at: nat, n: nat): (r: Result<nat, MetadataError>)
    ensures r.Success? ==> at <= r.value
    ensures r.Success? && n > 0 ==> PairEnd(b, at).Success? && PairEnd(b, at).value <= r.value <= MAX_BYTES
    decreases n
  {
    if n == 0 then Success(at)
    else
      var first := PairEnd(b, at);
      if first.Failure? then first else PairsEnd(b, first.value, n - 1)
  }

  /** The bytes that the walk over `b` covers. */
  function Extent(b: seq<Byte>): Result<nat, MetadataError> {
    if |b| < 4 then Failure(Overrun)
    else
      var count := Int32At(b, 0);
      if count < 0 || count > MAX_PAIRS then Failure(InvalidCount) else PairsEnd(b, 4, count)
  }

  /** `metadata_length`; absent metadata has length 0. */
  method MetadataLength(metadata: Option<seq<Byte>>) returns (r: Result<nat, MetadataError>)
    ensures r == if metadata.None? then Success(0) else Extent(metadata.value)
  {
    hide Int32At, Unsigned;
    if metadata.None? {
      return Success(0);
    }
    var b := metadata.value;
    if |b| < 4 {
      return Failure(Overrun);
    }
    var count := Int32At(b, 0);
    if count < 0 || count > MAX_PAIRS {
      return Failure(InvalidCount);
    }
    var length: nat := 4;
    var i := 0;
    while i < count
      invariant 0 <= i <= count
      invariant Extent(b) == PairsEnd(b, length, count - i)
    {
      ghost var start := length;
      var part := 0;
      while part < 2
        invariant 0 <= part <= 2
        invariant part == 0 ==> length == start
        invariant part == 1 ==> PartEnd(b, start) == Success(length)
        invariant part == 2 ==> PairEnd(b, start) == Success(length)
      {
        if length > MAX_BYTES - 4 {
          return Failure(Oversized);
        }
        if length + 4 > |b| {
          return Failure(Overrun);
        }
        var size := Int32At(b, length);
        if size < 0 || size > MAX_BYTES - (length + 4) {
          return Failure(Oversized);
        }
        length := length + 4 + size;
        part := part + 1;
      }
      i := i + 1;
    }
    return Success(length);
  }

  /** The bytes after the length prefix at `at`. */
  function Part(b: seq<Byte>, at: nat): seq<Byte>
    requires PartEnd(b, at).Success? && PartEnd(b, at).value <= |b|
  {
    b[at + 4..PartEnd(b, at).value]
  }

  /** The pair that the walk meets at `at`. */
  function PairAt(b: seq<Byte>, at: nat): Pair
    requires PairEnd(b, at).Success? && PairEnd(b, at).value <= |b|
  {
    Pair(Part(b, at), Part(b, PartEnd(b, at).value))
  }

  /** The `n` pairs that the walk meets from `at`. */
  function PairsAt(b: seq<Byte>, at: nat, n: nat): (pairs: seq<Pair>)
    requires PairsEnd(b, at, n).Success? && PairsEnd(b, at, n).value <= |b|
    ensures |pairs| == n
    decreases n
  {
    if n == 0 then [] else [PairAt(b, at)] + PairsAt(b, PairEnd(b, at).value, n - 1)
  }

  lemma PairsStep(b: seq<Byte>, at: nat, n: nat)
    requires n > 0 && PairEnd(b, at).Success?
    ensures PairsEnd(b, at, n) == PairsEnd(b, PairEnd(b, at).value, n - 1)
    ensures PairsEnd(b, at, n).Success? && PairsEnd(b, at, n).value <= |b| ==>
              PairsAt(b, at, n) == [PairAt(b, at)] + PairsAt(b, PairEnd(b, at).value, n - 1)
  {
  }

  function Pairs(b: seq<Byte>): seq<Pair>
    requires Extent(b).Success? && Extent(b).value <= |b|
  {
    PairsAt(b, 4, Int32At(b, 0))
  }

  /** The `width` low-order bytes of `n`, little-endian. */
  function UnsignedBytes(n: nat, width: nat): (b: seq<Byte>)
    ensures |b| == width
  {
    if width == 0 then [] else [n % 256] + UnsignedBytes(n / 256, width - 1)
  }

  function Int32Bytes(n: nat): (b: seq<Byte>)
    ensures |b| == 4
  {
    UnsignedBytes(n, 4)
  }

  function EncodePart(part: seq<Byte>): seq<Byte> {
    Int32Bytes(|part|) + part
  }

  function EncodePair(pair: Pair): seq<Byte> {
    EncodePart(pair.key) + EncodePart(pair.value)
  }

  function EncodePairs(pairs: seq<Pair>): seq<Byte> {
    if pairs == [] then [] else EncodePair(pairs[0]) + EncodePairs(pairs[1..])
  }

  /** A producer's encoding of `pairs`. */
  function Encode(pairs: seq<Pair>): seq<Byte> {
    Int32Bytes(|pairs|) + EncodePairs(pairs)
  }

  function Pow256(width: nat): nat {
    if width == 0 then 1 else 256 * Pow256(width - 1)
  }

  lemma {:induction false} UnsignedOfBytes(n: nat, width: nat)
    requires n < Pow256(width)
    ensures Unsigned(UnsignedBytes(n, width)) == n
  {
    if width > 0 {
      UnsignedOfBytes(n / 256, width - 1);
    }
  }

  lemma {:induction false} BytesOfUnsigned(b: seq<Byte>)
    ensures UnsignedBytes(Unsigned(b), |b|) == b
  {
    if b != [] {
      var n, rest := Unsigned(b), Unsigned(b[1..]);
      assert n == b[0] + 256 * rest;
      assert n % 256 == b[0] && n / 256 == rest;
      BytesOfUnsigned(b[1..]);
    }
  }

  lemma {:induction false} UnsignedBound(b: seq<Byte>)
    ensures Unsigned(b) < Pow256(|b|)
  {
    if b != [] {
      UnsignedBound(b[1..]);
    }
  }

  lemma Int32RoundTrip(b: seq<Byte>, at: nat, n: nat)
    requires n < 0x8000_0000 && at + 4 <= |b| && b[at..at + 4] == Int32Bytes(n)
    ensures Int32At(b, at) == n
  {
    assert Pow256(4) == 256 * 256 * 256 * Pow256(1);
    UnsignedOfBytes(n, 4);
  }

  lemma Int32Unique(b: seq<Byte>, at: nat)
    requires at + 4 <= |b| && Int32At(b, at) >= 0
    ensures b[at..at + 4] == Int32Bytes(Int32At(b, at))
  {
    assert Pow256(4) == 256 * 256 * 256 * Pow256(1);
    UnsignedBound(b[at..at + 4]);
    BytesOfUnsigned(b[at..at + 4]);
  }

  ghost predicate Holds(b: seq<Byte>, at: nat, part: seq<Byte>) {
    at + |part| <= |b| && b[at..at + |part|] == part
  }

  lemma HoldsInside(b: seq<Byte>, at: nat, part: seq<Byte>)
    requires Holds(b, at, part)
    ensures at + |part| <= |b|
  {}

  lemma HoldsBoth(b: seq<Byte>, at: nat, first: seq<Byte>, second: seq<Byte>)
    ensures Holds(b, at, first + second) <==> Holds(b, at, first) && Holds(b, at + |first|, second)
  {
    if at + |first| + |second| <= |b| {
      var whole := b[at..at + |first| + |second|];
      assert whole[..|first|] == b[at..at + |first|];
      assert whole[|first|..] == b[at + |first|..at + |first| + |second|];
      assert whole == whole[..|first|] + whole[|first|..];
      assert (first + second)[..|first|] == first && (first + second)[|first|..] == second;
    }
  }

  /** One encoded part inside a buffer, as the walk sees it. */
  lemma WalkPart(b: seq<Byte>, at: nat, part: seq<Byte>)
    requires |part| < 0x8000_0000 && Holds(b, at, EncodePart(part))
    ensures if at + 4 + |part| <= MAX_BYTES
            then PartEnd(b, at) == Success(at + 4 + |part|) && Part(b, at) == part
            else PartEnd(b, at) == Failure(Oversized)
  {
    HoldsBoth(b, at, Int32Bytes(|part|), part);
    Int32RoundTrip(b, at, |part|);
  }

  lemma WalkPair(b: seq<Byte>, at: nat, pair: Pair)
    requires |pair.key| < 0x8000_0000 && |pair.value| < 0x8000_0000 && Holds(b, at, EncodePair(pair))
    ensures if at + |EncodePair(pair)| <= MAX_BYTES
            then PairEnd(b, at) == Success(at + |EncodePair(pair)|) && PairAt(b, at) == pair
            else PairEnd(b, at) == Failure(Oversized)
  {
    HoldsBoth(b, at, EncodePart(pair.key), EncodePart(pair.value));
    WalkPart(b, at, pair.key);
    WalkPart(b, at + |EncodePart(pair.key)|, pair.value);
  }

  ghost predicate Int32Sized(pairs: seq<Pair>) {
    && |pairs| < 0x8000_0000
    && forall k :: 0 <= k < |pairs| ==> |pairs[k].key| < 0x8000_0000 && |pairs[k].value| < 0x8000_0000
  }

  lemma WalkFirstPair(b: seq<Byte>, at: nat, pairs: seq<Pair>)
    requires Int32Sized(pairs) && Holds(b, at, EncodePairs(pairs)) && pairs != []
    ensures |EncodePairs(pairs)| == |EncodePair(pairs[0])| + |EncodePairs(pairs[1..])|
    ensures Int32Sized(pairs[1..]) && Holds(b, at + |EncodePair(pairs[0])|, EncodePairs(pairs[1..]))
    ensures if at + |EncodePair(pairs[0])| <= MAX_BYTES
            then PairEnd(b, at) == Success(at + |EncodePair(pairs[0])|) && PairAt(b, at) == pairs[0]
            else PairEnd(b, at) == Failure(Oversized)
  {
    hide *;
    EncodeFirst(pairs[0], pairs[1..]);
    FirstThenRest(pairs);
    HoldsBoth(b, at, EncodePair(pairs[0]), EncodePairs(pairs[1..]));
    RestSized(pairs);
    WalkPair(b, at, pairs[0]);
  }

  lemma RestSized(pairs: seq<Pair>)
    requires Int32Sized(pairs) && pairs != []
    ensures Int32Sized(pairs[1..]) && |pairs[0].key| < 0x8000_0000 && |pairs[0].value| < 0x8000_0000
  {}

  lemma {:induction false} WalkFittingPairs(b: seq<Byte>, at: nat, pairs: seq<Pair>)
    requires Int32Sized(pairs) && Holds(b, at, EncodePairs(pairs))
    requires at + |EncodePairs(pairs)| <= MAX_BYTES
    ensures PairsEnd(b, at, |pairs|) == Success(at + |EncodePairs(pairs)|)
    ensures PairsAt(b, at, |pairs|) == pairs
    decreases pairs
  {
    hide *;
    if pairs == [] {
      WalkNothing(b, at);
    } else {
      WalkFirstPair(b, at, pairs);
      HoldsInside(b, at, EncodePairs(pairs));
      PairsStep(b, at, |pairs|);
      FirstThenRest(pairs);
      var next := at + |EncodePair(pairs[0])|;
      WalkFittingPairs(b, next, pairs[1..]);
      assert PairsEnd(b, at, |pairs|) == PairsEnd(b, next, |pairs| - 1);
    }
  }

  lemma WalkNothing(b: seq<Byte>, at: nat)
    ensures EncodePairs([]) == [] && PairsEnd(b, at, 0) == Success(at)
    ensures at <= |b| ==> PairsAt(b, at, 0) == []
  {}

  lemma FirstThenRest(pairs: seq<Pair>)
    requires pairs != []
    ensures pairs == [pairs[0]] + pairs[1..] && |pairs[1..]| == |pairs| - 1
  {}

  lemma {:induction false} WalkOversizedPairs(b: seq<Byte>, at: nat, pairs: seq<Pair>)
    requires Int32Sized(pairs) && Holds(b, at, EncodePairs(pairs)) && pairs != []
    requires at + |EncodePairs(pairs)| > MAX_BYTES
    ensures PairsEnd(b, at, |pairs|) == Failure(Oversized)
    decreases pairs
  {
    WalkFirstPair(b, at, pairs);
    if PairEnd(b, at).Success? {
      WalkOversizedPairs(b, PairEnd(b, at).value, pairs[1..]);
      PairsStep(b, at, |pairs|);
    }
  }

  /**
   The walk accepts an encoding exactly when it has at most 65536 pairs and 64 MiB; it then
   covers the encoding's own bytes, whatever follows them, and reads back the same pairs.
   */
  lemma EncodingIsAccepted(pairs: seq<Pair>, tail: seq<Byte>)
    requires Int32Sized(pairs)
    ensures var b := Encode(pairs) + tail;
            if |pairs| <= 65536 && |Encode(pairs)| <= 67108864
            then Extent(b) == Success(|Encode(pairs)|) && Pairs(b) == pairs
            else Extent(b).Failure? && Extent(b).error != Overrun
  {
    hide EncodePairs, PairsEnd, PairsAt, Int32At, Int32Bytes, Holds, Encode;
    var b := Encode(pairs) + tail;
    CountFirst(pairs, tail);
    WalkNothing(b, 4);
    if |Encode(pairs)| <= MAX_BYTES {
      WalkFittingPairs(b, 4, pairs);
    } else {
      WalkOversizedPairs(b, 4, pairs);
    }
  }

  /** An encoding starts with its count. */
  lemma CountFirst(pairs: seq<Pair>, tail: seq<Byte>)
    requires Int32Sized(pairs)
    ensures var b := Encode(pairs) + tail;
      && |b| >= 4 && Int32At(b, 0) == |pairs| && Holds(b, 4, EncodePairs(pairs))
      && |Encode(pairs)| == 4 + |EncodePairs(pairs)|
  {
    var b := Encode(pairs) + tail;
    assert Holds(b, 0, Encode(pairs));
    HoldsBoth(b, 0, Int32Bytes(|pairs|), EncodePairs(pairs));
    Int32RoundTrip(b, 0, |pairs|);
    hide EncodePairs;
  }

  lemma AcceptedPart(b: seq<Byte>, at: nat)
    requires PartEnd(b, at).Success? && PartEnd(b, at).value <= |b|
    ensures Holds(b, at, EncodePart(Part(b, at)))
    ensures at + |EncodePart(Part(b, at))| == PartEnd(b, at).value
  {
    Int32Unique(b, at);
    HoldsBoth(b, at, Int32Bytes(|Part(b, at)|), Part(b, at));
  }

  lemma AcceptedPair(b: seq<Byte>, at: nat)
    requires PairEnd(b, at).Success? && PairEnd(b, at).value <= |b|
    ensures Holds(b, at, EncodePair(PairAt(b, at)))
    ensures at + |EncodePair(PairAt(b, at))| == PairEnd(b, at).value
  {
    AcceptedPart(b, at);
    AcceptedPart(b, PartEnd(b, at).value);
    HoldsBoth(b, at, EncodePart(PairAt(b, at).key), EncodePart(PairAt(b, at).value));
  }

  lemma {:induction false} AcceptedPairsAreEncodings(b: seq<Byte>, at: nat, n: nat)
    requires PairsEnd(b, at, n).Success? && PairsEnd(b, at, n).value <= |b|
    ensures Holds(b, at, EncodePairs(PairsAt(b, at, n)))
    ensures at + |EncodePairs(PairsAt(b, at, n))| == PairsEnd(b, at, n).value
    decreases n
  {
    if n > 0 {
      AcceptedPair(b, at);
      var first, rest := PairAt(b, at), PairsAt(b, PairEnd(b, at).value, n - 1);
      EncodeFirst(first, rest);
      hide EncodePairs, EncodePair, Holds, PairEnd, PairAt;
      AcceptedPairsAreEncodings(b, PairEnd(b, at).value, n - 1);
      HoldsBoth(b, at, EncodePair(first), EncodePairs(rest));
    }
  }

  lemma EncodeFirst(first: Pair, rest: seq<Pair>)
    ensures EncodePairs([first] + rest) == EncodePair(first) + EncodePairs(rest)
  {
    assert ([first] + rest)[1..] == rest;
  }

  /** What the walk accepts is an encoding of the pairs it reads: a copy of exactly the
      walked bytes, as `copy_schema` makes, parses to the same pairs. */
  lemma AcceptedBytesAreAnEncoding(b: seq<Byte>)
    requires Extent(b).Success? && Extent(b).value <= |b|
    ensures b[..Extent(b).value] == Encode(Pairs(b))
    ensures Extent(b[..Extent(b).value]) == Extent(b) && Pairs(b[..Extent(b).value]) == Pairs(b)
  {
    var end := Extent(b).value;
    var pairs := Pairs(b);
    AcceptedPairsAreEncodings(b, 4, Int32At(b, 0));
    Int32Unique(b, 0);
    HoldsBoth(b, 0, Int32Bytes(|pairs|), EncodePairs(pairs));
    assert b[..end] == b[0..end] == Encode(pairs);
    PairSizes(b, 4, Int32At(b, 0));
    EncodingIsAccepted(pairs, []);
    assert Encode(pairs) + [] == b[..end];
  }

  lemma {:induction false} PairSizes(b: seq<Byte>, at: nat, n: nat)
    requires PairsEnd(b, at, n).Success? && PairsEnd(b, at, n).value <= |b|
    ensures forall k :: 0 <= k < n ==>
              |PairsAt(b, at, n)[k].key| <= MAX_BYTES && |PairsAt(b, at, n)[k].value| <= MAX_BYTES
    decreases n
  {
    if n > 0 {
      PairSizes(b, PairEnd(b, at).value, n - 1);
    }
  }

  /** The value of the last pair with key `key`, or `start`. */
  function LastValue(pairs: seq<Pair>, key: seq<Byte>, start: seq<Byte>): seq<Byte>
    decreases pairs
  {
    if pairs == [] then start
    else LastValue(pairs[1..], key, if pairs[0].key == key then pairs[0].value else start)
  }

  /** Pair `k` is the last with its key. */
  ghost predicate LastWithKey(pairs: seq<Pair>, k: nat) {
    k < |pairs| && forall j :: k < j < |pairs| ==> pairs[j].key != pairs[k].key
  }

  lemma {:induction false} LastDuplicateWins(pairs: seq<Pair>, k: nat, start: seq<Byte>)
    requires LastWithKey(pairs, k)
    ensures LastValue(pairs, pairs[k].key, start) == pairs[k].value
    decreases pairs
  {
    var rest, key := pairs[1..], pairs[k].key;
    if k > 0 {
      LastDuplicateWins(rest, k - 1, if pairs[0].key == key then pairs[0].value else start);
    } else {
      AbsentKeyKeepsStart(rest, key, pairs[0].value);
    }
  }

  lemma {:induction false} AbsentKeyKeepsStart(pairs: seq<Pair>, key: seq<Byte>, start: seq<Byte>)
    requires forall j :: 0 <= j < |pairs| ==> pairs[j].key != key
    ensures LastValue(pairs, key, start) == start
    decreases pairs
  {
    if pairs != [] {
      AbsentKeyKeepsStart(pairs[1..], key, start);
    }
  }

  /** What a cursor at a pair reads. */
  lemma CursorReadsPair(b: seq<Byte>, cursor: nat) returns (k: nat, v: nat)
    requires PairEnd(b, cursor).Success? && PairEnd(b, cursor).value <= |b|
    ensures cursor + 8 + k + v == PairEnd(b, cursor).value
    ensures Int32At(b, cursor) == k && Int32At(b, cursor + 4 + k) == v
    ensures PairAt(b, cursor) == Pair(b[cursor + 4..cursor + 4 + k], b[cursor + 8 + k..cursor + 8 + k + v])
  {
    k := Int32At(b, cursor);
    v := Int32At(b, cursor + 4 + k);
  }

  /** The last values so far, and the pairs still ahead of the cursor, give the last values. */
  ghost predicate Scanned(b: seq<Byte>, cursor: nat, n: nat, key: seq<Byte>, value: seq<Byte>)
    requires Extent(b).Success? && Extent(b).value <= |b|
  {
    && PairsEnd(b, cursor, n).Success? && PairsEnd(b, cursor, n).value <= |b|
    && LastValue(Pairs(b), key, []) == LastValue(PairsAt(b, cursor, n), key, value)
  }

  lemma ScanStart(b: seq<Byte>, key: seq<Byte>)
    requires Extent(b).Success? && Extent(b).value <= |b|
    ensures |b| >= 4 && 0 <= Int32At(b, 0)
    ensures Scanned(b, 4, Int32At(b, 0), key, [])
  {
  }

  lemma ScanStep(b: seq<Byte>, cursor: nat, n: nat, key: seq<Byte>, value: seq<Byte>)
    requires Extent(b).Success? && Extent(b).value <= |b|
    requires n > 0 && Scanned(b, cursor, n, key, value)
    ensures PairEnd(b, cursor).Success? && PairEnd(b, cursor).value <= |b|
    ensures Scanned(b, PairEnd(b, cursor).value, n - 1, key,
                    if PairAt(b, cursor).key == key then PairAt(b, cursor).value else value)
  {
    PairsStep(b, cursor, n);
    assert PairsAt(b, cursor, n)[1..] == PairsAt(b, PairEnd(b, cursor).value, n - 1);
  }

  lemma ScanEnd(b: seq<Byte>, cursor: nat, key: seq<Byte>, value: seq<Byte>)
    requires Extent(b).Success? && Extent(b).value <= |b|
    requires Scanned(b, cursor, 0, key, value)
    ensures LastValue(Pairs(b), key, []) == value
  {
  }

  /**
   `duckdb_arrow_extension_metadata`: one cursor walk that keeps the last value of each of two
   keys. The keys are ASCII texts, passed as bytes. Every slice is inside the buffer.
   */
  method ExtensionMetadata(metadata: Option<seq<Byte>>, nameKey: seq<Byte>, metadataKey: seq<Byte>)
    returns (ok: bool, extensionName: seq<Byte>, extensionMetadata: seq<Byte>)
    requires metadata.Some? && Extent(metadata.value).Success? ==> Extent(metadata.value).value <= |metadata.value|
    requires nameKey != metadataKey
    ensures ok <==> metadata.None? || Extent(metadata.value).Success?
    ensures !ok || metadata.None? ==> extensionName == [] && extensionMetadata == []
    ensures ok && metadata.Some? ==> extensionName == LastValue(Pairs(metadata.value), nameKey, [])
    ensures ok && metadata.Some? ==> extensionMetadata == LastValue(Pairs(metadata.value), metadataKey, [])
  {
    extensionName, extensionMetadata := [], [];
    var length := MetadataLength(metadata);
    ok := length.Success?;
    if !ok || metadata.None? {
      return;
    }
    extensionName, extensionMetadata := WalkExtension(metadata.value, nameKey, metadataKey);
  }

  method WalkExtension(b: seq<Byte>, nameKey: seq<Byte>, metadataKey: seq<Byte>)
    returns (extensionName: seq<Byte>, extensionMetadata: seq<Byte>)
    requires Extent(b).Success? && Extent(b).value <= |b|
    requires nameKey != metadataKey
    ensures extensionName == LastValue(Pairs(b), nameKey, [])
    ensures extensionMetadata == LastValue(Pairs(b), metadataKey, [])
  {
    hide *;
    extensionName, extensionMetadata := [], [];
    ScanStart(b, nameKey);
    ScanStart(b, metadataKey);
    var count := Int32At(b, 0);
    var cursor: nat := 4;
    var i := 0;
    while i < count
      invariant 0 <= i <= count
      invariant Scanned(b, cursor, count - i, nameKey, extensionName)
      invariant Scanned(b, cursor, count - i, metadataKey, extensionMetadata)
    {
      ScanStep(b, cursor, count - i, nameKey, extensionName);
      ScanStep(b, cursor, count - i, metadataKey, extensionMetadata);
      ghost var k, v := CursorReadsPair(b, cursor);

      var keyLength := Int32At(b, cursor);
      cursor := cursor + 4;
      var key := b[cursor..cursor + keyLength];
      cursor := cursor + keyLength;

      var valueLength := Int32At(b, cursor);
      cursor := cursor + 4;
      if key == nameKey {
        extensionName := b[cursor..cursor + valueLength];
      } else if key == metadataKey {
        extensionMetadata := b[cursor..cursor + valueLength];
      }
      cursor := cursor + valueLength;
      i := i + 1;
    }
    ScanEnd(b, cursor, nameKey, extensionName);
    ScanEnd(b, cursor, metadataKey, extensionMetadata);
  }

  /** The pairs so far, and those still ahead of the cursor. */
  ghost predicate Listed(b: seq<Byte>, cursor: nat, n: nat, entries: seq<Pair>)
    requires Extent(b).Success? && Extent(b).value <= |b|
  {
    && PairsEnd(b, cursor, n).Success? && PairsEnd(b, cursor, n).value <= |b|
    && Pairs(b) == entries + PairsAt(b, cursor, n)
  }

  lemma ListStart(b: seq<Byte>)
    requires Extent(b).Success? && Extent(b).value <= |b|
    ensures |b| >= 4 && 0 <= Int32At(b, 0) && Listed(b, 4, Int32At(b, 0), [])
  {
    assert [] + Pairs(b) == Pairs(b);
  }

  lemma ListStep(b: seq<Byte>, cursor: nat, n: nat, entries: seq<Pair>)
    requires Extent(b).Success? && Extent(b).value <= |b| && n > 0 && Listed(b, cursor, n, entries)
    ensures PairEnd(b, cursor).Success? && PairEnd(b, cursor).value <= |b|
    ensures Listed(b, PairEnd(b, cursor).value, n - 1, entries + [PairAt(b, cursor)])
  {
    PairsStep(b, cursor, n);
    var rest := PairsAt(b, PairEnd(b, cursor).value, n - 1);
    assert entries + ([PairAt(b, cursor)] + rest) == entries + [PairAt(b, cursor)] + rest;
  }

  lemma ListEnd(b: seq<Byte>, cursor: nat, entries: seq<Pair>)
    requires Extent(b).Success? && Extent(b).value <= |b| && Listed(b, cursor, 0, entries)
    ensures entries == Pairs(b)
  {}

  /** The metadata part of `schema_to_array`: one walk that lists every pair, duplicates and
      NUL bytes kept. Every slice is inside the buffer. */
  method MetadataEntries(b: seq<Byte>) returns (entries: seq<Pair>)
    requires Extent(b).Success? && Extent(b).value <= |b|
    ensures entries == Pairs(b)
  {
    hide *;
    entries := [];
    ListStart(b);
    var count := Int32At(b, 0);
    var offset: nat := 4;
    for i := 0 to count
      invariant Listed(b, offset, count - i, entries)
    {
      ListStep(b, offset, count - i, entries);
      ghost var k, v := CursorReadsPair(b, offset);
      var parts: seq<seq<Byte>> := [];
      ghost var start := offset;
      for part := 0 to 2
        invariant |parts| == part
        invariant offset == start + (if part == 0 then 0 else if part == 1 then 4 + k else 8 + k + v)
        invariant part > 0 ==> parts[0] == b[start + 4..start + 4 + k]
        invariant part > 1 ==> parts[1] == b[start + 8 + k..start + 8 + k + v]
      {
        var length := Int32At(b, offset);
        offset := offset + 4;
        parts := parts + [b[offset..offset + length]];
        offset := offset + length;
      }
      entries := entries + [Pair(parts[0], parts[1])];
    }
    ListEnd(b, offset, entries);
  }
}
