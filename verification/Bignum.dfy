/**
 `duckdb_decode_bignum`: a BIGNUM cell is a 3-byte header (sign bit and 23-bit payload
 length) and a big-endian magnitude, all of it ones-complemented when negative. The decoder
 converts base 2^32 to base 10^9 in place and prints the limbs backwards.
 */
module Bignum {
  import opened Wrappers
  import DecimalText
  import opened Integers
  import opened Limbs

  const HEADER_SIZE: nat := 3
  const MAXIMUM_PAYLOAD: nat := 8388607

  datatype BignumError = UnsupportedFormat | NoVectorData | InvalidLength | NoCellData | InvalidHeader | TextTooLong

  function MagnitudeByte(negative: bool, b: uint8): uint8 {
    if negative then 255 - b else b
  }

  function Negative(cell: seq<uint8>): bool
    requires |cell| > HEADER_SIZE
  {
    cell[0] < 0x80
  }

  /** The 23-bit length in the header. */
  function Declared(cell: seq<uint8>): nat
    requires |cell| > HEADER_SIZE
  {
    var neg := Negative(cell);
    MagnitudeByte(neg, cell[0]) as nat % 0x80 * 0x1_0000 + MagnitudeByte(neg, cell[1]) as nat * 0x100
      + MagnitudeByte(neg, cell[2]) as nat
  }

  /** The magnitude's big-endian bytes. */
  function Magnitude(cell: seq<uint8>): (m: seq<uint8>)
    requires |cell| > HEADER_SIZE
    ensures |m| == |cell| - HEADER_SIZE
  {
    seq(|cell| - HEADER_SIZE, k requires 0 <= k < |cell| - HEADER_SIZE =>
      MagnitudeByte(Negative(cell), cell[HEADER_SIZE + k]))
  }

  function Check(cell: seq<uint8>): Option<BignumError> {
    if |cell| <= HEADER_SIZE || |cell| - HEADER_SIZE > MAXIMUM_PAYLOAD then Some(InvalidLength)
    else
      var payload, first := |cell| - HEADER_SIZE, MagnitudeByte(Negative(cell), cell[3]);
      if Declared(cell) != payload || (payload > 1 && first == 0) || (Negative(cell) && payload == 1 && first == 0)
      then Some(InvalidHeader) else None
  }

  /** The integer that a cell stores. */
  ghost function CellValue(cell: seq<uint8>): int
    requires |cell| > HEADER_SIZE
  {
    if Negative(cell) then -(BigEndian(Magnitude(cell)) as int) else BigEndian(Magnitude(cell))
  }

  /** One sweep: multiply the limbs by 2^32 and add a word; `hi` is what is left to push. */
  method MultiplyAdd(digits: array<uint32>, count: nat, word: uint32) returns (hi: uint32)
    requires count <= digits.Length && LimbsInRange(digits[..], count)
    modifies digits
    ensures LimbsInRange(digits[..], count)
    ensures Value(digits[..], count) + hi as nat * Pow(BASE, count)
        == old(Value(digits[..], count)) * WORD + word as nat
    ensures count > 0 && old(digits[count - 1]) > 0 ==> hi > 0
  {
    hi := word;
    ghost var before := digits[..];
    for j := 0 to count
      invariant forall k :: 0 <= k < j ==> digits[k] as nat < BASE
      invariant forall k :: j <= k < digits.Length ==> digits[k] == before[k]
      invariant Value(digits[..], j) + hi as nat * Pow(BASE, j) == Value(before, j) * WORD + word as nat
      invariant j > 0 && before[j - 1] > 0 ==> hi > 0
    {
      ghost var previous, hiBefore := digits[..], hi as nat;
      var tmp: uint64 := digits[j] as uint64 * 0x1_0000_0000 + hi as uint64;
      QuotientFits(digits[j] as nat, hi as nat);
      hi := (tmp / 1_000_000_000) as uint32;
      digits[j] := (tmp - 1_000_000_000 * hi as uint64) as uint32;
      ValueDependsOnPrefix(previous, digits[..], j);
      SweepStep(Value(previous, j), Value(before, j), word as nat, Pow(BASE, j),
                before[j] as nat, hiBefore, digits[j] as nat, hi as nat);
    }
  }

  lemma QuotientFits(digit: nat, hi: nat)
    requires digit < BASE && hi < WORD
    ensures var tmp := digit * WORD + hi;
            tmp < 0x1_0000_0000_0000_0000 && tmp / BASE < WORD && (digit > 0 ==> tmp / BASE > 0)
  {
  }

  lemma SweepStep(done: nat, old_: nat, word: nat, p: nat, digit: nat, hi: nat, digit': nat, hi': nat)
    requires done + hi * p == old_ * WORD + word
    requires digit * WORD + hi == hi' * BASE + digit'
    ensures done + digit' * p + hi' * (BASE * p) == (old_ + digit * p) * WORD + word
  {
    MulAssociates(hi', BASE, p);
    MulDistributes(hi' * BASE, digit', p);
    MulDistributes(digit * WORD, hi, p);
    assert digit * WORD * p == digit * p * WORD;
    MulDistributes(old_, digit * p, WORD);
  }

  /** The reserved capacity holds one more limb whenever the number needs one. */
  lemma LimbFits(count: nat, total: nat, payload: nat)
    requires Pow(BASE, count) <= total < Pow(256, payload)
    ensures count < (payload * 8 + 28) / 29
  {
    TwoToThe29(count);
    TwoToThe8(payload);
    PowOrder(2, 29 * count, 8 * payload);
  }

  lemma {:induction false} TwoToThe29(count: nat)
    ensures Pow(2, 29 * count) <= Pow(BASE, count)
  {
    if count > 0 {
      TwoToThe29(count - 1);
      PowAdd(2, 29, 29 * (count - 1));
      SmallPowers();
      var a, b := Pow(2, 29 * (count - 1)), Pow(BASE, count - 1);
      assert Pow(2, 29) * a <= BASE * b by {
        assert BASE * (b - a) >= 0;
        assert (BASE - Pow(2, 29)) * a >= 0;
      }
    }
  }

  lemma {:induction false} TwoToThe8(payload: nat)
    ensures Pow(2, 8 * payload) == Pow(256, payload)
  {
    if payload > 0 {
      TwoToThe8(payload - 1);
      PowAdd(2, 8, 8 * (payload - 1));
      SmallPowers();
    }
  }

  lemma SmallPowers()
    ensures Pow(2, 8) == 256 && Pow(2, 29) == 536870912
  {
    assert Pow(2, 4) == 16;
    PowAdd(2, 4, 4);
    PowAdd(2, 8, 8);
    PowAdd(2, 16, 8);
    PowAdd(2, 24, 4);
    PowAdd(2, 28, 1);
  }

  /** Push what a sweep left over, never past the reserved capacity. */
  method PushHigh(digits: array<uint32>, count: nat, high: uint32, ghost total: nat, ghost payload: nat)
      returns (n: nat)
    requires count <= digits.Length == (payload * 8 + 28) / 29
    requires LimbsInRange(digits[..], count)
    requires Value(digits[..], count) + high as nat * Pow(BASE, count) == total < Pow(256, payload)
    requires high == 0 ==> count == 0 || digits[count - 1] > 0
    modifies digits
    ensures n <= digits.Length && LimbsInRange(digits[..], n) && Value(digits[..], n) == total
    ensures n > 0 ==> digits[n - 1] > 0
  {
    hide Value, Pow;
    n := count;
    var hi := high;
    while hi != 0
      invariant n <= digits.Length && LimbsInRange(digits[..], n)
      invariant Value(digits[..], n) + hi as nat * Pow(BASE, n) == total
      invariant hi == 0 ==> n == 0 || digits[n - 1] > 0
    {
      ghost var previous, h := digits[..], hi as nat;
      RoomForOne(Value(previous, n), h, n, total, payload);
      digits[n] := hi % 1_000_000_000;
      hi := hi / 1_000_000_000;
      PushStep(previous, digits[..], n, hi as nat, h);
      n := n + 1;
    }
  }

  lemma RoomForOne(value: nat, high: nat, n: nat, total: nat, payload: nat)
    requires high > 0 && value + high * Pow(BASE, n) == total < Pow(256, payload)
    ensures n < (payload * 8 + 28) / 29
  {
    MulGrows(Pow(BASE, n), high);
    LimbFits(n, total, payload);
  }

  lemma PushStep(previous: seq<uint32>, limbs: seq<uint32>, n: nat, rest: nat, high: nat)
    requires n < |limbs| == |previous| && limbs[..n] == previous[..n]
    requires high == rest * BASE + limbs[n] as nat
    ensures Value(limbs, n + 1) + rest * Pow(BASE, n + 1) == Value(previous, n) + high * Pow(BASE, n)
  {
    var p := Pow(BASE, n);
    ValueDependsOnPrefix(previous, limbs, n);
    MulAssociates(rest, BASE, p);
    MulDistributes(rest * BASE, limbs[n] as nat, p);
  }

  /** The magnitude behind enough leading zero bytes to make whole words. */
  ghost function PaddedMagnitude(cell: seq<uint8>, padding: nat): (p: seq<uint8>)
    requires |cell| > HEADER_SIZE
    ensures |p| == padding + |cell| - HEADER_SIZE
  {
    seq(padding, _ => 0 as uint8) + Magnitude(cell)
  }

  lemma {:induction false} ZerosAreWorthless(n: nat, bytes: seq<uint8>)
    ensures BigEndian(seq(n, _ => 0 as uint8) + bytes) == BigEndian(bytes)
    decreases n
  {
    var zeros := seq(n, _ => 0 as uint8);
    if n == 0 {
      assert zeros + bytes == bytes;
    } else {
      var fewer := seq(n - 1, _ => 0 as uint8);
      assert zeros == fewer + [0];
      assert BigEndian(zeros) == 0 by {
        BigEndianPush(fewer, 0);
        ZerosAreWorthless(n - 1, []);
        assert fewer + [] == fewer;
      }
      BigEndianAppend(zeros, bytes);
    }
  }

  function ByteShift(j: nat): uint32
    requires j < 4
  {
    match j
    case 0 => 0x100_0000
    case 1 => 0x1_0000
    case 2 => 0x100
    case 3 => 1
  }

  /** The big-endian word at `i` of the padded magnitude. The source ORs each byte in; the
      bits it sets are still clear, so adding is the same. */
  method ReadWord(cell: seq<uint8>, padding: nat, i: nat) returns (hi: uint32)
    requires |cell| > HEADER_SIZE && i + 4 <= padding + |cell| - HEADER_SIZE
    ensures hi as nat == BigEndian(PaddedMagnitude(cell, padding)[i..i + 4])
  {
    hide BigEndian, Pow, PaddedMagnitude, Magnitude, ByteShift, MagnitudeByte, Negative;
    ghost var padded := PaddedMagnitude(cell, padding);
    hi := 0;
    WordEnds(padded[i..i]);
    for j := 0 to 4
      invariant hi as nat == BigEndian(padded[i..i + j]) * Pow(256, 4 - j)
    {
      var offset := i + j;
      PaddedByte(cell, padding, offset);
      WordStep(padded[i..offset], padded[offset], j);
      assert padded[i..offset] + [padded[offset]] == padded[i..offset + 1];
      if offset >= padding {
        hi := hi + MagnitudeByte(Negative(cell), cell[HEADER_SIZE + offset - padding]) as uint32 * ByteShift(j);
      }
    }
  }

  lemma PaddedByte(cell: seq<uint8>, padding: nat, offset: nat)
    requires |cell| > HEADER_SIZE && offset < padding + |cell| - HEADER_SIZE
    ensures PaddedMagnitude(cell, padding)[offset] ==
              if offset < padding then 0 else MagnitudeByte(Negative(cell), cell[HEADER_SIZE + offset - padding])
  {
  }

  lemma WordEnds(none: seq<uint8>)
    requires none == []
    ensures BigEndian(none) == 0 && Pow(256, 0) == 1
  {
  }

  lemma WordStep(bytes: seq<uint8>, b: uint8, j: nat)
    requires |bytes| == j < 4
    ensures BigEndian(bytes + [b]) * Pow(256, 3 - j)
        == BigEndian(bytes) * Pow(256, 4 - j) + b as nat * ByteShift(j) as nat < WORD
  {
    var v, p := BigEndian(bytes), Pow(256, 3 - j);
    assert Pow(256, 1) == 256 && Pow(256, 2) == 0x1_0000 && Pow(256, 3) == 0x100_0000 && Pow(256, 4) == WORD;
    BigEndianPush(bytes, b);
    BigEndianBound(bytes + [b]);
    MulDistributes(256 * v, b as nat, p);
    MulAssociates(v, 256, p);
    PowAdd(256, j + 1, 3 - j);
    var whole, top := BigEndian(bytes + [b]), Pow(256, j + 1);
    MulDistributes(top - whole, whole, p);
    MulGrows(p, top - whole);
  }

  /** The conversion loop: limbs of the whole magnitude, inside the reserved capacity. */
  method ConvertMagnitude(cell: seq<uint8>) returns (digits: array<uint32>, count: nat)
    requires |cell| > HEADER_SIZE
    ensures fresh(digits) && digits.Length == ((|cell| - HEADER_SIZE) * 8 + 28) / 29
    ensures 0 < count <= digits.Length && LimbsInRange(digits[..], count)
    ensures count > 1 ==> digits[count - 1] > 0
    ensures Value(digits[..], count) == BigEndian(Magnitude(cell))
  {
    hide BigEndian, Pow, Value, Magnitude, PaddedMagnitude, WordAligned;
    var payload := |cell| - HEADER_SIZE;
    var padding := (4 - payload % 4) % 4;
    var paddedSize := payload + padding;
    WholeWords(payload, padding);
    ghost var padded := PaddedMagnitude(cell, padding);
    digits := new uint32[(payload * 8 + 28) / 29](_ => 0);
    count := 0;
    var i := 0;
    PrefixStart(cell, padding);
    NoLimbs(digits[..]);
    while i < paddedSize
      invariant 0 <= i <= paddedSize && WordAligned(i)
      invariant 0 <= count <= digits.Length && LimbsInRange(digits[..], count)
      invariant count > 0 ==> digits[count - 1] > 0
      invariant Value(digits[..], count) == BigEndian(padded[..i])
    {
      NextWord(i, paddedSize);
      var hi := ReadWord(cell, padding, i);
      PrefixStep(cell, padding, i);
      hi := MultiplyAdd(digits, count, hi);
      count := PushHigh(digits, count, hi, BigEndian(padded[..i + 4]), payload);
      i := i + 4;
    }
    PrefixEnd(cell, padding);
    assert padded[..i] == padded;
    NoLimbs(digits[..]);
    if count == 0 {
      digits[0] := 0;
      count := 1;
      NoLimbs(digits[..]);
    }
  }

  predicate WordAligned(n: nat) {
    n % 4 == 0
  }

  lemma WholeWords(payload: nat, padding: nat)
    requires payload > 0 && padding == (4 - payload % 4) % 4
    ensures WordAligned(0) && WordAligned(payload + padding)
    ensures (payload * 8 + 28) / 29 > 0
  {
  }

  lemma NextWord(i: nat, size: nat)
    requires WordAligned(i) && WordAligned(size) && i < size
    ensures i + 4 <= size && WordAligned(i + 4)
  {
  }

  lemma NoLimbs(limbs: seq<uint32>)
    ensures Value(limbs, 0) == 0
    ensures |limbs| > 0 && limbs[0] == 0 ==> Value(limbs, 1) == 0
  {
  }

  lemma PrefixStart(cell: seq<uint8>, padding: nat)
    requires |cell| > HEADER_SIZE
    ensures BigEndian(PaddedMagnitude(cell, padding)[..0]) == 0
  {
  }

  lemma PrefixEnd(cell: seq<uint8>, padding: nat)
    requires |cell| > HEADER_SIZE
    ensures BigEndian(PaddedMagnitude(cell, padding)) == BigEndian(Magnitude(cell))
  {
    ZerosAreWorthless(padding, Magnitude(cell));
  }

  lemma PrefixStep(cell: seq<uint8>, padding: nat, i: nat)
    requires |cell| > HEADER_SIZE && padding < 4 && i + 4 <= padding + |cell| - HEADER_SIZE
    ensures var padded := PaddedMagnitude(cell, padding);
            && BigEndian(padded[..i + 4]) == BigEndian(padded[..i]) * WORD + BigEndian(padded[i..i + 4])
            && BigEndian(padded[..i + 4]) < Pow(256, |cell| - HEADER_SIZE)
  {
    var padded := PaddedMagnitude(cell, padding);
    PrefixBound(cell, padding, i + 4);
    hide BigEndian, PaddedMagnitude, Magnitude;
    assert padded[..i + 4] == padded[..i] + padded[i..i + 4];
    BigEndianAppend(padded[..i], padded[i..i + 4]);
    assert Pow(256, 4) == WORD;
  }

  lemma PrefixBound(cell: seq<uint8>, padding: nat, n: nat)
    requires |cell| > HEADER_SIZE && padding <= n <= padding + |cell| - HEADER_SIZE
    ensures BigEndian(PaddedMagnitude(cell, padding)[..n]) < Pow(256, |cell| - HEADER_SIZE)
  {
    var m, taken := Magnitude(cell), n - padding;
    assert PaddedMagnitude(cell, padding)[..n] == seq(padding, _ => 0 as uint8) + m[..taken];
    hide BigEndian, Pow;
    ZerosAreWorthless(padding, m[..taken]);
    BigEndianBound(m[..taken]);
    PowOrder(256, taken, |m|);
    PowOrder(256, |m|, taken);
  }

  function Sign(negative: bool): string {
    if negative then "-" else ""
  }

  /** How many digits the top limb prints. */
  method CountDigits(limb: uint32) returns (n: nat)
    ensures n == |DecimalText.Decimal(limb as nat)| <= 10
  {
    n := 1;
    var top := limb;
    while top >= 10
      invariant n - 1 + |DecimalText.Decimal(top as nat)| == |DecimalText.Decimal(limb as nat)|
    {
      top := top / 10;
      n := n + 1;
    }
    DecimalLength(limb as nat, 10);
  }

  lemma {:induction false} DecimalLength(n: nat, width: nat)
    requires n < DecimalText.Pow10(width) && width > 0
    ensures |DecimalText.Decimal(n)| <= width
  {
    if n >= 10 {
      DecimalLength(n / 10, width - 1);
    }
  }
}
