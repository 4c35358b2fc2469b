/**
 The second half of `duckdb_decode_bignum`: the output buffer is allocated at its exact
 length and filled from its end, and the fill ends at position 0.
 */
module BignumText {
  import opened Wrappers
  import opened DecimalText
  import opened Integers
  import opened Limbs
  import opened Bignum

  /** Nine digits of one lower limb, written below `end`. */
  method FillLimb(buffer: array<char>, end: nat, limb: uint32) returns (position: nat)
    requires 9 <= end <= buffer.Length
    modifies buffer
    ensures position == end - 9
    ensures buffer[position..] == Padded(limb as nat, 9) + old(buffer[end..])
  {
    position := end;
    var remain := limb;
    for j := 0 to 9
      invariant position == end - j
      invariant Padded(limb as nat, 9) + old(buffer[end..]) == Padded(remain as nat, 9 - j) + buffer[position..]
    {
      ghost var text := buffer[position..];
      position := position - 1;
      buffer[position] := Digit((remain % 10) as nat);
      remain := remain / 10;
      assert buffer[position..] == [buffer[position]] + text;
    }
  }

  lemma DecimalStep(n: nat)
    ensures Decimal(n) == (if n / 10 != 0 then Decimal(n / 10) else "") + [Digit(n % 10)]
  {
  }

  lemma Regrouped(a: string, b: string, c: string)
    ensures (a + b) + c == a + (b + c)
  {}

  /** The digits of the top limb, written below `end`; the loop runs at least once. */
  method FillTop(buffer: array<char>, end: nat, limb: uint32) returns (position: nat)
    requires |Decimal(limb as nat)| <= end <= buffer.Length
    modifies buffer
    ensures position == end - |Decimal(limb as nat)|
    ensures buffer[position..] == Decimal(limb as nat) + old(buffer[end..])
  {
    hide Decimal;
    position := end;
    var remain := limb;
    var first := true;
    while first || remain != 0
      invariant position <= end
      invariant Decimal(limb as nat) + old(buffer[end..])
             == (if first || remain != 0 then Decimal(remain as nat) else "") + buffer[position..]
      decreases first, remain
    {
      ghost var text := buffer[position..];
      assert |Decimal(limb as nat)| == |Decimal(remain as nat)| + (end - position);
      DecimalStep(remain as nat);
      first := false;
      position := position - 1;
      buffer[position] := Digit((remain % 10) as nat);
      remain := remain / 10;
      assert buffer[position..] == [buffer[position]] + text;
      Regrouped(if remain != 0 then Decimal(remain as nat) else "", [buffer[position]], text);
    }
  }

  /** Print `count` limbs into a buffer of exactly their length; `None` when PHP could not
      allocate it (`zstrMaxLen` is PHP's longest string). */
  method PrintLimbs(digits: array<uint32>, count: nat, negative: bool, zstrMaxLen: nat) returns (r: Option<string>)
    requires 0 < count <= digits.Length && LimbsInRange(digits[..], count)
    requires count > 1 ==> digits[count - 1] > 0
    requires zstrMaxLen >= 11
    ensures var text := Sign(negative) + Decimal(Value(digits[..], count));
            r == if |text| > zstrMaxLen then None else Some(text)
  {
    ghost var limbs := digits[..];
    LimbsPrint(limbs, count);
    LowTextLength(limbs, count - 1);
    hide Decimal, Value, Padded, LowText, LimbsInRange;
    var leadingDigits := CountDigits(digits[count - 1]);
    var prefix := leadingDigits + if negative then 1 else 0;
    CapacityTest(count - 1, prefix, zstrMaxLen);
    if count - 1 > (zstrMaxLen - prefix) / 9 {
      return None;
    }
    var outputLength := (count - 1) * 9 + prefix;
    var text := FillText(digits, count, negative, outputLength);
    assert Sign(negative) + (Decimal(limbs[count - 1] as nat) + LowText(limbs, count - 1)) == text;
    r := Some(text);
  }

  /** Fill a buffer of `outputLength` characters from its end down to position 0. */
  method FillText(digits: array<uint32>, count: nat, negative: bool, outputLength: nat) returns (text: string)
    requires 0 < count <= digits.Length
    requires outputLength == |Sign(negative)| + |Decimal(digits[count - 1] as nat)| + 9 * (count - 1)
    ensures text == Sign(negative) + Decimal(digits[count - 1] as nat) + LowText(digits[..], count - 1)
  {
    ghost var limbs := digits[..];
    hide Decimal, Padded, LowText;
    var buffer := new char[outputLength];
    var position := FillLower(digits, count, buffer);
    position := FillTop(buffer, position, digits[count - 1]);
    position := FillSign(buffer, position, negative);
    TextOf(Sign(negative), Decimal(digits[count - 1] as nat), LowText(limbs, count - 1), buffer[..]);
    text := buffer[..];
  }

  /** The lower limbs, from the end of the buffer down. */
  method FillLower(digits: array<uint32>, count: nat, buffer: array<char>) returns (position: nat)
    requires 0 < count <= digits.Length && 9 * (count - 1) <= buffer.Length
    modifies buffer
    ensures position == buffer.Length - 9 * (count - 1)
    ensures buffer[position..] == LowText(digits[..], count - 1)
  {
    ghost var limbs := digits[..];
    hide Padded, LowText;
    position := buffer.Length;
    NoLowText(limbs);
    var i := 0;
    while i < count - 1
      invariant 0 <= i <= count - 1
      invariant position == buffer.Length - 9 * i
      invariant buffer[position..] == LowText(limbs, i)
    {
      position := FillLimb(buffer, position, digits[i]);
      LowTextStep(limbs, i);
      i := i + 1;
    }
  }

  method FillSign(buffer: array<char>, end: nat, negative: bool) returns (position: nat)
    requires |Sign(negative)| <= end <= buffer.Length
    modifies buffer
    ensures position == end - |Sign(negative)|
    ensures buffer[position..] == Sign(negative) + old(buffer[end..])
  {
    position := end;
    if negative {
      position := position - 1;
      buffer[position] := '-';
      assert buffer[position..] == [buffer[position]] + buffer[end..];
    }
  }

  lemma TextOf(sign: string, top: string, low: string, text: string)
    requires text == sign + (top + low)
    ensures text == sign + top + low
  {}

  lemma CapacityTest(limbs: nat, prefix: nat, longest: nat)
    requires prefix <= longest
    ensures limbs > (longest - prefix) / 9 <==> limbs * 9 + prefix > longest
  {
  }

  lemma NoLowText(limbs: seq<uint32>)
    ensures LowText(limbs, 0) == ""
  {
  }

  lemma LowTextStep(limbs: seq<uint32>, n: nat)
    requires n < |limbs|
    ensures LowText(limbs, n + 1) == Padded(limbs[n] as nat, 9) + LowText(limbs, n)
  {
  }

  /**
   `duckdb_decode_bignum`. `supportedFormat` is the cached runtime gate, `cell` the stored
   bytes of the row: absent when the vector has no data, and holding no bytes when the
   string has none.
   */
  method DecodeBignum(supportedFormat: bool, cell: Option<Option<seq<uint8>>>, length: nat, zstrMaxLen: nat)
    returns (r: Result<string, BignumError>)
    requires zstrMaxLen >= 11
    requires cell.Some? && cell.value.Some? ==> |cell.value.value| == length
    ensures r ==
      if !supportedFormat then Failure(UnsupportedFormat)
      else if cell.None? then Failure(NoVectorData)
      else if length <= HEADER_SIZE || length - HEADER_SIZE > MAXIMUM_PAYLOAD then Failure(InvalidLength)
      else if cell.value.None? then Failure(NoCellData)
      else if Check(cell.value.value).Some? then Failure(Check(cell.value.value).value)
      else if |SignedDecimal(CellValue(cell.value.value))| > zstrMaxLen then Failure(TextTooLong)
      else Success(SignedDecimal(CellValue(cell.value.value)))
  {
    if !supportedFormat {
      return Failure(UnsupportedFormat);
    }
    if cell.None? {
      return Failure(NoVectorData);
    }
    if length <= HEADER_SIZE || length - HEADER_SIZE > MAXIMUM_PAYLOAD {
      return Failure(InvalidLength);
    }
    if cell.value.None? {
      return Failure(NoCellData);
    }
    var data := cell.value.value;
    var negative := data[0] < 0x80;
    var payload := length - HEADER_SIZE;
    var first := MagnitudeByte(negative, data[3]);
    if Declared(data) != payload || (payload > 1 && first == 0) || (negative && payload == 1 && first == 0) {
      return Failure(InvalidHeader);
    }
    var digits, count := ConvertMagnitude(data);
    var text := PrintLimbs(digits, count, negative, zstrMaxLen);
    AcceptedSign(data);
    r := if text.None? then Failure(TextTooLong) else Success(text.value);
  }

  /** An accepted negative cell is not zero, so no accepted cell prints as "-0". */
  lemma AcceptedSign(cell: seq<uint8>)
    requires Check(cell).None?
    ensures Negative(cell) ==> BigEndian(Magnitude(cell)) > 0
    ensures SignedDecimal(CellValue(cell)) == Sign(Negative(cell)) + Decimal(BigEndian(Magnitude(cell)))
  {
    if Negative(cell) {
      LeadingByteMatters(Magnitude(cell));
    }
  }

  /** A cell is accepted exactly when its header declares its payload's length and its number is
      canonical: no leading zero byte and no negative zero. No such cell is too long. */
  lemma AcceptedExactly(cell: seq<uint8>)
    requires |cell| > 3
    ensures Check(cell).None? <==>
              var m := Magnitude(cell);
              && Declared(cell) == |cell| - 3
              && (|m| > 1 ==> m[0] != 0) && (Negative(cell) ==> BigEndian(m) != 0)
  {
    var m := Magnitude(cell);
    assert Declared(cell) <= 0x7f * 0x1_0000 + 0xff * 0x100 + 0xff;
    assert m[0] == MagnitudeByte(Negative(cell), cell[3]);
    if m[0] != 0 {
      LeadingByteMatters(m);
    } else if |m| == 1 {
      BigEndianPush([], m[0]);
      assert [] + [m[0]] == m;
    }
  }

  /** The canonical big-endian bytes of `n`. */
  function MinimalBytes(n: nat): (b: seq<uint8>)
    ensures |b| > 0
  {
    if n < 256 then [n as uint8] else MinimalBytes(n / 256) + [(n % 256) as uint8]
  }

  lemma {:induction false} MinimalBytesDenote(n: nat)
    ensures BigEndian(MinimalBytes(n)) == n
    ensures MinimalBytes(n)[0] == 0 ==> n == 0 && |MinimalBytes(n)| == 1
  {
    if n >= 256 {
      MinimalBytesDenote(n / 256);
      BigEndianPush(MinimalBytes(n / 256), (n % 256) as uint8);
    } else {
      BigEndianPush([], n as uint8);
      assert [] + [n as uint8] == [n as uint8];
    }
  }

  function Complement(negative: bool, bytes: seq<uint8>): (c: seq<uint8>)
    ensures |c| == |bytes|
  {
    seq(|bytes|, k requires 0 <= k < |bytes| => MagnitudeByte(negative, bytes[k]))
  }

  function Header(payload: nat): (h: seq<uint8>)
    requires payload <= MAXIMUM_PAYLOAD
    ensures |h| == HEADER_SIZE
  {
    [(0x80 + payload / 0x1_0000) as uint8, (payload / 0x100 % 0x100) as uint8, (payload % 0x100) as uint8]
  }

  /** DuckDB's storage of `v`: the header of a positive number has the top bit set. */
  function EncodeBignum(v: int): seq<uint8>
    requires |MinimalBytes(if v < 0 then -v else v)| <= MAXIMUM_PAYLOAD
  {
    var bytes := MinimalBytes(if v < 0 then -v else v);
    Complement(v < 0, Header(|bytes|) + bytes)
  }

  lemma CellParts(negative: bool, bytes: seq<uint8>)
    requires 0 < |bytes| <= MAXIMUM_PAYLOAD
    ensures var cell := Complement(negative, Header(|bytes|) + bytes);
            && |cell| == HEADER_SIZE + |bytes| && Negative(cell) == negative
            && Declared(cell) == |bytes| && Magnitude(cell) == bytes
            && MagnitudeByte(negative, cell[3]) == bytes[0]
  {
    var h := Header(|bytes|);
    var cell := Complement(negative, h + bytes);
    assert forall k :: 0 <= k < HEADER_SIZE ==> cell[k] == MagnitudeByte(negative, h[k]);
    HeaderReadsBack(negative, |bytes|);
    assert Negative(cell) == negative;
    assert Declared(cell) == |bytes|;
    hide Header;
    forall k | 0 <= k < |bytes| ensures Magnitude(cell)[k] == bytes[k] {
      assert (h + bytes)[HEADER_SIZE + k] == bytes[k];
      assert cell[HEADER_SIZE + k] == MagnitudeByte(negative, bytes[k]);
      assert Magnitude(cell)[k] == MagnitudeByte(negative, cell[HEADER_SIZE + k]);
    }
    assert Magnitude(cell)[0] == bytes[0];
  }

  lemma HeaderReadsBack(negative: bool, payload: nat)
    requires 0 < payload <= MAXIMUM_PAYLOAD
    ensures var h := Header(payload);
            && (MagnitudeByte(negative, h[0]) < 0x80 <==> negative)
            && h[0] as nat % 0x80 * 0x1_0000 + h[1] as nat * 0x100 + h[2] as nat == payload
  {
    assert payload / 0x100 / 0x100 == payload / 0x1_0000;
  }

  /** Every integer whose magnitude fits the header's 23-bit length has an accepted cell. */
  lemma EncodedIsAccepted(v: int)
    requires |MinimalBytes(if v < 0 then -v else v)| <= MAXIMUM_PAYLOAD
    ensures Check(EncodeBignum(v)).None? && CellValue(EncodeBignum(v)) == v
  {
    var n := if v < 0 then -v else v;
    MinimalBytesDenote(n);
    CellParts(v < 0, MinimalBytes(n));
  }

  lemma HeaderDigits(a: nat, b: nat, c: nat)
    requires b < 0x100 && c < 0x100
    ensures var n := a * 0x1_0000 + b * 0x100 + c;
            n / 0x1_0000 == a && n / 0x100 % 0x100 == b && n % 0x100 == c
  {
    var n := a * 0x1_0000 + b * 0x100 + c;
    DivUnique(n, 0x1_0000, a, b * 0x100 + c);
    DivUnique(n, 0x100, a * 0x100 + b, c);
    DivUnique(a * 0x100 + b, 0x100, a, b);
  }

  /** The header of an accepted cell is fixed by its sign and length. */
  lemma AcceptedHeader(cell: seq<uint8>)
    requires Check(cell).None?
    ensures var n := |cell| - HEADER_SIZE;
            var neg := Negative(cell);
            && MagnitudeByte(neg, cell[0]) as nat == 0x80 + n / 0x1_0000
            && MagnitudeByte(neg, cell[1]) as nat == n / 0x100 % 0x100
            && MagnitudeByte(neg, cell[2]) as nat == n % 0x100
  {
    var neg := Negative(cell);
    var top := MagnitudeByte(neg, cell[0]) as nat;
    assert top >= 0x80 && top % 0x80 == top - 0x80;
    HeaderDigits(top - 0x80, MagnitudeByte(neg, cell[1]) as nat, MagnitudeByte(neg, cell[2]) as nat);
  }

  /** Accepted cells that print the same text are byte-identical. */
  lemma SameTextSameCell(a: seq<uint8>, b: seq<uint8>)
    requires Check(a).None? && Check(b).None?
    requires SignedDecimal(CellValue(a)) == SignedDecimal(CellValue(b))
    ensures a == b
  {
    SignedDecimalInjective(CellValue(a), CellValue(b));
    AcceptedSign(a);
    AcceptedSign(b);
    var m, n := Magnitude(a), Magnitude(b);
    SameMagnitude(m, n);
    AcceptedHeader(a);
    AcceptedHeader(b);
    assert Negative(a) == Negative(b) && |a| == |b|;
    assert a[0] == b[0] && a[1] == b[1] && a[2] == b[2];
    forall k | HEADER_SIZE <= k < |a| ensures a[k] == b[k] {
      assert m[k - HEADER_SIZE] == MagnitudeByte(Negative(a), a[k]);
      assert n[k - HEADER_SIZE] == MagnitudeByte(Negative(b), b[k]);
    }
  }

  lemma SameMagnitude(m: seq<uint8>, n: seq<uint8>)
    requires m != [] && n != [] && BigEndian(m) == BigEndian(n)
    requires (|m| > 1 ==> m[0] != 0) && (|n| > 1 ==> n[0] != 0)
    ensures m == n
  {
    BigEndianPush([], m[0]);
    BigEndianPush([], n[0]);
    assert [] + [m[0]] == [m[0]] && [] + [n[0]] == [n[0]];
    if m[0] != 0 { LeadingByteMatters(m); }
    if n[0] != 0 { LeadingByteMatters(n); }
    if m[0] != 0 && n[0] != 0 {
      BigEndianInjective(m, n);
    } else {
      assert m[0] == 0 ==> m == [m[0]];
      assert n[0] == 0 ==> n == [n[0]];
    }
  }
}
