/**
 Arrow validity bitmaps (Arrow Columnar Format, section "Validity bitmaps"): row `r`
 is bit `r % 8` of byte `r / 8`, least significant bit first; a set bit means valid.
 */
module Bitmaps {
  /** `1U << k` on a byte. */
  function Mask(k: nat): bv8
    requires k < 8
  {
    match k
    case 0 => 1
    case 1 => 2
    case 2 => 4
    case 3 => 8
    case 4 => 16
    case 5 => 32
    case 6 => 64
    case 7 => 128
  }

  /** `(b & (1U << k)) != 0` */
  predicate HasBit(b: bv8, k: nat)
    requires k < 8
  {
    b & Mask(k) != 0
  }

  /** `b | (1U << k)` */
  function OrBit(b: bv8, k: nat): bv8
    requires k < 8
  {
    b | Mask(k)
  }

  lemma MasksAreDistinctBits(j: nat, k: nat)
    requires j < 8 && k < 8
    ensures Mask(k) & Mask(j) == (if j == k then Mask(k) else 0)
    ensures Mask(k) != 0
  {
  }

  lemma AndOverOr(b: bv8, m: bv8, n: bv8)
    ensures (b | m) & n == (b & n) | (m & n)
    ensures b | 0 == b
    ensures m != 0 ==> (b | m) != 0
  {
  }

  lemma OrBitSetsOnly(b: bv8, j: nat, k: nat)
    requires j < 8 && k < 8
    ensures HasBit(OrBit(b, k), j) <==> j == k || HasBit(b, j)
  {
    var m, n := Mask(k), Mask(j);
    MasksAreDistinctBits(j, k);
    hide Mask;
    AndOverOr(b, m, n);
    AndOverOr(b & n, m, n);
  }

  /** Whether row `row` is set; rows past the buffer read as clear. */
  predicate BitAt(bytes: seq<bv8>, row: nat) {
    row / 8 < |bytes| && HasBit(bytes[row / 8], row % 8)
  }

  lemma ShiftsFindTheBit(b: bv8, k: nat)
    requires k < 8
    ensures HasBit(b, k) <==> (b >> k) & 1 == 1
  {
    match k
    case 0 =>
    case 1 =>
    case 2 =>
    case 3 =>
    case 4 =>
    case 5 =>
    case 6 =>
    case 7 =>
  }

  /** Row `r` is the bit at the place `r % 8`, counted from the least significant, of byte `r / 8`. */
  lemma RowsAreLeastSignificantFirst(bytes: seq<bv8>, row: nat)
    ensures BitAt(bytes, row) <==> row < 8 * |bytes| && (bytes[row / 8] >> (row % 8)) & 1 == 1
  {
    if row < 8 * |bytes| {
      ShiftsFindTheBit(bytes[row / 8], row % 8);
    }
  }

  function BytesFor(bits: nat): nat {
    (bits + 7) / 8
  }

  function WithBit(bytes: seq<bv8>, row: nat): seq<bv8>
    requires row / 8 < |bytes|
  {
    bytes[row / 8 := OrBit(bytes[row / 8], row % 8)]
  }

  lemma WithBitSetsOnly(bytes: seq<bv8>, row: nat, other: nat)
    requires row / 8 < |bytes|
    ensures BitAt(WithBit(bytes, row), other) <==> other == row || BitAt(bytes, other)
  {
    OrBitSetsOnly(bytes[row / 8], other % 8, row % 8);
  }

  /** A bitmap of `size` bytes whose first `rows` rows are those of `source` from row `from`. */
  ghost function Rebased(source: seq<bv8>, from: nat, size: nat, rows: nat): (r: seq<bv8>)
    requires BytesFor(rows) <= size
    ensures |r| == size
  {
    if rows == 0 then
      seq(size, _ => 0)
    else
      var before := Rebased(source, from, size, rows - 1);
      if BitAt(source, from + rows - 1) then WithBit(before, rows - 1) else before
  }

  lemma {:induction false} RebasedBits(source: seq<bv8>, from: nat, size: nat, rows: nat, row: nat)
    requires BytesFor(rows) <= size
    ensures BitAt(Rebased(source, from, size, rows), row) <==> row < rows && BitAt(source, from + row)
  {
    if rows == 0 {
      assert row / 8 < size ==> (0 as bv8) & Mask(row % 8) == 0;
    } else {
      RebasedBits(source, from, size, rows - 1, row);
      if BitAt(source, from + rows - 1) {
          WithBitSetsOnly(Rebased(source, from, size, rows - 1), rows - 1, row);
      }
    }
  }

  /** How many of the `rows` rows from `from` are null. */
  ghost function Nulls(source: seq<bv8>, from: nat, rows: nat): (n: nat)
    ensures n <= rows
  {
    if rows == 0 then 0
    else Nulls(source, from, rows - 1) + (if BitAt(source, from + rows - 1) then 0 else 1)
  }

  lemma {:induction false} NoNullsMeansAllSet(source: seq<bv8>, from: nat, rows: nat)
    ensures Nulls(source, from, rows) == 0 <==> forall row :: from <= row < from + rows ==> BitAt(source, row)
  {
    if rows > 0 {
      NoNullsMeansAllSet(source, from, rows - 1);
      var last := from + rows - 1;
      assert BitAt(source, last) || !BitAt(source, last);
    }
  }

  /** It is the number of clear rows in the slice. */
  lemma {:induction false} NullsAreTheClearRows(source: seq<bv8>, from: nat, rows: nat)
    ensures Nulls(source, from, rows) == |ClearRows(source, from, rows)|
  {
    if rows > 0 {
      NullsAreTheClearRows(source, from, rows - 1);
      ClearRowsStep(source, from, rows);
      hide ClearRows, BitAt;
    }
  }

  function ClearRows(source: seq<bv8>, from: nat, rows: nat): set<nat> {
    set row: nat | from <= row < from + rows && !BitAt(source, row)
  }

  lemma ClearRowsStep(source: seq<bv8>, from: nat, rows: nat)
    requires rows > 0
    ensures var last, before := from + rows - 1, ClearRows(source, from, rows - 1);
      ClearRows(source, from, rows) == (if BitAt(source, last) then before else before + {last}) && last !in before
  {
    hide BitAt;
  }

  /** The row loop of the struct branch: OR the slice's bits into a zeroed, padded
      bitmap and count the nulls. */
  method RebaseBitmap(source: seq<bv8>, from: nat, length: nat) returns (validity: array<bv8>, nulls: nat)
    requires BytesFor(from + length) <= |source|
    ensures fresh(validity)
    ensures validity[..] == Rebased(source, from, BytesFor(length) + 1, length)
    ensures nulls == Nulls(source, from, length)
  {
    hide HasBit, OrBit;
    validity := new bv8[(length + 7) / 8 + 1](_ => 0);
    nulls := 0;
    assert validity[..] == Rebased(source, from, BytesFor(length) + 1, 0);
    for row := 0 to length
      invariant validity[..] == Rebased(source, from, BytesFor(length) + 1, row)
      invariant nulls == Nulls(source, from, row)
    {
      var sourceRow := from + row;
      if HasBit(source[sourceRow / 8], sourceRow % 8) {
        validity[row / 8] := OrBit(validity[row / 8], row % 8);
      } else {
        nulls := nulls + 1;
      }
    }
  }

  /** The copy of the other branch: the producer's bytes that cover `bits` rows, and one
      zero byte of padding. */
  ghost function Padded(source: seq<bv8>, bits: nat): seq<bv8>
    requires BytesFor(bits) <= |source|
  {
    source[..BytesFor(bits)] + [0]
  }

  method PadBitmap(source: seq<bv8>, bits: nat) returns (validity: array<bv8>)
    requires BytesFor(bits) <= |source|
    ensures fresh(validity)
    ensures validity[..] == Padded(source, bits)
  {
    var bitmapBytes := bits / 8;
    if bits % 8 != 0 {
      bitmapBytes := bitmapBytes + 1;
    }
    validity := new bv8[bitmapBytes + 1](_ => 0);
    forall k | 0 <= k < bitmapBytes {
      validity[k] := source[k];
    }
    assert validity[..] == Padded(source, bits);
  }

  lemma PaddedBits(source: seq<bv8>, bits: nat, row: nat)
    requires BytesFor(bits) <= |source| && row < bits
    ensures BitAt(Padded(source, bits), row) <==> BitAt(source, row)
  {
    assert row / 8 < BytesFor(bits);
  }

  /** DuckDB copies ceil(n / 8) + 1 bytes from byte `first / 8` for a window of `n` rows:
      one spare byte is enough for every window, however it is aligned. */
  lemma WindowFitsPadding(first: nat, n: nat, bits: nat)
    requires first + n <= bits
    ensures first / 8 + BytesFor(n) + 1 <= BytesFor(bits) + 1
  {
  }
}
