/**
 128-bit integers and DECIMAL values as text: four 32-bit limbs divided in place by 10^9,
 at most five digit groups, and the decimal point inserted by position.
 */
module Decimal128 {
  import opened DecimalText
  import opened Integers
  import opened Limbs

  const TWO_64: nat := 0x1_0000_0000_0000_0000

  /** The value of the words from index `i` up. */
  ghost function Words(w: seq<uint32>, i: nat): nat
    requires i <= |w|
    decreases |w| - i
  {
    if i == |w| then 0 else w[i] as nat + WORD * Words(w, i + 1)
  }

  lemma {:induction false} WordsDependOnSuffix(a: seq<uint32>, b: seq<uint32>, i: nat)
    requires |a| == |b| && i <= |a| && forall k :: i <= k < |a| ==> a[k] == b[k]
    ensures Words(a, i) == Words(b, i)
    decreases |a| - i
  {
    if i < |a| {
      WordsDependOnSuffix(a, b, i + 1);
    }
  }

  lemma {:induction false} ZeroWords(w: seq<uint32>, i: nat)
    requires i <= |w|
    ensures Words(w, i) == 0 <==> forall k :: i <= k < |w| ==> w[k] == 0
    decreases |w| - i
  {
    if i < |w| {
      ZeroWords(w, i + 1);
    }
  }

  /** One pass: divide the limbs by 10^9 in place and return the remainder. */
  method DivideInPlace(limbs: array<uint32>) returns (rem: uint64)
    modifies limbs
    ensures rem as nat < BASE
    ensures old(Words(limbs[..], 0)) == Words(limbs[..], 0) * BASE + rem as nat
  {
    ghost var before := limbs[..];
    rem := 0;
    var i := limbs.Length;
    while i > 0
      invariant 0 <= i <= limbs.Length
      invariant rem as nat < BASE
      invariant forall k :: 0 <= k < i ==> limbs[k] == before[k]
      invariant Words(before, i) == Words(limbs[..], i) * BASE + rem as nat
    {
      i := i - 1;
      ghost var above, remBefore := limbs[..], rem as nat;
      QuotientIsWord(rem as nat, limbs[i] as nat);
      var cur: uint64 := rem * 0x1_0000_0000 + limbs[i] as uint64;
      limbs[i] := (cur / 1_000_000_000) as uint32;
      rem := cur % 1_000_000_000;
      WordsDependOnSuffix(above, limbs[..], i + 1);
      DivideStep(Words(before, i + 1), Words(above, i + 1), remBefore, before[i] as nat, limbs[i] as nat, rem as nat);
    }
  }

  lemma QuotientIsWord(rem: nat, limb: nat)
    requires rem < BASE && limb < WORD
    ensures rem * WORD + limb < TWO_64 && (rem * WORD + limb) / BASE < WORD
  {
  }

  lemma DivideStep(old_: nat, quotient: nat, rem: nat, limb: nat, limb': nat, rem': nat)
    requires old_ == quotient * BASE + rem
    requires rem * WORD + limb == limb' * BASE + rem'
    ensures limb + WORD * old_ == (limb' + WORD * quotient) * BASE + rem'
  {
  }

  /** 10^36 < 2^128 < 10^45: five groups of nine digits, and sometimes all five. */
  lemma FiveGroups(groups: nat, quotient: nat, below: nat, total: nat)
    requires quotient > 0 && quotient * Pow(BASE, groups) + below == total < TWO_64 * TWO_64
    ensures groups < 5
  {
    MulGrows(Pow(BASE, groups), quotient);
    assert Pow(BASE, 2) == BASE * BASE;
    PowAdd(BASE, 2, 2);
    PowAdd(BASE, 4, 1);
    assert Pow(BASE, 1) == BASE;
    PowOrder(BASE, groups, 5);
  }

  method U128ToString(hi: uint64, lo: uint64) returns (s: string)
    ensures s == Decimal(hi as nat * TWO_64 + lo as nat)
  {
    if hi == 0 {
      return Decimal(lo as nat);
    }
    var limbs := new uint32[4] [
      (lo % 0x1_0000_0000) as uint32, (lo / 0x1_0000_0000) as uint32,
      (hi % 0x1_0000_0000) as uint32, (hi / 0x1_0000_0000) as uint32];
    ghost var total := hi as nat * TWO_64 + lo as nat;
    FourWords(limbs[..], hi, lo);
    var groups := new uint32[5](_ => 0);
    var ngroups := ToGroups(limbs, groups, total);
    s := JoinGroups(groups, ngroups);
    LimbsPrint(groups[..], ngroups);
  }

  lemma FourWords(w: seq<uint32>, hi: uint64, lo: uint64)
    requires |w| == 4 && lo as nat == w[0] as nat + WORD * w[1] as nat && hi as nat == w[2] as nat + WORD * w[3] as nat
    ensures Words(w, 0) == hi as nat * TWO_64 + lo as nat
  {
    assert Words(w, 4) == 0;
    assert Words(w, 3) == w[3] as nat;
    assert Words(w, 2) == hi as nat;
  }

  /** Divide until nothing is left, collecting the remainders, least significant first. */
  method ToGroups(limbs: array<uint32>, groups: array<uint32>, ghost total: nat) returns (ngroups: nat)
    requires limbs != groups && limbs.Length == 4 && groups.Length == 5
    requires 0 < Words(limbs[..], 0) == total < TWO_64 * TWO_64
    modifies limbs, groups
    ensures 0 < ngroups <= 5 && LimbsInRange(groups[..], ngroups) && groups[ngroups - 1] > 0
    ensures Value(groups[..], ngroups) == total
  {
    ngroups := 0;
    ZeroWords(limbs[..], 0);
    GroupsStart(groups[..]);
    hide Words, Value, Pow;
    while limbs[0] != 0 || limbs[1] != 0 || limbs[2] != 0 || limbs[3] != 0
      invariant 0 <= ngroups <= 5 && LimbsInRange(groups[..], ngroups)
      invariant Words(limbs[..], 0) * Pow(BASE, ngroups) + Value(groups[..], ngroups) == total
      invariant Words(limbs[..], 0) == 0 <==> limbs[0] == 0 && limbs[1] == 0 && limbs[2] == 0 && limbs[3] == 0
      invariant Words(limbs[..], 0) == 0 ==> ngroups > 0 && groups[ngroups - 1] > 0
      decreases Words(limbs[..], 0)
    {
      ghost var previous, quotient := groups[..], Words(limbs[..], 0);
      FiveGroups(ngroups, quotient, Value(previous, ngroups), total);
      var rem := DivideInPlace(limbs);
      groups[ngroups] := rem as uint32;
      GroupStep(previous, groups[..], ngroups, quotient, Words(limbs[..], 0));
      ngroups := ngroups + 1;
      ZeroWords(limbs[..], 0);
    }
  }

  lemma GroupsStart(groups: seq<uint32>)
    ensures Value(groups, 0) == 0 && Pow(BASE, 0) == 1
  {
  }

  lemma GroupStep(previous: seq<uint32>, groups: seq<uint32>, n: nat, before: nat, quotient: nat)
    requires n < |groups| == |previous| && groups[..n] == previous[..n]
    requires before == quotient * BASE + groups[n] as nat
    ensures quotient * Pow(BASE, n + 1) + Value(groups, n + 1) == before * Pow(BASE, n) + Value(previous, n)
    ensures quotient < before || before == 0
    ensures quotient == 0 && before > 0 ==> groups[n] > 0
  {
    var p := Pow(BASE, n);
    ValueDependsOnPrefix(previous, groups, n);
    MulAssociates(quotient, BASE, p);
    MulDistributes(quotient * BASE, groups[n] as nat, p);
  }

  /** The most significant group unpadded, the rest padded to nine digits. */
  method JoinGroups(groups: array<uint32>, count: nat) returns (s: string)
    requires 0 < count <= groups.Length
    ensures s == Decimal(groups[count - 1] as nat) + LowText(groups[..], count - 1)
  {
    var n := count - 1;
    s := Decimal(groups[n] as nat);
    while n > 0
      invariant 0 <= n < count
      invariant s + LowText(groups[..], n) == Decimal(groups[count - 1] as nat) + LowText(groups[..], count - 1)
    {
      n := n - 1;
      s := s + Padded(groups[n] as nat, 9);
    }
    assert s + LowText(groups[..], 0) == s;
  }

  /** The signed value of a hugeint. */
  ghost function HugeintValue(upper: int64, lower: uint64): int {
    upper as int * TWO_64 + lower as int
  }

  /** `~lower + 1` and `~upper` plus the carry, in wrapping 64-bit arithmetic. */
  method NegateHugeint(upper: int64, lower: uint64) returns (hi: uint64, lo: uint64)
    requires upper < 0
    ensures hi as int * TWO_64 + lo as int == -HugeintValue(upper, lower)
  {
    var notLower: uint64 := 0xffff_ffff_ffff_ffff - lower;
    lo := ((notLower as int + 1) % TWO_64) as uint64;
    var upperBits: uint64 := (upper as int + TWO_64) as uint64;
    hi := 0xffff_ffff_ffff_ffff - upperBits + (if lo == 0 then 1 else 0);
  }

  method HugeintToString(upper: int64, lower: uint64) returns (s: string)
    ensures s == SignedDecimal(HugeintValue(upper, lower))
  {
    if upper < 0 {
      var hi, lo := NegateHugeint(upper, lower);
      s := U128ToString(hi, lo);
      s := "-" + s;
    } else {
      s := U128ToString(upper as uint64, lower);
    }
  }

  method UhugeintToString(upper: uint64, lower: uint64) returns (s: string)
    ensures s == Decimal(upper as nat * TWO_64 + lower as nat)
  {
    s := U128ToString(upper, lower);
  }

  /** A DECIMAL cell in its internal type. */
  datatype DecimalCell =
    | Smallint(small: int16)
    | Integer(integer: int32)
    | Bigint(big: int64)
    | Hugeint(upper: int64, lower: uint64)

  ghost function Unscaled(cell: DecimalCell): int {
    match cell
    case Smallint(v) => v as int
    case Integer(v) => v as int
    case Bigint(v) => v as int
    case Hugeint(upper, lower) => HugeintValue(upper, lower)
  }

  ghost function Abs(v: int): nat {
    if v < 0 then -v else v
  }

  lemma DivisionIs(n: nat, p: nat)
    requires p > 0
    ensures n / p >= 0 && 0 <= n % p < p && n == n / p * p + n % p
  {
  }

  /** The digits before and after the point of n / 10^scale, as numbers. */
  ghost function Whole(n: nat, scale: nat): nat {
    DivisionIs(n, Pow10(scale));
    n / Pow10(scale)
  }

  ghost function Fraction(n: nat, scale: nat): nat {
    DivisionIs(n, Pow10(scale));
    n % Pow10(scale)
  }

  lemma Parts(n: nat, scale: nat)
    ensures n == Whole(n, scale) * Pow10(scale) + Fraction(n, scale)
    ensures Fraction(n, scale) < Pow10(scale)
    ensures n < Pow10(scale) ==> Whole(n, scale) == 0 && Fraction(n, scale) == n
    ensures n >= Pow10(scale) ==> Whole(n, scale) > 0
  {
    var p := Pow10(scale);
    DivisionIs(n, p);
    hide Pow10;
    if n < p {
      DivUnique(n, p, 0, n);
    }
  }

  /** The exact decimal text of v / 10^scale: at least one integer digit, `scale` fractional ones. */
  ghost function Rendered(v: int, scale: nat): string {
    var n := Abs(v);
    (if v < 0 then "-" else "") + Decimal(Whole(n, scale))
      + (if scale > 0 then "." + Padded(Fraction(n, scale), scale) else "")
  }

  method SignAndMagnitude(cell: DecimalCell) returns (negative: bool, hi: uint64, lo: uint64)
    ensures negative == (Unscaled(cell) < 0)
    ensures hi as nat * TWO_64 + lo as nat == Abs(Unscaled(cell))
  {
    hi := 0;
    match cell {
      case Smallint(v) =>
        negative := v < 0;
        lo := if negative then (-(v as int)) as uint64 else v as uint64;
      case Integer(v) =>
        negative := v < 0;
        lo := if negative then (-(v as int)) as uint64 else v as uint64;
      case Bigint(v) =>
        negative := v < 0;
        lo := if negative then ((0 - (v as int + TWO_64)) % TWO_64) as uint64 else v as uint64;
      case Hugeint(upper, lower) =>
        negative := upper < 0;
        if negative {
          hi, lo := NegateHugeint(upper, lower);
        } else {
          hi, lo := upper as uint64, lower;
        }
    }
  }

  method DecimalRender(cell: DecimalCell, scale: uint8) returns (s: string)
    ensures s == Rendered(Unscaled(cell), scale as nat)
  {
    var negative, hi, lo := SignAndMagnitude(cell);
    var digits := U128ToString(hi, lo);
    RenderedIs(Unscaled(cell), scale as nat);
    hide Decimal, Rendered, Abs, Unscaled, Zeros;
    if scale > 0 {
      if |digits| <= scale as nat {
        digits := Zeros(scale as nat - |digits| + 1) + digits;
      }
      digits := digits[..|digits| - scale as nat] + "." + digits[|digits| - scale as nat..];
    }
    s := if negative then "-" + digits else digits;
  }

  function Zeros(n: nat): (z: string)
    ensures |z| == n
  {
    seq(n, _ => '0')
  }

  lemma {:induction false} PaddedIsZeroFilled(n: nat, width: nat)
    requires |Decimal(n)| <= width
    ensures Padded(n, width) == Zeros(width - |Decimal(n)|) + Decimal(n)
  {
    if n >= 10 {
      PaddedIsZeroFilled(n / 10, width - 1);
    } else {
      PaddedZero(width - 1);
    }
  }

  lemma {:induction false} PaddedZero(width: nat)
    ensures Padded(0, width) == Zeros(width)
  {
    if width > 0 {
      PaddedZero(width - 1);
      assert Zeros(width) == Zeros(width - 1) + ['0'];
    }
  }

  lemma {:induction false} DecimalLengthIs(n: nat, width: nat)
    requires width > 0
    ensures |Decimal(n)| <= width <==> n < Pow10(width)
  {
    if n >= 10 && width > 1 {
      DecimalLengthIs(n / 10, width - 1);
    } else if n >= 10 {
      assert Pow10(1) == 10;
    } else {
      assert Pow10(width) >= 10;
    }
  }

  /** Where the point goes: the digits before it are the whole part, those after it the rest. */
  lemma PointPosition(n: nat, scale: nat)
    ensures var digits := Decimal(n);
            var long := if |digits| <= scale then Zeros(scale - |digits| + 1) + digits else digits;
            && |long| > scale
            && long[..|long| - scale] == Decimal(Whole(n, scale))
            && long[|long| - scale..] == Padded(Fraction(n, scale), scale)
  {
    var digits, whole, fraction := Decimal(n), Whole(n, scale), Fraction(n, scale);
    Parts(n, scale);
    if scale > 0 {
      DecimalLengthIs(n, scale);
    } else {
      assert Pow10(0) == 1;
      assert whole == n && Padded(fraction, 0) == "";
    }
    assert Decimal(0) == "0";
    hide Whole, Fraction, Pow10, Padded, Decimal;
    if scale == 0 {
      assert digits[..|digits|] == digits;
    } else if |digits| <= scale {
      PaddedIsZeroFilled(n, scale);
      assert Zeros(scale - |digits| + 1) + digits == "0" + Padded(n, scale);
    } else {
      DecimalSplits(whole, fraction, scale);
    }
  }

  /** The digits of the stored value, with zeros before and the point put in. */
  function Pointed(digits: string, scale: nat): string {
    var long := if |digits| <= scale then Zeros(scale - |digits| + 1) + digits else digits;
    if scale > 0 then long[..|long| - scale] + "." + long[|long| - scale..] else digits
  }

  lemma RenderedIs(v: int, scale: nat)
    ensures var text := Pointed(Decimal(Abs(v)), scale); Rendered(v, scale) == if v < 0 then "-" + text else text
  {
    PointPosition(Abs(v), scale);
    hide Decimal, Padded, Whole, Fraction, Pow10, Abs, Zeros;
    var n := Abs(v);
    var whole, fraction := Decimal(Whole(n, scale)), Padded(Fraction(n, scale), scale);
    if scale == 0 {
      assert Decimal(n)[..|Decimal(n)|] == Decimal(n);
    } else {
      assert "-" + (whole + "." + fraction) == "-" + whole + ("." + fraction);
      assert whole + "." + fraction == "" + whole + ("." + fraction);
    }
  }

  /** Read back, a rendered DECIMAL is the stored value divided by 10^scale. */
  lemma RenderedReadsBack(v: int, scale: nat) returns (whole: string, fraction: string)
    ensures Rendered(v, scale) == (if v < 0 then "-" else "") + whole + (if scale > 0 then "." + fraction else "")
    ensures AllDigits(whole) && whole != "" && (whole[0] == '0' ==> whole == "0")
    ensures AllDigits(fraction) && |fraction| == scale
    ensures ParseDigits(whole) * Pow10(scale) + ParseDigits(fraction) == Abs(v)
  {
    var n, p := Abs(v), Pow10(scale);
    Parts(n, scale);
    DivUnique(Fraction(n, scale), p, 0, Fraction(n, scale));
    whole, fraction := Decimal(Whole(n, scale)), Padded(Fraction(n, scale), scale);
    DecimalParses(Whole(n, scale));
    PaddedParses(Fraction(n, scale), scale);
    assert Whole(n, scale) == 0 ==> whole == "0";
  }
}
