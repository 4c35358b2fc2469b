/**
 Multi-precision numbers as the conversions keep them: little-endian base-10^9 limbs and
 big-endian bytes.
 */
module Limbs {
  import opened DecimalText
  import opened Integers

  const BASE: nat := 1_000_000_000
  const WORD: nat := 0x1_0000_0000

  function Pow(b: nat, e: nat): (p: nat)
    ensures b > 0 ==> p > 0
  {
    if e == 0 then 1
    else if b > 0 then
      assert b * Pow(b, e - 1) >= Pow(b, e - 1);
      b * Pow(b, e - 1)
    else 0
  }

  lemma MulAssociates(a: int, b: int, c: int)
    ensures a * (b * c) == a * b * c
  {
  }

  lemma MulDistributes(a: int, b: int, c: int)
    ensures (a + b) * c == a * c + b * c
  {
  }

  lemma {:induction false} MulGrows(a: nat, b: nat)
    requires b > 0
    ensures a <= a * b
    ensures a > 0 && b > 1 ==> a < a * b
  {
    if a > 0 {
      MulDistributes(a - 1, 1, b);
      MulGrows(a - 1, b);
    }
  }

  lemma {:induction false} PowAdd(b: nat, e: nat, f: nat)
    requires b > 0
    ensures Pow(b, e + f) == Pow(b, e) * Pow(b, f)
  {
    if e > 0 {
      PowAdd(b, e - 1, f);
      MulAssociates(b, Pow(b, e - 1), Pow(b, f));
    }
  }

  lemma PowOrder(b: nat, e: nat, f: nat)
    requires b > 1
    ensures e < f <==> Pow(b, e) < Pow(b, f)
  {
    if e < f {
      PowGrows(b, e, f);
    } else {
      PowGrows(b, f, e);
    }
  }

  lemma PowGrows(b: nat, e: nat, f: nat)
    requires b > 1 && e <= f
    ensures Pow(b, e) <= Pow(b, f)
    ensures e < f ==> Pow(b, e) < Pow(b, f)
  {
    PowAdd(b, e, f - e);
    if e < f {
      PowOverOne(b, f - e);
    }
    MulGrows(Pow(b, e), Pow(b, f - e));
  }

  lemma PowOverOne(b: nat, e: nat)
    requires b > 1 && e > 0
    ensures Pow(b, e) > 1
  {
    MulGrows(b, Pow(b, e - 1));
  }

  /** The value of the first `n` limbs, least significant first. */
  ghost function Value(limbs: seq<uint32>, n: nat): nat
    requires n <= |limbs|
  {
    if n == 0 then 0 else Value(limbs, n - 1) + limbs[n - 1] as nat * Pow(BASE, n - 1)
  }

  lemma {:induction false} ValueDependsOnPrefix(a: seq<uint32>, b: seq<uint32>, n: nat)
    requires n <= |a| && n <= |b| && a[..n] == b[..n]
    ensures Value(a, n) == Value(b, n)
  {
    if n > 0 {
      assert a[..n - 1] == a[..n][..n - 1] == b[..n - 1];
      assert a[n - 1] == a[..n][n - 1] == b[n - 1];
      ValueDependsOnPrefix(a, b, n - 1);
    }
  }

  ghost predicate LimbsInRange(limbs: seq<uint32>, n: nat)
    requires n <= |limbs|
  {
    forall k :: 0 <= k < n ==> limbs[k] as nat < BASE
  }

  /** What the digits below limb `n` print as. */
  ghost function LowText(limbs: seq<uint32>, n: nat): string
    requires n <= |limbs|
  {
    if n == 0 then "" else Padded(limbs[n - 1] as nat, 9) + LowText(limbs, n - 1)
  }

  lemma {:induction false} LowTextLength(limbs: seq<uint32>, n: nat)
    requires n <= |limbs|
    ensures |LowText(limbs, n)| == 9 * n
  {
    if n > 0 {
      LowTextLength(limbs, n - 1);
    }
  }

  lemma BaseIsPow10()
    ensures Pow10(9) == BASE
  {
    assert Pow10(3) == 1000;
    assert Pow10(6) == 1000 * Pow10(3);
    assert Pow10(9) == 1000 * Pow10(6);
  }

  /** Limbs print as the digits of the top limb, then nine digits for each lower one. */
  lemma {:induction false} LimbsPrint(limbs: seq<uint32>, n: nat)
    requires 0 < n <= |limbs| && LimbsInRange(limbs, n)
    requires n > 1 ==> limbs[n - 1] > 0
    ensures Decimal(Value(limbs, n)) == Decimal(limbs[n - 1] as nat) + LowText(limbs, n - 1)
  {
    if n == 1 {
      assert Value(limbs, 1) == limbs[0] as nat * Pow(BASE, 0);
    } else {
      PrintAbove(limbs, limbs[n - 1] as nat, n - 1);
    }
  }

  lemma ShiftIn(high: nat, limb: nat, below: nat, p: nat)
    ensures high * (BASE * p) + (below + limb * p) == (high * BASE + limb) * p + below
  {
    MulAssociates(high, BASE, p);
    MulDistributes(high * BASE, limb, p);
  }

  lemma ShiftDown(limbs: seq<uint32>, high: nat, n: nat)
    requires 0 < n <= |limbs|
    ensures high * Pow(BASE, n) + Value(limbs, n)
         == (high * BASE + limbs[n - 1] as nat) * Pow(BASE, n - 1) + Value(limbs, n - 1)
    ensures LowText(limbs, n) == Padded(limbs[n - 1] as nat, 9) + LowText(limbs, n - 1)
  {
    ShiftIn(high, limbs[n - 1] as nat, Value(limbs, n - 1), Pow(BASE, n - 1));
    hide Padded;
  }

  lemma NothingBelow(limbs: seq<uint32>, high: nat)
    ensures high * Pow(BASE, 0) + Value(limbs, 0) == high && LowText(limbs, 0) == ""
    ensures Decimal(high) + "" == Decimal(high)
  {}

  lemma {:induction false} PrintAbove(limbs: seq<uint32>, high: nat, n: nat)
    requires n <= |limbs| && LimbsInRange(limbs, n) && high > 0
    ensures Decimal(high * Pow(BASE, n) + Value(limbs, n)) == Decimal(high) + LowText(limbs, n)
    decreases n
  {
    hide Value, LowText, Decimal, Padded, Pow, Pow10;
    if n == 0 {
      NothingBelow(limbs, high);
    } else {
      var limb := limbs[n - 1] as nat;
      ShiftDown(limbs, high, n);
      PrintAbove(limbs, high * BASE + limb, n - 1);
      BaseIsPow10();
      DecimalSplits(high, limb, 9);
    }
  }

  /** The number whose big-endian bytes are `bytes`. */
  ghost function BigEndian(bytes: seq<uint8>): nat {
    if bytes == [] then 0 else 256 * BigEndian(bytes[..|bytes| - 1]) + bytes[|bytes| - 1] as nat
  }

  lemma BigEndianPush(bytes: seq<uint8>, b: uint8)
    ensures BigEndian(bytes + [b]) == 256 * BigEndian(bytes) + b as nat
  {
    assert (bytes + [b])[..|bytes|] == bytes;
  }

  lemma {:induction false} BigEndianAppend(a: seq<uint8>, b: seq<uint8>)
    ensures BigEndian(a + b) == BigEndian(a) * Pow(256, |b|) + BigEndian(b)
  {
    if b == [] {
      assert a + b == a;
    } else {
      var before, last := b[..|b| - 1], b[|b| - 1];
      assert a + b == (a + before) + [last];
      BigEndianPush(a + before, last);
      BigEndianAppend(a, before);
      MulAssociates(256, BigEndian(a), Pow(256, |before|));
      MulAssociates(BigEndian(a), 256, Pow(256, |before|));
    }
  }

  lemma {:induction false} BigEndianBound(bytes: seq<uint8>)
    ensures BigEndian(bytes) < Pow(256, |bytes|)
  {
    if bytes != [] {
      BigEndianBound(bytes[..|bytes| - 1]);
    }
  }

  /** Bytes without a leading zero are the only such spelling of their number. */
  lemma {:induction false} BigEndianInjective(a: seq<uint8>, b: seq<uint8>)
    requires BigEndian(a) == BigEndian(b)
    requires a != [] ==> a[0] != 0
    requires b != [] ==> b[0] != 0
    ensures a == b
  {
    if a == [] || b == [] {
      if a != [] { LeadingByteMatters(a); }
      if b != [] { LeadingByteMatters(b); }
    } else {
      var a', b' := a[..|a| - 1], b[..|b| - 1];
      assert a == a' + [a[|a| - 1]] && b == b' + [b[|b| - 1]];
      BigEndianInjective(a', b');
    }
  }

  lemma {:induction false} LeadingByteMatters(a: seq<uint8>)
    requires a != [] && a[0] != 0
    ensures BigEndian(a) >= Pow(256, |a| - 1)
  {
    if |a| == 1 {
      assert BigEndian(a[..0]) == 0;
    } else {
      LeadingByteMatters(a[..|a| - 1]);
    }
  }
}
