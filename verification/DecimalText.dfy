/**
 Decimal notation of unbounded numbers: what the conversions of this extension have to
 print, and why it is the one right text.
 */
module DecimalText {
  function Digit(d: nat): char
    requires d < 10
  {
    '0' + d as char
  }

  function DigitValue(c: char): nat
    requires '0' <= c <= '9'
  {
    (c - '0') as nat
  }

  /** The decimal digits of `n`, without leading zeros. */
  function Decimal(n: nat): (s: string)
    ensures |s| > 0
  {
    if n < 10 then [Digit(n)] else Decimal(n / 10) + [Digit(n % 10)]
  }

  /** The `width` low-order decimal digits of `n`. */
  function Padded(n: nat, width: nat): (s: string)
    ensures |s| == width
  {
    if width == 0 then "" else Padded(n / 10, width - 1) + [Digit(n % 10)]
  }

  function SignedDecimal(v: int): string {
    if v < 0 then "-" + Decimal(-v) else Decimal(v)
  }

  function Pow10(e: nat): (p: nat)
    ensures p > 0
  {
    if e == 0 then 1 else 10 * Pow10(e - 1)
  }

  predicate AllDigits(s: string) {
    forall k :: 0 <= k < |s| ==> '0' <= s[k] <= '9'
  }

  /** The number that a digit string denotes. */
  function ParseDigits(s: string): nat
    requires AllDigits(s)
  {
    if s == [] then 0 else 10 * ParseDigits(s[..|s| - 1]) + DigitValue(s[|s| - 1])
  }

  /** The spellings of an integer that have neither leading zeros nor a "-0". */
  predicate Canonical(s: string) {
    var digits := if s != [] && s[0] == '-' then s[1..] else s;
    && digits != [] && AllDigits(digits)
    && (digits[0] == '0' ==> s == "0")
  }

  function Parse(s: string): int
    requires Canonical(s)
  {
    var magnitude: int := ParseDigits(if s[0] == '-' then s[1..] else s);
    if s[0] == '-' then -magnitude else magnitude
  }

  lemma ParsePush(s: string, d: nat)
    requires AllDigits(s) && d < 10
    ensures AllDigits(s + [Digit(d)]) && ParseDigits(s + [Digit(d)]) == 10 * ParseDigits(s) + d
  {
    assert (s + [Digit(d)])[..|s|] == s;
  }

  lemma {:induction false} DecimalParses(n: nat)
    ensures AllDigits(Decimal(n)) && ParseDigits(Decimal(n)) == n
    ensures Decimal(n)[0] == '0' <==> n == 0
  {
    if n >= 10 {
      DecimalParses(n / 10);
      ParsePush(Decimal(n / 10), n % 10);
    } else {
      ParsePush("", n);
      assert "" + [Digit(n)] == [Digit(n)];
    }
  }

  lemma {:induction false} PaddedParses(n: nat, width: nat)
    ensures AllDigits(Padded(n, width)) && ParseDigits(Padded(n, width)) == n % Pow10(width)
  {
    if width > 0 {
      PaddedParses(n / 10, width - 1);
      ParsePush(Padded(n / 10, width - 1), n % 10);
      ModSplit(n, Pow10(width - 1));
    }
  }

  lemma ModSplit(n: nat, p: nat)
    requires p > 0
    ensures n % (10 * p) == 10 * (n / 10 % p) + n % 10
  {
    var high, low := n / 10 / p, 10 * (n / 10 % p) + n % 10;
    assert n / 10 == high * p + n / 10 % p;
    assert n == high * (10 * p) + low;
    assert n / 10 % p <= p - 1;
    DivUnique(n, 10 * p, high, low);
  }

  lemma DivUnique(n: nat, d: nat, q: nat, r: nat)
    requires d > 0 && n == q * d + r && r < d
    ensures n / d == q && n % d == r
  {
    var k := n / d - q;
    assert n == n / d * d + n % d;
    assert k * d == r - n % d;
    NoMultipleBetween(k, d);
  }

  lemma NoMultipleBetween(k: int, d: nat)
    requires d > 0
    ensures k != 0 ==> k * d >= d || k * d <= 0 - d
  {
    assert k > 0 ==> (k - 1) * d >= 0;
    assert k < 0 ==> (-k - 1) * d >= 0;
  }

  /** `SignedDecimal` prints canonically and reads back to the same integer. */
  lemma SignedDecimalParses(v: int)
    ensures Canonical(SignedDecimal(v)) && Parse(SignedDecimal(v)) == v
  {
    if v < 0 {
      DecimalParses(-v);
      assert SignedDecimal(v)[1..] == Decimal(-v);
    } else {
      DecimalParses(v);
    }
  }

  lemma {:induction false} DigitsAreDecimal(s: string)
    requires AllDigits(s) && s != [] && (s[0] == '0' ==> |s| == 1)
    ensures Decimal(ParseDigits(s)) == s
    ensures s[0] != '0' ==> ParseDigits(s) > 0
  {
    var before, last := LastDigit(s);
    hide ParseDigits, Digit, DigitValue, Decimal, AllDigits;
    if before == [] {
      EmptyParses();
    } else {
      DigitsAreDecimal(before);
    }
    DecimalPush(ParseDigits(before), last);
    assert s[0] == (before + [Digit(last)])[0];
    assert before == [] ==> s == [Digit(last)];
  }

  /** One more digit at the end. */
  lemma DecimalPush(n: nat, d: nat)
    requires d < 10
    ensures Decimal(10 * n + d) == if n > 0 then Decimal(n) + [Digit(d)] else [Digit(d)]
    ensures d == 0 <==> Digit(d) == '0'
  {
    assert (10 * n + d) / 10 == n && (10 * n + d) % 10 == d;
  }

  lemma LastDigit(s: string) returns (before: string, last: nat)
    requires AllDigits(s) && s != []
    ensures before == s[..|s| - 1] && AllDigits(before) && last < 10 && s == before + [Digit(last)]
    ensures ParseDigits(s) == 10 * ParseDigits(before) + last
  {
    before, last := s[..|s| - 1], DigitValue(s[|s| - 1]);
  }

  lemma EmptyParses()
    ensures ParseDigits("") == 0
  {
  }

  /** No other canonical text denotes the same integer. */
  lemma CanonicalIsSignedDecimal(s: string)
    requires Canonical(s)
    ensures SignedDecimal(Parse(s)) == s
  {
    if s[0] == '-' {
      DigitsAreDecimal(s[1..]);
      assert s == "-" + s[1..];
    } else {
      DigitsAreDecimal(s);
    }
  }

  lemma SignedDecimalInjective(v: int, w: int)
    requires SignedDecimal(v) == SignedDecimal(w)
    ensures v == w
  {
    SignedDecimalParses(v);
    SignedDecimalParses(w);
  }

  /** A number is printed as its high digits, then its `width` low digits padded. */
  lemma {:induction false} DecimalSplits(high: nat, low: nat, width: nat)
    requires high > 0 && low < Pow10(width)
    ensures Decimal(high * Pow10(width) + low) == Decimal(high) + Padded(low, width)
  {
    if width == 0 {
      assert Decimal(high) + "" == Decimal(high);
    } else {
      var n, p := high * Pow10(width) + low, Pow10(width - 1);
      assert n == 10 * (high * p + low / 10) + low % 10;
      assert high * p >= p by {
        assert (high - 1) * p >= 0;
      }
      assert n / 10 == high * p + low / 10 && n % 10 == low % 10;
      assert n >= 10;
      DecimalSplits(high, low / 10, width - 1);
    }
  }
}
