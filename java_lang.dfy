/**
 * The parts of Java's numeric and text semantics the server relies on: the
 * 64-bit `long` and 32-bit `int` types, wrap-around of `long` multiplication,
 * and the decimal and boolean renderings of `String.valueOf` and `%d`.
 */
module JavaLang {
  import opened Wrappers

  const MinLong: int := -0x8000_0000_0000_0000
  const MaxLong: int := 0x7fff_ffff_ffff_ffff
  /** Number of distinct `long` values, 2^64. */
  const LongModulus: int := 0x1_0000_0000_0000_0000

  const MinInt: int := -0x8000_0000
  const MaxInt: int := 0x7fff_ffff

  /** Java `long` (and a non-null `java.lang.Long`). */
  type Long = x: int | MinLong <= x <= MaxLong

  /** Java `int`. */
  type Int32 = x: int | MinInt <= x <= MaxInt

  /**
   * Two's-complement reduction: the `long` that Java's arithmetic yields for the
   * mathematical value `x`. It is the one `long` congruent to `x` modulo 2^64,
   * and it is `x` itself whenever `x` fits.
   */
  function ToLong(x: int): (r: Long)
    ensures (x - r) % LongModulus == 0
    ensures MinLong <= x <= MaxLong ==> r == x
  {
    (x - MinLong) % LongModulus + MinLong
  }

  /** Adding a multiple of 2^64 does not change the `long` a value reduces to. */
  lemma ToLongShift(x: int, k: int)
    ensures ToLong(x + LongModulus * k) == ToLong(x)
  {
  }

  /**
   * Java's `a *= b` on a `long` that already holds the reduction of `a`
   * computes the reduction of the exact product: wrapping at every step is the
   * same as wrapping once at the end.
   */
  lemma ToLongMul(a: int, b: int)
    ensures ToLong(ToLong(a) * b) == ToLong(a * b)
  {
    var w := ToLong(a);
    var k := (w - a) / LongModulus;
    assert w == a + LongModulus * k;
    calc {
      w * b;
      (a + LongModulus * k) * b;
      a * b + LongModulus * (k * b);
    }
    ToLongShift(a * b, k * b);
  }

  // ----- decimal rendering: String.valueOf(int) and String.format("%d", long) -----

  function DigitChar(d: nat): (c: char)
    requires d < 10
    ensures '0' <= c <= '9'
  {
    "0123456789"[d]
  }

  predicate IsDigit(c: char) {
    '0' <= c <= '9'
  }

  function DigitValue(c: char): (d: nat)
    requires IsDigit(c)
    ensures d < 10 && DigitChar(d) == c
  {
    (c as int - '0' as int)
  }

  /** Decimal digits of `n`, most significant first, without leading zeros. */
  function Digits(n: nat): (s: string)
    ensures |s| > 0 && (forall i :: 0 <= i < |s| ==> IsDigit(s[i]))
    ensures |s| > 1 ==> s[0] != '0'
  {
    if n < 10 then [DigitChar(n)] else Digits(n / 10) + [DigitChar(n % 10)]
  }

  /**
   * The text `String.valueOf(int)` gives for an integer: a `-` sign exactly for
   * negatives, then one or more decimal digits with no leading zero, except for
   * the number 0 itself.
   */
  function DecimalString(i: int): (s: string)
    ensures |s| > 0 && (s[0] == '-' <==> i < 0)
    ensures var digits := if i < 0 then s[1..] else s;
      |digits| > 0 && AllDigits(digits) && (|digits| > 1 ==> digits[0] != '0')
    ensures s == "0" <==> i == 0
  {
    if i < 0 then "-" + Digits(-i) else Digits(i)
  }

  predicate AllDigits(s: string) {
    forall i :: 0 <= i < |s| ==> IsDigit(s[i])
  }

  /** The number a non-empty run of decimal digits denotes. */
  function DigitsValue(s: string): nat
    requires |s| > 0 && AllDigits(s)
  {
    if |s| == 1 then DigitValue(s[0])
    else DigitsValue(s[..|s| - 1]) * 10 + DigitValue(s[|s| - 1])
  }

  /** Reads back an optionally signed decimal integer; `None` for any other text. */
  function DecimalValue(s: string): Option<int> {
    if |s| > 1 && s[0] == '-' && AllDigits(s[1..]) then Some(0 - DigitsValue(s[1..]) as int)
    else if |s| > 0 && AllDigits(s) then Some(DigitsValue(s))
    else None
  }

  lemma {:induction false} DigitsRoundTrip(n: nat)
    ensures DigitsValue(Digits(n)) == n
  {
    if n >= 10 {
      DigitsRoundTrip(n / 10);
      var s := Digits(n);
      assert s[..|s| - 1] == Digits(n / 10);
    }
  }

  /** Java's decimal rendering of an integer is read back as that integer. */
  lemma DecimalRoundTrip(i: int)
    ensures DecimalValue(DecimalString(i)) == Some(i)
  {
    var s := DecimalString(i);
    if i < 0 {
      DigitsRoundTrip(-i);
      assert s == "-" + Digits(-i);
      assert s[1..] == Digits(-i);
    } else {
      DigitsRoundTrip(i);
      assert s == Digits(i);
    }
  }

  /** `String.valueOf(boolean)`. */
  function BooleanString(b: bool): (s: string)
    ensures s == "true" || s == "false"
    ensures s == "true" <==> b
  {
    if b then "true" else "false"
  }
}
