/**
 * The cache loader of the "Factorials" region: on a cache miss for a `Long`
 * key it computes the factorial of the key in Java `long` arithmetic.
 */
module Factorials {
  import opened Wrappers
  import opened JavaLang

  /** What Spring's `Assert` throws: a `java.lang.IllegalArgumentException` and its message. */
  datatype IllegalArgument = IllegalArgument(message: string)

  const NullKeyMessage: string := "Number must not be null"

  const NegativeKeyPrefix: string := "Number ["
  const NegativeKeySuffix: string := "] must be greater than equal to 0"

  /**
   * The message of the failed `number >= 0` assertion: the key, formatted by
   * `%d`, between the fixed prefix and suffix, where it reads back as the key.
   */
  function NegativeKeyMessage(number: int): (m: string)
    ensures |m| > |NegativeKeyPrefix| + |NegativeKeySuffix|
    ensures m[..|NegativeKeyPrefix|] == NegativeKeyPrefix
    ensures m[|m| - |NegativeKeySuffix|..] == NegativeKeySuffix
    ensures m[|NegativeKeyPrefix|..|m| - |NegativeKeySuffix|] == DecimalString(number)
    ensures DecimalValue(m[|NegativeKeyPrefix|..|m| - |NegativeKeySuffix|]) == Some(number)
  {
    var text := DecimalString(number);
    DecimalRoundTrip(number);
    var m := NegativeKeyPrefix + text + NegativeKeySuffix;
    assert m[|NegativeKeyPrefix|..|m| - |NegativeKeySuffix|] == text;
    m
  }

  /** The mathematical factorial, against which the loader is specified. */
  function Fact(n: nat): (r: nat)
    ensures 1 <= r && n <= r
  {
    if n == 0 then 1 else n * Fact(n - 1)
  }

  /** One step of the factorial's recurrence, with a running product in front. */
  lemma FactStep(p: int, m: nat)
    requires m >= 1
    ensures p * m * Fact(m - 1) == p * Fact(m)
  {
  }

  lemma {:induction false} FactMonotone(k: nat, n: nat)
    requires k <= n
    ensures Fact(k) <= Fact(n)
  {
    if k < n {
      FactMonotone(k, n - 1);
      FactGrows(n);
    }
  }

  lemma FactGrows(n: nat)
    requires n >= 1
    ensures Fact(n - 1) <= Fact(n)
  {
    var f := Fact(n - 1);
    assert Fact(n) == n * f;
    MulAtLeast(n - 1, f);
  }

  lemma MulAtLeast(a: nat, b: nat)
    ensures b <= (a + 1) * b
  {
  }

  /** The values of 20! and 21!, one step of the recurrence at a time. */
  lemma FactAt21()
    ensures Fact(20) == 2432902008176640000
    ensures Fact(21) == 51090942171709440000
  {
    assert Fact(1) == 1;
    assert Fact(2) == 2;
    assert Fact(3) == 6;
    assert Fact(4) == 24;
    assert Fact(5) == 120;
    assert Fact(6) == 720;
    assert Fact(7) == 5040;
    assert Fact(8) == 40320;
    assert Fact(9) == 362880;
    assert Fact(10) == 3628800;
    assert Fact(11) == 39916800;
    assert Fact(12) == 479001600;
    assert Fact(13) == 6227020800;
    assert Fact(14) == 87178291200;
    assert Fact(15) == 1307674368000;
    assert Fact(16) == 20922789888000;
    assert Fact(17) == 355687428096000;
    assert Fact(18) == 6402373705728000;
    assert Fact(19) == 121645100408832000;
    assert Fact(20) == 2432902008176640000;
    assert Fact(21) == 51090942171709440000;
  }

  /**
   * The factorial fits in a `long` exactly up to 20: 20! < 2^63 <= 21!. So the
   * wrapped value equals the true factorial if and only if n <= 20.
   */
  lemma FactFitsLong(n: nat)
    ensures ToLong(Fact(n)) == Fact(n) <==> n <= 20
  {
    FactAt21();
    if n <= 20 {
      FactMonotone(n, 20);
    } else {
      FactMonotone(21, n);
    }
  }

  /** The first key whose factorial overflows: Java's loader returns this negative value for 21. */
  lemma Fact21Wraps()
    ensures ToLong(Fact(21)) == -4249290049419214848
  {
    FactAt21();
  }

  /**
   * `load` of the loader returned by `factorialsCacheLoader()`. `bodyRuns`
   * counts the iterations of its `while (number-- > 2L)` loop.
   */
  method Load(key: Option<Long>) returns (r: Result<Long, IllegalArgument>, ghost bodyRuns: nat)
    ensures key.None? ==> r == Failure(IllegalArgument(NullKeyMessage))
    ensures key.Some? && key.value < 0 ==> r == Failure(IllegalArgument(NegativeKeyMessage(key.value)))
    ensures key.Some? && key.value >= 0 ==> r == Success(ToLong(Fact(key.value)))
    ensures key.Some? && 0 <= key.value <= 20 ==> r == Success(Fact(key.value))
    ensures bodyRuns == if key.Some? && key.value > 2 then key.value - 2 else 0
  {
    bodyRuns := 0;
    if key.None? {
      return Failure(IllegalArgument(NullKeyMessage)), bodyRuns;
    }
    var number := key.value;
    if !(number >= 0) {
      return Failure(IllegalArgument(NegativeKeyMessage(number))), bodyRuns;
    }
    if number <= 2 {
      return Success(if number < 2 then 1 else 2), bodyRuns;
    }
    ghost var n: nat := number;
    ghost var exact: int := number;
    var result: Long := number;
    // `while (number-- > 2L)`: the test reads `number` and then decrements it,
    // both when it enters the body and when it leaves the loop.
    while number > 2
      invariant 2 <= number <= n
      invariant exact * Fact(number - 1) == Fact(n)
      invariant result == ToLong(exact)
      invariant bodyRuns == n - number
      decreases number
    {
      number := number - 1;
      FactStep(exact, number);
      ToLongMul(exact, number);
      result := ToLong(result * number);
      exact := exact * number;
      bodyRuns := bodyRuns + 1;
    }
    number := number - 1;
    assert number == 1 && exact == Fact(n);
    FactFitsLong(n);
    r := Success(result);
  }
}
