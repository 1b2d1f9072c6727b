/**
 * Java's fixed-width integer arithmetic and the double-precision ratio tests
 * of the scoring code, restated over unbounded integers.
 */
module JavaNumbers {

  const INT_MAX: int := 0x7fff_ffff
  const INT_MIN: int := -0x8000_0000
  const LONG_MAX: int := 0x7fff_ffff_ffff_ffff

  /** A Java `int`. */
  type Int32 = x: int | INT_MIN <= x <= INT_MAX

  /** A non-negative Java `int`, as `Integer.parseInt` yields from a run of digits. */
  type NatInt = x: int | 0 <= x <= INT_MAX

  /** A non-negative Java `long`. */
  type NatLong = x: int | 0 <= x <= LONG_MAX

  /** Two's-complement wrap-around of a 32-bit result. */
  function Wrap32(x: int): (r: Int32)
    ensures INT_MIN <= x <= INT_MAX ==> r == x
    ensures (x - r) % 0x1_0000_0000 == 0
  {
    (x - INT_MIN) % 0x1_0000_0000 + INT_MIN
  }

  function Abs(x: int): nat {
    if x < 0 then -x else x
  }

  /** Java's `x / 2` on integers: the quotient is truncated toward zero. */
  function Half(a: int): (q: int)
    ensures a >= 0 ==> q == a / 2
    ensures Abs(a - 2 * q) <= 1
    ensures a - 2 * q == 0 || (a - 2 * q > 0 <==> a > 0)
  {
    if a >= 0 then a / 2 else -((-a) / 2)
  }

  /** `Math.abs(int)`: the negation wraps, so `Math.abs(Integer.MIN_VALUE)` stays negative. */
  function AbsInt(x: Int32): (r: Int32)
    ensures x != INT_MIN ==> r == Abs(x)
    ensures x == INT_MIN ==> r == INT_MIN
  {
    Wrap32(if x < 0 then -(x as int) else x as int)
  }

  /**
   * The exact rational reading of `(double) num / den >= a / b` for a decimal
   * constant a/b (b > 0), with the IEEE behaviour of a zero divisor: a positive
   * numerator gives +Infinity, a negative one -Infinity and a zero one NaN,
   * which fails every comparison. Java's doubles round operands of 2^53 and
   * beyond, where the two readings can part.
   */
  predicate RatioAtLeast(num: int, den: int, a: nat, b: nat)
    requires b > 0
  {
    if den > 0 then b * num >= a * den
    else if den < 0 then b * num <= a * den
    else num > 0
  }

  /** The exact reading of `(double) num / den <= a / b`, with the same treatment of a zero divisor. */
  predicate RatioAtMost(num: int, den: int, a: nat, b: nat)
    requires b > 0
  {
    if den > 0 then b * num <= a * den
    else if den < 0 then b * num >= a * den
    else num < 0
  }

  /** The exact reading of `(double) num / den < a / b`. */
  predicate RatioBelow(num: int, den: int, a: nat, b: nat)
    requires b > 0
  {
    if den > 0 then b * num < a * den
    else if den < 0 then b * num > a * den
    else num < 0
  }

  /** The exact reading of `(double) num / den > a / b`. */
  predicate RatioAbove(num: int, den: int, a: nat, b: nat)
    requires b > 0
  {
    if den > 0 then b * num > a * den
    else if den < 0 then b * num < a * den
    else num > 0
  }

  /** Decimal digits of a natural number, most significant first (Java's `String.valueOf`). */
  function DecimalString(n: nat): (s: string)
    ensures |s| > 0
    ensures forall i :: 0 <= i < |s| ==> '0' <= s[i] <= '9'
    decreases n
  {
    if n < 10 then [DigitChar(n)] else DecimalString(n / 10) + [DigitChar(n % 10)]
  }

  function DigitChar(d: nat): (c: char)
    requires d < 10
    ensures '0' <= c <= '9'
  {
    ['0', '1', '2', '3', '4', '5', '6', '7', '8', '9'][d]
  }

  function DigitValue(c: char): (d: nat)
    requires '0' <= c <= '9'
    ensures d < 10
  {
    (c as int - '0' as int)
  }

  /** The value of a run of decimal digits, as `Integer.parseInt` reads it (leading zeros allowed). */
  function DigitsValue(s: string): nat
    requires forall i :: 0 <= i < |s| ==> '0' <= s[i] <= '9'
  {
    if |s| == 0 then 0 else DigitsValue(s[..|s| - 1]) * 10 + DigitValue(s[|s| - 1])
  }

  /** Reading back the decimal rendering of a number gives the number. */
  lemma {:induction false} DecimalStringRoundTrip(n: nat)
    ensures DigitsValue(DecimalString(n)) == n
    decreases n
  {
    var s := DecimalString(n);
    if n < 10 {
      assert s[..|s| - 1] == [];
    } else {
      DecimalStringRoundTrip(n / 10);
      assert s[..|s| - 1] == DecimalString(n / 10);
    }
  }

  /** Distinct numbers have distinct decimal renderings. */
  lemma DecimalStringInjective(m: nat, n: nat)
    requires DecimalString(m) == DecimalString(n)
    ensures m == n
  {
    DecimalStringRoundTrip(m);
    DecimalStringRoundTrip(n);
  }
}
