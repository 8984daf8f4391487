/** The parts of Java's numeric semantics that the geometry helpers rely on:
    32-bit `int` values, `+` with two's-complement wrap-around, `/` that
    truncates toward zero, and the narrowing `(int)` cast of a `double`.
    Java's `double` is modelled as `real`: rounding, NaN and the infinities
    are not part of this model. */
module JavaLang {

  const INT_MIN: int := -0x8000_0000
  const INT_MAX: int := 0x7fff_ffff
  const INT_RANGE: int := 0x1_0000_0000

  /** A Java `int`. */
  type int32 = x: int | -0x8000_0000 <= x <= 0x7fff_ffff

  /** The outcome of a Java operation that either returns a value or throws
      one of the exceptions the geometry helpers throw. */
  datatype Result<T> =
    | Success(value: T)
    | IllegalArgumentException(message: string)
    | UnsupportedOperationException(message: string)

  function Abs(x: int): (r: nat)
    ensures r == x || r == -x
  {
    if x < 0 then -x else x
  }

  /** Reduces a mathematical integer to the 32-bit two's-complement value
      with the same residue modulo 2^32. */
  function Wrap(x: int): (r: int32)
    ensures (x - r) % INT_RANGE == 0
    ensures INT_MIN <= x <= INT_MAX ==> r == x
  {
    var k := (x - INT_MIN) % INT_RANGE;
    assert INT_MIN <= x <= INT_MAX ==> (x - INT_MIN) / INT_RANGE == 0;
    k + INT_MIN
  }

  /** Java's `a + b` on `int`: the exact sum when it is representable,
      otherwise the sum moved back into range by exactly 2^32. */
  function Add(a: int32, b: int32): (r: int32)
    ensures INT_MIN <= a + b <= INT_MAX ==> r == a + b
    ensures a + b > INT_MAX ==> r == a + b - INT_RANGE
    ensures a + b < INT_MIN ==> r == a + b + INT_RANGE
  {
    Wrap(a + b)
  }

  /** Java's `n / 2` on `int`: the quotient rounded toward zero (section
      15.17.2 of the Java Language Specification), so that `2 * q` is `n`
      or `n` moved one step toward zero. Dafny's `/` rounds down instead. */
  function Half(n: int32): (q: int32)
    ensures Abs(2 * q) <= Abs(n) < Abs(2 * q) + 2
    ensures q == 0 || (q < 0) == (n < 0)
  {
    if n < 0 then -((0 - n as int) / 2) else n / 2
  }

  /** Truncation of a real toward zero, as Java rounds a `double` that it
      narrows to an integer. */
  function Truncate(x: real): (r: int)
    ensures Abs(r) as real <= (if x < 0.0 then -x else x) < Abs(r) as real + 1.0
    ensures r == 0 || (r < 0) == (x < 0.0)
  {
    if x < 0.0 then -((-x).Floor) else x.Floor
  }

  /** Java's narrowing cast `(int) x` of a (non-NaN) `double` (section 5.1.3
      of the Java Language Specification): round toward zero, then clamp to
      the `int` range. */
  function DoubleToInt(x: real): (r: int32)
    ensures INT_MIN as real <= x <= INT_MAX as real ==> r == Truncate(x)
    ensures x > INT_MAX as real ==> r == INT_MAX
    ensures x < INT_MIN as real ==> r == INT_MIN
  {
    if x >= INT_MAX as real then INT_MAX
    else if x <= INT_MIN as real then INT_MIN
    else Truncate(x)
  }

  /** On a non-negative value the cast never rounds up: it lands in
      `[0, x]`, and it is `x.Floor` whenever that is an `int`. */
  lemma DoubleToIntNonNegative(x: real)
    requires x >= 0.0
    ensures 0 <= DoubleToInt(x) && DoubleToInt(x) as real <= x
    ensures x < INT_MAX as real + 1.0 ==> DoubleToInt(x) == x.Floor
  {
  }

  /** The cast is monotone, so it preserves `<=` between doubles. */
  lemma DoubleToIntMonotone(x: real, y: real)
    requires x <= y
    ensures DoubleToInt(x) <= DoubleToInt(y)
  {
  }

  /** Java's `/` and Dafny's Euclidean `/` disagree on negative operands:
      `-7 / 2` is `-3` in Java and `-4` in Dafny. */
  lemma HalfTruncatesTowardZero()
    ensures Half(-7) == -3 && -7 / 2 == -4
    ensures Half(7) == 3 && Half(INT_MIN) == -0x4000_0000
  {
  }
}
