/**
 * The C++ `int` arithmetic that the Money and Dog classes rely on:
 * a 32-bit `int`, and the built-in `/` and `%`, which (since C++11)
 * truncate the quotient toward zero, so that the remainder takes the
 * sign of the dividend. Dafny's own `/` and `%` on `int` are Euclidean
 * (the remainder is never negative), so the two are defined here
 * explicitly and related to each other.
 */
module CppInt {

  const MinInt32: int := -0x8000_0000
  const MaxInt32: int := 0x7fff_ffff

  /** A value of the C++ type `int`, taken to be 32 bits wide. */
  type Int32 = x: int | MinInt32 <= x <= MaxInt32

  predicate InInt32(x: int) {
    MinInt32 <= x <= MaxInt32
  }

  function Abs(x: int): nat {
    if x < 0 then -x else x
  }

  /** Euclidean division of naturals, written as the identity and bounds it satisfies. */
  lemma NatDivMod(n: nat, d: nat)
    requires d > 0
    ensures n == (n / d) * d + n % d && 0 <= n % d < d
    ensures (n / d) * d <= n < (n / d + 1) * d
  {
    assert (n / d + 1) * d == (n / d) * d + d;
  }

  /** A positive multiple of d is at least d. */
  lemma MultipleAtLeast(k: int, d: int)
    requires k >= 1 && d > 0
    ensures k * d >= d
  {
    assert k * d == (k - 1) * d + d;
  }

  /**
   * C++ `a / d` for a positive divisor: the quotient rounded toward zero.
   * Its magnitude is the largest q with q * d <= |a|, and it is never of
   * the opposite sign to the dividend.
   */
  function TruncDiv(a: int, d: int): (q: int)
    requires d > 0
    ensures Abs(q) * d <= Abs(a) < (Abs(q) + 1) * d
    ensures a >= 0 ==> q >= 0
    ensures a <= 0 ==> q <= 0
  {
    NatDivMod(Abs(a), d);
    if a < 0 then -(Abs(a) / d) else Abs(a) / d
  }

  /**
   * C++ `a % d` for a positive divisor: the remainder of the truncating
   * division. It is smaller than the divisor in magnitude and, when not
   * zero, has the sign of the dividend.
   */
  function TruncMod(a: int, d: int): (r: int)
    requires d > 0
    ensures Abs(r) < d
    ensures a >= 0 ==> r >= 0
    ensures a <= 0 ==> r <= 0
  {
    NatDivMod(Abs(a), d);
    if a < 0 then -(Abs(a) % d) else Abs(a) % d
  }

  /** The identity C++ guarantees between its `/` and `%`: (a/d)*d + a%d == a. */
  lemma DivisionIdentity(a: int, d: int)
    requires d > 0
    ensures TruncDiv(a, d) * d + TruncMod(a, d) == a
  {
    var m := Abs(a) / d;
    NatDivMod(Abs(a), d);
    if a < 0 {
      assert TruncDiv(a, d) * d == -(m * d);
    }
  }

  /**
   * Truncating division is pinned down by the identity, the size of the
   * remainder and its sign: any (q, r) with those properties is the pair
   * C++ computes.
   */
  lemma TruncDivModUnique(a: int, d: int, q: int, r: int)
    requires d > 0
    requires q * d + r == a && Abs(r) < d
    requires a >= 0 ==> r >= 0
    requires a <= 0 ==> r <= 0
    ensures q == TruncDiv(a, d) && r == TruncMod(a, d)
  {
    DivisionIdentity(a, d);
    var q0, r0 := TruncDiv(a, d), TruncMod(a, d);
    // both remainders lie on the same side of zero and are below d
    assert -d < r - r0 < d;
    assert (q - q0) * d == r0 - r;
    if q > q0 {
      MultipleAtLeast(q - q0, d);
    } else if q < q0 {
      MultipleAtLeast(q0 - q, d);
    }
  }

  /** For non-negative dividends the C++ operators agree with Dafny's. */
  lemma TruncAgreesOnNonNegative(a: int, d: int)
    requires a >= 0 && d > 0
    ensures TruncDiv(a, d) == a / d && TruncMod(a, d) == a % d
  {
  }

  /**
   * For a negative dividend they do not: -150 / 100 is -1 with
   * remainder -50 in C++, while Euclidean division gives -2 remainder 50.
   */
  lemma TruncDiffersOnNegative()
    ensures TruncDiv(-150, 100) == -1 && TruncMod(-150, 100) == -50
    ensures -150 / 100 == -2 && -150 % 100 == 50
  {
  }
}
