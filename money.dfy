/**
 * The `Money` value type of the operator-overloading exercises: an amount
 * held as two C++ `int`s, dollars and cents, with a verbatim
 * (dollars, cents) constructor, a total-cents constructor that splits the
 * total with C++'s truncating `/` and `%`, const getters, and field-wise
 * `==` and `!=`. A Money value is never changed after construction, so it
 * is a datatype; its datatype constructor is the (dollars, cents)
 * constructor.
 */
module Money {
  import opened CppInt

  /** `Money(dollars, cents)`: both fields are stored as given, with no carry and no clamping. */
  datatype Money = Money(dollars: Int32, cents: Int32)

  /** The amount a Money value denotes, in cents. */
  function Value(m: Money): int {
    m.dollars * 100 + m.cents
  }

  /**
   * The form the total-cents constructor produces: cents below 100 in
   * magnitude and never of the opposite sign to dollars, so a
   * non-negative amount has 0 <= cents <= 99 and a negative one has
   * -99 <= cents <= 0.
   */
  predicate SameSign(m: Money) {
    (m.dollars >= 0 && 0 <= m.cents <= 99) || (m.dollars <= 0 && -99 <= m.cents <= 0)
  }

  /**
   * `Money(total)`: dollars = total / 100 and cents = total % 100, both
   * rounded toward zero as C++ does. The result denotes exactly `total`;
   * for a non-negative total cents lies in 0..99, for a negative one
   * in -99..0 (so -150 gives dollars -1 and cents -50).
   */
  function FromTotal(total: Int32): (m: Money)
    ensures Value(m) == total
    ensures total >= 0 ==> m.dollars >= 0 && 0 <= m.cents <= 99
    ensures total < 0 ==> m.dollars <= 0 && -99 <= m.cents <= 0
  {
    DivisionIdentity(total, 100);
    Money(TruncDiv(total, 100), TruncMod(total, 100))
  }

  /**
   * A reference for the total-cents split that does not divide: whole
   * dollars are carried out of the total one at a time, toward zero,
   * until less than a dollar is left. The result is (dollars, cents).
   */
  function CarryDollars(total: int): (split: (int, int))
    ensures split.0 * 100 + split.1 == total
    ensures total >= 0 ==> split.0 >= 0 && 0 <= split.1 <= 99
    ensures total < 0 ==> split.0 <= 0 && -99 <= split.1 <= 0
    decreases Abs(total)
  {
    if total >= 100 then
      var rest := CarryDollars(total - 100);
      (rest.0 + 1, rest.1)
    else if total <= -100 then
      var rest := CarryDollars(total + 100);
      (rest.0 - 1, rest.1)
    else
      (0, total)
  }

  /** The total-cents constructor splits a total exactly as carrying whole dollars does. */
  lemma FromTotalMatchesCarry(total: Int32)
    ensures GetDollars(FromTotal(total)) == CarryDollars(total).0
    ensures GetCents(FromTotal(total)) == CarryDollars(total).1
  {
    var split := CarryDollars(total);
    TruncDivModUnique(total, 100, split.0, split.1);
  }

  /** `get_dollars() const`: the stored dollars, which with the cents rebuild the value. */
  function GetDollars(m: Money): (dollars: Int32)
    ensures Money(dollars, m.cents) == m
  {
    m.dollars
  }

  /** `get_cents() const`: the stored cents, which with the dollars rebuild the value. */
  function GetCents(m: Money): (cents: Int32)
    ensures Money(m.dollars, cents) == m
  {
    m.cents
  }

  /** `operator==`: true exactly when both dollars and cents match, that is, when the values are identical. */
  function Eq(lhs: Money, rhs: Money): (r: bool)
    ensures r <==> lhs == rhs
  {
    lhs.dollars == rhs.dollars && lhs.cents == rhs.cents
  }

  /**
   * `operator!=`, which the source writes as `!(rhs == *this)`, with the
   * operands swapped: it is still the exact negation of `lhs == rhs`.
   */
  function Ne(lhs: Money, rhs: Money): (r: bool)
    ensures r <==> !Eq(lhs, rhs)
    ensures r <==> lhs != rhs
  {
    !Eq(rhs, lhs)
  }

  /** The getters hand back what the (dollars, cents) constructor was given, unchanged. */
  lemma GettersReturnFields(dollars: Int32, cents: Int32)
    ensures GetDollars(Money(dollars, cents)) == dollars
    ensures GetCents(Money(dollars, cents)) == cents
  {
  }

  /** Money has no state besides its two fields: values whose getters agree are equal. */
  lemma GettersDetermine(a: Money, b: Money)
    requires GetDollars(a) == GetDollars(b) && GetCents(a) == GetCents(b)
    ensures Eq(a, b) && a == b
  {
  }

  /** The total-cents constructor is the (dollars, cents) constructor applied to C++'s `total/100` and `total%100`. */
  lemma FromTotalIsSplit(total: Int32)
    ensures FromTotal(total) == Money(TruncDiv(total, 100), TruncMod(total, 100))
    ensures total >= 0 ==> FromTotal(total) == Money(total / 100, total % 100)
  {
    if total >= 0 {
      TruncAgreesOnNonNegative(total, 100);
    }
  }

  /** What FromTotal returns is in SameSign form. */
  lemma FromTotalSameSign(total: Int32)
    ensures SameSign(FromTotal(total))
  {
  }

  /** Two SameSign values that denote the same amount are the same value. */
  lemma SameSignUnique(a: Money, b: Money)
    requires SameSign(a) && SameSign(b) && Value(a) == Value(b)
    ensures a == b
  {
  }

  /**
   * FromTotal is characterised without reference to division: it is the
   * only SameSign value denoting `total`.
   */
  lemma FromTotalUnique(total: Int32, m: Money)
    requires SameSign(m) && Value(m) == total
    ensures m == FromTotal(total)
  {
    SameSignUnique(m, FromTotal(total));
  }

  /** Round trip: splitting the amount a SameSign value denotes gives that value back. */
  lemma FromTotalOfValue(m: Money)
    requires SameSign(m) && InInt32(Value(m))
    ensures FromTotal(Value(m)) == m
  {
    FromTotalUnique(Value(m), m);
  }

  /**
   * On SameSign values `==` compares amounts: two of them are equal
   * exactly when they denote the same number of cents.
   */
  lemma EqIffSameValue(a: Money, b: Money)
    requires SameSign(a) && SameSign(b)
    ensures Eq(a, b) <==> Value(a) == Value(b)
  {
    if Value(a) == Value(b) {
      SameSignUnique(a, b);
    }
  }

  /** In general `==` implies the same amount, but not the converse. */
  lemma EqImpliesSameValue(a: Money, b: Money)
    requires Eq(a, b)
    ensures Value(a) == Value(b)
  {
  }

  /**
   * The (dollars, cents) constructor does not normalise: Money(1, 100) and
   * Money(2, 0) both denote 200 cents yet compare unequal, and the first
   * differs from Money(200).
   */
  lemma NoNormalisation()
    ensures Value(Money(1, 100)) == Value(Money(2, 0)) == 200
    ensures Ne(Money(1, 100), Money(2, 0))
    ensures FromTotal(200) == Money(2, 0) && Ne(Money(1, 100), FromTotal(200))
  {
    FromTotalUnique(200, Money(2, 0));
  }

  /** A negative total rounds toward zero: Money(-150) has dollars -1 and cents -50. */
  lemma NegativeTotalExample()
    ensures FromTotal(-150) == Money(-1, -50)
  {
    FromTotalUnique(-150, Money(-1, -50));
  }

  /** `==` is reflexive and symmetric, the fact `!=` relies on when it swaps its operands. */
  lemma EqReflexiveSymmetric(a: Money, b: Money)
    ensures Eq(a, a)
    ensures Eq(a, b) <==> Eq(b, a)
  {
  }
}
