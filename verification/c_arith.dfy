/** Integer arithmetic as the C and C++ sources do it. */
module CArith {

  function Abs(x: int): nat
  {
    if x >= 0 then x else -x
  }

  /**
   * C's `/` on integers (section 6.5.5 of ISO C99): the quotient truncated
   * toward zero, so that the remainder a - q * b is smaller than b in
   * magnitude and never of the opposite sign to a.
   */
  function CDiv(a: int, b: int): (q: int)
    requires b != 0
    ensures Abs(a - q * b) < Abs(b)
    ensures a - q * b == 0 || (a - q * b > 0) == (a > 0)
    ensures a >= 0 && b > 0 ==> q == a / b
    ensures (a >= 0) == (b > 0) ==> q >= 0
    ensures (a >= 0) != (b > 0) ==> q <= 0
  {
    var m := Abs(a) / Abs(b);
    var q := if (a >= 0) == (b > 0) then m else -m;
    RemainderOfMagnitudes(a, b, m, q);
    q
  }

  /** The remainder left by the magnitude quotient, signed as a, is below b in magnitude. */
  lemma RemainderOfMagnitudes(a: int, b: int, m: int, q: int)
    requires b != 0 && m == Abs(a) / Abs(b)
    requires q == if (a >= 0) == (b > 0) then m else -m
    ensures m >= 0
    ensures Abs(a - q * b) < Abs(b)
    ensures a - q * b == 0 || (a - q * b > 0) == (a > 0)
  {
    MagnitudeDivision(Abs(a), Abs(b));
    SignedProduct(a, b, m, q);
    SignedRemainder(a, b, Abs(a) - m * Abs(b), q * b);
  }

  /** Division of magnitudes leaves a remainder in [0, B). */
  lemma MagnitudeDivision(A: nat, B: nat)
    requires B > 0
    ensures A / B >= 0 && 0 <= A - (A / B) * B < B
    ensures (A / B) * B >= 0
  {
  }

  /** q * b is the magnitude product, negated when a is negative. */
  lemma SignedProduct(a: int, b: int, m: int, q: int)
    requires b != 0
    requires q == if (a >= 0) == (b > 0) then m else -m
    ensures q * b == if a >= 0 then m * Abs(b) else -(m * Abs(b))
  {
    var B: int := Abs(b);
    if a >= 0 && b > 0 {
    } else if a >= 0 {
      assert q * b == (-m) * (-B);
    } else if b > 0 {
      assert q * b == (-m) * B;
    } else {
      assert q * b == m * (-B);
    }
  }

  /** With a remainder rem in [0, |b|), a minus the signed product keeps a's sign and stays below |b|. */
  lemma SignedRemainder(a: int, b: int, rem: int, qb: int)
    requires b != 0 && 0 <= rem < Abs(b) && rem <= Abs(a)
    requires qb == if a >= 0 then Abs(a) - rem else -(Abs(a) - rem)
    ensures Abs(a - qb) < Abs(b)
    ensures a - qb == 0 || (a - qb > 0) == (a > 0)
  {
  }
}
