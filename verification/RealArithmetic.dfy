/** Products and quotients of reals. */
module RealArithmetic {
  lemma QuotientIs(x: real, y: real, z: real)
    requires y != 0.0 && x == z * y
    ensures x / y == z
  {
  }

  lemma TimesPositive(x: real, y: real)
    requires x > 0.0 && y > 0.0
    ensures x * y > 0.0
  {
  }

  lemma SignOfFactor(x: real, y: real)
    requires y > 0.0
    ensures x * y >= 0.0 ==> x >= 0.0
    ensures x * y == 0.0 ==> x == 0.0
  {
  }

  lemma SquareSign(x: real, square: real)
    requires square == x * x
    ensures square >= 0.0 && (square == 0.0 <==> x == 0.0)
  {
    if x > 0.0 { ProductPositive(x, x, square); }
    if x < 0.0 { ProductPositive(-x, -x, square); }
  }

  lemma ProductPositive(x: real, y: real, product: real)
    requires x > 0.0 && y > 0.0 && product == x * y
    ensures product > 0.0
  {
  }

  lemma TimesNonNegative(x: real, y: real)
    requires x >= 0.0 && y >= 0.0
    ensures x * y >= 0.0
  {
  }

  lemma QuotientSign(x: real, y: real)
    requires x >= 0.0 && y > 0.0
    ensures x / y >= 0.0 && (x / y == 0.0 <==> x == 0.0)
  {
  }

  lemma QuotientTimes(x: real, y: real)
    requires y != 0.0
    ensures y * (x / y) == x
  {
  }

  lemma Cancels(d: real, x: real, y: real)
    requires d != 0.0 && x * d == y * d
    ensures x == y
  {
  }

  /** k times c, added up, for a real c. */
  function Portion(k: nat, c: real): real {
    if k == 0 then 0.0 else Portion(k - 1, c) + c
  }

  lemma {:induction false} PortionIs(k: nat, c: real)
    ensures Portion(k, c) == k as real * c
  {
    if k > 0 {
      PortionIs(k - 1, c);
      assert k as real * c == (k - 1) as real * c + c;
    }
  }

  lemma {:induction false} PortionsJoin(x: nat, y: nat, c: real)
    ensures Portion(x, c) + Portion(y, c) == Portion(x + y, c)
  {
    if y > 0 { PortionsJoin(x, y - 1, c); }
  }
}
