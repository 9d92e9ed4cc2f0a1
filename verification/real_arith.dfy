/** Small facts about ordered-field arithmetic on reals that the nonlinear
    steps of the component proofs rely on. */
module RealArith {

  lemma DivPosStrictMono(a: real, b: real, c: real)
    requires a < b && c > 0.0
    ensures a / c < b / c
  {
    assert b / c - a / c == (b - a) / c;
  }

  lemma DivPosMono(a: real, b: real, c: real)
    requires a <= b && c > 0.0
    ensures a / c <= b / c
  {
    assert b / c - a / c == (b - a) / c;
  }

  lemma MulPosStrictMono(a: real, b: real, c: real)
    requires a < b && c > 0.0
    ensures a * c < b * c
  {
    assert b * c - a * c == (b - a) * c;
  }

  /** The same order, stated on two given products x = a * c and y = b * c. */
  lemma MulPosStrictMonoAt(a: real, b: real, c: real, x: real, y: real)
    requires a < b && c > 0.0 && x == a * c && y == b * c
    ensures x < y
  {
    MulPosStrictMono(a, b, c);
  }

  lemma MulNonnegMono(a: real, b: real, c: real)
    requires a <= b && c >= 0.0
    ensures a * c <= b * c
  {
    assert b * c - a * c == (b - a) * c;
  }

  lemma DivByLargerStrict(x: real, c1: real, c2: real)
    requires x > 0.0 && 0.0 < c1 < c2
    ensures x / c2 < x / c1
  {
    assert x / c1 - x / c2 == x * (c2 - c1) / (c1 * c2);
    assert c1 * c2 > 0.0;
    assert x * (c2 - c1) > 0.0;
  }

  lemma DivByLargerMono(x: real, c1: real, c2: real)
    requires x >= 0.0 && 0.0 < c1 <= c2
    ensures x / c2 <= x / c1
  {
    assert x / c1 - x / c2 == x * (c2 - c1) / (c1 * c2);
    assert c1 * c2 > 0.0;
    assert x * (c2 - c1) >= 0.0;
  }

  lemma PosDivPos(a: real, b: real)
    requires a > 0.0 && b > 0.0
    ensures a / b > 0.0
  {
  }

  lemma PosMulPos(a: real, b: real)
    requires a > 0.0 && b > 0.0
    ensures a * b > 0.0
  {
  }

  /** a * b with its sign facts; keeping squares behind this function spares
      the solver the nonlinear rewriting of x * x. */
  function Mul(a: real, b: real): (r: real)
    ensures a > 0.0 && b > 0.0 ==> r > 0.0
    ensures a < 0.0 && b < 0.0 ==> r > 0.0
    ensures a == 0.0 || b == 0.0 ==> r == 0.0
    ensures a >= 0.0 && b >= 0.0 ==> r >= 0.0
    ensures r == a * b
  {
    if a < 0.0 && b < 0.0 then
      assert a * b == (-a) * (-b);
      a * b
    else if a > 0.0 && b > 0.0 then
      PosMulPos(a, b);
      a * b
    else a * b
  }

  /** The square x * x: never negative, and positive off zero. */
  function Sq(x: real): (r: real)
    ensures r >= 0.0
    ensures x != 0.0 ==> r > 0.0
    ensures r == x * x
  {
    Mul(x, x)
  }

  /** Multiplying by a non-negative factor keeps order (stated on Mul). */
  lemma MulLeMono(a: real, b: real, c: real)
    requires a <= b && c >= 0.0
    ensures Mul(a, c) <= Mul(b, c)
  {
    MulNonnegMono(a, b, c);
  }

  /** Multiplying by a positive factor keeps strict order (stated on Mul). */
  lemma MulLtMono(a: real, b: real, c: real)
    requires a < b && c > 0.0
    ensures Mul(a, c) < Mul(b, c)
  {
    MulPosStrictMono(a, b, c);
  }

  lemma MulComm(a: real, b: real)
    ensures Mul(a, b) == Mul(b, a)
  {
  }

  /** Squaring is monotone on the non-negative reals. */
  lemma SqMono(a: real, b: real)
    requires 0.0 <= a <= b
    ensures Sq(a) <= Sq(b)
  {
    MulLeMono(a, b, a);
    MulLeMono(a, b, b);
    MulComm(a, b);
  }

  /** A product of non-zero factors is non-zero. */
  lemma NonzeroProduct(a: real, b: real)
    requires a != 0.0 && b != 0.0
    ensures a * b != 0.0
  {
  }

  /** A non-zero factor cancels from both sides of an equation. */
  lemma FactorCancel(a: real, b: real, c: real)
    requires c != 0.0 && a * c == b * c
    ensures a == b
  {
    if a != b {
      NonzeroProduct(a - b, c);
      assert false;
    }
  }

  /** Dividing and multiplying back by a non-zero number cancels. */
  lemma DivMulCancel(a: real, b: real)
    requires b != 0.0
    ensures a / b * b == a
  {
  }

  /** A quotient of a number by a smaller positive one is at least 1. */
  lemma QuotientAtLeastOne(a: real, b: real)
    requires b > 0.0 && a >= b
    ensures a / b >= 1.0
  {
    DivPosMono(b, a, b);
  }

  /** Quotients by the same non-zero divisor add. */
  lemma DivAdd(a: real, b: real, c: real)
    requires c != 0.0
    ensures a / c + b / c == (a + b) / c
  {
  }
}
