/** Small facts about products and quotients of reals that the solver does
    not find on its own; the model's proofs cite them by name. */
module Reals {

  /** x², the source's `x**2`. Kept as a named function so that the solver
      treats every square as one term. */
  function Sq(x: real): real
  {
    x * x
  }

  /** x³, the source's `x**3`. */
  function Cube(x: real): real
  {
    x * x * x
  }

  lemma SqNonneg(x: real)
    ensures Sq(x) >= 0.0
  {
  }

  lemma SqPos(x: real)
    requires x != 0.0
    ensures Sq(x) > 0.0
  {
    SqNonneg(x);
    if Sq(x) == 0.0 {
      ZeroFactor(x, x);
    }
  }

  lemma ZeroFactor(a: real, b: real)
    requires a * b == 0.0
    ensures a == 0.0 || b == 0.0
  {
  }

  lemma MulNonzero(a: real, b: real)
    requires a != 0.0 && b != 0.0
    ensures a * b != 0.0
  {
  }

  lemma MulPos(a: real, b: real)
    ensures a > 0.0 && b > 0.0 ==> a * b > 0.0
  {
  }

  /** Multiplying by a positive factor keeps a strict order. */
  lemma MulLess(x: real, y: real, c: real)
    requires x < y && c > 0.0
    ensures x * c < y * c
  {
    MulPos(y - x, c);
    assert (y - x) * c == y * c - x * c;
  }

  /** Multiplying by a nonnegative factor keeps a weak order. */
  lemma MulLessEq(x: real, y: real, c: real)
    requires x <= y && c >= 0.0
    ensures x * c <= y * c
  {
    MulNonneg(y - x, c);
    assert (y - x) * c == y * c - x * c;
  }

  /** Division is multiplication by the reciprocal. */
  lemma DivAsMul(a: real, d: real)
    requires d != 0.0
    ensures a / d == a * (1.0 / d)
  {
  }

  /** Dividing by a positive number keeps a weak order. */
  lemma DivMonotone(a: real, b: real, c: real)
    requires a <= b && c > 0.0
    ensures a / c <= b / c
  {
    DivNonneg(b - a, c);
    assert (b - a) / c == b / c - a / c;
  }

  /** The same for two positive factors, x·a·b < y·a·b. */
  lemma MulLess2(x: real, y: real, a: real, b: real)
    requires x < y && a > 0.0 && b > 0.0
    ensures x * a * b < y * a * b
  {
    MulLess(x, y, a);
    MulLess(x * a, y * a, b);
  }

  /** u/(u + w) and w/(u + w) add up to one. */
  lemma FractionComplement(u: real, w: real)
    requires u + w != 0.0
    ensures u / (u + w) == 1.0 - w / (u + w)
  {
    var q := u + w;
    assert (u + w) / q == 1.0;
    assert u / q + w / q == (u + w) / q;
  }

  lemma MulNonneg(a: real, b: real)
    requires a >= 0.0 && b >= 0.0
    ensures a * b >= 0.0
  {
  }

  /** x·y is zero exactly when one factor is. */
  lemma MulZero(a: real, b: real)
    ensures a * b == 0.0 <==> a == 0.0 || b == 0.0
  {
    if a != 0.0 && b != 0.0 {
      MulNonzero(a, b);
    }
  }

  lemma DivMul(a: real, b: real)
    requires b != 0.0
    ensures (a / b) * b == a
  {
  }

  /** Dividing by a product is dividing by each factor in turn. */
  lemma DivByProduct(a: real, b: real, c: real)
    requires b != 0.0 && c != 0.0
    ensures b * c != 0.0
    ensures a / (b * c) == (a / c) / b
  {
    MulNonzero(b, c);
    var q := a / (b * c);
    assert q * (b * c) == a;
    assert (q * b) * c == a;
    assert q * b == a / c;
  }

  /** For a positive numerator, a larger positive divisor gives a smaller quotient. */
  lemma DivAntitone(c: real, x: real, y: real)
    requires c > 0.0 && 0.0 < x < y
    ensures c / y < c / x
  {
    var p := c / x;
    var q := c / y;
    assert p * x == c && q * y == c;
    assert q * y > q * x;
    assert p * x > q * x;
  }

  /** 1/(1+t) strictly decreases as t grows over the nonnegatives. */
  lemma ReciprocalAntitone(x: real, y: real)
    requires 0.0 <= x < y
    ensures 1.0 / (1.0 + y) < 1.0 / (1.0 + x)
  {
    DivAntitone(1.0, 1.0 + x, 1.0 + y);
  }

  /** The sign of (c·x)/d for a positive constant c: zero exactly when x is,
      and of the sign of x when d is positive. */
  lemma QuotientSign(c: real, x: real, d: real)
    requires c > 0.0 && d != 0.0
    ensures (c * x) / d == 0.0 <==> x == 0.0
    ensures d > 0.0 && x > 0.0 ==> (c * x) / d > 0.0
    ensures d > 0.0 && x >= 0.0 ==> (c * x) / d >= 0.0
  {
    DivMul(c * x, d);
    MulZero((c * x) / d, d);
    MulZero(c, x);
    if d > 0.0 && x > 0.0 {
      MulPos(c, x);
      DivPos(c * x, d);
    }
    if d > 0.0 && x >= 0.0 {
      MulNonneg(c, x);
      DivNonneg(c * x, d);
    }
  }

  /** A quotient of positives is positive. */
  lemma DivPos(a: real, b: real)
    ensures a > 0.0 && b > 0.0 ==> a / b > 0.0
  {
  }

  /** A nonnegative numerator over a positive divisor gives a nonnegative quotient. */
  lemma DivNonneg(a: real, b: real)
    requires a >= 0.0 && b > 0.0
    ensures a / b >= 0.0
  {
  }
}
