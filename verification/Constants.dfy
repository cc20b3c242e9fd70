/** Numerical thresholds of the library at double precision, and the facts about
    the transcendental functions that the closed forms rely on. */
module Constants {

  const EPSILON := 0.0000000001

  const EPSILON_PLUS := EPSILON * (1.0 + EPSILON)

  /** `sine` and `cosine` belong to the angle whose half has `sinHalf` and `cosHalf`. */
  predicate HalfAngle(sinHalf: real, cosHalf: real, sine: real, cosine: real) {
    && sinHalf * sinHalf + cosHalf * cosHalf == 1.0
    && sine == 2.0 * sinHalf * cosHalf
    && cosine == 1.0 - 2.0 * sinHalf * sinHalf
  }

  lemma Pythagoras(s: real, c: real, sine: real, cosine: real)
    requires HalfAngle(s, c, sine, cosine)
    ensures sine * sine + cosine * cosine == 1.0
  {}

  lemma NonzeroProduct(x: real, y: real)
    requires x != 0.0 && y != 0.0
    ensures x * y != 0.0
  {}

  lemma PositiveProduct(x: real, y: real, p: real)
    requires x > 0.0 && y > 0.0 && p == x * y
    ensures p > 0.0
  {}

  lemma SquarePositive(x: real, n: real)
    requires x != 0.0 && n == x * x
    ensures n > 0.0
  {
    if x > 0.0 {
      PositiveProduct(x, x, n);
    } else {
      PositiveProduct(-x, -x, n);
    }
  }

  lemma SquareSign(x: real, n: real)
    requires n == x * x
    ensures n >= 0.0 && (n == 0.0 <==> x == 0.0)
  {
    if x != 0.0 {
      SquarePositive(x, n);
    }
  }

  /** Above the threshold of the Taylor branch nothing vanishes. */
  lemma NonzeroSquare(theta: real)
    requires theta * theta >= EPSILON * EPSILON
    ensures theta != 0.0 && theta * theta != 0.0 && theta * theta * theta != 0.0
  {}

  lemma DivMul(x: real, y: real, q: real)
    requires y != 0.0 && q == x / y
    ensures q * y == x
  {}

  lemma Cancel(k: real, x: real)
    requires k != 0.0 && k * x == 0.0
    ensures x == 0.0
  {}

  lemma CancelEq(k: real, x: real, y: real)
    requires k != 0.0 && k * x == k * y
    ensures x == y
  {}
}
