/** The elementary functions the closed forms call, as one record of total functions, with
    the facts about the true ones that the theorems use. */
module Elementary {
  import opened Linear
  import opened Constants
  import opened SimDetails

  datatype Elementary = Elementary(
    sqrt: real -> real, sin: real -> real, cos: real -> real, atan2: (real, real) -> real,
    exp: real -> real, log: real -> real, pi: real)

  // ----- inequalities -----

  /** The inequality of Cusa and Huygens, 3 sin(x) / x < 2 + cos(x), and the alternating
      Taylor bounds of sine and cosine, all with x^2 in place of x. */
  predicate AngleBounds(x: real, sine: real, cosine: real) {
    var n := Prod(x, x);
    x != 0.0 ==>
      && 3.0 * Prod(x, sine) < Prod(n, 2.0 + cosine)
      && n - Prod(n, n) / 6.0 <= Prod(x, sine)
      && Prod(x, sine) <= n - Prod(n, n) / 6.0 + Prod(n, Prod(n, n)) / 120.0
      && 1.0 - n / 2.0 <= cosine
      && cosine <= 1.0 - n / 2.0 + Prod(n, n) / 24.0 - Prod(n, Prod(n, n)) / 720.0 + Prod(Prod(n, n), Prod(n, n)) / 40320.0
  }

  /** The hyperbolic form of the inequality, 3 sinh(x) / x < 2 + cosh(x), and 1 < sinh(x) / x,
      both times 2 x^2 e^x; and two Taylor bounds of e^-x, times e^x. */
  predicate ScaleBounds(x: real, scale: real) {
    var n := Prod(x, x);
    x != 0.0 ==>
      && 2.0 * Prod(n, scale) < Prod(x, Prod(scale, scale) - 1.0)
      && 3.0 * Prod(x, Prod(scale, scale) - 1.0) < Prod(n, Prod(scale, scale) + 4.0 * scale + 1.0)
      && Prod(scale, 1.0 - x + n / 2.0 - Prod(n, x) / 6.0) < 1.0
      && (x > 0.0 ==> Prod(scale, 1.0 - x + n / 2.0) > 1.0)
  }

  // ----- the facts, one instance at a time -----

  predicate RootFact(f: Elementary, x: real) {
    x >= 0.0 ==> f.sqrt(x) >= 0.0 && Prod(f.sqrt(x), f.sqrt(x)) == x
  }

  predicate AngleFact(f: Elementary, x: real) {
    && HalfAngle(f.sin(0.5 * x), f.cos(0.5 * x), f.sin(x), f.cos(x)) && AngleBounds(x, f.sin(x), f.cos(x))
    && f.sin(-x) == -f.sin(x) && f.cos(-x) == f.cos(x)
    && (0.0 < x <= 0.5 * f.pi ==> f.sin(x) > 0.0 && f.cos(x) >= 0.0)
    && (0.5 * f.pi < x <= f.pi ==> f.cos(x) < 0.0)
  }

  /** The next Taylor bound of the cosine. */
  predicate CosineFact(f: Elementary, x: real) {
    var n := Prod(x, x);
    f.cos(x) >= 1.0 - n / 2.0 + Prod(n, n) / 24.0 - Prod(n, Prod(n, n)) / 720.0
  }

  predicate SumFact(f: Elementary, x: real, y: real) {
    && f.sin(x + y) == Prod(f.sin(x), f.cos(y)) + Prod(f.cos(x), f.sin(y))
    && f.cos(x + y) == Prod(f.cos(x), f.cos(y)) - Prod(f.sin(x), f.sin(y))
  }

  /** atan2 finds the angle in (-pi, pi] of a point of the unit circle. An angle is at least as
      large as its sine, and an arctangent larger than the first two terms of its series, here
      times 3 x^3. */
  predicate ArcFact(f: Elementary, y: real, x: real) {
    Prod(y, y) + Prod(x, x) == 1.0 ==>
      && -f.pi < f.atan2(y, x) <= f.pi && f.sin(f.atan2(y, x)) == y && f.cos(f.atan2(y, x)) == x
      && (y > 0.0 ==> f.atan2(y, x) >= y) && (y < 0.0 ==> f.atan2(y, x) <= y)
      && (y > 0.0 && x > 0.0 ==> ArcSeries(y, x) < 3.0 * Prod(f.atan2(y, x), Prod(x, Prod(x, x))))
  }

  /** t - t^3 / 3 for t = y / x, times 3 x^3. */
  function ArcSeries(y: real, x: real): real {
    3.0 * Prod(y, Prod(x, x)) - Prod(y, Prod(y, y))
  }

  predicate ArcBackFact(f: Elementary, a: real) {
    -f.pi < a <= f.pi ==> f.atan2(f.sin(a), f.cos(a)) == a
  }

  predicate ExpFact(f: Elementary, x: real) {
    && f.exp(x) > 0.0 && (f.exp(x) == 1.0 <==> x == 0.0) && f.log(f.exp(x)) == x && ScaleBounds(x, f.exp(x))
    && (x > 0.0 ==> f.exp(f.log(x)) == x)
  }

  ghost predicate Facts(f: Elementary) {
    && 3.0 < f.pi < 3.2
    && (forall x :: RootFact(f, x)) && (forall x :: AngleFact(f, x)) && (forall x, y :: SumFact(f, x, y))
    && (forall x :: CosineFact(f, x))
    && (forall y, x :: ArcFact(f, y, x)) && (forall a :: ArcBackFact(f, a))
    && (forall x :: ExpFact(f, x))
  }

  lemma RootOf(f: Elementary, x: real)
    requires Facts(f) && x >= 0.0
    ensures f.sqrt(x) >= 0.0 && Prod(f.sqrt(x), f.sqrt(x)) == x
  {
    assert RootFact(f, x);
  }

  lemma AngleOf(f: Elementary, x: real)
    requires Facts(f)
    ensures HalfAngle(f.sin(0.5 * x), f.cos(0.5 * x), f.sin(x), f.cos(x)) && AngleBounds(x, f.sin(x), f.cos(x))
    ensures Prod(f.sin(x), f.sin(x)) + Prod(f.cos(x), f.cos(x)) == 1.0
  {
    hide Prod, AngleBounds, HalfAngle;
    assert AngleFact(f, x);
    Pythagoras(f.sin(0.5 * x), f.cos(0.5 * x), f.sin(x), f.cos(x));
    ProdIs(f.sin(x), f.sin(x));
    ProdIs(f.cos(x), f.cos(x));
  }

  lemma ParityOf(f: Elementary, x: real)
    requires Facts(f)
    ensures f.sin(-x) == -f.sin(x) && f.cos(-x) == f.cos(x)
  {
    hide Prod, AngleBounds, HalfAngle;
    assert AngleFact(f, x);
  }

  lemma CosineOf(f: Elementary, x: real)
    requires Facts(f)
    ensures var n := Prod(x, x); f.cos(x) >= 1.0 - n / 2.0 + Prod(n, n) / 24.0 - Prod(n, Prod(n, n)) / 720.0
  {
    hide Prod;
    assert CosineFact(f, x);
  }

  lemma SumOf(f: Elementary, x: real, y: real)
    requires Facts(f)
    ensures f.sin(x + y) == Prod(f.sin(x), f.cos(y)) + Prod(f.cos(x), f.sin(y))
    ensures f.cos(x + y) == Prod(f.cos(x), f.cos(y)) - Prod(f.sin(x), f.sin(y))
  {
    hide Prod;
    assert SumFact(f, x, y);
  }

  lemma QuadrantOf(f: Elementary, x: real)
    requires Facts(f)
    ensures 3.0 < f.pi < 3.2 && (0.0 < x <= 0.5 * f.pi ==> f.sin(x) > 0.0 && f.cos(x) >= 0.0)
    ensures 0.5 * f.pi < x <= f.pi ==> f.cos(x) < 0.0
  {
    hide Prod, AngleBounds, HalfAngle;
    assert AngleFact(f, x);
  }

  lemma ArcOf(f: Elementary, y: real, x: real)
    requires Facts(f) && Prod(y, y) + Prod(x, x) == 1.0
    ensures -f.pi < f.atan2(y, x) <= f.pi && f.sin(f.atan2(y, x)) == y && f.cos(f.atan2(y, x)) == x
    ensures (y > 0.0 ==> f.atan2(y, x) >= y) && (y < 0.0 ==> f.atan2(y, x) <= y)
    ensures y > 0.0 && x > 0.0 ==> ArcSeries(y, x) < 3.0 * Prod(f.atan2(y, x), Prod(x, Prod(x, x)))
  {
    hide Prod;
    assert ArcFact(f, y, x);
  }

  lemma ArcBack(f: Elementary, a: real)
    requires Facts(f) && -f.pi < a <= f.pi
    ensures f.atan2(f.sin(a), f.cos(a)) == a
  {
    assert ArcBackFact(f, a);
  }

  lemma ExpOf(f: Elementary, x: real, theta: real)
    requires Facts(f)
    ensures Transcendental(x, f.exp(x), f.sin(theta), f.cos(theta)) && ScaleBounds(x, f.exp(x)) && f.log(f.exp(x)) == x
  {
    AngleOf(f, theta);
    hide Prod, ScaleBounds, AngleBounds, HalfAngle;
    assert ExpFact(f, x);
  }

  lemma LogOf(f: Elementary, y: real)
    requires Facts(f) && y > 0.0
    ensures f.exp(f.log(y)) == y
  {
    hide Prod, ScaleBounds;
    assert ExpFact(f, y);
  }
}
