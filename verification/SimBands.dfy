/** Exactly where calcWInv inverts calcW: the thresholds of the two functions differ, and in
    between them the pair is wrong for every value of the elementary functions. */
module SimBands {
  import opened Linear
  import opened Constants
  import opened Skew
  import opened SimDetails
  import opened Elementary
  import So3
  import Sim3Exp

  /** Zero, or beyond the threshold of calcWInv. */
  predicate Exact(x: real) {
    x == 0.0 || Prod(x, x) >= EPSILON
  }

  /** What the values of the elementary functions satisfy; without scale, a full turn has no inverse. */
  predicate Values(theta: real, sigma: real, scale: real, sine: real, cosine: real) {
    && Transcendental(sigma, scale, sine, cosine) && AngleBounds(theta, sine, cosine) && ScaleBounds(sigma, scale)
    && (Prod(sigma, sigma) < EPSILON && Prod(theta, theta) >= EPSILON ==> cosine != 1.0)
  }

  function Composed(theta: real, sigma: real, scale: real, sine: real, cosine: real): Poly
    requires Values(theta, sigma, scale, sine, cosine)
  {
    PolyTimes(Prod(theta, theta), CalcW(theta, sigma, scale, sine, cosine), CalcWInv(theta, sigma, scale, sine, cosine))
  }

  /** In the plane, where Omega^2 = -theta^2, this much of a polynomial is to be one. */
  predicate PlanarOne(n: real, p: Poly) {
    p.a == 0.0 && p.c - Prod(n, p.b) == 1.0
  }

  lemma OneIsPlanarOne(n: real)
    ensures PlanarOne(n, ONE)
  {}

  /** calcWInv inverts calcW if and only if angle and logarithm of the scale are each zero or
      beyond the threshold on the square. */
  lemma InverseExactlyWhen(theta: real, sigma: real, scale: real, sine: real, cosine: real)
    requires Values(theta, sigma, scale, sine, cosine)
    ensures Composed(theta, sigma, scale, sine, cosine) == ONE <==> Exact(theta) && Exact(sigma)
  {
    if !Exact(sigma) {
      ScaleBand(theta, sigma, scale, sine, cosine);
    } else if Exact(theta) {
      BothExact(theta, sigma, scale, sine, cosine);
    } else if sigma != 0.0 {
      MixedBand(theta, sigma, scale, sine, cosine);
    } else {
      AngleBand(theta, scale, sine, cosine);
    }
  }

  lemma ValuesParts(theta: real, sigma: real, scale: real, sine: real, cosine: real)
    requires Values(theta, sigma, scale, sine, cosine)
    ensures scale > 0.0 && (sigma == 0.0 <==> scale == 1.0) && Prod(sine, sine) + Prod(cosine, cosine) == 1.0
    ensures Transcendental(sigma, scale, sine, cosine) && AngleBounds(theta, sine, cosine) && ScaleBounds(sigma, scale)
    ensures Prod(sigma, sigma) < EPSILON && Prod(theta, theta) >= EPSILON ==> cosine != 1.0
  {}

  lemma BothExact(theta: real, sigma: real, scale: real, sine: real, cosine: real)
    requires Values(theta, sigma, scale, sine, cosine) && Exact(theta) && Exact(sigma)
    ensures Composed(theta, sigma, scale, sine, cosine) == ONE
  {
    hide Prod, Values, Transcendental, AngleBounds, ScaleBounds, CalcW, CalcWInv, PolyTimes;
    ValuesParts(theta, sigma, scale, sine, cosine);
    POnes(0.0);
    if sigma == 0.0 && theta == 0.0 {
      NothingToDo(sine, cosine);
    } else if sigma == 0.0 {
      FlatInverse(theta, sine, cosine);
    } else if theta == 0.0 {
      StraightInverse(sigma, scale, sine, cosine);
    } else {
      GeneralInverse(theta, sigma, scale, sine, cosine);
    }
  }

  lemma NothingToDo(sine: real, cosine: real)
    requires Transcendental(0.0, 1.0, sine, cosine)
    ensures Prod(0.0, 0.0) < EPSILON
    ensures PolyTimes(0.0, CalcW(0.0, 0.0, 1.0, sine, cosine), CalcWInv(0.0, 0.0, 1.0, sine, cosine)) == ONE
  {}

  // ----- the scale is too small -----

  /** tanh(x) < x for x = sigma / 2, from the stronger inequality. */
  lemma TanhBound(sigma: real, scale: real)
    requires ScaleBounds(sigma, scale) && sigma != 0.0 && scale > 0.0 && scale != 1.0
    ensures Prod(scale, 2.0 - sigma) != 2.0 + sigma
  {
    if Prod(scale, 2.0 - sigma) == 2.0 + sigma {
      var h := Prod(Prod(sigma, sigma), Prod(scale, scale) + 4.0 * scale + 1.0) - 3.0 * Prod(sigma, Prod(scale, scale) - 1.0);
      var m, r := scale + 1.0, scale - 1.0;
      PTanh(sigma, scale, m, r, h);
      NonzeroSquareOf(r);
      NonzeroSquareOf(Prod(r, r));
      NonzeroSquareOf(m);
      ProductSign(Prod(m, m), h);
      hide Prod;
    }
  }

  lemma NonzeroSquareOf(x: real)
    requires x != 0.0
    ensures Prod(x, x) > 0.0
  {
    SquarePositive(x, Prod(x, x));
  }

  lemma PTanh(sigma: real, scale: real, m: real, r: real, h: real)
    requires m == scale + 1.0 && r == scale - 1.0 && Prod(scale, 2.0 - sigma) == 2.0 + sigma
    requires h == Prod(Prod(sigma, sigma), Prod(scale, scale) + 4.0 * scale + 1.0) - 3.0 * Prod(sigma, Prod(scale, scale) - 1.0)
    ensures Prod(Prod(m, m), h) == -2.0 * Prod(Prod(r, r), Prod(r, r))
  {
    assert sigma * m == 2.0 * r;
    var e := scale * scale + 4.0 * scale + 1.0;
    assert m * m * h == (sigma * m) * (sigma * m) * e - 3.0 * (sigma * m) * (m * m * r);
    assert (sigma * m) * (sigma * m) * e == 4.0 * (r * r * e);
    assert 3.0 * (sigma * m) * (m * m * r) == 6.0 * (r * r) * (m * m);
    assert 4.0 * e - 6.0 * (m * m) == -2.0 * (r * r);
    assert m * m * h == (r * r) * (4.0 * e - 6.0 * (m * m));
  }

  /** sigma between zero and the threshold: already the coefficient of I is wrong. */
  lemma ScaleBand(theta: real, sigma: real, scale: real, sine: real, cosine: real)
    requires Values(theta, sigma, scale, sine, cosine) && !Exact(sigma)
    ensures Composed(theta, sigma, scale, sine, cosine).c != 1.0
  {
    ValuesParts(theta, sigma, scale, sine, cosine);
    if Small(sigma) {
      TaylorScale(theta, sigma, scale, sine, cosine);
    } else {
      AxisCoefficient(theta, sigma, scale, sine, cosine);
      TanhBound(sigma, scale);
    }
    hide Prod, CalcW, CalcWInv, Values, ScaleBounds, AngleBounds;
  }

  lemma TaylorScale(theta: real, sigma: real, scale: real, sine: real, cosine: real)
    requires Values(theta, sigma, scale, sine, cosine) && !Exact(sigma) && Small(sigma)
    ensures Composed(theta, sigma, scale, sine, cosine).c == 1.0 - 0.5 * sigma
  {
    POnes(1.0 - 0.5 * sigma);
    hide Prod;
  }

  // ----- no scale, and the angle is too small -----

  lemma AngleBand(theta: real, scale: real, sine: real, cosine: real)
    requires Values(theta, 0.0, scale, sine, cosine) && !Exact(theta)
    ensures Composed(theta, 0.0, scale, sine, cosine) != ONE
  {
    ValuesParts(theta, 0.0, scale, sine, cosine);
    AngleGap(theta, sine, cosine, Prod(theta, theta));
    if Small(theta) {
      TaylorAngle(theta, sine, cosine);
      NonzeroSquareOf(theta);
    } else {
      AngleEquation(theta, sine, cosine);
    }
    hide Prod, CalcW, CalcWInv, PolyTimes, Values, AngleBounds;
  }

  lemma TaylorAngle(theta: real, sine: real, cosine: real)
    requires Values(theta, 0.0, 1.0, sine, cosine) && !Exact(theta) && Small(theta)
    ensures 24.0 * Composed(theta, 0.0, 1.0, sine, cosine).a == Prod(theta, theta)
  {
    POnes(0.0);
    assert Composed(theta, 0.0, 1.0, sine, cosine) == PolyTimes(Prod(theta, theta), Poly(1.0, 0.5, 1.0 / 6.0), Poly(1.0, -0.5, 1.0 / 12.0));
    PTaylorAngle(Prod(theta, theta));
    hide Prod;
  }

  lemma PTaylorAngle(n: real)
    ensures 24.0 * PolyTimes(n, Poly(1.0, 0.5, 1.0 / 6.0), Poly(1.0, -0.5, 1.0 / 12.0)).a == n
  {}

  /** In the range of log a small versine means a small angle. */
  lemma SmallVersine(theta: real, sine: real, cosine: real)
    requires AngleBounds(theta, sine, cosine) && theta != 0.0 && Prod(theta, theta) < 11.0 && 1.0 - cosine < EPSILON
    ensures Prod(theta, theta) < 1.0
  {
    hide Prod;
    var n := Prod(theta, theta);
    if n >= 1.0 {
      ProductSign(n - 1.0, 11.0 - n);
      ProductSign(n, n);
      ProductSign(n, Prod(n, n));
      ProductSign(11.0 - n, Prod(n, Prod(n, n)));
      PVersineBound(n);
    }
  }

  lemma PVersineBound(n: real)
    ensures Prod(n - 1.0, 11.0 - n) == 12.0 * n - 11.0 - Prod(n, n)
    ensures Prod(11.0 - n, Prod(n, Prod(n, n))) == 11.0 * Prod(n, Prod(n, n)) - Prod(Prod(n, n), Prod(n, n))
  {}

  lemma PiBound(theta: real, pi: real)
    requires -pi < theta <= pi < 3.2
    ensures Prod(theta, theta) < 11.0
  {
    ProductSign(3.2 - theta, 3.2 + theta);
    assert Prod(3.2 - theta, 3.2 + theta) == 10.24 - Prod(theta, theta);
    hide Prod;
  }

  /** x sin(x) < x^2. */
  lemma SineBelow(theta: real, sine: real, cosine: real, n: real, p: real)
    requires theta != 0.0 && n == Prod(theta, theta) && p == Prod(theta, sine)
    requires AngleBounds(theta, sine, cosine) && Prod(sine, sine) + Prod(cosine, cosine) == 1.0
    ensures p < n
  {
    SquareSign(sine, Prod(sine, sine));
    SquareSign(theta, n);
    if cosine > 1.0 {
      PositiveProduct(cosine - 1.0, cosine + 1.0, Prod(cosine, cosine) - 1.0);
    }
    ProductSign(n, 1.0 - cosine);
    PThird(n, cosine);
    hide Prod;
  }

  lemma PThird(n: real, cosine: real)
    ensures Prod(n, 2.0 + cosine) + Prod(n, 1.0 - cosine) == 3.0 * n
  {}

  /** The Taylor coefficient 1/12 is smaller than the true one. */
  lemma AngleGap(theta: real, sine: real, cosine: real, n: real)
    requires AngleBounds(theta, sine, cosine) && theta != 0.0 && n == Prod(theta, theta) < 1.0
    ensures n > 0.0 && cosine < 1.0 && 6.0 * (Prod(theta, sine) + 2.0 * cosine - 2.0) < Prod(n, cosine - 1.0)
  {
    NonzeroSquareOf(theta);
    var m2 := Prod(n, n);
    var m3, m4 := Prod(n, m2), Prod(m2, m2);
    var m5 := Prod(n, m4);
    ProductSign(n, n);
    ProductSign(n, m2);
    ProductSign(m2, m2);
    ProductSign(n, m4);
    ProductSign(1.0 - n, n);
    ProductSign(1.0 - n, m2);
    ProductSign(1.0 - n, m3);
    PShrinking(n);
    var bound := 1.0 - n / 2.0 + m2 / 24.0 - m3 / 720.0 + m4 / 40320.0;
    PGapSum(n, cosine, bound);
    ProductSign(12.0 - n, bound - cosine);
    hide Prod;
  }

  lemma PShrinking(n: real)
    ensures Prod(1.0 - n, n) == n - Prod(n, n) && Prod(1.0 - n, Prod(n, n)) == Prod(n, n) - Prod(n, Prod(n, n))
    ensures Prod(1.0 - n, Prod(n, Prod(n, n))) == Prod(n, Prod(n, n)) - Prod(Prod(n, n), Prod(n, n))
  {}

  lemma PGapSum(n: real, cosine: real, bound: real)
    requires bound == 1.0 - n / 2.0 + Prod(n, n) / 24.0 - Prod(n, Prod(n, n)) / 720.0 + Prod(Prod(n, n), Prod(n, n)) / 40320.0
    ensures Prod(12.0 - n, bound - cosine) == Prod(12.0 - n, bound) - 12.0 * cosine + Prod(n, cosine)
    ensures Prod(12.0 - n, bound) == 12.0 - 7.0 * n + Prod(n, n) - 7.0 / 120.0 * Prod(n, Prod(n, n))
                                   + 17.0 / 10080.0 * Prod(Prod(n, n), Prod(n, n)) - Prod(n, Prod(Prod(n, n), Prod(n, n))) / 40320.0
    ensures Prod(n, cosine - 1.0) == Prod(n, cosine) - n
  {
    PBoundTimes(n);
  }

  lemma PBoundTimes(n: real)
    ensures Prod(n, 1.0 - n / 2.0 + Prod(n, n) / 24.0 - Prod(n, Prod(n, n)) / 720.0 + Prod(Prod(n, n), Prod(n, n)) / 40320.0)
         == n - Prod(n, n) / 2.0 + Prod(n, Prod(n, n)) / 24.0 - Prod(Prod(n, n), Prod(n, n)) / 720.0 + Prod(n, Prod(Prod(n, n), Prod(n, n))) / 40320.0
  {}

  // ----- a large scale, and the angle is too small -----

  lemma MixedBand(theta: real, sigma: real, scale: real, sine: real, cosine: real)
    requires Values(theta, sigma, scale, sine, cosine) && Prod(sigma, sigma) >= EPSILON && !Exact(theta)
    ensures !PlanarOne(Prod(theta, theta), Composed(theta, sigma, scale, sine, cosine)) && Composed(theta, sigma, scale, sine, cosine) != ONE
  {
    OneIsPlanarOne(Prod(theta, theta));
    if Small(theta) {
      MixedTaylor(theta, sigma, scale, sine, cosine);
    } else {
      MixedClosed(theta, sigma, scale, sine, cosine);
    }
  }

  /** Both functions give the coefficients of theta = 0, whose product is right for Omega^3 = 0 only. */
  lemma MixedTaylor(theta: real, sigma: real, scale: real, sine: real, cosine: real)
    requires Values(theta, sigma, scale, sine, cosine) && Prod(sigma, sigma) >= EPSILON && !Exact(theta) && Small(theta)
    ensures !PlanarOne(Prod(theta, theta), Composed(theta, sigma, scale, sine, cosine))
  {
    hide Prod, Quotient, PolyTimes, Values, Transcendental, AngleBounds, ScaleBounds;
    ValuesParts(theta, sigma, scale, sine, cosine);
    LargeIsNotSmall(sigma);
    POnes(0.0);
    var w, x := CalcW(0.0, sigma, scale, sine, cosine), CalcWInv(0.0, sigma, scale, sine, cosine);
    assert w == CalcW(theta, sigma, scale, sine, cosine) && x == CalcWInv(theta, sigma, scale, sine, cosine);
    StraightInverse(sigma, scale, sine, cosine);
    StraightLast(sigma, scale, sine, cosine, x.b);
    hide CalcW, CalcWInv;
    NonzeroSquareOf(theta);
    NilpotentOnly(Prod(theta, theta), w, x);
  }

  lemma NilpotentOnly(n: real, w: Poly, x: Poly)
    requires n != 0.0 && x.b != 0.0 && PolyTimes(0.0, w, x) == ONE
    ensures !PlanarOne(n, PolyTimes(n, w, x))
  {
    if PlanarOne(n, PolyTimes(n, w, x)) {
      PZeroProduct(w.c, w.a, w.b, x.c, x.a, x.b);
      PShift(n, w, x);
      POnes(n);
      PCancel(n, Prod(w.a, x.b) + Prod(w.b, x.a), 0.0);
      PCancel(n, PolyTimes(n, w, x).b, 0.0);
      PCancel(n, Prod(w.b, x.b), 0.0);
      POnes(x.b);
      PSym(w.b, x.b);
      PCancel(x.b, w.b, 0.0);
      POnes(x.a);
      PSym(w.a, x.b);
      PCancel(x.b, w.a, 0.0);
      POnes(x.c);
      PSym(w.c, x.b);
      PCancel(x.b, w.c, 0.0);
      hide Prod, PolyTimes;
    }
  }

  lemma PShift(n: real, w: Poly, x: Poly)
    ensures PolyTimes(n, w, x).a == PolyTimes(0.0, w, x).a - Prod(n, Prod(w.a, x.b) + Prod(w.b, x.a))
    ensures PolyTimes(n, w, x).b == PolyTimes(0.0, w, x).b - Prod(n, Prod(w.b, x.b))
  {}

  lemma StraightLast(sigma: real, scale: real, sine: real, cosine: real, b: real)
    requires Transcendental(sigma, scale, sine, cosine) && ScaleBounds(sigma, scale) && Prod(sigma, sigma) >= EPSILON
    requires b == CalcWInv(0.0, sigma, scale, sine, cosine).b
    ensures b != 0.0
  {
    LargeIsNotSmall(sigma);
    TanhBound(sigma, scale);
    POnes(0.0);
    CubeOfDifference(scale);
    var d := 2.0 * Prod(Prod(scale, scale), scale) - 6.0 * Prod(scale, scale) + 6.0 * scale - 2.0;
    assert Prod(b, d) == Prod(Prod(scale, scale), sigma) - 2.0 * Prod(scale, scale) + Prod(scale, sigma) + 2.0 * scale by {
      hide Prod;
    }
    PStraightLast(sigma, scale);
    POnes(d);
    if Prod(scale, Prod(scale, 2.0 - sigma) - 2.0 - sigma) == 0.0 {
      POnes(scale);
      PCancel(scale, Prod(scale, 2.0 - sigma) - 2.0 - sigma, 0.0);
    }
    hide Prod, CalcWInv, ScaleBounds;
  }

  lemma PStraightLast(sigma: real, scale: real)
    ensures Prod(Prod(scale, scale), sigma) - 2.0 * Prod(scale, scale) + Prod(scale, sigma) + 2.0 * scale
         == -Prod(scale, Prod(scale, 2.0 - sigma) - 2.0 - sigma)
  {}

  /** W is general and its inverse has the coefficients of theta = 0. If they were inverse, the
      latter would be those of the general inverse; both inequalities together forbid it. */
  lemma MixedClosed(theta: real, sigma: real, scale: real, sine: real, cosine: real)
    requires Values(theta, sigma, scale, sine, cosine) && Prod(sigma, sigma) >= EPSILON && !Exact(theta) && !Small(theta)
    ensures !PlanarOne(Prod(theta, theta), Composed(theta, sigma, scale, sine, cosine))
  {
    hide Prod, Quotient, PolyTimes, Values, Transcendental, AngleBounds, ScaleBounds;
    ValuesParts(theta, sigma, scale, sine, cosine);
    LargeIsNotSmall(sigma);
    var w, x := CalcW(theta, sigma, scale, sine, cosine), CalcWInv(theta, sigma, scale, sine, cosine);
    var n, u, v, r := Prod(theta, theta), Prod(scale, cosine) - 1.0, Prod(scale, sine), scale - 1.0;
    NonzeroSquareOf(r);
    assert Prod(x.a, Prod(r, r)) == Prod(-sigma, scale) + scale - 1.0;
    hide CalcWInv;
    WFacts(theta, sigma, scale, sine, cosine, n, u, v, w, w.c - Prod(n, w.b));
    hide CalcW;
    Denominators(theta, sigma);
    if PlanarOne(n, PolyTimes(n, w, x)) {
      InverseIsConjugate(theta, sigma, u, v, n, w, x);
      AngleGap(theta, sine, cosine, n);
      ConjugateDiffers(theta, sigma, scale, sine, cosine, n, x.a);
    }
  }

  /** With P = u sigma + v theta and Q = v sigma - u theta, the general inverse has a theta d = -Q. */
  lemma InverseIsConjugate(theta: real, sigma: real, u: real, v: real, n: real, w: Poly, x: Poly)
    requires n == Prod(theta, theta) && theta != 0.0 && n + Prod(sigma, sigma) > 0.0 && PlanarOne(n, PolyTimes(n, w, x))
    requires Prod(w.a, Prod(theta, n + Prod(sigma, sigma))) == Prod(v, sigma) - Prod(u, theta)
    requires Prod(w.c - Prod(n, w.b), n + Prod(sigma, sigma)) == Prod(u, sigma) + Prod(v, theta)
    ensures Prod(x.a, Prod(theta, Prod(u, u) + Prod(v, v))) == Prod(theta, u) - Prod(sigma, v)
  {
    hide Prod, PolyTimes;
    var g, y, c, d := w.c - Prod(n, w.b), x.c - Prod(n, x.b), n + Prod(sigma, sigma), Prod(u, u) + Prod(v, v);
    PComplexEntries(n, w, x);
    POnes(n);
    PSolve(n, g, y, w.a, x.a);
    PSquaredEntries(theta, sigma, n, c, g, w.a);
    PSquaresSum(theta, sigma, u, v);
    PClearTwo(x.a, w.a, Prod(g, g) + Prod(n, Prod(w.a, w.a)), c, d);
    NonzeroProd(c, c);
    PCancel(c, Prod(x.a, d), -Prod(w.a, c));
    PThetaTimes(theta, x.a, w.a, c, d);
    PSym(u, theta);
    PSym(v, sigma);
  }

  lemma PComplexEntries(n: real, w: Poly, x: Poly)
    ensures var g, y, p := w.c - Prod(n, w.b), x.c - Prod(n, x.b), PolyTimes(n, w, x);
            && p.a == Prod(g, x.a) + Prod(w.a, y)
            && p.c - Prod(n, p.b) == Prod(g, y) - Prod(n, Prod(w.a, x.a))
  {}

  lemma PSolve(n: real, g: real, y: real, a: real, x: real)
    requires Prod(g, x) + Prod(a, y) == 0.0 && Prod(g, y) - Prod(n, Prod(a, x)) == 1.0
    ensures Prod(x, Prod(g, g) + Prod(n, Prod(a, a))) == -a
  {
    assert x * (g * g + n * (a * a)) == g * (g * x + a * y) - a * (g * y - n * (a * x));
  }

  lemma PSquaredEntries(theta: real, sigma: real, n: real, c: real, g: real, a: real)
    requires n == Prod(theta, theta)
    ensures Prod(Prod(c, c), Prod(g, g) + Prod(n, Prod(a, a)))
         == Prod(Prod(g, c), Prod(g, c)) + Prod(Prod(a, Prod(theta, c)), Prod(a, Prod(theta, c)))
  {}

  lemma PSquaresSum(theta: real, sigma: real, u: real, v: real)
    ensures Prod(Prod(u, sigma) + Prod(v, theta), Prod(u, sigma) + Prod(v, theta))
          + Prod(Prod(v, sigma) - Prod(u, theta), Prod(v, sigma) - Prod(u, theta))
         == Prod(Prod(theta, theta) + Prod(sigma, sigma), Prod(u, u) + Prod(v, v))
  {}

  lemma PClearTwo(x: real, a: real, e: real, c: real, d: real)
    requires Prod(x, e) == -a && Prod(Prod(c, c), e) == Prod(c, d) && c != 0.0
    ensures Prod(c, Prod(x, d)) == Prod(c, -Prod(a, c))
  {
    assert c * (x * d) == x * (c * c * e);
    assert x * (c * c * e) == c * c * (x * e);
  }

  lemma PThetaTimes(theta: real, x: real, a: real, c: real, d: real)
    requires Prod(x, d) == -Prod(a, c)
    ensures Prod(x, Prod(theta, d)) == -Prod(a, Prod(theta, c))
  {
    assert x * (theta * d) == theta * (x * d);
  }

  lemma ConjugateDiffers(theta: real, sigma: real, scale: real, sine: real, cosine: real, n: real, a: real)
    requires theta != 0.0 && n == Prod(theta, theta) > 0.0 && cosine < 1.0 && sigma != 0.0 && scale > 0.0 && scale != 1.0
    requires Prod(sine, sine) + Prod(cosine, cosine) == 1.0 && AngleBounds(theta, sine, cosine) && ScaleBounds(sigma, scale)
    requires Prod(a, Prod(scale - 1.0, scale - 1.0)) == Prod(-sigma, scale) + scale - 1.0
    ensures var u, v := Prod(scale, cosine) - 1.0, Prod(scale, sine);
            Prod(a, Prod(theta, Prod(u, u) + Prod(v, v))) != Prod(theta, u) - Prod(sigma, v)
  {
    var u, v := Prod(scale, cosine) - 1.0, Prod(scale, sine);
    if Prod(a, Prod(theta, Prod(u, u) + Prod(v, v))) != Prod(theta, u) - Prod(sigma, v) {
      return;
    }
    var r, k, p := scale - 1.0, 1.0 - cosine, Prod(theta, sine);
    var gap := 3.0 * (n - p) - Prod(n, k);
    var h := Prod(Prod(sigma, sigma), Prod(scale, scale) + 4.0 * scale + 1.0) - 3.0 * Prod(sigma, Prod(scale, scale) - 1.0);
    PChord(scale, sine, cosine, k, r);
    PCusa(n, cosine, k);
    PEquate(theta, sigma, scale, sine, n, a, r, k, p, Prod(r, r) + 2.0 * Prod(scale, k));
    PCancel(scale, Prod(Prod(r, r), Prod(n, k) - Prod(sigma, n - p)) + 2.0 * Prod(Prod(k, n), r - Prod(sigma, scale)), 0.0) by { POnes(scale); }
    PFinal(sigma, scale, n, k, p, r, gap, h);
    NonzeroSquareOf(sigma);
    NonzeroSquareOf(r);
    ProductSign(n, k);
    ProductSign(Prod(n, k), h);
    ProductSign(Prod(sigma, sigma), gap);
    ProductSign(Prod(Prod(sigma, sigma), gap), Prod(r, r));
    hide Prod;
  }

  lemma PChord(scale: real, sine: real, cosine: real, k: real, r: real)
    requires k == 1.0 - cosine && r == scale - 1.0 && Prod(sine, sine) + Prod(cosine, cosine) == 1.0
    ensures Prod(scale, cosine) - 1.0 == r - Prod(scale, k)
    ensures var u, v := Prod(scale, cosine) - 1.0, Prod(scale, sine);
            Prod(u, u) + Prod(v, v) == Prod(r, r) + 2.0 * Prod(scale, k)
  {
    assert scale * scale * (sine * sine) == scale * scale * (1.0 - cosine * cosine);
  }

  lemma PCusa(n: real, cosine: real, k: real)
    requires k == 1.0 - cosine
    ensures Prod(n, 2.0 + cosine) == 3.0 * n - Prod(n, k)
  {}

  lemma PEquate(theta: real, sigma: real, scale: real, sine: real, n: real, a: real, r: real, k: real, p: real, d: real)
    requires n == Prod(theta, theta) && p == Prod(theta, sine) && d == Prod(r, r) + 2.0 * Prod(scale, k)
    requires Prod(a, Prod(r, r)) == Prod(-sigma, scale) + r
    requires Prod(a, Prod(theta, d)) == Prod(theta, r - Prod(scale, k)) - Prod(sigma, Prod(scale, sine))
    ensures Prod(scale, Prod(Prod(r, r), Prod(n, k) - Prod(sigma, n - p)) + 2.0 * Prod(Prod(k, n), r - Prod(sigma, scale))) == 0.0
  {
    PNormalise(theta, sigma, scale, sine, n, a, r, k, p, d);
    PCollect(sigma, scale, n, r, k, p, d);
    hide Prod;
  }

  lemma PNormalise(theta: real, sigma: real, scale: real, sine: real, n: real, a: real, r: real, k: real, p: real, d: real)
    requires n == Prod(theta, theta) && p == Prod(theta, sine)
    requires Prod(a, Prod(r, r)) == Prod(-sigma, scale) + r
    requires Prod(a, Prod(theta, d)) == Prod(theta, r - Prod(scale, k)) - Prod(sigma, Prod(scale, sine))
    ensures Prod(Prod(-sigma, scale) + r, Prod(n, d)) == Prod(Prod(r, r), Prod(n, r - Prod(scale, k)) - Prod(sigma, Prod(scale, p)))
  {
    assert a * (r * r) * (theta * theta * d) == r * r * (theta * (a * (theta * d)));
  }

  lemma PCollect(sigma: real, scale: real, n: real, r: real, k: real, p: real, d: real)
    requires d == Prod(r, r) + 2.0 * Prod(scale, k)
    ensures Prod(scale, Prod(Prod(r, r), Prod(n, k) - Prod(sigma, n - p)) + 2.0 * Prod(Prod(k, n), r - Prod(sigma, scale)))
         == Prod(Prod(-sigma, scale) + r, Prod(n, d)) - Prod(Prod(r, r), Prod(n, r - Prod(scale, k)) - Prod(sigma, Prod(scale, p)))
  {}

  lemma PFinal(sigma: real, scale: real, n: real, k: real, p: real, r: real, gap: real, h: real)
    requires r == scale - 1.0 && gap == 3.0 * (n - p) - Prod(n, k)
    requires h == Prod(Prod(sigma, sigma), Prod(scale, scale) + 4.0 * scale + 1.0) - 3.0 * Prod(sigma, Prod(scale, scale) - 1.0)
    requires Prod(Prod(r, r), Prod(n, k) - Prod(sigma, n - p)) + 2.0 * Prod(Prod(k, n), r - Prod(sigma, scale)) == 0.0
    ensures Prod(Prod(n, k), h) + Prod(Prod(Prod(sigma, sigma), gap), Prod(r, r)) == 0.0
  {
    var m := Prod(r, r);
    PShifted(scale, r);
    PSym(k, n);
    PFinalTerms(sigma, scale, Prod(n, k), n - p, m, r);
    PFinalScaled(sigma, scale, Prod(n, k), n - p, m, r);
    POnes(sigma);
    hide Prod;
  }

  lemma PShifted(scale: real, r: real)
    requires r == scale - 1.0
    ensures Prod(scale, scale) + 4.0 * scale + 1.0 == Prod(r, r) + 6.0 * scale && Prod(scale, scale) - 1.0 == Prod(r, r) + 2.0 * r
  {}

  lemma PFinalTerms(sigma: real, scale: real, z: real, g: real, m: real, r: real)
    ensures Prod(z, Prod(Prod(sigma, sigma), m + 6.0 * scale) - 3.0 * Prod(sigma, m + 2.0 * r))
         == Prod(Prod(sigma, sigma), Prod(z, m)) + 6.0 * Prod(Prod(sigma, sigma), Prod(z, scale)) - 3.0 * Prod(sigma, Prod(z, m)) - 6.0 * Prod(sigma, Prod(z, r))
    ensures Prod(Prod(Prod(sigma, sigma), 3.0 * g - z), m) == 3.0 * Prod(Prod(sigma, sigma), Prod(g, m)) - Prod(Prod(sigma, sigma), Prod(z, m))
  {}

  lemma PFinalScaled(sigma: real, scale: real, z: real, g: real, m: real, r: real)
    ensures Prod(sigma, Prod(m, z - Prod(sigma, g)) + 2.0 * Prod(z, r - Prod(sigma, scale)))
         == Prod(sigma, Prod(z, m)) - Prod(Prod(sigma, sigma), Prod(g, m)) + 2.0 * Prod(sigma, Prod(z, r)) - 2.0 * Prod(Prod(sigma, sigma), Prod(z, scale))
  {}

  // ----- the matrices -----

  lemma BandCoefficient(theta: real, sigma: real, scale: real, sine: real, cosine: real)
    requires Values(theta, sigma, scale, sine, cosine)
    ensures !Exact(sigma) ==> Composed(theta, sigma, scale, sine, cosine).c != 1.0
  {
    if !Exact(sigma) {
      ScaleBand(theta, sigma, scale, sine, cosine);
    }
  }

  /** The translation that log computes is the one exp used, for every translation, if and only
      if angle and logarithm of the scale are each zero or beyond the threshold on the square. */
  lemma MatricesInverseExactlyWhen(omega: Vec3, theta: real, sigma: real, scale: real, sine: real, cosine: real)
    requires Values(theta, sigma, scale, sine, cosine) && Prod(theta, theta) == SquaredNorm(omega)
    ensures Transcendental(sigma, scale, sine, cosine)
    ensures var w, x := Sim3Exp.W(omega, theta, sigma, scale, sine, cosine), Sim3Exp.WInv(omega, theta, sigma, scale, sine, cosine);
            && (Mul(x, w) == IDENTITY <==> Exact(theta) && Exact(sigma))
            && (Mul(w, x) == IDENTITY <==> Exact(theta) && Exact(sigma))
            && ((forall v :: Apply(x, Apply(w, v)) == v) <==> Exact(theta) && Exact(sigma))
            && ((forall v :: Apply(w, Apply(x, v)) == v) <==> Exact(theta) && Exact(sigma))
  {
    hide CalcW, CalcWInv, PolyTimes, PolyMatrix, Values, AngleBounds, ScaleBounds, Mul, Apply, SquaredNorm, Prod;
    ValuesParts(theta, sigma, scale, sine, cosine);
    InverseExactlyWhen(theta, sigma, scale, sine, cosine);
    BandCoefficient(theta, sigma, scale, sine, cosine);
    ZeroIsExact(theta);
    PolynomialInverse(omega, theta, CalcW(theta, sigma, scale, sine, cosine), CalcWInv(theta, sigma, scale, sine, cosine));
  }

  lemma ZeroIsExact(x: real)
    ensures x == 0.0 ==> Exact(x)
  {}

  /** Two polynomials in a hat matrix are inverse matrices if and only if their product is one,
      provided its constant decides that for the zero matrix. */
  lemma PolynomialInverse(omega: Vec3, theta: real, p: Poly, q: Poly)
    requires Prod(theta, theta) == SquaredNorm(omega)
    requires theta == 0.0 && PolyTimes(Prod(theta, theta), p, q).c == 1.0 ==> PolyTimes(Prod(theta, theta), p, q) == ONE
    ensures var m, n, inverse := PolyMatrix(omega, p), PolyMatrix(omega, q), PolyTimes(Prod(theta, theta), p, q) == ONE;
            && (Mul(n, m) == IDENTITY <==> inverse) && (Mul(m, n) == IDENTITY <==> inverse)
            && ((forall v :: Apply(n, Apply(m, v)) == v) <==> inverse)
            && ((forall v :: Apply(m, Apply(n, v)) == v) <==> inverse)
  {
    var m, n, norm := PolyMatrix(omega, p), PolyMatrix(omega, q), SquaredNorm(omega);
    So3.PolyTimesSym(norm, p, q);
    hide PolyTimes, PolyMatrix, Mul, Apply, SquaredNorm, Prod;
    PolyMatrixTimes(omega, p, q);
    PolyMatrixTimes(omega, q, p);
    IdentityPolynomial(omega, theta, PolyTimes(norm, p, q));
    InverseAction(n, m);
    InverseAction(m, n);
  }

  /** A polynomial in a hat matrix is the identity: for the zero matrix only its constant counts. */
  lemma IdentityPolynomial(omega: Vec3, theta: real, p: Poly)
    requires Prod(theta, theta) == SquaredNorm(omega)
    ensures p == ONE ==> PolyMatrix(omega, p) == IDENTITY
    ensures PolyMatrix(omega, p) == IDENTITY ==> p.c == 1.0 && (theta != 0.0 ==> p == ONE)
  {
    hide Prod, SquaredNorm, Dot, PolyMatrix;
    AngleOfAxis(omega, theta);
    PolyMatrixOne(omega);
    if PolyMatrix(omega, p) == IDENTITY {
      if omega == ZERO {
        ConstantOnly(p);
      } else {
        PolyMatrixOnly(omega, p);
      }
    }
  }

  lemma AngleOfAxis(omega: Vec3, theta: real)
    requires Prod(theta, theta) == SquaredNorm(omega)
    ensures theta == 0.0 <==> omega == ZERO
  {
    SquareSign(theta, Prod(theta, theta));
    NormDefinite(omega);
    hide SquaredNorm;
  }

  lemma ConstantOnly(p: Poly)
    requires PolyMatrix(ZERO, p) == IDENTITY
    ensures p.c == 1.0
  {
    hide Prod, PolyMatrix, PolyAct, Apply;
    ApplyPoly(ZERO, p, E0);
    ApplyIdentity(E0);
    NothingTurns(p);
  }

  lemma NothingTurns(p: Poly)
    ensures PolyAct(ZERO, p, E0) == Vec3(p.c, 0.0, 0.0)
  {
    ZeroCross(E0);
    ZeroCross(ZERO);
    POnes(p.a);
    POnes(p.b);
    POnes(p.c);
    hide Prod, Cross;
  }

  lemma ZeroCross(v: Vec3)
    ensures Cross(ZERO, v) == ZERO
  {
    POnes(v.x);
    POnes(v.y);
    POnes(v.z);
    hide Prod;
  }

  lemma IdentityAction(m: Mat3)
    ensures (forall v :: Apply(m, v) == v) <==> m == IDENTITY
  {
    forall v
      ensures Apply(IDENTITY, v) == v
    {
      ApplyIdentity(v);
    }
    if forall v :: Apply(m, v) == v {
      Extensional(m, IDENTITY) by { hide Apply; }
    }
    hide Apply;
  }

  lemma InverseAction(m: Mat3, n: Mat3)
    ensures (forall v :: Apply(m, Apply(n, v)) == v) <==> Mul(m, n) == IDENTITY
  {
    hide Mul, Apply;
    forall v
      ensures Apply(m, Apply(n, v)) == Apply(Mul(m, n), v)
    {
      ApplyMul(m, n, v);
    }
    IdentityAction(Mul(m, n));
  }

  // ----- the true values, and an input in each band -----

  ghost predicate Inverse(f: Elementary, theta: real, sigma: real)
    requires Facts(f)
    requires Prod(sigma, sigma) < EPSILON && Prod(theta, theta) >= EPSILON ==> f.cos(theta) != 1.0
  {
    TrueValues(f, theta, sigma);
    Composed(theta, sigma, f.exp(sigma), f.sin(theta), f.cos(theta)) == ONE
  }

  lemma TrueValues(f: Elementary, theta: real, sigma: real)
    requires Facts(f)
    requires Prod(sigma, sigma) < EPSILON && Prod(theta, theta) >= EPSILON ==> f.cos(theta) != 1.0
    ensures Values(theta, sigma, f.exp(sigma), f.sin(theta), f.cos(theta))
  {
    AngleOf(f, theta);
    ExpOf(f, sigma, theta);
    hide Facts, Prod, HalfAngle, AngleBounds, ScaleBounds, Transcendental;
  }

  /** One input in each band, and with them on which side of its guards each threshold fails. */
  lemma BandInputs(f: Elementary)
    requires Facts(f)
    ensures f.cos(1.0) != 1.0 && !Inverse(f, 1.0, 0.000001)
    ensures !Inverse(f, 0.0, 0.000001) && !Inverse(f, 0.000001, 0.0) && !Inverse(f, 0.000001, 1.0)
    ensures Inverse(f, 0.0, 0.0) && Inverse(f, 0.0, 1.0) && Inverse(f, 1.0, 1.0)
  {
    hide Facts, AngleBounds, ScaleBounds, Transcendental, Values, CalcW, CalcWInv, PolyTimes;
    CosineOfOne(f);
    OneInput(f, 1.0, 0.000001);
    OneInput(f, 0.0, 0.000001);
    OneInput(f, 0.000001, 0.0);
    OneInput(f, 0.000001, 1.0);
    OneInput(f, 0.0, 0.0);
    OneInput(f, 0.0, 1.0);
    OneInput(f, 1.0, 1.0);
  }

  lemma CosineOfOne(f: Elementary)
    requires Facts(f)
    ensures f.cos(1.0) < 1.0
  {
    AngleOf(f, 1.0);
    POnes(1.0);
    hide Facts, HalfAngle, Prod;
  }

  lemma OneInput(f: Elementary, theta: real, sigma: real)
    requires Facts(f)
    requires Prod(sigma, sigma) < EPSILON && Prod(theta, theta) >= EPSILON ==> f.cos(theta) != 1.0
    ensures Inverse(f, theta, sigma) <==> Exact(theta) && Exact(sigma)
  {
    TrueValues(f, theta, sigma);
    InverseExactlyWhen(theta, sigma, f.exp(sigma), f.sin(theta), f.cos(theta));
    hide Facts, Prod, Values, CalcW, CalcWInv, PolyTimes;
  }
}
