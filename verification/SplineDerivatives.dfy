/** The derivatives that the spline over poses reports are those of its value: an expansion in
    time to second order, with a bound on the rest. */
module SplineDerivatives {
  import opened Linear
  import opened Constants
  import opened Affine
  import opened Elementary
  import opened ExpLog
  import opened Expansions
  import opened TaylorBranches
  import opened Se3Spline
  import opened Screw
  import Se3
  import Se3Group
  import Spline

  // ----- the coefficients of a short motion -----

  function SquareBound(n: real, limit: real): real {
    Prod(limit, n) + Prod(Prod(limit, Prod(Prod(limit, limit), Prod(limit, limit))), Prod(n, Prod(n, n)))
  }

  function CubeBound(n: real, limit: real): real {
    1.0 + Prod(Prod(limit, limit), n)
  }

  lemma NonNegative(e: real, n: real)
    requires n > 0.0 && Prod(e, n) >= 0.0
    ensures e >= 0.0
  {
    if e < 0.0 {
      PositiveProduct(-e, n, Prod(-e, n));
      PNegated(e, n);
    }
  }

  /** The square coefficient is half the square of the step, up to its third power. */
  lemma SquareCoefficient(f: Elementary, d: real, theta: real, n: real, p: Curve, limit: real)
    requires Facts(f) && IsCurve(f, d, theta, n, p) && n > 0.0 && Prod(theta, theta) == n && AtMost(d, limit)
    ensures AtMost(p.a - 0.5 * Prod(d, d), Prod(SquareBound(n, limit), Third(d)))
  {
    hide Facts, Prod, Third, SquareBound;
    var x := Prod(d, theta);
    var e := Prod(d, d);
    PSquareProduct(d, theta);
    ThirdSigns(d, limit);
    if d == 0.0 {
      POnes(theta);
      POnes(0.0);
      NoAngle(f);
      POnes(n);
      PSym(n, p.a);
      PCancel(n, p.a, 0.0);
      ThirdOfZero();
      POnes(SquareBound(n, limit));
    } else {
      NonzeroRoot(theta, n);
      NonzeroProd(d, theta);
      AngleOf(f, x);
      var rest := Prod(Prod(e, e), n) / 24.0 + Prod(Prod(Prod(e, e), Prod(e, e)), Prod(n, Prod(n, n))) / 40320.0;
      CosineGap(e, n, p.a, f.cos(x), rest);
      RestOfSquare(d, n, limit, rest);
    }
  }

  lemma ThirdOfZero()
    ensures Third(0.0) == 0.0
  {}

  lemma NonzeroRoot(theta: real, n: real)
    requires Prod(theta, theta) == n && n > 0.0
    ensures theta != 0.0
  {}

  lemma CosineGap(e: real, n: real, a: real, cosine: real, rest: real)
    requires n > 0.0 && Prod(a, n) == 1.0 - cosine && e >= 0.0
    requires var k := Prod(e, n);
             && 1.0 - k / 2.0 <= cosine
             && cosine <= 1.0 - k / 2.0 + Prod(k, k) / 24.0 - Prod(k, Prod(k, k)) / 720.0 + Prod(Prod(k, k), Prod(k, k)) / 40320.0
    requires rest == Prod(Prod(e, e), n) / 24.0 + Prod(Prod(Prod(e, e), Prod(e, e)), Prod(n, Prod(n, n))) / 40320.0
    ensures -rest <= a - 0.5 * e <= 0.0
  {
    var k := Prod(e, n);
    ProductSign(e, n);
    ProductSign(k, k);
    ProductSign(k, Prod(k, k));
    PCosineGap(e, n, a);
    PGapTerms(e, n);
    NonNegative(0.5 * e - a, n);
    NonNegative(a - 0.5 * e + rest, n);
    hide Prod;
  }

  lemma PCosineGap(e: real, n: real, a: real)
    ensures Prod(0.5 * e - a, n) == 0.5 * Prod(e, n) - Prod(a, n)
    ensures var x, y := Prod(Prod(e, e), n), Prod(Prod(Prod(e, e), Prod(e, e)), Prod(n, Prod(n, n)));
            Prod(a - 0.5 * e + (x / 24.0 + y / 40320.0), n) == Prod(a, n) - 0.5 * Prod(e, n) + Prod(x, n) / 24.0 + Prod(y, n) / 40320.0
  {}

  lemma PGapTerms(e: real, n: real)
    ensures var k := Prod(e, n);
            Prod(Prod(Prod(e, e), n), n) == Prod(k, k) && Prod(Prod(Prod(Prod(e, e), Prod(e, e)), Prod(n, Prod(n, n))), n) == Prod(Prod(k, k), Prod(k, k))
  {}

  lemma ThirdSigns(d: real, limit: real)
    requires AtMost(d, limit)
    ensures 0.0 <= Third(d) && 0.0 <= Prod(d, d) <= Prod(limit, limit) && limit >= 0.0
    ensures Prod(Prod(d, d), Prod(d, d)) <= Prod(limit, Third(d))
  {
    var s := if d >= 0.0 then d else -d;
    ProductSign(s, s);
    ProductSign(s, Prod(s, s));
    ProductSign(limit - s, limit + s);
    PDifference(limit, s);
    ProductSign(limit - s, Prod(s, Prod(s, s)));
    PFourth(limit, s);
    PNegatedStep(d);
    hide Prod;
  }

  lemma PDifference(x: real, y: real)
    ensures Prod(x - y, x + y) == Prod(x, x) - Prod(y, y)
  {}

  lemma PFourth(limit: real, s: real)
    ensures Prod(limit - s, Prod(s, Prod(s, s))) == Prod(limit, Prod(s, Prod(s, s))) - Prod(Prod(s, s), Prod(s, s))
  {}

  lemma RestOfSquare(d: real, n: real, limit: real, rest: real)
    requires AtMost(d, limit) && n >= 0.0
    requires var e := Prod(d, d); rest == Prod(Prod(e, e), n) / 24.0 + Prod(Prod(Prod(e, e), Prod(e, e)), Prod(n, Prod(n, n))) / 40320.0
    ensures 0.0 <= rest <= Prod(SquareBound(n, limit), Third(d))
  {
    hide Prod, Third;
    var e, m, fourth := Prod(d, d), Third(d), Prod(Prod(limit, limit), Prod(limit, limit));
    var cube := Prod(n, Prod(n, n));
    ThirdSigns(d, limit);
    ProductSign(e, e);
    ProductSign(n, n);
    ProductSign(n, Prod(n, n));
    ProductSign(limit, m);
    Grows(Prod(e, e), Prod(limit, m), n);
    ProductSign(e, e);
    Grows(e, Prod(limit, limit), e);
    Grows(e, Prod(limit, limit), Prod(limit, limit));
    PSym(Prod(limit, limit), e);
    Grows(Prod(e, e), fourth, Prod(e, e));
    Grows(Prod(e, e), Prod(limit, m), fourth);
    PSym(fourth, Prod(e, e));
    ProductSign(Prod(e, e), Prod(e, e));
    Grows(Prod(Prod(e, e), Prod(e, e)), Prod(Prod(limit, m), fourth), cube);
    ProductSign(Prod(e, e), n);
    ProductSign(Prod(Prod(e, e), Prod(e, e)), cube);
    PSquareBound(limit, m, n, fourth, cube);
  }

  lemma Grows(x: real, y: real, k: real)
    requires x <= y && k >= 0.0
    ensures Prod(x, k) <= Prod(y, k)
  {
    ProductSign(y - x, k);
    PSpread(y, x, k);
    hide Prod;
  }

  lemma PSquareBound(limit: real, m: real, n: real, fourth: real, cube: real)
    ensures Prod(Prod(limit, n) + Prod(Prod(limit, fourth), cube), m) == Prod(Prod(limit, m), n) + Prod(Prod(Prod(limit, m), fourth), cube)
  {}

  /** The cube coefficient is bounded by the third power of the step. */
  lemma CubeCoefficient(f: Elementary, d: real, theta: real, n: real, p: Curve, limit: real)
    requires Facts(f) && IsCurve(f, d, theta, n, p) && n > 0.0 && Prod(theta, theta) == n && AtMost(d, limit)
    ensures AtMost(p.b, Prod(CubeBound(n, limit), Third(d)))
  {
    hide Facts, Prod, Third, CubeBound, Turn;
    var x := Prod(d, theta);
    PSquareProduct(d, theta);
    ThirdSigns(d, limit);
    NonzeroRoot(theta, n);
    TurnIs(n, p);
    if d == 0.0 {
      POnes(theta);
      POnes(0.0);
      NoAngle(f);
      PSym(theta, Turn(n, p));
      PCancel(theta, Turn(n, p), 0.0);
      POnes(n);
      PSym(n, p.b);
      PCancel(n, p.b, 0.0);
      ThirdOfZero();
      POnes(CubeBound(n, limit));
    } else {
      NonzeroProd(d, theta);
      AngleOf(f, x);
      PTurnSine(d, theta, n, Turn(n, p));
      SineGap(d, n, p.b, Prod(x, f.sin(x)));
      CubeFromProduct(d, n, p.b, limit);
    }
  }

  lemma TurnIs(n: real, p: Curve)
    ensures Turn(n, p) == p.d - Prod(p.b, n)
  {}

  lemma PTurnSine(d: real, theta: real, n: real, g: real)
    requires Prod(theta, theta) == n
    ensures Prod(Prod(d, theta), Prod(g, theta)) == Prod(Prod(d, g), n)
  {}

  lemma SineGap(d: real, n: real, b: real, sine: real)
    requires n > 0.0 && sine == Prod(Prod(d, d - Prod(b, n)), n)
    requires var k := Prod(Prod(d, d), n);
             k - Prod(k, k) / 6.0 <= sine <= k - Prod(k, k) / 6.0 + Prod(k, Prod(k, k)) / 120.0
    ensures var e := Prod(d, d);
            Prod(e, e) / 6.0 - Prod(Prod(e, Prod(e, e)), n) / 120.0 <= Prod(d, b) <= Prod(e, e) / 6.0
  {
    var e, square := Prod(d, d), Prod(n, n);
    PSineGap(d, n, b);
    PositiveProduct(n, n, square);
    NonNegative(Prod(e, e) / 6.0 - Prod(d, b), square);
    NonNegative(Prod(d, b) - Prod(e, e) / 6.0 + Prod(Prod(e, Prod(e, e)), n) / 120.0, square);
    hide Prod;
  }

  lemma PSineGap(d: real, n: real, b: real)
    ensures var e, square := Prod(d, d), Prod(n, n);
            var k := Prod(e, n);
            && Prod(Prod(d, d - Prod(b, n)), n) == k - Prod(Prod(d, b), square)
            && Prod(Prod(e, e) / 6.0 - Prod(d, b), square) == Prod(k, k) / 6.0 - Prod(Prod(d, b), square)
            && Prod(Prod(d, b) - Prod(e, e) / 6.0 + Prod(Prod(e, Prod(e, e)), n) / 120.0, square)
               == Prod(Prod(d, b), square) - Prod(k, k) / 6.0 + Prod(k, Prod(k, k)) / 120.0
  {
    PSineTerms(Prod(d, d), n, Prod(d, b));
    PSineProduct(d, n, b);
  }

  lemma PSineProduct(d: real, n: real, b: real)
    ensures Prod(Prod(d, d - Prod(b, n)), n) == Prod(Prod(d, d), n) - Prod(Prod(d, b), Prod(n, n))
  {}

  lemma PSineTerms(e: real, n: real, x: real)
    ensures var square, k := Prod(n, n), Prod(e, n);
            && Prod(Prod(e, e) / 6.0 - x, square) == Prod(k, k) / 6.0 - Prod(x, square)
            && Prod(x - Prod(e, e) / 6.0 + Prod(Prod(e, Prod(e, e)), n) / 120.0, square)
               == Prod(x, square) - Prod(k, k) / 6.0 + Prod(k, Prod(k, k)) / 120.0
  {}

  lemma CubeFromProduct(d: real, n: real, b: real, limit: real)
    requires AtMost(d, limit) && d != 0.0 && n > 0.0
    requires var e := Prod(d, d); Prod(e, e) / 6.0 - Prod(Prod(e, Prod(e, e)), n) / 120.0 <= Prod(d, b) <= Prod(e, e) / 6.0
    ensures AtMost(b, Prod(CubeBound(n, limit), Third(d)))
  {
    var e, s, m := Prod(d, d), (if d >= 0.0 then d else -d), Third(d);
    ThirdSigns(d, limit);
    ProductSign(e, e);
    ProductSign(Prod(e, e), n);
    Grows(e, Prod(limit, limit), Prod(Prod(e, e), n));
    PFourthIs(d);
    PSixth(e, n);
    PNegated(d, b);
    PScaledBound(CubeBound(n, limit), m, s, b);
    PCubeBound(n, limit, Prod(e, e));
    NonNegative(Prod(CubeBound(n, limit), m) - b, s) by {
      PSym(s, b);
    }
    NonNegative(Prod(CubeBound(n, limit), m) + b, s);
    hide Prod, Third, CubeBound;
  }

  lemma PFourthIs(d: real)
    ensures var s := if d >= 0.0 then d else -d; Prod(Third(d), s) == Prod(Prod(d, d), Prod(d, d))
  {}

  lemma PSixth(e: real, n: real)
    ensures Prod(Prod(e, Prod(e, e)), n) == Prod(e, Prod(Prod(e, e), n))
  {}

  lemma PScaledBound(k: real, m: real, s: real, b: real)
    ensures Prod(Prod(k, m) - b, s) == Prod(k, Prod(m, s)) - Prod(s, b) && Prod(Prod(k, m) + b, s) == Prod(k, Prod(m, s)) + Prod(s, b)
    ensures Prod(s, b) == Prod(b, s)
  {}

  lemma PCubeBound(n: real, limit: real, x: real)
    ensures Prod(CubeBound(n, limit), x) == x + Prod(Prod(limit, limit), Prod(x, n))
  {}

  // ----- one factor -----

  /** The motion over a short step, with coefficients near 1, d, d^2 / 2 and 0. Without rotation any
      coefficients of the square and the cube make the same motion. */
  lemma ShortMotion(f: Elementary, d: real, v: Se3.Twist, limit: real) returns (p: Curve)
    requires Facts(f) && AtMost(d, limit)
    ensures Motion(v, CurveOf(f, d, v.omega)) == Motion(v, p) && p.d == d
    ensures var n := SquaredNorm(v.omega);
            && SquareBound(n, limit) >= 0.0 && CubeBound(n, limit) >= 0.0
            && AtMost(p.a - 0.5 * Prod(d, d), Prod(SquareBound(n, limit), Third(d))) && AtMost(p.b, Prod(CubeBound(n, limit), Third(d)))
  {
    hide Facts, Prod, SquaredNorm, Length, CurveOf, Motion, Third, SquareBound, CubeBound;
    var n := SquaredNorm(v.omega);
    NormDefinite(v.omega);
    BoundsAreSigned(n, d, limit);
    if v.omega == ZERO {
      p := Curve(d, 0.5 * Prod(d, d), 0.0);
      CurveOfTranslation(f, d);
      MotionWithoutRotation(v, Curve(d, 0.0, 0.0), p);
    } else {
      p := CurveOf(f, d, v.omega);
      OnlyCurve(f, d, v.omega, p);
      LengthOf(f, v.omega);
      SquareCoefficient(f, d, Length(f, v.omega), n, p, limit);
      CubeCoefficient(f, d, Length(f, v.omega), n, p, limit);
    }
  }

  lemma BoundsAreSigned(n: real, d: real, limit: real)
    requires n >= 0.0 && AtMost(d, limit)
    ensures SquareBound(n, limit) >= 0.0 && CubeBound(n, limit) >= 0.0
    ensures Prod(SquareBound(n, limit), Third(d)) >= 0.0 && Prod(CubeBound(n, limit), Third(d)) >= 0.0
  {
    ThirdSigns(d, limit);
    ProductSign(limit, n);
    ProductSign(limit, limit);
    ProductSign(Prod(limit, limit), Prod(limit, limit));
    ProductSign(limit, Prod(Prod(limit, limit), Prod(limit, limit)));
    ProductSign(n, n);
    ProductSign(n, Prod(n, n));
    ProductSign(Prod(limit, Prod(Prod(limit, limit), Prod(limit, limit))), Prod(n, Prod(n, n)));
    ProductSign(Prod(limit, limit), n);
    ProductSign(SquareBound(n, limit), Third(d));
    ProductSign(CubeBound(n, limit), Third(d));
    hide Prod, Third;
  }

  lemma MotionWithoutRotation(v: Se3.Twist, p: Curve, q: Curve)
    requires v.omega == ZERO && p.d == q.d
    ensures Motion(v, p) == Motion(v, q)
  {
    hide SquaredNorm, Powers;
    MotionIsPowers(v, p);
    MotionIsPowers(v, q);
    NoPowers(v, p);
    NoPowers(v, q);
    hide Motion;
  }

  lemma NoPowers(v: Se3.Twist, p: Curve)
    requires v.omega == ZERO
    ensures Powers(Se3Group.HatMatrix(v), p) == Spline.Add4(IDENTITY4, Spline.Scale4(p.d, Se3Group.HatMatrix(v)))
  {
    var x := Se3Group.HatMatrix(v);
    var y := Spline.Add4(IDENTITY4, Spline.Scale4(p.d, x));
    SquareOfTranslation(v);
    Spline.Units4(x);
    Spline.Units4(y);
    ScaledNothing(p.a);
    ScaledNothing(p.b);
    hide Mul4, Spline.Add4, Spline.Scale4, Se3Group.HatMatrix;
  }

  lemma ScaledNothing(s: real)
    ensures Spline.Scale4(s, Spline.ZERO4) == Spline.ZERO4
  {}

  lemma SquareOfTranslation(v: Se3.Twist)
    requires v.omega == ZERO
    ensures Mul4(Se3Group.HatMatrix(v), Se3Group.HatMatrix(v)) == Spline.ZERO4
  {
    HatPowers(v);
    HatOfZero();
    ZeroProducts(ZERO_MATRIX);
    CrossOfZero(v.upsilon);
    hide Mul4, Mul, Cross;
  }

  lemma CrossOfZero(u: Vec3)
    ensures Cross(ZERO, u) == ZERO
  {}

  /** The step in the exponent: a cubic in the step in time. */
  function ExponentStep(t: real, d: real, dd: real, e: real): real {
    Prod(t, d) + 0.5 * Prod(Prod(t, t), dd) + Prod(e, Prod(t, Prod(t, t)))
  }

  lemma ShortStep(t: real, d: real, dd: real, e: real, q: real)
    requires AtMost(t, 1.0) && q >= 0.0 && AtMost(d, q) && AtMost(dd, q) && AtMost(e, q)
    ensures AtMost(ExponentStep(t, d, dd, e), 3.0 * q) && Third(ExponentStep(t, d, dd, e)) <= 27.0 * Prod(Prod(q, Prod(q, q)), Third(t))
    ensures AtMost(Prod(ExponentStep(t, d, dd, e), ExponentStep(t, d, dd, e)) - Prod(Prod(t, t), Prod(d, d)), 6.0 * Prod(Prod(q, q), Third(t)))
  {
    hide Prod, Third;
    var s, x, first := (if t >= 0.0 then t else -t), ExponentStep(t, d, dd, e), Prod(t, d);
    var n, m := Prod(t, t), Third(t);
    StepPowers(t);
    ThirdIs(t);
    PNegatedStep(t);
    ProductSign(s, 1.0 - s);
    PSpread(s, 1.0, s);
    POnes(s);
    AtMostProduct(t, d, s, q);
    AtMostProduct(n, dd, n, q);
    AtMostProduct(e, Prod(t, n), q, m);
    ProductSign(q, s - n);
    ProductSign(q, n - m);
    PSpread(q, s, n);
    PSpread(q, n, m);
    PSym(q, s);
    PSym(q, n);
    ProductSign(q, 1.0 - s);
    PSpread(q, 1.0, s);
    POnes(q);
    assert AtMost(x, 3.0 * Prod(q, s));
    assert AtMost(x - first, 1.5 * Prod(q, n));
    AtMostProduct(x - first, x + first, 1.5 * Prod(q, n), 4.0 * Prod(q, s));
    PDifference(x, first);
    PSquareProduct(t, d);
    PBoundOfSquares(q, s, n, m);
    CubeOfBound(x, 3.0 * Prod(q, s));
    PBoundOfCubes(q, s, m);
  }

  lemma ThirdIs(t: real)
    ensures var s := if t >= 0.0 then t else -t; Third(t) == Prod(s, Prod(s, s)) && Prod(s, s) == Prod(t, t)
  {}

  lemma PBoundOfSquares(q: real, s: real, n: real, m: real)
    requires n == Prod(s, s) && m == Prod(s, Prod(s, s))
    ensures Prod(1.5 * Prod(q, n), 4.0 * Prod(q, s)) == 6.0 * Prod(Prod(q, q), m)
  {}

  lemma PBoundOfCubes(q: real, s: real, m: real)
    requires m == Prod(s, Prod(s, s))
    ensures Prod(3.0 * Prod(q, s), Prod(3.0 * Prod(q, s), 3.0 * Prod(q, s))) == 27.0 * Prod(Prod(q, Prod(q, q)), m)
  {}

  lemma CubeOfBound(x: real, k: real)
    requires AtMost(x, k)
    ensures Third(x) <= Prod(k, Prod(k, k))
  {
    var s := if x >= 0.0 then x else -x;
    ThirdIs(x);
    ProductSign(s, s);
    Grows(s, k, s);
    Grows(s, k, k);
    PSym(s, k);
    ProductSign(k, k);
    Grows(Prod(s, s), Prod(k, k), s);
    Grows(s, k, Prod(k, k));
    PSym(s, Prod(s, s));
    PSym(s, Prod(k, k));
    hide Prod, Third;
  }

  /** The rest of an entry m0 + x m1 + a m2 + b m3 of a factor. */
  function FactorBound(n: real, q: real, k: real): real {
    var cube := 27.0 * Prod(q, Prod(q, q));
    Prod(k, q + 3.0 * Prod(q, q) + Prod(SquareBound(n, 3.0 * q), cube) + Prod(CubeBound(n, 3.0 * q), cube))
  }

  lemma NearEntry(t: real, d: real, dd: real, e: real, a: real, b: real, n: real, q: real, k: real, m0: real, m1: real, m2: real, m3: real)
    requires AtMost(t, 1.0) && q >= 0.0 && AtMost(d, q) && AtMost(dd, q) && AtMost(e, q) && n >= 0.0
    requires AtMost(m1, k) && AtMost(m2, k) && AtMost(m3, k)
    requires var x := ExponentStep(t, d, dd, e);
             AtMost(a - 0.5 * Prod(x, x), Prod(SquareBound(n, 3.0 * q), Third(x))) && AtMost(b, Prod(CubeBound(n, 3.0 * q), Third(x)))
    requires SquareBound(n, 3.0 * q) >= 0.0 && CubeBound(n, 3.0 * q) >= 0.0
    ensures Near(m0 + Prod(ExponentStep(t, d, dd, e), m1) + Prod(a, m2) + Prod(b, m3),
                 Spline.Jet(m0, Prod(d, m1), Prod(Prod(d, d), m2) + Prod(dd, m1)), t, FactorBound(n, q, k))
  {
    hide Prod, Third, SquareBound, CubeBound, ExponentStep;
    var x, m, cube := ExponentStep(t, d, dd, e), Third(t), 27.0 * Prod(q, Prod(q, q));
    var square, third := SquareBound(n, 3.0 * q), CubeBound(n, 3.0 * q);
    ShortStep(t, d, dd, e, q);
    StepPowers(t);
    var limit := Prod(cube, m);
    PScaledCube(Prod(q, Prod(q, q)), m);
    ProductSign(square, limit - Third(x));
    ProductSign(third, limit - Third(x));
    PSpread(square, limit, Third(x));
    PSpread(third, limit, Third(x));
    AtMostProduct(e, Prod(t, Prod(t, t)), q, m);
    var w2 := a - 0.5 * Prod(Prod(t, t), Prod(d, d));
    AtMostProduct(Prod(e, Prod(t, Prod(t, t))), m1, Prod(q, m), k);
    AtMostProduct(w2, m2, Prod(square, limit) + 3.0 * Prod(Prod(q, q), m), k);
    AtMostProduct(b, m3, Prod(third, limit), k);
    PEntrySplit(t, d, dd, e, a, x, m0, m1, m2) by {
      ExponentStepIs(t, d, dd, e);
    }
    PFactorBound(q, m, square, third, cube, k);
  }

  lemma ExponentStepIs(t: real, d: real, dd: real, e: real)
    ensures ExponentStep(t, d, dd, e) == Prod(t, d) + 0.5 * Prod(Prod(t, t), dd) + Prod(e, Prod(t, Prod(t, t)))
  {}

  lemma PScaledCube(c: real, m: real)
    ensures Prod(27.0 * c, m) == 27.0 * Prod(c, m)
  {}

  lemma PEntrySplit(t: real, d: real, dd: real, e: real, a: real, x: real, m0: real, m1: real, m2: real)
    requires x == Prod(t, d) + 0.5 * Prod(Prod(t, t), dd) + Prod(e, Prod(t, Prod(t, t)))
    ensures m0 + Prod(x, m1) + Prod(a, m2) - SecondOrder(Spline.Jet(m0, Prod(d, m1), Prod(Prod(d, d), m2) + Prod(dd, m1)), t)
         == Prod(Prod(e, Prod(t, Prod(t, t))), m1) + Prod(a - 0.5 * Prod(Prod(t, t), Prod(d, d)), m2)
  {
    var n := Prod(t, t);
    PSpreadThree(Prod(t, d), 0.5 * Prod(n, dd), Prod(e, Prod(t, n)), m1);
    PHalf(Prod(n, dd), m1);
    PHalf(Prod(n, Prod(d, d)), m2);
    PSpread(a, 0.5 * Prod(n, Prod(d, d)), m2);
    PAssoc(t, d, m1);
    PAssoc(n, dd, m1);
    PAssoc(n, Prod(d, d), m2);
    PSpread(n, Prod(Prod(d, d), m2), Prod(dd, m1));
    hide Prod;
  }

  lemma PSpreadThree(x: real, y: real, z: real, m: real)
    ensures Prod(x + y + z, m) == Prod(x, m) + Prod(y, m) + Prod(z, m)
  {}

  lemma PHalf(x: real, m: real)
    ensures Prod(0.5 * x, m) == 0.5 * Prod(x, m)
  {}

  lemma PFactorBound(q: real, m: real, square: real, third: real, cube: real, k: real)
    ensures Prod(Prod(q, m), k) + Prod(Prod(square, Prod(cube, m)) + 3.0 * Prod(Prod(q, q), m), k) + Prod(Prod(third, Prod(cube, m)), k)
         == Prod(Prod(k, q + 3.0 * Prod(q, q) + Prod(square, cube) + Prod(third, cube)), m)
  {}

  // ----- the factors as matrices -----

  predicate AtMostVec(x: Vec3, k: real) {
    AtMost(x.x, k) && AtMost(x.y, k) && AtMost(x.z, k)
  }

  /** Every entry of the matrix is at most k. */
  predicate AtMostMat(m: Mat4, k: real) {
    AtMostVec(m.linear.r0, k) && AtMostVec(m.linear.r1, k) && AtMostVec(m.linear.r2, k) && AtMostVec(m.offset, k) && AtMost(m.corner, k)
  }

  function AddThree(m0: Mat4, x: real, m1: Mat4, a: real, m2: Mat4, b: real, m3: Mat4): Mat4 {
    Spline.Add4(Spline.Add4(Spline.Add4(m0, Spline.Scale4(x, m1)), Spline.Scale4(a, m2)), Spline.Scale4(b, m3))
  }

  /** The jet of exp(b v) times the powers of V. */
  function PowerJet(d: real, dd: real, m0: Mat4, m1: Mat4, m2: Mat4): Spline.Jet<Mat4> {
    Spline.Jet(m0, Spline.Scale4(d, m1), Spline.Add4(Spline.Scale4(Prod(d, d), m2), Spline.Scale4(dd, m1)))
  }

  predicate StepData(t: real, d: real, dd: real, e: real, a: real, b: real, n: real, q: real) {
    && AtMost(t, 1.0) && q >= 0.0 && AtMost(d, q) && AtMost(dd, q) && AtMost(e, q) && n >= 0.0
    && SquareBound(n, 3.0 * q) >= 0.0 && CubeBound(n, 3.0 * q) >= 0.0
    && var x := ExponentStep(t, d, dd, e);
       AtMost(a - 0.5 * Prod(x, x), Prod(SquareBound(n, 3.0 * q), Third(x))) && AtMost(b, Prod(CubeBound(n, 3.0 * q), Third(x)))
  }

  function VecJet(d: real, dd: real, m0: Vec3, m1: Vec3, m2: Vec3): Spline.Jet<Vec3> {
    Spline.Jet(m0, Scale(d, m1), Add(Scale(Prod(d, d), m2), Scale(dd, m1)))
  }

  lemma NearVector(t: real, d: real, dd: real, e: real, a: real, b: real, n: real, q: real, k: real, m0: Vec3, m1: Vec3, m2: Vec3, m3: Vec3)
    requires StepData(t, d, dd, e, a, b, n, q) && AtMostVec(m1, k) && AtMostVec(m2, k) && AtMostVec(m3, k)
    ensures NearVec(Add(Add(Add(m0, Scale(ExponentStep(t, d, dd, e), m1)), Scale(a, m2)), Scale(b, m3)), VecJet(d, dd, m0, m1, m2), t, FactorBound(n, q, k))
  {
    hide Prod, Third, SquareBound, CubeBound, ExponentStep, FactorBound, Near;
    NearEntry(t, d, dd, e, a, b, n, q, k, m0.x, m1.x, m2.x, m3.x);
    NearEntry(t, d, dd, e, a, b, n, q, k, m0.y, m1.y, m2.y, m3.y);
    NearEntry(t, d, dd, e, a, b, n, q, k, m0.z, m1.z, m2.z, m3.z);
  }

  lemma NearPowers(t: real, d: real, dd: real, e: real, a: real, b: real, n: real, q: real, k: real, m0: Mat4, m1: Mat4, m2: Mat4, m3: Mat4)
    requires StepData(t, d, dd, e, a, b, n, q) && AtMostMat(m1, k) && AtMostMat(m2, k) && AtMostMat(m3, k)
    ensures NearMat(AddThree(m0, ExponentStep(t, d, dd, e), m1, a, m2, b, m3), PowerJet(d, dd, m0, m1, m2), t, FactorBound(n, q, k))
  {
    NearVector(t, d, dd, e, a, b, n, q, k, m0.linear.r0, m1.linear.r0, m2.linear.r0, m3.linear.r0);
    NearVector(t, d, dd, e, a, b, n, q, k, m0.linear.r1, m1.linear.r1, m2.linear.r1, m3.linear.r1);
    NearVector(t, d, dd, e, a, b, n, q, k, m0.linear.r2, m1.linear.r2, m2.linear.r2, m3.linear.r2);
    NearVector(t, d, dd, e, a, b, n, q, k, m0.offset, m1.offset, m2.offset, m3.offset);
    hide StepData;
    NearCorner(t, d, dd, e, a, b, n, q, k, m0.corner, m1.corner, m2.corner, m3.corner);
    hide Prod, ExponentStep, FactorBound, Near, Add, Scale, NearVec, AtMostVec;
  }

  lemma NearCorner(t: real, d: real, dd: real, e: real, a: real, b: real, n: real, q: real, k: real, m0: real, m1: real, m2: real, m3: real)
    requires StepData(t, d, dd, e, a, b, n, q) && AtMost(m1, k) && AtMost(m2, k) && AtMost(m3, k)
    ensures Near(m0 + Prod(ExponentStep(t, d, dd, e), m1) + Prod(a, m2) + Prod(b, m3),
                 Spline.Jet(m0, Prod(d, m1), Prod(Prod(d, d), m2) + Prod(dd, m1)), t, FactorBound(n, q, k))
  {
    hide Prod, Third, SquareBound, CubeBound, ExponentStep, FactorBound, Near;
    NearEntry(t, d, dd, e, a, b, n, q, k, m0, m1, m2, m3);
  }

  lemma Mul4Scale(m: Mat4, s: real, x: Mat4)
    ensures Mul4(m, Spline.Scale4(s, x)) == Spline.Scale4(s, Mul4(m, x)) == Mul4(Spline.Scale4(s, m), x)
  {
    MulScaled(1.0, m.linear, s, x.linear);
    MulScaled(s, m.linear, 1.0, x.linear);
    UnitScale(m.linear);
    UnitScale(x.linear);
    POnes(s);
    ApplyScaled(m.linear, s, x.offset);
    ApplyMatScale(s, m.linear, x.offset);
    ScaleTwice(s, x.corner, m.offset);
    ScaleTwice(x.corner, s, m.offset);
    PSym(x.corner, s);
    ScaleAdd(s, Apply(m.linear, x.offset), Scale(x.corner, m.offset));
    PAssoc(s, m.corner, x.corner);
    hide Prod, Mul, Apply, MatScale, Scale, Add;
  }

  /** A matrix times a motion. */
  lemma TimesPowers(m: Mat4, x: Mat4, p: Curve)
    ensures var m1 := Mul4(m, x);
            var m2 := Mul4(m1, x);
            Mul4(m, Powers(x, p)) == AddThree(m, p.d, m1, p.a, m2, p.b, Mul4(m2, x))
  {
    hide Mul4, Spline.Add4, Spline.Scale4;
    var square := Mul4(x, x);
    var cube := Mul4(square, x);
    var first := Spline.Add4(IDENTITY4, Spline.Scale4(p.d, x));
    Spline.Mul4Distributive(m, Spline.Add4(first, Spline.Scale4(p.a, square)), Spline.Scale4(p.b, cube));
    Spline.Mul4Distributive(m, first, Spline.Scale4(p.a, square));
    Spline.Mul4Distributive(m, IDENTITY4, Spline.Scale4(p.d, x));
    Mul4Identity(m);
    Mul4Scale(m, p.d, x);
    Mul4Scale(m, p.a, square);
    Mul4Scale(m, p.b, cube);
    Mul4Assoc(m, x, x);
    Mul4Assoc(m, square, x);
  }

  /** The jet of the source's formulas is that of the powers. */
  lemma JetIsPowers(f: Elementary, v: Se3.Twist, b: real, d: real, dd: real)
    requires Facts(f)
    ensures var l := Poses(f);
            var m := l.matrix(l.exp(l.times(b, v)));
            var m1 := Mul4(m, l.hat(v));
            Spline.ExpJet(l, v, b, d, dd) == PowerJet(d, dd, m, m1, Mul4(m1, l.hat(v)))
  {
    hide Facts, Mul4, Spline.Add4, Spline.Scale4, MatrixOf, Se3Exp, ScaleTwist, Se3Group.HatMatrix, Composed, Logged, Se3Group.Valid, Se3Group.Inverse;
    var l := Poses(f);
    var x, m := l.hat(v), l.matrix(l.exp(l.times(b, v)));
    var m1 := Mul4(m, x);
    var m2 := Mul4(m1, x);
    Mul4Scale(m, d, x);
    Mul4Scale(m1, d, x);
    Mul4Scale(m, dd, x);
    Mul4Scale(m1, d, x);
    Spline.Mul4Distributive(x, Spline.Scale4(d, Spline.Scale4(d, m1)), Spline.Scale4(dd, m));
    Scale4Twice(d, d, m1);
    Mul4Scale(m1, Prod(d, d), x);
    RingOfPoses(f);
  }

  lemma Scale4Twice(s: real, t: real, m: Mat4)
    ensures Spline.Scale4(s, Spline.Scale4(t, m)) == Spline.Scale4(Prod(s, t), m)
  {
    MatScaleTwice(s, t, m.linear);
    ScaleTwice(s, t, m.offset);
    PAssoc(s, t, m.corner);
    hide Prod, MatScale, Scale;
  }

  /** A factor of the spline along a step of its exponent. */
  lemma NearFactor(f: Elementary, v: Se3.Twist, b: real, d: real, dd: real, e: real, t: real, q: real, k: real)
    requires Facts(f) && AtMost(t, 1.0) && q >= 0.0 && AtMost(d, q) && AtMost(dd, q) && AtMost(e, q)
    requires ClearFactor(b, v.omega) && ClearFactor(b + ExponentStep(t, d, dd, e), v.omega)
    requires var l := Poses(f);
             var m1 := Mul4(l.matrix(l.exp(l.times(b, v))), l.hat(v));
             var m2 := Mul4(m1, l.hat(v));
             AtMostMat(m1, k) && AtMostMat(m2, k) && AtMostMat(Mul4(m2, l.hat(v)), k)
    ensures var l := Poses(f);
            NearMat(l.matrix(l.exp(l.times(b + ExponentStep(t, d, dd, e), v))), Spline.ExpJet(l, v, b, d, dd), t, FactorBound(SquaredNorm(v.omega), q, k))
  {
    hide Facts, Prod, SquaredNorm, Mul4, ExponentStep, AddThree, PowerJet, ClearFactor, CurveOf, Motion, Powers, NearMat, AtMostMat, Third, SquareBound,
         CubeBound, FactorBound, MatrixOf, Se3Exp, ScaleTwist, Se3Group.HatMatrix, Composed, Logged, Se3Group.Valid, Se3Group.Inverse, Spline.ExpJet;
    var l, x, n := Poses(f), ExponentStep(t, d, dd, e), SquaredNorm(v.omega);
    var m, hat := l.matrix(l.exp(l.times(b, v))), l.hat(v);
    ShortStep(t, d, dd, e, q);
    NormDefinite(v.omega);
    var p := ShortMotion(f, x, v, 3.0 * q);
    ExpIsPowers(f, b, v);
    ExpIsPowers(f, b + x, v);
    MotionIsPowers(v, CurveOf(f, b, v.omega));
    MotionIsPowers(v, CurveOf(f, b + x, v.omega));
    MotionIsPowers(v, p);
    MotionsCompose(f, b, x, v);
    TimesPowers(m, hat, p);
    JetIsPowers(f, v, b, d, dd);
    NearPowers(t, d, dd, e, p.a, p.b, n, q, k, m, Mul4(m, hat), Mul4(Mul4(m, hat), hat), Mul4(Mul4(Mul4(m, hat), hat), hat));
  }

  // ----- bounds that do not depend on the step -----

  function Larger(x: real, y: real): real {
    if x < y then y else x
  }

  function Size(x: real): real {
    if x >= 0.0 then x else -x
  }

  function SizeVec(v: Vec3): real {
    Size(v.x) + Size(v.y) + Size(v.z)
  }

  function SizeMat(m: Mat4): real {
    SizeVec(m.linear.r0) + SizeVec(m.linear.r1) + SizeVec(m.linear.r2) + SizeVec(m.offset) + Size(m.corner)
  }

  lemma SizeIsBound(m: Mat4, k: real)
    requires SizeMat(m) <= k
    ensures AtMostMat(m, k) && k >= 0.0
  {
    hide SizeVec, AtMostVec;
    SizeIsSigned(m);
    SizeVecIsBound(m.linear.r0, k);
    SizeVecIsBound(m.linear.r1, k);
    SizeVecIsBound(m.linear.r2, k);
    SizeVecIsBound(m.offset, k);
  }

  lemma SizeVecIsBound(v: Vec3, k: real)
    requires SizeVec(v) <= k
    ensures AtMostVec(v, k)
  {}

  lemma SizeVecIsSigned(v: Vec3)
    ensures SizeVec(v) >= 0.0
  {}

  lemma SizeIsSigned(m: Mat4)
    ensures SizeMat(m) >= 0.0 && SizeVec(m.linear.r0) >= 0.0 && SizeVec(m.linear.r1) >= 0.0 && SizeVec(m.linear.r2) >= 0.0 && SizeVec(m.offset) >= 0.0
  {
    SizeVecIsSigned(m.linear.r0);
    SizeVecIsSigned(m.linear.r1);
    SizeVecIsSigned(m.linear.r2);
    SizeVecIsSigned(m.offset);
    hide SizeVec;
  }

  function SizeJet(j: Spline.Jet<Mat4>): real {
    SizeMat(j.v) + SizeMat(j.d) + SizeMat(j.dd)
  }

  lemma JetIsBounded(j: Spline.Jet<Mat4>, b: real)
    requires SizeJet(j) <= b
    ensures BoundedMat(j, b) && b >= 0.0
  {
    hide SizeMat;
    SizesAdd(j);
    SizeIsBound(j.v, b);
    SizeIsBound(j.d, b);
    SizeIsBound(j.dd, b);
  }

  lemma SizesAdd(j: Spline.Jet<Mat4>)
    ensures SizeMat(j.v) >= 0.0 && SizeMat(j.d) >= 0.0 && SizeMat(j.dd) >= 0.0
  {
    SizeIsSigned(j.v);
    SizeIsSigned(j.d);
    SizeIsSigned(j.dd);
    hide SizeMat;
  }

  lemma LooserMat(x: Mat4, j: Spline.Jet<Mat4>, t: real, c: real, e: real)
    requires AtMost(t, 1.0) && NearMat(x, j, t, c) && c <= e
    ensures NearMat(x, j, t, e)
  {
    StepPowers(t);
    ProductSign(e - c, Third(t));
    PSpread(e, c, Third(t));
    hide Prod, Third, SecondOrder;
  }

  lemma LooserBound(j: Spline.Jet<Mat4>, b: real, d: real)
    requires BoundedMat(j, b) && b <= d
    ensures BoundedMat(j, d)
  {}

  /** A constant factor has no rest. */
  lemma NearConstant(m: Mat4, t: real)
    ensures NearMat(m, Spline.Jet(m, Spline.ZERO4, Spline.ZERO4), t, 0.0)
  {
    POnes(t);
    POnes(Prod(t, t));
    POnes(Third(t));
    hide Prod, Third;
  }

  /** Two expansions with whatever bounds, multiplied. */
  lemma NearProductOf(x: Mat4, j: Spline.Jet<Mat4>, y: Mat4, k: Spline.Jet<Mat4>, t: real, c: real, e: real)
    requires AtMost(t, 1.0) && NearMat(x, j, t, c) && NearMat(y, k, t, e)
    ensures NearMat(Mul4(x, y), MatJet(j, k), t, ProductRest(j, k, c, e))
  {
    hide NearMat, BoundedMat, Mul4, MatJet, SizeJet, ProductBound;
    var bound, b := Larger(0.0, Larger(c, e)), Larger(0.0, Larger(SizeJet(j), SizeJet(k)));
    JetIsBounded(j, b);
    JetIsBounded(k, b);
    LooserMat(x, j, t, c, bound);
    LooserMat(y, k, t, e, bound);
    NearMul4(x, j, y, k, t, bound, b);
  }

  function ProductRest(j: Spline.Jet<Mat4>, k: Spline.Jet<Mat4>, c: real, e: real): real {
    4.0 * ProductBound(Larger(0.0, Larger(c, e)), Larger(0.0, Larger(SizeJet(j), SizeJet(k))))
  }

  // ----- the basis -----

  /** One coefficient of the basis after a step of h, in terms of the step in time. */
  lemma BasisStep(c0: real, c1: real, c2: real, c3: real, u: real, h: real, deltaT: real)
    requires deltaT != 0.0
    ensures Spline.Cubic(c0, c1, c2, c3, u + h) == Spline.Cubic(c0, c1, c2, c3, u)
              + ExponentStep(Prod(h, deltaT), Spline.DtCubic(c1, c2, c3, u, deltaT), Spline.Dt2Cubic(c2, c3, u, deltaT), CubeRate(c3, deltaT))
  {
    hide Prod, Quotient, Spline.Cubic, Spline.DtCubic, Spline.Dt2Cubic;
    Spline.CubicTaylor(c0, c1, c2, c3, u, h, deltaT);
    NonzeroProd(deltaT, deltaT);
    NonzeroProd(deltaT, Prod(deltaT, deltaT));
    var t := Prod(h, deltaT);
    PCubeRate(CubeRate(c3, deltaT), c3, h, deltaT);
  }

  /** The rate of the third power. */
  function CubeRate(c3: real, deltaT: real): real
    requires deltaT != 0.0
  {
    NonzeroProd(deltaT, deltaT);
    NonzeroProd(deltaT, Prod(deltaT, deltaT));
    Quotient(c3, Prod(deltaT, Prod(deltaT, deltaT)))
  }

  lemma PCubeRate(e: real, c3: real, h: real, deltaT: real)
    requires Prod(e, Prod(deltaT, Prod(deltaT, deltaT))) == c3
    ensures Prod(e, Prod(Prod(h, deltaT), Prod(Prod(h, deltaT), Prod(h, deltaT)))) == c3 * (h * h * h)
  {
    PCubeOfProduct(h, deltaT);
    PRate(e, Prod(deltaT, Prod(deltaT, deltaT)), h);
    hide Prod;
  }

  lemma PCubeOfProduct(h: real, deltaT: real)
    ensures Prod(Prod(h, deltaT), Prod(Prod(h, deltaT), Prod(h, deltaT))) == Prod(Prod(deltaT, Prod(deltaT, deltaT)), h * h * h)
  {}

  lemma PRate(e: real, x: real, h: real)
    ensures Prod(e, Prod(x, h * h * h)) == Prod(e, x) * (h * h * h)
  {}

  // ----- the spline -----

  /** Every factor turns not at all, or beyond the Taylor threshold. */
  predicate ClearAt(v: Spline.Triple<Se3.Twist>, u: real) {
    ClearFactor(Spline.B(u).x, v.x0.omega) && ClearFactor(Spline.B(u).y, v.x1.omega) && ClearFactor(Spline.B(u).z, v.x2.omega)
  }

  /** The rest of one factor. */
  ghost function FactorRest(f: Elementary, v: Se3.Twist, b: real, d: real, dd: real, e: real): real
    requires Facts(f)
  {
    var l := Poses(f);
    var m1 := Mul4(l.matrix(l.exp(l.times(b, v))), l.hat(v));
    var m2 := Mul4(m1, l.hat(v));
    FactorBound(SquaredNorm(v.omega), Size(d) + Size(dd) + Size(e), SizeMat(m1) + SizeMat(m2) + SizeMat(Mul4(m2, l.hat(v))))
  }

  lemma NearFactorOf(f: Elementary, v: Se3.Twist, b: real, d: real, dd: real, e: real, t: real)
    requires Facts(f) && AtMost(t, 1.0) && ClearFactor(b, v.omega) && ClearFactor(b + ExponentStep(t, d, dd, e), v.omega)
    ensures var l := Poses(f);
            NearMat(l.matrix(l.exp(l.times(b + ExponentStep(t, d, dd, e), v))), Spline.ExpJet(l, v, b, d, dd), t, FactorRest(f, v, b, d, dd, e))
  {
    hide Facts, Prod, SquaredNorm, Mul4, ExponentStep, ClearFactor, NearMat, AtMostMat, SizeMat, FactorBound, MatrixOf, Se3Exp, ScaleTwist, Se3Group.HatMatrix,
         Composed, Logged, Se3Group.Valid, Se3Group.Inverse, Spline.ExpJet;
    var l := Poses(f);
    var m1 := Mul4(l.matrix(l.exp(l.times(b, v))), l.hat(v));
    var m2 := Mul4(m1, l.hat(v));
    var m3 := Mul4(m2, l.hat(v));
    SizesOf(m1, m2, m3);
    NearFactor(f, v, b, d, dd, e, t, Size(d) + Size(dd) + Size(e), SizeMat(m1) + SizeMat(m2) + SizeMat(m3));
  }

  lemma SizesOf(x: Mat4, y: Mat4, z: Mat4)
    ensures var k := SizeMat(x) + SizeMat(y) + SizeMat(z); AtMostMat(x, k) && AtMostMat(y, k) && AtMostMat(z, k)
  {
    hide SizeMat, AtMostMat;
    SizesAdd(Spline.Jet(x, y, z));
    SizeIsBound(x, SizeMat(x) + SizeMat(y) + SizeMat(z));
    SizeIsBound(y, SizeMat(x) + SizeMat(y) + SizeMat(z));
    SizeIsBound(z, SizeMat(x) + SizeMat(y) + SizeMat(z));
  }

  /** The three factors after a step. */
  lemma NearFactors(f: Elementary, v: Spline.Triple<Se3.Twist>, u: real, h: real, deltaT: real)
    requires Facts(f) && deltaT != 0.0 && AtMost(Prod(h, deltaT), 1.0) && ClearAt(v, u) && ClearAt(v, u + h)
    ensures var l, b, d, dd, t := Poses(f), Spline.B(u), Spline.DtB(u, deltaT), Spline.Dt2B(u, deltaT), Prod(h, deltaT);
            var a := Spline.A(l, v, u + h);
            && NearMat(l.matrix(a.x0), Spline.ExpJet(l, v.x0, b.x, d.x, dd.x), t, FactorRest(f, v.x0, b.x, d.x, dd.x, CubeRate(1.0 / 6.0, deltaT)))
            && NearMat(l.matrix(a.x1), Spline.ExpJet(l, v.x1, b.y, d.y, dd.y), t, FactorRest(f, v.x1, b.y, d.y, dd.y, CubeRate(-2.0 / 6.0, deltaT)))
            && NearMat(l.matrix(a.x2), Spline.ExpJet(l, v.x2, b.z, d.z, dd.z), t, FactorRest(f, v.x2, b.z, d.z, dd.z, CubeRate(1.0 / 6.0, deltaT)))
  {
    hide Facts, Prod, NearMat, ClearFactor, ExponentStep, CubeRate, FactorRest, Spline.Cubic, Spline.DtCubic, Spline.Dt2Cubic, MatrixOf, Se3Exp, ScaleTwist,
         Se3Group.HatMatrix, Composed, Logged, Se3Group.Valid, Se3Group.Inverse, Spline.ExpJet;
    var b, d, dd, t := Spline.B(u), Spline.DtB(u, deltaT), Spline.Dt2B(u, deltaT), Prod(h, deltaT);
    BasisStep(5.0 / 6.0, 3.0 / 6.0, -3.0 / 6.0, 1.0 / 6.0, u, h, deltaT);
    BasisStep(1.0 / 6.0, 3.0 / 6.0, 3.0 / 6.0, -2.0 / 6.0, u, h, deltaT);
    BasisStep(0.0, 0.0, 0.0, 1.0 / 6.0, u, h, deltaT);
    NearFactorOf(f, v.x0, b.x, d.x, dd.x, CubeRate(1.0 / 6.0, deltaT), t);
    NearFactorOf(f, v.x1, b.y, d.y, dd.y, CubeRate(-2.0 / 6.0, deltaT), t);
    NearFactorOf(f, v.x2, b.z, d.z, dd.z, CubeRate(1.0 / 6.0, deltaT), t);
  }

  /** The spline after a step of h in u, which is h deltaT in time: its value, plus the step times
      the first derivative, plus half the square of the step times the second, up to c times the
      third power of the step. */
  ghost predicate Expands(f: Elementary, point: Se3.Pose, v: Spline.Triple<Se3.Twist>, u: real, h: real, deltaT: real, c: real)
    requires Facts(f) && deltaT != 0.0
  {
    var l := Poses(f);
    NearMat(MatrixOf(Spline.ParentTSpline(l, point, v, u + h)),
            Spline.Jet(MatrixOf(Spline.ParentTSpline(l, point, v, u)), Spline.DtParentTSpline(l, point, v, u, deltaT), Spline.Dt2ParentTSpline(l, point, v, u, deltaT)),
            Prod(h, deltaT), c)
  }

  /** The rest of a point times three factors. */
  function ProductRests(point: Mat4, j0: Spline.Jet<Mat4>, j1: Spline.Jet<Mat4>, j2: Spline.Jet<Mat4>, c0: real, c1: real, c2: real): real {
    var second := ProductRest(MatJet(j0, j1), j2, ProductRest(j0, j1, c0, c1), c2);
    ProductRest(Spline.Jet(point, Spline.ZERO4, Spline.ZERO4), MatJet(MatJet(j0, j1), j2), 0.0, second)
  }

  lemma ProductExpands(point: Mat4, m0: Mat4, j0: Spline.Jet<Mat4>, m1: Mat4, j1: Spline.Jet<Mat4>, m2: Mat4, j2: Spline.Jet<Mat4>, t: real, c0: real, c1: real, c2: real)
    requires AtMost(t, 1.0) && NearMat(m0, j0, t, c0) && NearMat(m1, j1, t, c1) && NearMat(m2, j2, t, c2)
    ensures NearMat(Mul4(point, Mul4(Mul4(m0, m1), m2)),
                    MatJet(Spline.Jet(point, Spline.ZERO4, Spline.ZERO4), MatJet(MatJet(j0, j1), j2)), t, ProductRests(point, j0, j1, j2, c0, c1, c2))
  {
    hide NearMat, ProductRest, Mul4, MatJet;
    NearProductOf(m0, j0, m1, j1, t, c0, c1);
    var first := ProductRest(j0, j1, c0, c1);
    NearProductOf(Mul4(m0, m1), MatJet(j0, j1), m2, j2, t, first, c2);
    var second := ProductRest(MatJet(j0, j1), j2, first, c2);
    NearConstant(point, t);
    NearProductOf(point, Spline.Jet(point, Spline.ZERO4, Spline.ZERO4), Mul4(Mul4(m0, m1), m2), MatJet(MatJet(j0, j1), j2), t, 0.0, second);
  }

  ghost function SplineRest(f: Elementary, point: Se3.Pose, v: Spline.Triple<Se3.Twist>, u: real, deltaT: real): real
    requires Facts(f) && deltaT != 0.0
  {
    var l, b, d, dd := Poses(f), Spline.B(u), Spline.DtB(u, deltaT), Spline.Dt2B(u, deltaT);
    ProductRests(MatrixOf(point), Spline.ExpJet(l, v.x0, b.x, d.x, dd.x), Spline.ExpJet(l, v.x1, b.y, d.y, dd.y), Spline.ExpJet(l, v.x2, b.z, d.z, dd.z),
                 FactorRest(f, v.x0, b.x, d.x, dd.x, CubeRate(1.0 / 6.0, deltaT)), FactorRest(f, v.x1, b.y, d.y, dd.y, CubeRate(-2.0 / 6.0, deltaT)),
                 FactorRest(f, v.x2, b.z, d.z, dd.z, CubeRate(1.0 / 6.0, deltaT)))
  }

  lemma SplineExpands(f: Elementary, point: Se3.Pose, v: Spline.Triple<Se3.Twist>, u: real, h: real, deltaT: real)
    requires Facts(f) && Se3Group.Valid(point) && deltaT != 0.0 && AtMost(Prod(h, deltaT), 1.0) && ClearAt(v, u) && ClearAt(v, u + h)
    ensures Expands(f, point, v, u, h, deltaT, SplineRest(f, point, v, u, deltaT))
  {
    hide Facts, Prod, NearMat, ClearFactor, CubeRate, FactorRest, ProductRests, Mul4, Spline.Add4, Spline.Scale4, Spline.B, Spline.DtB, Spline.Dt2B, MatrixOf,
         Se3Exp, ScaleTwist, Se3Group.HatMatrix, Composed, Logged, Se3Group.Valid, Se3Group.Inverse, Spline.ExpJet, Spline.ParentTSpline,
         Spline.DtParentTSpline, Spline.Dt2ParentTSpline, Spline.JetMul, Spline.LieLaws;
    var l, b, d, dd, t := Poses(f), Spline.B(u), Spline.DtB(u, deltaT), Spline.Dt2B(u, deltaT), Prod(h, deltaT);
    var a := Spline.A(l, v, u + h);
    DerivativesOfPoses(f, point, v, u, deltaT);
    ValueAfter(f, point, v, u + h);
    NearFactors(f, v, u, h, deltaT);
    ProductExpands(MatrixOf(point), l.matrix(a.x0), Spline.ExpJet(l, v.x0, b.x, d.x, dd.x), l.matrix(a.x1), Spline.ExpJet(l, v.x1, b.y, d.y, dd.y),
                   l.matrix(a.x2), Spline.ExpJet(l, v.x2, b.z, d.z, dd.z), t,
                   FactorRest(f, v.x0, b.x, d.x, dd.x, CubeRate(1.0 / 6.0, deltaT)), FactorRest(f, v.x1, b.y, d.y, dd.y, CubeRate(-2.0 / 6.0, deltaT)),
                   FactorRest(f, v.x2, b.z, d.z, dd.z, CubeRate(1.0 / 6.0, deltaT)));
    RingOfPoses(f);
  }

  /** The matrix of the value is the product of the matrices of the factors. */
  lemma ValueAfter(f: Elementary, point: Se3.Pose, v: Spline.Triple<Se3.Twist>, u: real)
    requires Facts(f) && Se3Group.Valid(point) && ClearAt(v, u)
    ensures var l := Poses(f);
            var a := Spline.A(l, v, u);
            MatrixOf(Spline.ParentTSpline(l, point, v, u)) == Mul4(MatrixOf(point), Mul4(Mul4(l.matrix(a.x0), l.matrix(a.x1)), l.matrix(a.x2)))
  {
    hide Facts, ClearFactor, Mul4, Spline.B, MatrixOf, Se3Exp, ScaleTwist, Se3Group.HatMatrix, Composed, Logged, Se3Group.Valid, Se3Group.Inverse, Spline.LieLaws;
    var l := Poses(f);
    PosesAreLie(f);
    RingOfPoses(f);
    ValidFactor(f, Spline.B(u).x, v.x0);
    ValidFactor(f, Spline.B(u).y, v.x1);
    ValidFactor(f, Spline.B(u).z, v.x2);
    Spline.MatrixOfSpline(l, point, Spline.A(l, v, u));
  }

  /** The same for the spline through a list of poses: the reported derivatives are the first and the
      second derivative in time of the value. The bound on the rest does not depend on the step. */
  lemma DerivativesOfSpline(f: Elementary, points: seq<Se3.Pose>, i: int, u: real, h: real, deltaT: real)
    requires Facts(f) && |points| >= 2 && 0 <= i < |points| - 1 && deltaT != 0.0 && AtMost(Prod(h, deltaT), 1.0)
    requires forall k :: 0 <= k < |points| ==> Se3Group.Valid(points[k])
    requires var c := Spline.SegmentControl(Poses(f), points, i); ClearAt(c.1, u) && ClearAt(c.1, u + h)
    ensures var l, c := Poses(f), Spline.SegmentControl(Poses(f), points, i);
            && Spline.Evaluate(l, points, i, u).Pass? && Spline.Evaluate(l, points, i, u + h).Pass?
            && Spline.EvaluateDt(l, points, i, u, deltaT).Pass? && Spline.EvaluateDt2(l, points, i, u, deltaT).Pass?
            && NearMat(l.matrix(Spline.Evaluate(l, points, i, u + h).value),
                       Spline.Jet(l.matrix(Spline.Evaluate(l, points, i, u).value), Spline.EvaluateDt(l, points, i, u, deltaT).value,
                                  Spline.EvaluateDt2(l, points, i, u, deltaT).value),
                       Prod(h, deltaT), SplineRest(f, c.0, c.1, u, deltaT))
  {
    hide Facts, Prod, NearMat, SplineRest, ClearAt, MatrixOf, Se3Exp, ScaleTwist, Se3Group.HatMatrix, Composed, Logged, Se3Group.Valid, Se3Group.Inverse,
         Spline.ParentTSpline, Spline.DtParentTSpline, Spline.Dt2ParentTSpline;
    var c := Spline.SegmentControl(Poses(f), points, i);
    SegmentStart(f, points, i);
    SplineExpands(f, c.0, c.1, u, h, deltaT);
  }

  lemma SegmentStart(f: Elementary, points: seq<Se3.Pose>, i: int)
    requires Facts(f) && |points| >= 2 && 0 <= i < |points| - 1
    ensures Spline.SegmentControl(Poses(f), points, i).0 in points
  {
    hide Facts, MatrixOf, Se3Exp, ScaleTwist, Se3Group.HatMatrix, Composed, Logged, Se3Group.Valid, Se3Group.Inverse;
  }

  // ----- where the condition holds -----

  /** A factor that turns not at all, or by more than the threshold. */
  predicate WellClear(b: real, omega: Vec3) {
    omega == ZERO || Prod(Prod(b, b), SquaredNorm(omega)) > EPSILON * EPSILON
  }

  predicate ClearAfter(v: Spline.Triple<Se3.Twist>, u: real, h: real) {
    ClearAt(v, u + h)
  }

  lemma FactorStaysClear(b: real, omega: Vec3) returns (r: real)
    requires WellClear(b, omega)
    ensures r > 0.0 && forall x :: AtMost(x, r) ==> ClearFactor(b + x, omega)
  {
    hide Prod, SquaredNorm;
    var n := SquaredNorm(omega);
    NormDefinite(omega);
    if omega == ZERO {
      r := 1.0;
    } else {
      var excess, slope := Prod(Prod(b, b), n) - EPSILON * EPSILON, 2.0 * Prod(Size(b), n) + 1.0;
      ProductSign(Size(b), n);
      r := Quotient(excess, slope);
      PositiveQuotient(r, slope, excess);
      forall x | AtMost(x, r)
        ensures ClearFactor(b + x, omega)
      {
        AtMostProduct(b, x, Size(b), r);
        AtMostProduct(Prod(b, x), n, Prod(Size(b), r), n);
        SquareSign(x, x * x);
        ProdIs(x, x);
        ProductSign(Prod(x, x), n);
        PSquareAfter(b, x, n);
        PSlope(r, Size(b), n);
      }
    }
  }

  lemma PositiveQuotient(r: real, slope: real, excess: real)
    requires slope > 0.0 && excess > 0.0 && Prod(r, slope) == excess
    ensures r > 0.0
  {
    if r <= 0.0 {
      ProductSign(-r, slope);
      PNegated(r, slope);
    }
    hide Prod;
  }

  lemma PSquareAfter(b: real, x: real, n: real)
    ensures Prod(Prod(b + x, b + x), n) == Prod(Prod(b, b), n) + 2.0 * Prod(Prod(b, x), n) + Prod(Prod(x, x), n)
  {}

  lemma PSlope(r: real, b: real, n: real)
    ensures Prod(r, 2.0 * Prod(b, n) + 1.0) == 2.0 * Prod(Prod(b, r), n) + r
  {}

  /** A coefficient of the basis moves by no more than a multiple of the step. */
  lemma BasisMoves(c0: real, c1: real, c2: real, c3: real, u: real, r: real) returns (s: real)
    requires r > 0.0
    ensures 0.0 < s && forall h :: AtMost(h, s) ==> AtMost(Spline.Cubic(c0, c1, c2, c3, u + h) - Spline.Cubic(c0, c1, c2, c3, u), r)
  {
    var d, dd := Spline.DtCubic(c1, c2, c3, u, 1.0), Spline.Dt2Cubic(c2, c3, u, 1.0);
    var q := Size(d) + Size(dd) + Size(CubeRate(c3, 1.0)) + 1.0;
    var limit := Quotient(r, 3.0 * q);
    PositiveQuotient(limit, 3.0 * q, r);
    s := if limit < 1.0 then limit else 1.0;
    hide Prod, Spline.Cubic, Spline.DtCubic, Spline.Dt2Cubic, ExponentStep, CubeRate;
    forall h | AtMost(h, s)
      ensures AtMost(Spline.Cubic(c0, c1, c2, c3, u + h) - Spline.Cubic(c0, c1, c2, c3, u), r)
    {
      POnes(h);
      BasisStep(c0, c1, c2, c3, u, h, 1.0);
      StepIsShort(h, d, dd, CubeRate(c3, 1.0), q);
      ProductSign(limit - Size(h), 3.0 * q);
      PSpread(limit, Size(h), 3.0 * q);
    }
  }

  lemma StepIsShort(t: real, d: real, dd: real, e: real, q: real)
    requires AtMost(t, 1.0) && AtMost(d, q) && AtMost(dd, q) && AtMost(e, q)
    ensures AtMost(ExponentStep(t, d, dd, e), Prod(Size(t), 3.0 * q))
  {
    var s, n, m := Size(t), Prod(t, t), Third(t);
    StepPowers(t);
    PNegatedStep(t);
    ThirdIs(t);
    ProductSign(s, 1.0 - s);
    PSpread(s, 1.0, s);
    POnes(s);
    AtMostProduct(t, d, s, q);
    AtMostProduct(n, dd, n, q);
    AtMostProduct(e, Prod(t, n), q, m);
    Grows(n, s, q);
    Grows(m, s, q);
    PSym(q, m);
    PThreeTimes(s, q);
    hide Prod, Third;
  }

  lemma PThreeTimes(s: real, q: real)
    ensures Prod(s, 3.0 * q) == 3.0 * Prod(s, q)
  {}

  /** A coefficient of the basis after a step, with the axis of its factor. */
  predicate ClearAfterStep(c0: real, c1: real, c2: real, c3: real, omega: Vec3, u: real, h: real) {
    ClearFactor(Spline.Cubic(c0, c1, c2, c3, u + h), omega)
  }

  lemma CoefficientStaysClear(c0: real, c1: real, c2: real, c3: real, omega: Vec3, u: real) returns (s: real)
    requires WellClear(Spline.Cubic(c0, c1, c2, c3, u), omega)
    ensures s > 0.0 && forall h :: AtMost(h, s) ==> ClearAfterStep(c0, c1, c2, c3, omega, u, h)
  {
    hide Prod, ClearFactor, WellClear, Spline.Cubic;
    var b := Spline.Cubic(c0, c1, c2, c3, u);
    var r := FactorStaysClear(b, omega);
    s := BasisMoves(c0, c1, c2, c3, u, r);
    forall h | AtMost(h, s)
      ensures ClearAfterStep(c0, c1, c2, c3, omega, u, h)
    {
      var x := Spline.Cubic(c0, c1, c2, c3, u + h) - b;
      assert AtMost(x, r) && b + x == Spline.Cubic(c0, c1, c2, c3, u + h);
    }
  }

  /** Where every factor is well clear, there are steps of every size below some r. */
  lemma ClearNearby(v: Spline.Triple<Se3.Twist>, u: real) returns (r: real)
    requires WellClear(Spline.B(u).x, v.x0.omega) && WellClear(Spline.B(u).y, v.x1.omega) && WellClear(Spline.B(u).z, v.x2.omega)
    ensures r > 0.0 && forall h :: AtMost(h, r) ==> ClearAfter(v, u, h)
  {
    hide ClearFactor, WellClear, Spline.Cubic;
    var s0 := CoefficientStaysClear(5.0 / 6.0, 3.0 / 6.0, -3.0 / 6.0, 1.0 / 6.0, v.x0.omega, u);
    var s1 := CoefficientStaysClear(1.0 / 6.0, 3.0 / 6.0, 3.0 / 6.0, -2.0 / 6.0, v.x1.omega, u);
    var s2 := CoefficientStaysClear(0.0, 0.0, 0.0, 1.0 / 6.0, v.x2.omega, u);
    r := if s0 <= s1 && s0 <= s2 then s0 else if s1 <= s2 then s1 else s2;
    forall h | AtMost(h, r)
      ensures ClearAfter(v, u, h)
    {
      assert AtMost(h, s0) && AtMost(h, s1) && AtMost(h, s2);
      assert ClearAfterStep(5.0 / 6.0, 3.0 / 6.0, -3.0 / 6.0, 1.0 / 6.0, v.x0.omega, u, h);
      assert ClearAfterStep(1.0 / 6.0, 3.0 / 6.0, 3.0 / 6.0, -2.0 / 6.0, v.x1.omega, u, h);
      assert ClearAfterStep(0.0, 0.0, 0.0, 1.0 / 6.0, v.x2.omega, u, h);
    }
  }
}
