/** The closed forms that carry the translation of Sim2 and Sim3 through exp and log.
    A matrix is given by its coefficients on I, Omega and Omega^2. */
module SimDetails {
  import opened Linear
  import opened Constants
  import opened Skew

  /** abs(x) < epsilon. */
  predicate Small(x: real) {
    -EPSILON < x < EPSILON
  }

  /** What `scale`, `sine` and `cosine` have to do with sigma and theta. */
  predicate Transcendental(sigma: real, scale: real, sine: real, cosine: real) {
    && scale > 0.0
    && (sigma == 0.0 <==> scale == 1.0)
    && Prod(sine, sine) + Prod(cosine, cosine) == 1.0
  }

  /** calcW: the coefficients C, A and B. */
  function CalcW(theta: real, sigma: real, scale: real, sine: real, cosine: real): Poly {
    if Small(sigma) then
      if Small(theta) then
        Poly(1.0, 0.5, 1.0 / 6.0)
      else
        Powers(theta);
        var thetaSq := Prod(theta, theta);
        Poly(1.0, Quotient(1.0 - cosine, thetaSq), Quotient(theta - sine, Prod(thetaSq, theta)))
    else
      var cc := Quotient(scale - 1.0, sigma);
      if Small(theta) then
        Powers(sigma);
        var sigmaSq := Prod(sigma, sigma);
        Poly(cc, Quotient(Prod(sigma - 1.0, scale) + 1.0, sigmaSq),
             Quotient(Prod(scale * 0.5, sigmaSq) + scale - 1.0 - Prod(sigma, scale), Prod(sigmaSq, sigma)))
      else
        Denominators(theta, sigma);
        var thetaSq := Prod(theta, theta);
        var a := Prod(scale, sine);
        var b := Prod(scale, cosine);
        var c := thetaSq + Prod(sigma, sigma);
        Poly(cc, Quotient(Prod(a, sigma) + Prod(1.0 - b, theta), Prod(theta, c)),
             Quotient((cc - Quotient(Prod(b - 1.0, sigma) + Prod(a, theta), c)) * 1.0, thetaSq))
  }

  /** calcWInv: the coefficients c, a and b. Without scale, a full turn has no inverse. */
  function CalcWInv(theta: real, sigma: real, scale: real, sine: real, cosine: real): Poly
    requires Transcendental(sigma, scale, sine, cosine)
    requires Prod(sigma, sigma) < EPSILON && Prod(theta, theta) >= EPSILON ==> cosine != 1.0
  {
    var scaleSq := Prod(scale, scale);
    var thetaSq := Prod(theta, theta);
    if Prod(sigma, sigma) < EPSILON then
      if thetaSq < EPSILON then
        Poly(1.0 - 0.5 * sigma, -0.5, 1.0 / 12.0)
      else
        NonzeroProd(2.0 * thetaSq, cosine - 1.0);
        Poly(1.0 - 0.5 * sigma, -0.5, Quotient(Prod(theta, sine) + 2.0 * cosine - 2.0, Prod(2.0 * thetaSq, cosine - 1.0)))
    else
      LargeIsNotSmall(sigma);
      var scaleCu := Prod(scaleSq, scale);
      var c := Quotient(sigma, scale - 1.0);
      if thetaSq < EPSILON then
        NonzeroProd(scale - 1.0, scale - 1.0);
        CubeOfDifference(scale);
        Poly(c, Quotient(Prod(-sigma, scale) + scale - 1.0, Prod(scale - 1.0, scale - 1.0)),
             Quotient(Prod(scaleSq, sigma) - 2.0 * scaleSq + Prod(scale, sigma) + 2.0 * scale,
                      2.0 * scaleCu - 6.0 * scaleSq + 6.0 * scale - 2.0))
      else
        LargeIsNotSmall(theta);
        var sSine := Prod(scale, sine);
        var sCosine := Prod(scale, cosine);
        InverseDenominators(theta, scale, sine, cosine);
        Poly(c, Quotient(Prod(theta, sCosine) - theta - Prod(sigma, sSine), Prod(theta, scaleSq - 2.0 * sCosine + 1.0)),
             Quotient(Prod(-scale, Prod(theta, sSine) - Prod(theta, sine) + Prod(sigma, sCosine) - Prod(scale, sigma) + Prod(sigma, cosine) - sigma),
                      Prod(thetaSq, scaleCu - 2.0 * Prod(scale, sCosine) - scaleSq + 2.0 * sCosine + scale - 1.0)))
  }

  // ----- denominators -----

  lemma PositiveSquare(x: real)
    requires x != 0.0
    ensures Prod(x, x) > 0.0
  {
    SquarePositive(x, Prod(x, x));
  }

  lemma Powers(x: real)
    requires x != 0.0
    ensures Prod(x, x) > 0.0 && Prod(Prod(x, x), x) != 0.0
  {
    PositiveSquare(x);
    NonzeroProd(Prod(x, x), x);
  }

  lemma Denominators(theta: real, sigma: real)
    requires theta != 0.0 && sigma != 0.0
    ensures Prod(theta, theta) > 0.0 && Prod(theta, theta) + Prod(sigma, sigma) > 0.0
    ensures Prod(theta, Prod(theta, theta) + Prod(sigma, sigma)) != 0.0
  {
    hide Prod;
    PositiveSquare(theta);
    PositiveSquare(sigma);
    NonzeroProd(theta, Prod(theta, theta) + Prod(sigma, sigma));
  }

  lemma LargeIsNotSmall(x: real)
    requires Prod(x, x) >= EPSILON
    ensures !Small(x) && x != 0.0
  {
    if Small(x) {
      SmallSquare(x, Prod(x, x));
    }
  }

  lemma SmallSquare(x: real, n: real)
    requires -EPSILON < x < EPSILON && n == x * x
    ensures n < EPSILON
  {
    var p := (EPSILON - x) * (EPSILON + x);
    PositiveProduct(EPSILON - x, EPSILON + x, p);
    assert p == EPSILON * EPSILON - n;
  }

  /** |scale e^(i theta) - 1|^2 does not vanish off scale one. */
  lemma ChordPositive(scale: real, sine: real, cosine: real)
    requires scale > 0.0 && scale != 1.0 && Prod(sine, sine) + Prod(cosine, cosine) == 1.0
    ensures Prod(scale, scale) - 2.0 * Prod(scale, cosine) + 1.0 > 0.0
  {
    hide Prod;
    CosineBound(sine, cosine);
    ScaledBound(scale, cosine);
    PositiveSquare(scale - 1.0);
    PSquareOfDifference(scale);
  }

  lemma PSquareOfDifference(scale: real)
    ensures Prod(scale - 1.0, scale - 1.0) == Prod(scale, scale) - 2.0 * scale + 1.0
  {}

  lemma CosineBound(sine: real, cosine: real)
    requires Prod(sine, sine) + Prod(cosine, cosine) == 1.0
    ensures cosine <= 1.0
  {}

  lemma ScaledBound(scale: real, cosine: real)
    requires scale > 0.0 && cosine <= 1.0
    ensures Prod(scale, cosine) <= scale
  {}

  lemma PChord(scale: real, cosine: real)
    ensures Prod(Prod(scale, scale), scale) - 2.0 * Prod(scale, Prod(scale, cosine)) - Prod(scale, scale) + 2.0 * Prod(scale, cosine) + scale - 1.0
         == Prod(scale - 1.0, Prod(scale, scale) - 2.0 * Prod(scale, cosine) + 1.0)
  {}

  lemma InverseDenominators(theta: real, scale: real, sine: real, cosine: real)
    requires theta != 0.0 && scale > 0.0 && scale != 1.0 && Prod(sine, sine) + Prod(cosine, cosine) == 1.0
    ensures Prod(theta, Prod(scale, scale) - 2.0 * Prod(scale, cosine) + 1.0) != 0.0
    ensures Prod(Prod(theta, theta), Prod(Prod(scale, scale), scale) - 2.0 * Prod(scale, Prod(scale, cosine)) - Prod(scale, scale)
                                     + 2.0 * Prod(scale, cosine) + scale - 1.0) != 0.0
  {
    hide Prod;
    var d := Prod(scale, scale) - 2.0 * Prod(scale, cosine) + 1.0;
    ChordPositive(scale, sine, cosine);
    PChord(scale, cosine);
    NonzeroProd(theta, d);
    NonzeroProd(scale - 1.0, d);
    NonzeroProd(theta, theta);
    NonzeroProd(Prod(theta, theta), Prod(scale - 1.0, d));
  }

  lemma CubeOfDifference(scale: real)
    requires scale != 1.0
    ensures 2.0 * Prod(Prod(scale, scale), scale) - 6.0 * Prod(scale, scale) + 6.0 * scale - 2.0
         == 2.0 * Prod(Prod(scale - 1.0, scale - 1.0), scale - 1.0) != 0.0
  {
    PCube(scale);
    Powers(scale - 1.0);
  }

  lemma PCube(scale: real)
    ensures Prod(Prod(scale - 1.0, scale - 1.0), scale - 1.0) == Prod(Prod(scale, scale), scale) - 3.0 * Prod(scale, scale) + 3.0 * scale - 1.0
  {}

  // ----- the coefficients without their denominators -----

  /** Both coefficients large. With u = s cos - 1 and v = s sin, the complex number
      (C - n B) + i theta A is the quotient of u + i v by sigma + i theta. */
  lemma WFacts(theta: real, sigma: real, scale: real, sine: real, cosine: real, n: real, u: real, v: real, w: Poly, g: real)
    requires !Small(sigma) && !Small(theta)
    requires n == Prod(theta, theta) && u == Prod(scale, cosine) - 1.0 && v == Prod(scale, sine)
    requires w == CalcW(theta, sigma, scale, sine, cosine) && g == w.c - Prod(n, w.b)
    ensures Prod(w.c, sigma) == scale - 1.0
    ensures Prod(w.a, Prod(theta, n + Prod(sigma, sigma))) == Prod(v, sigma) - Prod(u, theta)
    ensures Prod(g, n + Prod(sigma, sigma)) == Prod(u, sigma) + Prod(v, theta)
  {
    hide Prod, Quotient;
    Denominators(theta, sigma);
    PSym(n, w.b);
    PNegated(u, theta);
    assert 1.0 - Prod(scale, cosine) == -u;
  }

  /** The inverse in the same terms: (c - n b) + i theta a is the quotient of the
      conjugate of sigma + i theta times u + i v by |u + i v|^2. */
  lemma WInvFacts(theta: real, sigma: real, scale: real, sine: real, cosine: real, n: real, u: real, v: real, x: Poly, y: real)
    requires Prod(sigma, sigma) >= EPSILON && Prod(theta, theta) >= EPSILON && Transcendental(sigma, scale, sine, cosine)
    requires n == Prod(theta, theta) && u == Prod(scale, cosine) - 1.0 && v == Prod(scale, sine)
    requires x == CalcWInv(theta, sigma, scale, sine, cosine) && y == x.c - Prod(n, x.b)
    ensures Prod(u, u) + Prod(v, v) > 0.0 && Prod(x.c, scale - 1.0) == sigma
    ensures Prod(x.a, Prod(theta, Prod(u, u) + Prod(v, v))) == Prod(theta, u) - Prod(sigma, v)
    ensures Prod(y, Prod(u, u) + Prod(v, v)) == Prod(theta, v) + Prod(sigma, u)
  {
    hide Prod, Quotient;
    LargeIsNotSmall(theta);
    LargeIsNotSmall(sigma);
    InverseDenominators(theta, scale, sine, cosine);
    ChordPositive(scale, sine, cosine);
    PChordIs(scale, sine, cosine, u, v);
    PMinusOne(theta, u);
    hide CalcWInv;
    WInvReal(theta, sigma, scale, sine, cosine, n, u, v, x.c, x.b, y);
  }

  lemma PMinusOne(theta: real, u: real)
    ensures Prod(theta, u + 1.0) == Prod(theta, u) + theta
  {}

  lemma PChordIs(scale: real, sine: real, cosine: real, u: real, v: real)
    requires Prod(sine, sine) + Prod(cosine, cosine) == 1.0 && u == Prod(scale, cosine) - 1.0 && v == Prod(scale, sine)
    ensures Prod(u, u) + Prod(v, v) == Prod(scale, scale) - 2.0 * Prod(scale, cosine) + 1.0
  {}

  lemma WInvReal(theta: real, sigma: real, scale: real, sine: real, cosine: real, n: real, u: real, v: real, cc: real, bb: real, y: real)
    requires scale != 1.0 && u == Prod(scale, cosine) - 1.0 && v == Prod(scale, sine)
    requires Prod(u, u) + Prod(v, v) == Prod(scale, scale) - 2.0 * Prod(scale, cosine) + 1.0
    requires Prod(cc, scale - 1.0) == sigma && y == cc - Prod(n, bb)
    requires Prod(bb, Prod(n, Prod(Prod(scale, scale), scale) - 2.0 * Prod(scale, Prod(scale, cosine)) - Prod(scale, scale)
                              + 2.0 * Prod(scale, cosine) + scale - 1.0))
          == Prod(-scale, Prod(theta, v) - Prod(theta, sine) + Prod(sigma, Prod(scale, cosine)) - Prod(scale, sigma) + Prod(sigma, cosine) - sigma)
    ensures Prod(y, Prod(u, u) + Prod(v, v)) == Prod(theta, v) + Prod(sigma, u)
  {
    hide Prod;
    var r, d, z := scale - 1.0, Prod(u, u) + Prod(v, v), Prod(theta, v) + Prod(sigma, u);
    PChord(scale, cosine);
    PWInvLeft(r, d, n, cc, bb, y);
    PWInvNumerator(theta, sigma, scale, sine, cosine, u, v, d);
    PCancel(r, Prod(y, d), z);
  }

  lemma PWInvLeft(r: real, d: real, n: real, cc: real, bb: real, y: real)
    requires y == cc - Prod(n, bb)
    ensures Prod(r, Prod(y, d)) == Prod(Prod(cc, r), d) - Prod(bb, Prod(n, Prod(r, d)))
  {}

  lemma PWInvNumerator(theta: real, sigma: real, scale: real, sine: real, cosine: real, u: real, v: real, d: real)
    requires u == Prod(scale, cosine) - 1.0 && v == Prod(scale, sine)
    requires d == Prod(scale, scale) - 2.0 * Prod(scale, cosine) + 1.0
    ensures Prod(sigma, d) - Prod(-scale, Prod(theta, v) - Prod(theta, sine) + Prod(sigma, Prod(scale, cosine)) - Prod(scale, sigma) + Prod(sigma, cosine) - sigma)
         == Prod(scale - 1.0, Prod(theta, v) + Prod(sigma, u))
  {}

  // ----- W W^-1 = I -----

  lemma ProductEntriesVanish(theta: real, sigma: real, n: real, u: real, v: real, c: real, d: real,
                             aa: real, g: real, ai: real, y: real)
    requires n == theta * theta && c == n + sigma * sigma && d == u * u + v * v && theta != 0.0 && c != 0.0 && d != 0.0
    requires aa * (theta * c) == v * sigma - u * theta && g * c == u * sigma + v * theta
    requires ai * (theta * d) == theta * u - sigma * v && y * d == theta * v + sigma * u
    ensures ai * g + aa * y == 0.0
    ensures 1.0 - g * y + n * aa * ai == 0.0
  {
    NonzeroProduct(c, d);
    var cd := c * d;
    NonzeroProduct(theta, cd);
    var k := theta * cd;
    assert k * (ai * g + aa * y) == 0.0 by {
      assert k * (ai * g) == (ai * (theta * d)) * (g * c);
      assert k * (aa * y) == (aa * (theta * c)) * (y * d);
    }
    Cancel(k, ai * g + aa * y);
    SquaresMultiply(theta, sigma, u, v, c, d);
    SecondEntry(theta, n, c, d, aa, g, ai, y, u * sigma + v * theta, theta * v + sigma * u, v * sigma - u * theta, theta * u - sigma * v);
  }

  lemma SecondEntry(theta: real, n: real, c: real, d: real, aa: real, g: real, ai: real, y: real, p: real, q: real, r: real, t: real)
    requires n == theta * theta && p == g * c && q == y * d && r == aa * (theta * c) && t == ai * (theta * d)
    requires c != 0.0 && d != 0.0 && c * d == p * q - r * t
    ensures 1.0 - g * y + n * aa * ai == 0.0
  {
    NonzeroProduct(c, d);
    var cd, e := c * d, 1.0 - g * y + n * aa * ai;
    assert p * q == cd * (g * y);
    assert r * t == cd * (n * aa * ai);
    assert cd * e == 0.0;
    Cancel(cd, e);
  }

  /** |z w|^2 = |z|^2 |w|^2 for the two complex numbers at hand. */
  lemma SquaresMultiply(theta: real, sigma: real, u: real, v: real, c: real, d: real)
    requires c == theta * theta + sigma * sigma && d == u * u + v * v
    ensures c * d == (u * sigma + v * theta) * (theta * v + sigma * u) - (v * sigma - u * theta) * (theta * u - sigma * v)
  {}

  /** General branch: W and W^-1 are inverse, whatever Omega with Omega^3 = -theta^2 Omega. */
  lemma GeneralInverse(theta: real, sigma: real, scale: real, sine: real, cosine: real)
    requires Transcendental(sigma, scale, sine, cosine) && Prod(sigma, sigma) >= EPSILON && Prod(theta, theta) >= EPSILON
    ensures PolyTimes(Prod(theta, theta), CalcW(theta, sigma, scale, sine, cosine), CalcWInv(theta, sigma, scale, sine, cosine)) == ONE
  {
    hide Prod, CalcW, CalcWInv;
    var w, x := CalcW(theta, sigma, scale, sine, cosine), CalcWInv(theta, sigma, scale, sine, cosine);
    var n, u, v := Prod(theta, theta), Prod(scale, cosine) - 1.0, Prod(scale, sine);
    var g, y := w.c - Prod(n, w.b), x.c - Prod(n, x.b);
    LargeIsNotSmall(theta);
    LargeIsNotSmall(sigma);
    WFacts(theta, sigma, scale, sine, cosine, n, u, v, w, g);
    WInvFacts(theta, sigma, scale, sine, cosine, n, u, v, x, y);
    Denominators(theta, sigma);
    InverseFromFacts(theta, sigma, scale, n, u, v, n + Prod(sigma, sigma), Prod(u, u) + Prod(v, v), w.c, w.a, w.b, g, x.c, x.a, x.b, y);
  }

  lemma InverseFromFacts(theta: real, sigma: real, scale: real, n: real, u: real, v: real, c: real, d: real,
                         cc: real, aa: real, bb: real, g: real, ci: real, ai: real, bi: real, y: real)
    requires theta != 0.0 && sigma != 0.0 && n == Prod(theta, theta) > 0.0 && c == n + Prod(sigma, sigma) > 0.0 && d == Prod(u, u) + Prod(v, v) > 0.0
    requires g == cc - Prod(n, bb) && y == ci - Prod(n, bi)
    requires Prod(cc, sigma) == scale - 1.0 && Prod(ci, scale - 1.0) == sigma
    requires Prod(aa, Prod(theta, c)) == Prod(v, sigma) - Prod(u, theta) && Prod(g, c) == Prod(u, sigma) + Prod(v, theta)
    requires Prod(ai, Prod(theta, d)) == Prod(theta, u) - Prod(sigma, v) && Prod(y, d) == Prod(theta, v) + Prod(sigma, u)
    ensures PolyTimes(n, Poly(cc, aa, bb), Poly(ci, ai, bi)) == ONE
  {
    ScalarsInvert(sigma, scale, cc, ci);
    ProductEntriesVanish(theta, sigma, n, u, v, c, d, aa, g, ai, y);
    CombineEntries(n, cc, aa, bb, ci, ai, bi, g, y);
  }

  lemma ScalarsInvert(sigma: real, scale: real, cc: real, ci: real)
    requires sigma != 0.0 && cc * sigma == scale - 1.0 && ci * (scale - 1.0) == sigma
    ensures cc * ci == 1.0
  {}

  lemma CombineEntries(n: real, c: real, a: real, b: real, ci: real, ai: real, bi: real, g: real, y: real)
    requires n != 0.0 && g == c - n * b && y == ci - n * bi
    requires c * ci == 1.0 && ai * g + a * y == 0.0 && 1.0 - g * y + n * a * ai == 0.0
    ensures PolyTimes(n, Poly(c, a, b), Poly(ci, ai, bi)) == ONE
  {}

  // ----- W integrates the exponential -----

  /** (sigma I + Omega) W = scale R - I, for the rotation R of exp(Omega): the entries of the
      product are scale - 1, scale sin / theta and scale (1 - cos) / theta^2. */
  lemma WIsIntegral(theta: real, sigma: real, scale: real, sine: real, cosine: real)
    requires Transcendental(sigma, scale, sine, cosine) && !Small(theta) && (sigma == 0.0 || !Small(sigma))
    ensures var p := PolyTimes(Prod(theta, theta), Poly(sigma, 1.0, 0.0), CalcW(theta, sigma, scale, sine, cosine));
            p.c == scale - 1.0 && Prod(p.a, theta) == Prod(scale, sine) && Prod(p.b, Prod(theta, theta)) == scale - Prod(scale, cosine)
  {
    hide Prod, CalcW;
    var w := CalcW(theta, sigma, scale, sine, cosine);
    var n, u, v := Prod(theta, theta), Prod(scale, cosine) - 1.0, Prod(scale, sine);
    var g := w.c - Prod(n, w.b);
    if sigma == 0.0 {
      FlatFacts(theta, scale, sine, cosine, w);
      FlatIntegral(theta, n, sine, cosine, w.a, w.b);
      POnes(sine);
      POnes(cosine);
    } else {
      WFacts(theta, sigma, scale, sine, cosine, n, u, v, w, g);
      Denominators(theta, sigma);
      GeneralIntegral(theta, sigma, scale, n, u, v, n + Prod(sigma, sigma), w.c, w.a, w.b, g);
    }
  }

  lemma PShift(n: real, sigma: real, cc: real, aa: real, bb: real)
    ensures PolyTimes(n, Poly(sigma, 1.0, 0.0), Poly(cc, aa, bb))
         == Poly(Prod(cc, sigma), Prod(sigma, aa) + cc - Prod(n, bb), Prod(sigma, bb) + aa)
  {}

  lemma GeneralIntegral(theta: real, sigma: real, scale: real, n: real, u: real, v: real, c: real, cc: real, aa: real, bb: real, g: real)
    requires n == Prod(theta, theta) && c == n + Prod(sigma, sigma) && c != 0.0
    requires Prod(cc, sigma) == scale - 1.0 && g == cc - Prod(n, bb)
    requires Prod(aa, Prod(theta, c)) == Prod(v, sigma) - Prod(u, theta) && Prod(g, c) == Prod(u, sigma) + Prod(v, theta)
    ensures var p := PolyTimes(n, Poly(sigma, 1.0, 0.0), Poly(cc, aa, bb));
            p.c == scale - 1.0 && Prod(p.a, theta) == v && Prod(p.b, n) == scale - 1.0 - u
  {
    hide Prod, PolyTimes;
    PShift(n, sigma, cc, aa, bb);
    PIntegralSplit(theta, sigma, n, c, cc, aa, bb, g);
    PIntegralSum(theta, sigma, c, u, v);
    PCancel(c, Prod(Prod(sigma, aa) + g, theta), v);
    PCancel(c, Prod(n, aa) - Prod(sigma, g), -u);
  }

  lemma PIntegralSplit(theta: real, sigma: real, n: real, c: real, cc: real, aa: real, bb: real, g: real)
    requires n == Prod(theta, theta) && g == cc - Prod(n, bb)
    ensures Prod(c, Prod(Prod(sigma, aa) + g, theta)) == Prod(sigma, Prod(aa, Prod(theta, c))) + Prod(theta, Prod(g, c))
    ensures Prod(c, Prod(n, aa) - Prod(sigma, g)) == Prod(theta, Prod(aa, Prod(theta, c))) - Prod(sigma, Prod(g, c))
    ensures Prod(Prod(sigma, bb) + aa, n) == Prod(cc, sigma) - Prod(sigma, g) + Prod(n, aa)
  {}

  lemma PIntegralSum(theta: real, sigma: real, c: real, u: real, v: real)
    requires c == Prod(theta, theta) + Prod(sigma, sigma)
    ensures Prod(sigma, Prod(v, sigma) - Prod(u, theta)) + Prod(theta, Prod(u, sigma) + Prod(v, theta)) == Prod(c, v)
    ensures Prod(theta, Prod(v, sigma) - Prod(u, theta)) - Prod(sigma, Prod(u, sigma) + Prod(v, theta)) == Prod(c, -u)
  {}

  /** Without scale the coefficients are those of the left Jacobian. */
  lemma FlatFacts(theta: real, scale: real, sine: real, cosine: real, w: Poly)
    requires !Small(theta) && w == CalcW(theta, 0.0, scale, sine, cosine)
    ensures w.c == 1.0 && Prod(w.a, Prod(theta, theta)) == 1.0 - cosine && Prod(w.b, Prod(Prod(theta, theta), theta)) == theta - sine
  {}

  lemma FlatIntegral(theta: real, n: real, sine: real, cosine: real, aa: real, bb: real)
    requires n == Prod(theta, theta) && Prod(aa, n) == 1.0 - cosine && Prod(bb, Prod(n, theta)) == theta - sine
    ensures var p := PolyTimes(n, Poly(0.0, 1.0, 0.0), Poly(1.0, aa, bb));
            p.c == 0.0 && Prod(p.a, theta) == sine && Prod(p.b, n) == 1.0 - cosine
  {}

  lemma PGap(theta: real, n: real, bb: real)
    ensures Prod(1.0 - Prod(n, bb), theta) == theta - Prod(bb, Prod(n, theta)) == Prod(theta, 1.0 - Prod(n, bb))
  {}

  // ----- the remaining branches -----

  /** No scale: sigma is exactly zero. */
  lemma FlatInverse(theta: real, sine: real, cosine: real)
    requires Prod(sine, sine) + Prod(cosine, cosine) == 1.0 && Prod(theta, theta) >= EPSILON && cosine != 1.0
    ensures PolyTimes(Prod(theta, theta), CalcW(theta, 0.0, 1.0, sine, cosine), CalcWInv(theta, 0.0, 1.0, sine, cosine)) == ONE
  {
    hide Prod, Quotient, CalcW, CalcWInv;
    LargeIsNotSmall(theta);
    var w, x := CalcW(theta, 0.0, 1.0, sine, cosine), CalcWInv(theta, 0.0, 1.0, sine, cosine);
    FlatFacts(theta, 1.0, sine, cosine, w);
    FlatInverseFacts(theta, sine, cosine, x);
    FlatProduct(theta, Prod(theta, theta), sine, cosine, w.a, w.b, x.b);
  }

  lemma FlatInverseFacts(theta: real, sine: real, cosine: real, x: Poly)
    requires Prod(sine, sine) + Prod(cosine, cosine) == 1.0 && Prod(theta, theta) >= EPSILON && cosine != 1.0
    requires x == CalcWInv(theta, 0.0, 1.0, sine, cosine)
    ensures x.c == 1.0 && x.a == -0.5
    ensures Prod(x.b, Prod(2.0 * Prod(theta, theta), cosine - 1.0)) == Prod(theta, sine) + 2.0 * cosine - 2.0
  {}

  lemma FlatProduct(theta: real, n: real, sine: real, cosine: real, aa: real, bb: real, bi: real)
    requires Prod(sine, sine) + Prod(cosine, cosine) == 1.0 && n == Prod(theta, theta) && n != 0.0 && cosine != 1.0
    requires Prod(aa, n) == 1.0 - cosine && Prod(bb, Prod(n, theta)) == theta - sine
    requires Prod(bi, Prod(2.0 * n, cosine - 1.0)) == Prod(theta, sine) + 2.0 * cosine - 2.0
    ensures PolyTimes(n, Poly(1.0, aa, bb), Poly(1.0, -0.5, bi)) == ONE
  {
    hide Prod, PolyTimes;
    var k, g, h := 1.0 - cosine, 1.0 - Prod(n, bb), 1.0 - Prod(n, bi);
    PGap(theta, n, bb);
    PFlatInverse(n, bi, k);
    PFlatLinear(theta, n, aa, g, h);
    PSym(k, h);
    PCancel(n, Prod(aa, h), 0.5 * g);
    PFlatQuadratic(theta, sine, cosine, k, g, h);
    PCancel(k, Prod(h, g), 0.5 * (1.0 + cosine));
    FlatCombine(n, aa, bb, bi, g, h);
  }

  lemma PFlatInverse(n: real, bi: real, k: real)
    ensures 2.0 * Prod(1.0 - Prod(n, bi), k) == 2.0 * k + Prod(bi, Prod(2.0 * n, -k))
  {}

  lemma PFlatLinear(theta: real, n: real, aa: real, g: real, h: real)
    requires n == Prod(theta, theta)
    ensures Prod(n, Prod(aa, h)) == Prod(Prod(aa, n), h) && Prod(n, 0.5 * g) == 0.5 * Prod(theta, Prod(theta, g))
  {}

  lemma PFlatQuadratic(theta: real, sine: real, cosine: real, k: real, g: real, h: real)
    requires k == 1.0 - cosine
    ensures 2.0 * Prod(k, Prod(h, g)) == Prod(2.0 * Prod(h, k), g) && Prod(Prod(theta, sine), g) == Prod(sine, Prod(theta, g))
    ensures 2.0 * Prod(k, 0.5 * (1.0 + cosine)) == 1.0 - Prod(cosine, cosine)
  {}

  lemma FlatCombine(n: real, aa: real, bb: real, bi: real, g: real, h: real)
    requires n != 0.0 && g == 1.0 - Prod(n, bb) && h == 1.0 - Prod(n, bi)
    requires Prod(aa, h) == 0.5 * g && Prod(h, g) == 0.5 * (2.0 - Prod(aa, n))
    ensures PolyTimes(n, Poly(1.0, aa, bb), Poly(1.0, -0.5, bi)) == ONE
  {
    hide Prod, PolyTimes;
    PUnitProduct(n, aa, bb, bi);
    PFlatEntries(n, aa, bb, bi, g, h);
    var e := bi + bb - 0.5 * aa - Prod(n, Prod(bb, bi));
    POnes(n);
    PCancel(n, e, 0.0);
  }

  lemma PUnitProduct(n: real, aa: real, bb: real, bi: real)
    ensures PolyTimes(n, Poly(1.0, aa, bb), Poly(1.0, -0.5, bi))
         == Poly(1.0, -0.5 + aa - Prod(n, Prod(aa, bi) - 0.5 * bb), bi + bb - 0.5 * aa - Prod(n, Prod(bb, bi)))
  {}

  lemma PFlatEntries(n: real, aa: real, bb: real, bi: real, g: real, h: real)
    requires g == 1.0 - Prod(n, bb) && h == 1.0 - Prod(n, bi)
    ensures -0.5 + aa - Prod(n, Prod(aa, bi) - 0.5 * bb) == Prod(aa, h) - 0.5 * g
    ensures Prod(n, bi + bb - 0.5 * aa - Prod(n, Prod(bb, bi))) == 1.0 - Prod(h, g) - 0.5 * Prod(aa, n)
  {}

  /** No rotation: theta is exactly zero. */
  lemma StraightInverse(sigma: real, scale: real, sine: real, cosine: real)
    requires Transcendental(sigma, scale, sine, cosine) && Prod(sigma, sigma) >= EPSILON
    ensures PolyTimes(0.0, CalcW(0.0, sigma, scale, sine, cosine), CalcWInv(0.0, sigma, scale, sine, cosine)) == ONE
  {
    hide Prod, Quotient;
    var w, x := CalcW(0.0, sigma, scale, sine, cosine), CalcWInv(0.0, sigma, scale, sine, cosine);
    LargeIsNotSmall(sigma);
    Powers(sigma);
    CubeOfDifference(scale);
    NonzeroProd(scale - 1.0, scale - 1.0);
    POnes(0.0);
    StraightProduct(sigma, scale, scale - 1.0, w.c, w.a, w.b, x.c, x.a, x.b);
  }

  lemma StraightProduct(sigma: real, scale: real, r: real, cc: real, aa: real, bb: real, ci: real, ai: real, bi: real)
    requires sigma != 0.0 && r == scale - 1.0 && r != 0.0
    requires Prod(cc, sigma) == r && Prod(aa, Prod(sigma, sigma)) == Prod(sigma - 1.0, scale) + 1.0
    requires Prod(bb, Prod(Prod(sigma, sigma), sigma)) == Prod(scale * 0.5, Prod(sigma, sigma)) + scale - 1.0 - Prod(sigma, scale)
    requires Prod(ci, r) == sigma && Prod(ai, Prod(r, r)) == Prod(-sigma, scale) + scale - 1.0
    requires Prod(bi, 2.0 * Prod(Prod(r, r), r)) == Prod(Prod(scale, scale), sigma) - 2.0 * Prod(scale, scale) + Prod(scale, sigma) + 2.0 * scale
    ensures PolyTimes(0.0, Poly(cc, aa, bb), Poly(ci, ai, bi)) == ONE
  {
    hide Prod, PolyTimes;
    var k := Prod(sigma, r);
    NonzeroProd(sigma, r);
    NonzeroProd(k, k);
    ScalarsInvert(sigma, scale, cc, ci) by { ProdIs(cc, sigma); ProdIs(ci, r); }
    ProdIs(cc, ci);
    PZeroProduct(cc, aa, bb, ci, ai, bi);
    PStraightLinear(sigma, scale, r, cc, aa, ci, ai);
    POnes(k);
    PCancel(k, Prod(cc, ai) + Prod(aa, ci), 0.0);
    PStraightQuadratic(sigma, r, cc, aa, bb, ci, ai, bi);
    PStraightSum(sigma, scale, r);
    PDistribute3(Prod(k, k), Prod(cc, bi), Prod(bb, ci), Prod(aa, ai));
    POnes(Prod(k, k));
    PCancel(Prod(k, k), Prod(cc, bi) + Prod(bb, ci) + Prod(aa, ai), 0.0);
  }

  lemma PZeroProduct(cc: real, aa: real, bb: real, ci: real, ai: real, bi: real)
    ensures PolyTimes(0.0, Poly(cc, aa, bb), Poly(ci, ai, bi))
         == Poly(Prod(cc, ci), Prod(cc, ai) + Prod(aa, ci), Prod(cc, bi) + Prod(bb, ci) + Prod(aa, ai))
  {}

  lemma PDistribute3(k: real, x: real, y: real, z: real)
    ensures Prod(k, x + y + z) == Prod(k, x) + Prod(k, y) + Prod(k, z)
  {}

  lemma PStraightLinear(sigma: real, scale: real, r: real, cc: real, aa: real, ci: real, ai: real)
    ensures Prod(Prod(sigma, r), Prod(cc, ai) + Prod(aa, ci)) == Prod(Prod(cc, sigma), Prod(ai, r)) + Prod(Prod(ci, r), Prod(aa, sigma))
    ensures Prod(r, Prod(ai, r)) == Prod(ai, Prod(r, r)) && Prod(sigma, Prod(aa, sigma)) == Prod(aa, Prod(sigma, sigma))
    ensures Prod(sigma - 1.0, scale) + Prod(-sigma, scale) == -scale
  {}

  lemma PStraightQuadratic(sigma: real, r: real, cc: real, aa: real, bb: real, ci: real, ai: real, bi: real)
    ensures var k := Prod(sigma, r);
            && Prod(Prod(k, k), Prod(cc, bi)) == Prod(Prod(cc, sigma), Prod(sigma, Prod(bi, Prod(r, r))))
            && Prod(Prod(k, k), Prod(bb, ci)) == Prod(Prod(ci, r), Prod(r, Prod(bb, Prod(sigma, sigma))))
            && Prod(Prod(k, k), Prod(aa, ai)) == Prod(Prod(aa, Prod(sigma, sigma)), Prod(ai, Prod(r, r)))
    ensures 2.0 * Prod(r, Prod(sigma, Prod(bi, Prod(r, r)))) == Prod(sigma, Prod(bi, 2.0 * Prod(Prod(r, r), r)))
    ensures Prod(sigma, Prod(r, Prod(bb, Prod(sigma, sigma)))) == Prod(r, Prod(bb, Prod(Prod(sigma, sigma), sigma)))
  {}

  lemma PStraightSum(sigma: real, scale: real, r: real)
    requires r == scale - 1.0
    ensures Prod(sigma, Prod(Prod(scale, scale), sigma) - 2.0 * Prod(scale, scale) + Prod(scale, sigma) + 2.0 * scale)
          + 2.0 * Prod(r, Prod(scale * 0.5, Prod(sigma, sigma)) + scale - 1.0 - Prod(sigma, scale))
          + 2.0 * Prod(Prod(sigma - 1.0, scale) + 1.0, Prod(-sigma, scale) + scale - 1.0) == 0.0
  {
    var p := Prod(sigma, scale);
    PStraightFirst(sigma, scale, p);
    PStraightSecond(sigma, scale, r, p);
    PStraightFactors(sigma, scale, p);
    PStraightThird(scale, r, p);
    hide Prod;
  }

  lemma PStraightFirst(sigma: real, scale: real, p: real)
    requires p == Prod(sigma, scale)
    ensures Prod(sigma, Prod(Prod(scale, scale), sigma) - 2.0 * Prod(scale, scale) + Prod(scale, sigma) + 2.0 * scale)
         == Prod(p, p) - 2.0 * Prod(scale, p) + Prod(sigma, p) + 2.0 * p
  {}

  lemma PStraightSecond(sigma: real, scale: real, r: real, p: real)
    requires p == Prod(sigma, scale) && r == scale - 1.0
    ensures 2.0 * Prod(r, Prod(scale * 0.5, Prod(sigma, sigma)) + scale - 1.0 - Prod(sigma, scale))
         == Prod(p, p) - Prod(sigma, p) + 2.0 * Prod(r, r) - 2.0 * Prod(scale, p) + 2.0 * p
  {}

  lemma PStraightFactors(sigma: real, scale: real, p: real)
    requires p == Prod(sigma, scale)
    ensures Prod(sigma - 1.0, scale) + 1.0 == p - (scale - 1.0) && Prod(-sigma, scale) + scale - 1.0 == scale - 1.0 - p
  {}

  lemma PStraightThird(scale: real, r: real, p: real)
    requires r == scale - 1.0
    ensures 2.0 * Prod(p - (scale - 1.0), scale - 1.0 - p) == -2.0 * Prod(p, p) + 4.0 * Prod(scale, p) - 4.0 * p - 2.0 * Prod(r, r)
  {}

  // ----- where the two functions choose different branches -----

  /** calcW tests |sigma| against epsilon, calcWInv sigma^2. Between the two, along the axis of
      rotation, the product is the identity if and only if scale (2 - sigma) = 2 + sigma, which
      no logarithm of a scale but zero meets. */
  lemma AxisCoefficient(theta: real, sigma: real, scale: real, sine: real, cosine: real)
    requires Transcendental(sigma, scale, sine, cosine) && !Small(sigma) && Prod(sigma, sigma) < EPSILON
    requires Prod(theta, theta) >= EPSILON ==> cosine != 1.0
    ensures PolyTimes(Prod(theta, theta), CalcW(theta, sigma, scale, sine, cosine), CalcWInv(theta, sigma, scale, sine, cosine)).c == 1.0
       <==> Prod(scale, 2.0 - sigma) == 2.0 + sigma
  {
    hide Prod, Quotient;
    var w, x := CalcW(theta, sigma, scale, sine, cosine), CalcWInv(theta, sigma, scale, sine, cosine);
    assert Prod(w.c, sigma) == scale - 1.0 && x.c == 1.0 - 0.5 * sigma by {
      if !Small(theta) {
        Denominators(theta, sigma);
      }
    }
    hide CalcW, CalcWInv;
    BandScalar(sigma, scale, w.c, x.c);
  }

  lemma BandScalar(sigma: real, scale: real, cc: real, ci: real)
    requires sigma != 0.0 && Prod(cc, sigma) == scale - 1.0 && ci == 1.0 - 0.5 * sigma
    ensures Prod(cc, ci) == 1.0 <==> Prod(scale, 2.0 - sigma) == 2.0 + sigma
  {
    hide Prod;
    PBand(sigma, scale, cc);
    POnes(sigma);
    if Prod(scale, 2.0 - sigma) == 2.0 + sigma {
      PCancel(sigma, Prod(cc, ci), 1.0);
    }
  }

  lemma PBand(sigma: real, scale: real, cc: real)
    ensures 2.0 * Prod(sigma, Prod(cc, 1.0 - 0.5 * sigma)) == Prod(Prod(cc, sigma), 2.0 - sigma)
    ensures Prod(scale - 1.0, 2.0 - sigma) == Prod(scale, 2.0 - sigma) - 2.0 + sigma
  {}

  /** Likewise for theta, here without scale: between the two thresholds the product is the
      identity if and only if theta^2 (cos - 1) = 6 (theta sin + 2 cos - 2), which no such angle
      meets. */
  lemma AngleEquation(theta: real, sine: real, cosine: real)
    requires Prod(sine, sine) + Prod(cosine, cosine) == 1.0 && !Small(theta) && Prod(theta, theta) < EPSILON && cosine != 1.0
    ensures PolyTimes(Prod(theta, theta), CalcW(theta, 0.0, 1.0, sine, cosine), CalcWInv(theta, 0.0, 1.0, sine, cosine)) == ONE
       <==> Prod(Prod(theta, theta), cosine - 1.0) == 6.0 * (Prod(theta, sine) + 2.0 * cosine - 2.0)
  {
    hide Prod, Quotient, PolyTimes;
    var w, x, n := CalcW(theta, 0.0, 1.0, sine, cosine), CalcWInv(theta, 0.0, 1.0, sine, cosine), Prod(theta, theta);
    POnes(0.0);
    FlatFacts(theta, 1.0, sine, cosine, w);
    assert x == Poly(1.0, -0.5, 1.0 / 12.0);
    hide CalcW, CalcWInv;
    Powers(theta);
    NonzeroProd(2.0 * n, cosine - 1.0);
    var m := Prod(theta, sine) + 2.0 * cosine - 2.0;
    var exact := Quotient(m, Prod(2.0 * n, cosine - 1.0));
    FlatProduct(theta, n, sine, cosine, w.a, w.b, exact);
    BandQuadratic(n, cosine - 1.0, w.a, w.b, exact, m);
  }

  /** The inverse is unique: another last coefficient is right only if it is equal. */
  lemma BandQuadratic(n: real, k: real, aa: real, bb: real, exact: real, m: real)
    requires n != 0.0 && k != 0.0 && Prod(aa, n) == -k && Prod(exact, Prod(2.0 * n, k)) == m
    requires PolyTimes(n, Poly(1.0, aa, bb), Poly(1.0, -0.5, exact)) == ONE
    ensures PolyTimes(n, Poly(1.0, aa, bb), Poly(1.0, -0.5, 1.0 / 12.0)) == ONE <==> Prod(n, k) == 6.0 * m
  {
    hide Prod, PolyTimes;
    var twelfth := 1.0 / 12.0;
    PUnitProduct(n, aa, bb, exact);
    PUnitProduct(n, aa, bb, twelfth);
    PBandEntry(n, k, aa, bb, exact, twelfth);
    NonzeroProd(n, k);
    POnes(k);
    POnes(Prod(n, k));
    if Prod(n, k) == 6.0 * m {
      PCancel(Prod(n, k), exact - twelfth, 0.0);
    } else if Prod(k, exact - twelfth) == 0.0 {
      PCancel(k, exact - twelfth, 0.0);
    }
  }

  lemma PBandEntry(n: real, k: real, aa: real, bb: real, exact: real, other: real)
    ensures Prod(n, Prod(aa, other) - 0.5 * bb) == Prod(n, Prod(aa, exact) - 0.5 * bb) - Prod(Prod(aa, n), exact - other)
    ensures Prod(-k, exact - other) == -Prod(k, exact - other)
    ensures Prod(exact, Prod(2.0 * n, k)) == 2.0 * Prod(Prod(n, k), exact - other) + 2.0 * Prod(Prod(n, k), other)
    ensures 12.0 * Prod(Prod(n, k), 1.0 / 12.0) == Prod(n, k)
  {}
}
