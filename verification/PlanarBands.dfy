/** Exactly where calcWInv inverts calcW in the plane, where both act as complex numbers. There
    the two errors of an angle and of a scale below their thresholds can make up for each other. */
module PlanarBands {
  import opened Linear
  import opened Constants
  import opened Skew
  import opened Planar
  import opened SimDetails
  import opened Elementary
  import opened SimBands

  /** The logarithm of the scale that makes up for an angle between the two thresholds. */
  function Compensation(theta: real, sine: real, cosine: real): real
    requires cosine != 1.0
  {
    2.0 - Prod(theta, theta) / 6.0 - Quotient(Prod(theta, sine), 1.0 - cosine)
  }

  predicate Cancelling(theta: real, sigma: real, sine: real, cosine: real) {
    !Exact(theta) && !Small(theta) && cosine != 1.0 && sigma == Compensation(theta, sine, cosine)
  }

  /** Every angle between the thresholds has such a logarithm. It is positive and at most a sixth
      of the square of the angle, which is below every threshold. */
  lemma CompensationIsTiny(theta: real, sine: real, cosine: real)
    requires AngleBounds(theta, sine, cosine) && !Exact(theta) && !Small(theta)
    ensures cosine < 1.0 && 0.0 < Compensation(theta, sine, cosine) <= Prod(theta, theta) / 6.0 < EPSILON
    ensures Cancelling(theta, Compensation(theta, sine, cosine), sine, cosine)
    ensures Small(Compensation(theta, sine, cosine)) && !Exact(Compensation(theta, sine, cosine))
  {
    hide Prod, Quotient;
    var n, p, k := Prod(theta, theta), Prod(theta, sine), 1.0 - cosine;
    AngleGap(theta, sine, cosine, n);
    var q := Quotient(p, k);
    PCompensation(n, p, k, q);
    PNegated(n, k);
    ProductSign(0.5 * n - k, 2.0 - n / 3.0);
    SignOfFactor(2.0 - n / 6.0 - q, k);
    SignOfFactor(n / 6.0 - (2.0 - n / 6.0 - q), k);
    TinyIsSmall(2.0 - n / 6.0 - q);
  }

  lemma PCompensation(n: real, p: real, k: real, q: real)
    requires Prod(q, k) == p
    ensures Prod(2.0 - n / 6.0 - q, k) == 2.0 * k - Prod(n, k) / 6.0 - p
    ensures Prod(n / 6.0 - (2.0 - n / 6.0 - q), k) == Prod(n, k) / 3.0 - 2.0 * k + p
    ensures Prod(0.5 * n - k, 2.0 - n / 3.0) == n - Prod(n, n) / 6.0 - 2.0 * k + Prod(n, k) / 3.0
  {}

  lemma SignOfFactor(c: real, k: real)
    requires k > 0.0
    ensures (Prod(c, k) > 0.0 ==> c > 0.0) && (Prod(c, k) >= 0.0 ==> c >= 0.0)
  {
    if c < 0.0 {
      PositiveProduct(-c, k, -c * k);
    }
  }

  lemma TinyIsSmall(c: real)
    requires 0.0 < c < EPSILON / 6.0
    ensures Small(c) && !Exact(c)
  {
    SmallSquare(c, Prod(c, c));
  }

  /** The product of the two complex numbers is one if and only if angle and logarithm of the
      scale are each zero or beyond the threshold on the square, or make up for each other. */
  lemma ProductExactlyWhen(theta: real, sigma: real, scale: real, sine: real, cosine: real)
    requires Values(theta, sigma, scale, sine, cosine) && (theta != 0.0 ==> cosine != 1.0)
    ensures ToComplex(theta, Composed(theta, sigma, scale, sine, cosine)) == ONE2
       <==> (Exact(theta) && Exact(sigma)) || Cancelling(theta, sigma, sine, cosine)
  {
    hide Values, ToComplex, Composed, Cancelling;
    ComplexOne(theta, Composed(theta, sigma, scale, sine, cosine));
    if theta == 0.0 {
      WithoutAngle(sigma, scale, sine, cosine);
    } else if Exact(theta) && Exact(sigma) {
      BothExact(theta, sigma, scale, sine, cosine);
      OneIsPlanarOne(Prod(theta, theta));
      ExactIsNoBand(theta, sigma, sine, cosine);
    } else {
      InABand(theta, sigma, scale, sine, cosine);
    }
  }

  lemma ComplexOne(theta: real, p: Poly)
    ensures ToComplex(theta, p) == ONE2 <==> if theta == 0.0 then p.c == 1.0 else PlanarOne(Prod(theta, theta), p)
  {
    POnes(0.0);
    POnes(p.a);
    POnes(p.b);
    POnes(theta);
    if theta != 0.0 && Prod(theta, p.a) == 0.0 {
      PCancel(theta, p.a, 0.0);
    }
    hide Prod;
  }

  lemma ExactIsNoBand(theta: real, sigma: real, sine: real, cosine: real)
    ensures Cancelling(theta, sigma, sine, cosine) ==> !Exact(theta)
  {}

  lemma WithoutAngle(sigma: real, scale: real, sine: real, cosine: real)
    requires Values(0.0, sigma, scale, sine, cosine)
    ensures Composed(0.0, sigma, scale, sine, cosine).c == 1.0 <==> Exact(sigma)
    ensures Exact(0.0) && !Cancelling(0.0, sigma, sine, cosine)
  {
    hide Values, Composed;
    if Exact(sigma) {
      BothExact(0.0, sigma, scale, sine, cosine);
    } else {
      ScaleBand(0.0, sigma, scale, sine, cosine);
    }
    hide Prod;
  }

  lemma InABand(theta: real, sigma: real, scale: real, sine: real, cosine: real)
    requires Values(theta, sigma, scale, sine, cosine) && theta != 0.0 && cosine != 1.0 && !(Exact(theta) && Exact(sigma))
    ensures PlanarOne(Prod(theta, theta), Composed(theta, sigma, scale, sine, cosine)) <==> Cancelling(theta, sigma, sine, cosine)
  {
    hide Prod, Values, Composed, PlanarOne;
    SmallIsBelow(theta);
    SmallIsBelow(sigma);
    OnlyTiny(theta, sigma, scale, sine, cosine);
    if Small(sigma) {
      if Exact(theta) {
        SmallScale(theta, sigma, scale, sine, cosine);
      } else if Small(theta) {
        SmallBoth(theta, sigma, scale, sine, cosine);
      } else {
        SmallScaleAngleBand(theta, sigma, scale, sine, cosine);
      }
    } else if Prod(sigma, sigma) >= EPSILON {
      MixedBand(theta, sigma, scale, sine, cosine);
    } else if Small(theta) {
      ScaleBandSmallAngle(theta, sigma, scale, sine, cosine);
    } else {
      ScaleBandAngle(theta, sigma, scale, sine, cosine);
    }
  }

  lemma OnlyTiny(theta: real, sigma: real, scale: real, sine: real, cosine: real)
    requires Values(theta, sigma, scale, sine, cosine)
    ensures Cancelling(theta, sigma, sine, cosine) ==> Small(sigma) && !Exact(sigma) && !Exact(theta) && !Small(theta)
  {
    if Cancelling(theta, sigma, sine, cosine) {
      ValuesParts(theta, sigma, scale, sine, cosine);
      CompensationIsTiny(theta, sine, cosine);
    }
    hide Values, AngleBounds, Compensation, Prod;
  }

  lemma SmallIsBelow(x: real)
    ensures Small(x) ==> Prod(x, x) < EPSILON * EPSILON < EPSILON
  {
    if Small(x) {
      PositiveProduct(EPSILON - x, EPSILON + x, EPSILON * EPSILON - Prod(x, x));
    }
  }

  // ----- the scale below its closed form -----

  /** The inverse takes half of sigma off the coefficient of I, and the product misses by half of
      sigma times W. */
  lemma SmallScale(theta: real, sigma: real, scale: real, sine: real, cosine: real)
    requires Values(theta, sigma, scale, sine, cosine) && Small(sigma) && sigma != 0.0 && Prod(theta, theta) >= EPSILON && cosine != 1.0
    ensures !PlanarOne(Prod(theta, theta), Composed(theta, sigma, scale, sine, cosine))
  {
    hide Prod, Quotient, PolyTimes, Values, AngleBounds, ScaleBounds;
    ValuesParts(theta, sigma, scale, sine, cosine);
    LargeIsNotSmall(theta);
    POnes(0.0);
    var w, x := CalcW(theta, 0.0, 1.0, sine, cosine), CalcWInv(theta, 0.0, 1.0, sine, cosine);
    SmallIsBelow(sigma);
    assert CalcW(theta, sigma, scale, sine, cosine) == w && CalcWInv(theta, sigma, scale, sine, cosine) == Poly(x.c - 0.5 * sigma, x.a, x.b);
    FlatInverse(theta, sine, cosine);
    POnes(w.a);
    assert Prod(w.a, Prod(theta, theta)) == 1.0 - cosine;
    hide CalcW, CalcWInv;
    PShiftConstant(Prod(theta, theta), w, x, 0.5 * sigma);
    POnes(Prod(theta, theta));
    NonzeroProd(0.5 * sigma, w.a);
  }

  lemma PShiftConstant(n: real, w: Poly, x: Poly, h: real)
    ensures PolyTimes(n, w, Poly(x.c - h, x.a, x.b)).a == PolyTimes(n, w, x).a - Prod(h, w.a)
  {}

  lemma SmallBoth(theta: real, sigma: real, scale: real, sine: real, cosine: real)
    requires Values(theta, sigma, scale, sine, cosine) && Small(sigma) && Small(theta) && theta != 0.0
    ensures !PlanarOne(Prod(theta, theta), Composed(theta, sigma, scale, sine, cosine))
  {
    hide Prod, Quotient, PolyTimes, Values, Transcendental, AngleBounds, ScaleBounds;
    ValuesParts(theta, sigma, scale, sine, cosine);
    SmallIsBelow(sigma);
    SmallIsBelow(theta);
    NonzeroSquareOf(theta);
    PSmallBoth(Prod(theta, theta), sigma);
  }

  lemma PSmallBoth(n: real, sigma: real)
    requires 0.0 < n < EPSILON
    ensures !PlanarOne(n, PolyTimes(n, Poly(1.0, 0.5, 1.0 / 6.0), Poly(1.0 - 0.5 * sigma, -0.5, 1.0 / 12.0)))
  {
    var p := PolyTimes(n, Poly(1.0, 0.5, 1.0 / 6.0), Poly(1.0 - 0.5 * sigma, -0.5, 1.0 / 12.0));
    assert p.a == n / 24.0 - sigma / 4.0 && p.b == -sigma / 12.0 - n / 72.0 && p.c == 1.0 - sigma / 2.0;
    if p.a == 0.0 {
      assert sigma == n / 6.0 && p.b == -n / 36.0;
      assert Prod(n, p.b) == -n * n / 36.0;
      PositiveProduct(n, 3.0 - n, n * (3.0 - n));
    }
  }

  /** Here the errors of the angle and of the scale can cancel. */
  lemma SmallScaleAngleBand(theta: real, sigma: real, scale: real, sine: real, cosine: real)
    requires Values(theta, sigma, scale, sine, cosine) && Small(sigma) && !Exact(theta) && !Small(theta) && cosine != 1.0
    ensures PlanarOne(Prod(theta, theta), Composed(theta, sigma, scale, sine, cosine)) <==> Cancelling(theta, sigma, sine, cosine)
  {
    hide Prod, Quotient, PolyTimes, Values, Transcendental, AngleBounds, ScaleBounds, PlanarOne;
    ValuesParts(theta, sigma, scale, sine, cosine);
    SmallIsBelow(sigma);
    var n := Prod(theta, theta);
    NonzeroSquareOf(theta);
    NonzeroProd(n, theta);
    var w, x := CalcW(theta, sigma, scale, sine, cosine), CalcWInv(theta, sigma, scale, sine, cosine);
    assert x == Poly(1.0 - 0.5 * sigma, -0.5, 1.0 / 12.0) && w.c == 1.0;
    assert Prod(w.a, n) == 1.0 - cosine && Prod(w.b, Prod(n, theta)) == theta - sine;
    hide CalcW, CalcWInv;
    var k, y, p := 1.0 - cosine, 1.0 - sigma / 2.0 - n / 12.0, Prod(theta, sine);
    PFlatEntries(theta, sigma, sine, n, w, x, k, y, p);
    PChord1(sine, cosine, k);
    FlatAngle(theta, n, sine, k, y, p, PolyTimes(n, w, x));
    Solved(n, k, p, sigma);
  }

  lemma Solved(n: real, k: real, p: real, sigma: real)
    requires k != 0.0
    ensures 2.0 * Prod(k, 1.0 - sigma / 2.0 - n / 12.0) == p <==> sigma == 2.0 - n / 6.0 - Quotient(p, k)
  {
    var q := Quotient(p, k);
    hide Quotient;
    PSolved(n, k, q, sigma);
    POnes(k);
    if Prod(k, 2.0 - n / 6.0 - q - sigma) == 0.0 {
      PCancel(k, 2.0 - n / 6.0 - q - sigma, 0.0);
    }
    hide Prod;
  }

  lemma PSolved(n: real, k: real, q: real, sigma: real)
    ensures 2.0 * Prod(k, 1.0 - sigma / 2.0 - n / 12.0) - Prod(q, k) == Prod(k, 2.0 - n / 6.0 - q - sigma)
    ensures Prod(k, 0.0) == 0.0
  {}

  lemma PChord1(sine: real, cosine: real, k: real)
    requires k == 1.0 - cosine && Prod(sine, sine) + Prod(cosine, cosine) == 1.0
    ensures Prod(sine, sine) + Prod(k, k) == 2.0 * k
  {}

  lemma PFlatEntries(theta: real, sigma: real, sine: real, n: real, w: Poly, x: Poly, k: real, y: real, p: real)
    requires n == Prod(theta, theta) && p == Prod(theta, sine) && y == 1.0 - sigma / 2.0 - n / 12.0
    requires x == Poly(1.0 - 0.5 * sigma, -0.5, 1.0 / 12.0) && w.c == 1.0 && Prod(w.a, n) == k && Prod(w.b, Prod(n, theta)) == theta - sine
    ensures 2.0 * Prod(n, PolyTimes(n, w, x).a) == 2.0 * Prod(k, y) - p
    ensures Prod(theta, PolyTimes(n, w, x).c - Prod(n, PolyTimes(n, w, x).b)) == Prod(sine, y) + Prod(theta, k) / 2.0
  {
    var a, b := w.a, w.b;
    assert PolyTimes(n, w, x).a == -0.5 + a * y + n * b / 2.0;
    assert PolyTimes(n, w, x).b == 1.0 / 12.0 + b * y - a / 2.0;
    assert PolyTimes(n, w, x).c == 1.0 - sigma / 2.0;
    PFlatImaginary(theta, sine, n, a, b, k, y, p);
    PFlatReal(theta, sine, n, a, b, k, y, sigma);
    hide PolyTimes;
  }

  lemma PFlatImaginary(theta: real, sine: real, n: real, a: real, b: real, k: real, y: real, p: real)
    requires n == Prod(theta, theta) && p == Prod(theta, sine) && Prod(a, n) == k && Prod(b, Prod(n, theta)) == theta - sine
    ensures 2.0 * Prod(n, -0.5 + a * y + n * b / 2.0) == 2.0 * Prod(k, y) - p
  {
    assert n * (n * b) == theta * (b * (n * theta));
    assert n * (a * y) == (a * n) * y;
  }

  lemma PFlatReal(theta: real, sine: real, n: real, a: real, b: real, k: real, y: real, sigma: real)
    requires y == 1.0 - sigma / 2.0 - n / 12.0 && Prod(a, n) == k && Prod(b, Prod(n, theta)) == theta - sine
    ensures Prod(theta, 1.0 - sigma / 2.0 - Prod(n, 1.0 / 12.0 + b * y - a / 2.0)) == Prod(sine, y) + Prod(theta, k) / 2.0
  {
    assert theta * (n * (b * y)) == (b * (n * theta)) * y;
    assert n * a == k;
  }

  lemma FlatAngle(theta: real, n: real, sine: real, k: real, y: real, p: real, q: Poly)
    requires theta != 0.0 && n > 0.0 && k != 0.0 && p == Prod(theta, sine) && Prod(sine, sine) + Prod(k, k) == 2.0 * k
    requires 2.0 * Prod(n, q.a) == 2.0 * Prod(k, y) - p
    requires Prod(theta, q.c - Prod(n, q.b)) == Prod(sine, y) + Prod(theta, k) / 2.0
    ensures PlanarOne(n, q) <==> 2.0 * Prod(k, y) == p
  {
    POnes(n);
    if q.a == 0.0 || 2.0 * Prod(k, y) == p {
      PCancel(n, q.a, 0.0);
      NonzeroProd(k, theta);
      PRealIsOne(theta, sine, k, y, p, q.c - Prod(n, q.b));
      PCancel(Prod(k, theta), q.c - Prod(n, q.b), 1.0);
    }
    hide Prod;
  }

  lemma PRealIsOne(theta: real, sine: real, k: real, y: real, p: real, real1: real)
    requires p == Prod(theta, sine) && Prod(sine, sine) + Prod(k, k) == 2.0 * k && 2.0 * Prod(k, y) == p
    requires Prod(theta, real1) == Prod(sine, y) + Prod(theta, k) / 2.0
    ensures Prod(Prod(k, theta), real1) == Prod(Prod(k, theta), 1.0)
  {
    assert k * theta * real1 == k * (theta * real1);
    assert k * (sine * y) == sine * (k * y);
    assert sine * (theta * sine) + theta * (k * k) == theta * (2.0 * k);
  }

  // ----- the scale between the two thresholds -----

  /** W has its closed form, and the inverse the imaginary part -theta / 2. For the true inverse
      this means sinh(sigma) / sigma = sin(theta) / theta. */
  lemma ScaleBandAngle(theta: real, sigma: real, scale: real, sine: real, cosine: real)
    requires Values(theta, sigma, scale, sine, cosine) && Prod(sigma, sigma) < EPSILON && !Small(sigma) && !Small(theta)
    ensures !PlanarOne(Prod(theta, theta), Composed(theta, sigma, scale, sine, cosine))
  {
    hide Prod, Quotient, PolyTimes, Values, Transcendental, AngleBounds, ScaleBounds, PlanarOne;
    ValuesParts(theta, sigma, scale, sine, cosine);
    var w, x := CalcW(theta, sigma, scale, sine, cosine), CalcWInv(theta, sigma, scale, sine, cosine);
    var n, u, v := Prod(theta, theta), Prod(scale, cosine) - 1.0, Prod(scale, sine);
    assert x.a == -0.5;
    hide CalcWInv;
    WFacts(theta, sigma, scale, sine, cosine, n, u, v, w, w.c - Prod(n, w.b));
    hide CalcW;
    Denominators(theta, sigma);
    if PlanarOne(n, PolyTimes(n, w, x)) {
      InverseIsConjugate(theta, sigma, u, v, n, w, x);
      HalfAngleDiffers(theta, sigma, scale, sine, cosine, n, u, v);
    }
  }

  lemma HalfAngleDiffers(theta: real, sigma: real, scale: real, sine: real, cosine: real, n: real, u: real, v: real)
    requires theta != 0.0 && n == Prod(theta, theta) && sigma != 0.0 && scale > 0.0
    requires u == Prod(scale, cosine) - 1.0 && v == Prod(scale, sine) && Prod(sine, sine) + Prod(cosine, cosine) == 1.0
    requires AngleBounds(theta, sine, cosine) && ScaleBounds(sigma, scale)
    ensures Prod(-0.5, Prod(theta, Prod(u, u) + Prod(v, v))) != Prod(theta, u) - Prod(sigma, v)
  {
    if Prod(-0.5, Prod(theta, Prod(u, u) + Prod(v, v))) == Prod(theta, u) - Prod(sigma, v) {
      var k, r, p, h := 1.0 - cosine, scale - 1.0, Prod(theta, sine), Prod(sigma, Prod(scale, scale) - 1.0);
      SimBands.PChord(scale, sine, cosine, k, r);
      PHalfAngle(theta, sigma, scale, sine, n, k, r, p, u, v, h);
      SineBelow(theta, sine, cosine, n, p);
      NonzeroSquareOf(theta);
      NonzeroSquareOf(sigma);
      ProductSign(Prod(sigma, sigma), scale);
      ProductSign(n, h - 2.0 * Prod(Prod(sigma, sigma), scale));
      ProductSign(n - p, Prod(Prod(sigma, sigma), scale));
      PHalfAngleSum(n, p, h, Prod(Prod(sigma, sigma), scale));
      hide Prod;
    }
  }

  lemma PHalfAngle(theta: real, sigma: real, scale: real, sine: real, n: real, k: real, r: real, p: real, u: real, v: real, h: real)
    requires n == Prod(theta, theta) && p == Prod(theta, sine) && r == scale - 1.0 && h == Prod(sigma, Prod(scale, scale) - 1.0)
    requires u == r - Prod(scale, k) && v == Prod(scale, sine) && Prod(u, u) + Prod(v, v) == Prod(r, r) + 2.0 * Prod(scale, k)
    requires Prod(-0.5, Prod(theta, Prod(u, u) + Prod(v, v))) == Prod(theta, u) - Prod(sigma, v)
    ensures Prod(n, h) == 2.0 * Prod(p, Prod(Prod(sigma, sigma), scale))
  {
    PHalfAngleOnce(theta, sigma, scale, sine, k, r, u, v, Prod(u, u) + Prod(v, v));
    PHalfAngleTwice(theta, sigma, scale, sine, n, p, h);
    hide Prod;
  }

  lemma PHalfAngleOnce(theta: real, sigma: real, scale: real, sine: real, k: real, r: real, u: real, v: real, d: real)
    requires r == scale - 1.0 && u == r - Prod(scale, k) && v == Prod(scale, sine) && d == Prod(r, r) + 2.0 * Prod(scale, k)
    requires Prod(-0.5, Prod(theta, d)) == Prod(theta, u) - Prod(sigma, v)
    ensures Prod(theta, Prod(scale, scale) - 1.0) == 2.0 * Prod(sigma, Prod(scale, sine))
  {}

  lemma PHalfAngleTwice(theta: real, sigma: real, scale: real, sine: real, n: real, p: real, h: real)
    requires n == Prod(theta, theta) && p == Prod(theta, sine) && h == Prod(sigma, Prod(scale, scale) - 1.0)
    requires Prod(theta, Prod(scale, scale) - 1.0) == 2.0 * Prod(sigma, Prod(scale, sine))
    ensures Prod(n, h) == 2.0 * Prod(p, Prod(Prod(sigma, sigma), scale))
  {
    assert theta * theta * (sigma * (scale * scale - 1.0)) == theta * sigma * (theta * (scale * scale - 1.0));
  }

  lemma PHalfAngleSum(n: real, p: real, h: real, z: real)
    ensures Prod(n, h - 2.0 * z) + 2.0 * Prod(n - p, z) == Prod(n, h) - 2.0 * Prod(p, z)
  {}

  /** W has the coefficients of theta = 0. The Taylor bounds of the exponential decide. */
  lemma ScaleBandSmallAngle(theta: real, sigma: real, scale: real, sine: real, cosine: real)
    requires Values(theta, sigma, scale, sine, cosine) && Prod(sigma, sigma) < EPSILON && !Small(sigma) && Small(theta)
    ensures !PlanarOne(Prod(theta, theta), Composed(theta, sigma, scale, sine, cosine))
  {
    hide Prod, Quotient, PolyTimes, Values, Transcendental, AngleBounds, ScaleBounds, PlanarOne;
    ValuesParts(theta, sigma, scale, sine, cosine);
    SmallIsBelow(theta);
    Powers(sigma);
    var w, x := CalcW(theta, sigma, scale, sine, cosine), CalcWInv(theta, sigma, scale, sine, cosine);
    var n, m, r := Prod(theta, theta), Prod(sigma, sigma), scale - 1.0;
    assert x == Poly(1.0 - 0.5 * sigma, -0.5, 1.0 / 12.0);
    hide CalcWInv;
    assert Prod(w.c, sigma) == r && Prod(w.a, m) == Prod(sigma - 1.0, scale) + 1.0
        && Prod(w.b, Prod(m, sigma)) == Prod(scale * 0.5, m) + scale - 1.0 - Prod(sigma, scale);
    hide CalcW;
    ProdIs(theta, theta);
    SquareSign(theta, n);
    var g := 1.0 - Prod(scale, 1.0 - sigma + m / 2.0);
    var entry := PolyTimes(n, w, x).a;
    PEntryA(n, w, sigma);
    PBandTaylor(sigma, scale, n, m, g, w.c, w.a, w.b, entry);
    POnes(Prod(m, sigma));
    TaylorDiffers(sigma, scale, n, m, g);
    PlanarOneIs(n, PolyTimes(n, w, x));
    assert Composed(theta, sigma, scale, sine, cosine) == PolyTimes(n, w, x);
  }

  lemma PlanarOneIs(n: real, p: Poly)
    ensures PlanarOne(n, p) ==> p.a == 0.0
  {}

  lemma PEntryA(n: real, w: Poly, sigma: real)
    ensures PolyTimes(n, w, Poly(1.0 - 0.5 * sigma, -0.5, 1.0 / 12.0)).a
         == -0.5 * w.c + w.a * (1.0 - 0.5 * sigma) - n * (w.a / 12.0 - 0.5 * w.b)
  {}

  lemma PBandTaylor(sigma: real, scale: real, n: real, m: real, g: real, c: real, a: real, b: real, entry: real)
    requires entry == -0.5 * c + a * (1.0 - 0.5 * sigma) - n * (a / 12.0 - 0.5 * b)
    requires m == Prod(sigma, sigma) && g == 1.0 - Prod(scale, 1.0 - sigma + m / 2.0)
    requires Prod(c, sigma) == scale - 1.0 && Prod(a, m) == Prod(sigma - 1.0, scale) + 1.0
    requires Prod(b, Prod(m, sigma)) == Prod(scale * 0.5, m) + scale - 1.0 - Prod(sigma, scale)
    ensures Prod(Prod(m, sigma), entry)
         == Prod(g, sigma - Prod(n, sigma) / 12.0 - n / 2.0) - Prod(n, Prod(Prod(m, sigma), scale)) / 24.0
  {
    PCubeTimes(sigma, m, c, a, b);
    PEntryTimes(Prod(m, sigma), n, sigma, c, a, b, entry);
    PEntryValue(sigma, scale, n, m, g, Prod(sigma, Prod(a, m)), Prod(b, Prod(m, sigma)));
    hide Prod;
  }

  lemma PCubeTimes(sigma: real, m: real, c: real, a: real, b: real)
    ensures Prod(Prod(m, sigma), c) == Prod(m, Prod(c, sigma)) && Prod(Prod(m, sigma), a) == Prod(sigma, Prod(a, m))
    ensures Prod(Prod(m, sigma), b) == Prod(b, Prod(m, sigma))
  {}

  lemma PEntryTimes(k: real, n: real, sigma: real, c: real, a: real, b: real, entry: real)
    requires entry == -0.5 * c + a * (1.0 - 0.5 * sigma) - n * (a / 12.0 - 0.5 * b)
    ensures Prod(k, entry) == -0.5 * Prod(k, c) + Prod(Prod(k, a), 1.0 - 0.5 * sigma) - Prod(n, Prod(k, a) / 12.0 - 0.5 * Prod(k, b))
  {
    assert k * (a * (1.0 - 0.5 * sigma)) == k * a * (1.0 - 0.5 * sigma);
    assert k * (n * (a / 12.0 - 0.5 * b)) == n * (k * a / 12.0 - 0.5 * (k * b));
  }

  lemma PEntryValue(sigma: real, scale: real, n: real, m: real, g: real, a: real, b: real)
    requires m == Prod(sigma, sigma) && g == 1.0 - Prod(scale, 1.0 - sigma + m / 2.0)
    requires a == Prod(sigma, Prod(sigma - 1.0, scale) + 1.0) && b == Prod(scale * 0.5, m) + scale - 1.0 - Prod(sigma, scale)
    ensures -0.5 * Prod(m, scale - 1.0) + Prod(a, 1.0 - 0.5 * sigma) - Prod(n, a / 12.0 - 0.5 * b)
            == Prod(g, sigma - Prod(n, sigma) / 12.0 - n / 2.0) - Prod(n, Prod(Prod(m, sigma), scale)) / 24.0
  {
    PValueAtZero(sigma, scale, m, g, a);
    PSlope(sigma, scale, m, g, a, b);
    PAssemble(n, sigma, g, a / 12.0 - 0.5 * b, Prod(Prod(m, sigma), scale));
    hide Prod;
  }

  lemma PValueAtZero(sigma: real, scale: real, m: real, g: real, a: real)
    requires m == Prod(sigma, sigma) && g == 1.0 - Prod(scale, 1.0 - sigma + m / 2.0) && a == Prod(sigma, Prod(sigma - 1.0, scale) + 1.0)
    ensures -0.5 * Prod(m, scale - 1.0) + Prod(a, 1.0 - 0.5 * sigma) == Prod(g, sigma)
  {}

  lemma PSlope(sigma: real, scale: real, m: real, g: real, a: real, b: real)
    requires m == Prod(sigma, sigma) && g == 1.0 - Prod(scale, 1.0 - sigma + m / 2.0)
    requires a == Prod(sigma, Prod(sigma - 1.0, scale) + 1.0) && b == Prod(scale * 0.5, m) + scale - 1.0 - Prod(sigma, scale)
    ensures a / 12.0 - 0.5 * b == Prod(g, sigma) / 12.0 + g / 2.0 + Prod(Prod(m, sigma), scale) / 24.0
  {}

  lemma PAssemble(n: real, sigma: real, g: real, slope: real, z: real)
    requires slope == Prod(g, sigma) / 12.0 + g / 2.0 + z / 24.0
    ensures Prod(g, sigma) - Prod(n, slope) == Prod(g, sigma - Prod(n, sigma) / 12.0 - n / 2.0) - Prod(n, z) / 24.0
  {}

  lemma TaylorDiffers(sigma: real, scale: real, n: real, m: real, g: real)
    requires !Small(sigma) && m == Prod(sigma, sigma) < EPSILON && scale > 0.0 && 0.0 <= n < EPSILON * EPSILON
    requires g == 1.0 - Prod(scale, 1.0 - sigma + m / 2.0) && ScaleBounds(sigma, scale)
    ensures Prod(g, sigma - Prod(n, sigma) / 12.0 - n / 2.0) - Prod(n, Prod(Prod(m, sigma), scale)) / 24.0 != 0.0
  {
    var low := sigma - Prod(n, sigma) / 12.0 - n / 2.0;
    var t := -Prod(Prod(m, sigma), scale);
    NonzeroSquareOf(sigma);
    PExpand(scale, sigma, m);
    PMinus(n, t);
    PSplitProduct(g, t, low, n);
    if sigma > 0.0 {
      ProductSign(sigma, EPSILON * EPSILON - n);
      PBelow(sigma, n);
      ProductSign(-g, low);
      ProductSign(m, sigma);
      ProductSign(Prod(m, sigma), scale);
      ProductSign(n, -t);
      POpposite(g, low);
    } else {
      ProductSign(-sigma, EPSILON * EPSILON - n);
      PBelow(sigma, n);
      ProductSign(m, -sigma);
      POpposite(m, sigma);
      ProductSign(-Prod(m, sigma), scale);
      POpposite(Prod(m, sigma), scale);
      ProductSign(g - t / 6.0, -low);
      POpposite(g - t / 6.0, low);
      ProductSign(t, -(low / 6.0 + n / 24.0));
      POpposite(t, low / 6.0 + n / 24.0);
    }
    hide Prod;
  }

  lemma PExpand(scale: real, sigma: real, m: real)
    ensures Prod(scale, 1.0 - sigma + m / 2.0 - Prod(m, sigma) / 6.0) == Prod(scale, 1.0 - sigma + m / 2.0) - Prod(Prod(m, sigma), scale) / 6.0
  {}

  lemma PMinus(n: real, t: real)
    ensures Prod(n, -t) == -Prod(n, t)
  {}

  lemma PSplitProduct(g: real, t: real, low: real, n: real)
    ensures Prod(g, low) + Prod(n, t) / 24.0 == Prod(g - t / 6.0, low) + Prod(t, low / 6.0 + n / 24.0)
  {}

  lemma PBelow(sigma: real, n: real)
    ensures Prod(sigma, EPSILON * EPSILON - n) == EPSILON * EPSILON * sigma - Prod(n, sigma)
    ensures Prod(-sigma, EPSILON * EPSILON - n) == Prod(n, sigma) - EPSILON * EPSILON * sigma
  {}

  lemma POpposite(x: real, y: real)
    ensures Prod(-x, y) == -Prod(x, y) == Prod(x, -y)
  {}
}
