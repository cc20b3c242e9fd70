/** Exponential and logarithm of SE2 and Sim2, with the elementary functions in place. */
module PlanarLog {
  import opened Linear
  import opened Constants
  import opened Skew
  import opened Planar
  import opened Checked
  import opened Elementary
  import RxSo2
  import Se2
  import Sim2
  import Sim3Log
  import PlanarBands
  import SimBands
  import SimDetails

  // ----- angles -----

  /** Sine and cosine of the angles that atan2 returns. */
  lemma PrincipalAngle(f: Elementary, theta: real)
    requires Facts(f) && -f.pi < theta <= f.pi
    ensures Prod(f.sin(theta), f.sin(theta)) + Prod(f.cos(theta), f.cos(theta)) == 1.0 && AngleBounds(theta, f.sin(theta), f.cos(theta))
    ensures (theta == 0.0 <==> f.cos(theta) == 1.0) && (theta == 0.0 ==> f.sin(theta) == 0.0)
    ensures Prod(theta, theta) < 11.0 && f.atan2(f.sin(theta), f.cos(theta)) == theta
  {
    hide Facts, Prod, HalfAngle, AngleBounds;
    AngleOf(f, theta);
    ArcBack(f, theta);
    QuadrantOf(f, 0.5 * theta);
    QuadrantOf(f, -0.5 * theta);
    ParityOf(f, 0.5 * theta);
    SimBands.PiBound(theta, f.pi);
    if theta == 0.0 {
      ZeroAngle(f.sin(0.0), f.cos(0.0));
    } else {
      Sim3Log.NotFullTurn(f.sin(0.5 * theta), f.cos(0.5 * theta), f.sin(theta), f.cos(theta));
    }
  }

  lemma ZeroAngle(s: real, c: real)
    requires HalfAngle(s, c, s, c)
    ensures s == 0.0 && c == 1.0
  {
    if s != 0.0 {
      CancelEq(s, 1.0, 2.0 * c);
    }
  }

  /** Multiplication by a complex number other than one moves every point but the origin. */
  lemma TimesFixes(z: Vec2, u: Vec2)
    ensures Times(z, u) == u <==> z == ONE2 || u == ZERO2
  {
    hide Prod, Times, Norm2;
    var d := Sub2(z, ONE2);
    TimesSym(z, u);
    TimesSym(d, u);
    TimesAdd(u, z, ONE2);
    TimesOne(u);
    TimesOne(z);
    NormTimes(d, u);
    NormSign2(d);
    NormSign2(u);
    NormSign2(ZERO2);
    if Times(d, u) == ZERO2 && Norm2(d) != 0.0 {
      POnes(Norm2(d));
      PCancel(Norm2(d), Norm2(u), 0.0);
    }
  }

  // ----- SE2 -----

  /** V_inv of log inverts V of exp if and only if the angle is zero or 1 - cos has reached
      epsilon, for angles that log can return. */
  lemma VExactlyWhen(f: Elementary, theta: real)
    requires Facts(f) && -f.pi < theta <= f.pi
    ensures Times(Se2.VInv(theta, Vec2(f.cos(theta), f.sin(theta))), Se2.V(theta, f.sin(theta), f.cos(theta))) == ONE2
       <==> theta == 0.0 || 1.0 - f.cos(theta) >= EPSILON
  {
    hide Facts;
    var sine, cosine := f.sin(theta), f.cos(theta);
    PrincipalAngle(f, theta);
    if theta == 0.0 {
      VAtZero(sine);
    } else if 1.0 - cosine >= EPSILON {
      LargeVersine(theta, sine, cosine);
      Se2.VInverse(theta, sine, cosine);
    } else if SimDetails.Small(theta) {
      SimDetails.CosineBound(sine, cosine);
      VTaylor(theta, sine, cosine);
    } else {
      SimBands.SmallVersine(theta, sine, cosine);
      SimBands.AngleGap(theta, sine, cosine, Prod(theta, theta));
      PVEquation(Prod(theta, theta), cosine);
      Se2.VBand(theta, sine, cosine);
    }
    hide Prod, Times, AngleBounds, Se2.V, Se2.VInv;
  }

  lemma VAtZero(sine: real)
    ensures Times(Se2.VInv(0.0, Vec2(1.0, sine)), Se2.V(0.0, sine, 1.0)) == ONE2
  {
    POnes(0.0);
    POnes(1.0);
    hide Prod;
  }

  lemma LargeVersine(theta: real, sine: real, cosine: real)
    requires AngleBounds(theta, sine, cosine) && theta != 0.0 && 1.0 - cosine >= EPSILON
    ensures !SimDetails.Small(theta)
  {
    if SimDetails.Small(theta) {
      SimDetails.SmallSquare(theta, Prod(theta, theta));
    }
    hide Prod;
  }

  lemma VTaylor(theta: real, sine: real, cosine: real)
    requires theta != 0.0 && SimDetails.Small(theta) && 1.0 - EPSILON < cosine <= 1.0
    ensures Times(Se2.VInv(theta, Vec2(cosine, sine)), Se2.V(theta, sine, cosine)) != ONE2
  {
    var n := Prod(theta, theta);
    SimBands.NonzeroSquareOf(theta);
    SimBands.NonzeroSquareOf(n);
    SimDetails.SmallSquare(theta, n);
    PVTaylor(theta, n);
    hide Prod;
  }

  lemma PVTaylor(theta: real, n: real)
    requires n == Prod(theta, theta)
    ensures Prod(1.0 - 1.0 / 12.0 * n, 1.0 - 1.0 / 6.0 * n) - Prod(-(0.5 * theta), 0.5 * theta - 1.0 / 24.0 * Prod(theta, n)) == 1.0 - 1.0 / 144.0 * Prod(n, n)
  {
    assert theta * (theta * n) == n * n;
  }

  lemma PVEquation(n: real, cosine: real)
    ensures 6.0 * Prod(1.0 - 1.0 / 12.0 * n, 2.0 * (1.0 - cosine)) == 12.0 * (1.0 - cosine) - n + Prod(n, cosine)
    ensures Prod(n, cosine - 1.0) == Prod(n, cosine) - n
  {}

  function Se2Exp(f: Elementary, x: Se2.Twist): Se2.Pose {
    Se2.Exp(x, f.sin(x.theta), f.cos(x.theta))
  }

  function Se2Log(f: Elementary, a: Se2.Pose): Se2.Twist {
    var theta := f.atan2(a.z.y, a.z.x);
    Se2.Twist(Se2.LogTranslation(a, theta), theta)
  }

  /** log(exp x) = x if and only if log can return the angle, and there is no translation to move,
      no angle, or 1 - cos has reached epsilon. */
  lemma Se2LogOfExpExactlyWhen(f: Elementary, x: Se2.Twist)
    requires Facts(f)
    ensures Se2Log(f, Se2Exp(f, x)) == x
       <==> -f.pi < x.theta <= f.pi && (x.upsilon == ZERO2 || x.theta == 0.0 || 1.0 - f.cos(x.theta) >= EPSILON)
  {
    hide Facts, Prod, Times, HalfAngle, AngleBounds, Se2.V, Se2.VInv, Se2.Exp;
    var sine, cosine := f.sin(x.theta), f.cos(x.theta);
    AngleOf(f, x.theta);
    ArcOf(f, sine, cosine);
    Se2.ExpTranslation(x, sine, cosine);
    if -f.pi < x.theta <= f.pi {
      PrincipalAngle(f, x.theta);
      VExactlyWhen(f, x.theta);
      var inverse, v := Se2.VInv(x.theta, Vec2(cosine, sine)), Se2.V(x.theta, sine, cosine);
      TimesAssoc(inverse, v, x.upsilon);
      TimesFixes(Times(inverse, v), x.upsilon);
    }
  }

  /** exp(log A) = A under the same condition. */
  lemma Se2ExpOfLogExactlyWhen(f: Elementary, a: Se2.Pose)
    requires Facts(f) && Se2.Valid(a)
    ensures Se2Exp(f, Se2Log(f, a)) == a <==> a.t == ZERO2 || a.z == ONE2 || 1.0 - a.z.x >= EPSILON
  {
    hide Facts, Prod, Times, AngleBounds, Se2.V, Se2.VInv, Se2.Exp;
    UnitIsSquares(a.z);
    ArcOf(f, a.z.y, a.z.x);
    var theta := f.atan2(a.z.y, a.z.x);
    PrincipalAngle(f, theta);
    VExactlyWhen(f, theta);
    Se2.ExpTranslation(Se2Log(f, a), a.z.y, a.z.x);
    var inverse, v := Se2.VInv(theta, a.z), Se2.V(theta, a.z.y, a.z.x);
    TimesSym(inverse, v);
    TimesAssoc(v, inverse, a.t);
    TimesFixes(Times(v, inverse), a.t);
  }

  lemma UnitIsSquares(z: Vec2)
    requires Norm2(z) == 1.0
    ensures Prod(z.y, z.y) + Prod(z.x, z.x) == 1.0
  {}

  /** An input in the band: exp is closed, log is not, and the translation does not come back. */
  lemma Se2BandInput(f: Elementary)
    requires Facts(f)
    ensures Se2Log(f, Se2Exp(f, Se2.Twist(Vec2(1.0, 0.0), 0.000001))) != Se2.Twist(Vec2(1.0, 0.0), 0.000001)
  {
    hide Facts, Prod, Se2Log, Se2Exp;
    QuadrantOf(f, 1.0);
    var x := Se2.Twist(Vec2(1.0, 0.0), 0.000001);
    Se2LogOfExpExactlyWhen(f, x);
    AngleOf(f, x.theta);
    ProdIs(x.theta, x.theta);
  }

  /** In its Taylor branch V falls short of sin / theta and (1 - cos) / theta, by no more than the next
      terms of their series. */
  lemma VTaylorGap(f: Elementary, theta: real)
    requires Facts(f) && SimDetails.Small(theta)
    ensures var v, n := Se2.V(theta, f.sin(theta), f.cos(theta)), Prod(theta, theta);
            && 0.0 <= Prod(theta, f.sin(theta)) - Prod(n, v.x) <= Prod(n, Prod(n, n)) / 120.0
            && 0.0 <= 1.0 - f.cos(theta) - Prod(theta, v.y) <= Prod(n, Prod(n, n)) / 720.0
  {
    hide Facts, Prod, HalfAngle;
    var n := Prod(theta, theta);
    SmallSquare(theta);
    SmallPowers(n);
    PTaylorOfV(theta);
    if theta == 0.0 {
      POnes(0.0);
      POnes(f.sin(0.0));
      ZeroAngleOf(f);
    } else {
      AngleOf(f, theta);
      CosineOf(f, theta);
    }
  }

  lemma ZeroAngleOf(f: Elementary)
    requires Facts(f)
    ensures f.cos(0.0) == 1.0
  {
    hide Facts, AngleBounds;
    AngleOf(f, 0.0);
    assert 0.5 * 0.0 == 0.0;
    ZeroAngle(f.sin(0.0), f.cos(0.0));
  }

  lemma SmallSquare(theta: real)
    requires SimDetails.Small(theta)
    ensures 0.0 <= Prod(theta, theta) <= 1.0
  {
    SquareSign(theta, theta * theta);
    ProductSign(1.0 - theta, 1.0 + theta);
  }

  lemma SmallPowers(n: real)
    requires 0.0 <= n <= 1.0
    ensures 0.0 <= Prod(Prod(n, n), Prod(n, n)) <= Prod(n, Prod(n, n))
  {
    ProductSign(n, n);
    ProductSign(n, Prod(n, n));
    ProductSign(Prod(n, n), Prod(n, n));
    ProductSign(Prod(n, Prod(n, n)), 1.0 - n);
    PFourthPower(n);
    hide Prod;
  }

  lemma PFourthPower(n: real)
    ensures Prod(Prod(n, Prod(n, n)), 1.0 - n) == Prod(n, Prod(n, n)) - Prod(Prod(n, n), Prod(n, n))
  {}

  lemma PTaylorOfV(theta: real)
    ensures var n := Prod(theta, theta);
            && Prod(n, 1.0 - 1.0 / 6.0 * n) == n - Prod(n, n) / 6.0
            && Prod(theta, 0.5 * theta - 1.0 / 24.0 * Prod(theta, n)) == n / 2.0 - Prod(n, n) / 24.0
  {}

  // ----- Sim2 -----

  function Sim2Exp(f: Elementary, x: Sim2.Twist): Checked<Sim2.Similarity> {
    Sim2.Exp(x, f.exp(x.sigma), f.sin(x.theta), f.cos(x.theta))
  }

  /** Log normalises the complex number for the angle and takes the logarithm of its norm. */
  ghost function Sim2Log(f: Elementary, a: Sim2.Similarity): Checked<Sim2.Twist>
    requires Facts(f) && Norm2(a.z) > 0.0
  {
    hide Facts, Prod, Norm2, SimDetails.Transcendental;
    var length := f.sqrt(Norm2(a.z));
    if length < EPSILON then Abort
    else
      var unit := Scale2(Quotient(1.0, length), a.z);
      UnitOf(f, a.z);
      ComplexValues(f, unit, length);
      var theta, sigma := f.atan2(unit.y, unit.x), f.log(length);
      Pass(Sim2.Twist(Sim2.LogTranslation(a, theta, sigma, length, f.sin(theta), f.cos(theta)), theta, sigma))
  }

  lemma UnitOf(f: Elementary, z: Vec2)
    requires Facts(f) && Norm2(z) > 0.0 && f.sqrt(Norm2(z)) > 0.0
    ensures Norm2(Scale2(Quotient(1.0, f.sqrt(Norm2(z))), z)) == 1.0
  {
    hide Facts, Prod, Quotient, Norm2, Scale2;
    var length := f.sqrt(Norm2(z));
    RootOf(f, Norm2(z));
    NormScale(Quotient(1.0, length), z);
    PSquareProduct(Quotient(1.0, length), length);
    POnes(1.0);
  }

  lemma ComplexValues(f: Elementary, unit: Vec2, length: real)
    requires Facts(f) && Norm2(unit) == 1.0 && length > 0.0
    ensures var theta, sigma := f.atan2(unit.y, unit.x), f.log(length);
            && -f.pi < theta <= f.pi && f.sin(theta) == unit.y && f.cos(theta) == unit.x && f.exp(sigma) == length
            && SimDetails.Transcendental(sigma, length, f.sin(theta), f.cos(theta))
            && SimBands.Values(theta, sigma, length, f.sin(theta), f.cos(theta))
            && (Prod(theta, theta) >= EPSILON ==> f.cos(theta) != 1.0)
  {
    hide Facts, Prod, Norm2, AngleBounds, ScaleBounds, SimDetails.Transcendental;
    UnitIsSquares(unit);
    ArcOf(f, unit.y, unit.x);
    LogOf(f, length);
    ExpOf(f, f.log(length), f.atan2(unit.y, unit.x));
    PrincipalAngle(f, f.atan2(unit.y, unit.x));
    POnes(0.0);
  }

  /** Where the complex numbers of W and its inverse cancel. */
  predicate Cancels(f: Elementary, theta: real, sigma: real) {
    (SimBands.Exact(theta) && SimBands.Exact(sigma)) || PlanarBands.Cancelling(theta, sigma, f.sin(theta), f.cos(theta))
  }

  /** log(exp x) = x if and only if log can return the angle, the scale is not clamped, and there is
      no translation to move, or angle and logarithm of the scale are each zero or beyond the
      threshold on the square, or their errors cancel. */
  lemma Sim2LogOfExpExactlyWhen(f: Elementary, x: Sim2.Twist)
    requires Facts(f)
    ensures var r := Sim2Exp(f, x);
            && r.Pass? && Norm2(r.value.z) > 0.0
            && (Sim2Log(f, r.value) == Pass(x)
                <==> -f.pi < x.theta <= f.pi && Sim3Log.Unclamped(f.exp(x.sigma)) && (x.upsilon == ZERO2 || Cancels(f, x.theta, x.sigma)))
  {
    hide Facts, Prod, Norm2, Times, Scale2, ToComplex, HalfAngle, AngleBounds, ScaleBounds, SimDetails.Transcendental, SimDetails.CalcW, SimDetails.CalcWInv,
         PolyTimes, SimBands.Values, SimBands.Exact, PlanarBands.Cancelling, RxSo2.ExpScale;
    var scale, unit := f.exp(x.sigma), Vec2(f.cos(x.theta), f.sin(x.theta));
    var clamped := RxSo2.ExpScale(scale);
    AngleOf(f, x.theta);
    ExpOf(f, x.sigma, x.theta);
    Sim2.UnitNorm(unit.y, unit.x);
    RxSo2.ExpSucceeds(unit, scale);
    ClampedRange(scale);
    ScaledUnit(f, unit, clamped);
    ComplexValues(f, unit, clamped);
    if -f.pi < x.theta <= f.pi && Sim3Log.Unclamped(scale) {
      PrincipalAngle(f, x.theta);
      ComplexCancels(f, x.theta, x.sigma, scale, x.upsilon);
    }
  }

  lemma ClampedRange(scale: real)
    ensures EPSILON_PLUS <= RxSo2.ExpScale(scale) <= 1.0 / EPSILON_PLUS && (RxSo2.ExpScale(scale) == scale <==> Sim3Log.Unclamped(scale))
  {}

  lemma ScaledUnit(f: Elementary, unit: Vec2, scale: real)
    requires Facts(f) && Norm2(unit) == 1.0 && scale > 0.0
    ensures Norm2(Scale2(scale, unit)) > 0.0 && f.sqrt(Norm2(Scale2(scale, unit))) == scale
    ensures Scale2(Quotient(1.0, scale), Scale2(scale, unit)) == unit
  {
    hide Facts, Prod, Quotient, Norm2, Scale2;
    NormScale(scale, unit);
    POnes(Prod(scale, scale));
    SimBands.NonzeroSquareOf(scale);
    RootOf(f, Prod(scale, scale));
    SameRoot(f.sqrt(Prod(scale, scale)), scale);
    ScaleScale(Quotient(1.0, scale), scale, unit);
  }

  lemma ComplexCancels(f: Elementary, theta: real, sigma: real, scale: real, u: Vec2)
    requires SimBands.Values(theta, sigma, scale, f.sin(theta), f.cos(theta)) && SimDetails.Transcendental(sigma, scale, f.sin(theta), f.cos(theta))
    requires (theta != 0.0 ==> f.cos(theta) != 1.0) && (Prod(theta, theta) >= EPSILON ==> f.cos(theta) != 1.0)
    ensures var w, x := ToComplex(theta, SimDetails.CalcW(theta, sigma, scale, f.sin(theta), f.cos(theta))),
                        ToComplex(theta, SimDetails.CalcWInv(theta, sigma, scale, f.sin(theta), f.cos(theta)));
            && (Times(x, Times(w, u)) == u <==> u == ZERO2 || Cancels(f, theta, sigma))
            && (Times(w, Times(x, u)) == u <==> u == ZERO2 || Cancels(f, theta, sigma))
  {
    hide Prod, Times, ToComplex, SimDetails.Transcendental, SimDetails.CalcW, SimDetails.CalcWInv, PolyTimes,
         SimBands.Values, SimBands.Exact, PlanarBands.Cancelling;
    var p, q := SimDetails.CalcW(theta, sigma, scale, f.sin(theta), f.cos(theta)), SimDetails.CalcWInv(theta, sigma, scale, f.sin(theta), f.cos(theta));
    PlanarBands.ProductExactlyWhen(theta, sigma, scale, f.sin(theta), f.cos(theta));
    ToComplexTimes(theta, p, q);
    var w, x := ToComplex(theta, p), ToComplex(theta, q);
    TimesSym(w, x);
    TimesAssoc(x, w, u);
    TimesAssoc(w, x, u);
    TimesFixes(Times(w, x), u);
  }

  /** exp(log A) = A under the same condition on what log returns and on the scale of A. */
  lemma Sim2ExpOfLogExactlyWhen(f: Elementary, a: Sim2.Similarity)
    requires Facts(f) && RxSo2.Valid(a.z)
    ensures Norm2(a.z) > 0.0
    ensures var r := Sim2Log(f, a);
            && r.Pass?
            && (Sim2Exp(f, r.value) == Pass(a) <==> Sim3Log.Unclamped(f.sqrt(Norm2(a.z))) && (a.t == ZERO2 || Cancels(f, r.value.theta, r.value.sigma)))
  {
    hide Facts, Prod, Quotient, Norm2, Times, Scale2, ToComplex, AngleBounds, ScaleBounds, SimDetails.Transcendental,
         SimDetails.CalcW, SimDetails.CalcWInv,
         PolyTimes, SimBands.Values, SimBands.Exact, PlanarBands.Cancelling, RxSo2.ExpScale;
    var length := f.sqrt(Norm2(a.z));
    RootOf(f, Norm2(a.z));
    LengthIsLarge(length, Norm2(a.z));
    var unit := Scale2(Quotient(1.0, length), a.z);
    UnitOf(f, a.z);
    ComplexValues(f, unit, length);
    RxSo2.ExpSucceeds(unit, length);
    ClampedRange(length);
    ScaleScale(length, Quotient(1.0, length), a.z);
    PSym(length, Quotient(1.0, length));
    var x := Sim2Log(f, a).value;
    PrincipalAngle(f, x.theta);
    if Sim3Log.Unclamped(length) {
      ComplexCancels(f, x.theta, x.sigma, length, a.t);
    } else {
      NormScale(RxSo2.ExpScale(length), unit);
      POnes(Prod(RxSo2.ExpScale(length), RxSo2.ExpScale(length)));
      if Prod(RxSo2.ExpScale(length), RxSo2.ExpScale(length)) == Prod(length, length) {
        SameRoot(RxSo2.ExpScale(length), length);
      }
    }
  }

  lemma LengthIsLarge(length: real, square: real)
    requires length >= 0.0 && Prod(length, length) == square >= RxSo2.LOW
    ensures length >= EPSILON
  {
    if length < EPSILON {
      PositiveProduct(EPSILON - length, EPSILON + length, EPSILON * EPSILON - Prod(length, length));
    }
  }

  /** A twist of pure scaling between the thresholds: its translation does not come back. */
  lemma Sim2BandInput(f: Elementary)
    requires Facts(f)
    ensures var x := Sim2.Twist(ONE2, 0.0, 0.000001);
            Sim2Exp(f, x).Pass? && Norm2(Sim2Exp(f, x).value.z) > 0.0 && Sim2Log(f, Sim2Exp(f, x).value) != Pass(x)
  {
    hide Facts, Norm2, Sim2Exp, Sim2Log, AngleBounds, HalfAngle;
    ExpOf(f, 0.000001, 0.0);
    QuadrantOf(f, 0.0);
    NearOne(0.000001, f.exp(0.000001));
    Sim2LogOfExpExactlyWhen(f, Sim2.Twist(ONE2, 0.0, 0.000001));
  }

  /** An angle between the thresholds with the one logarithm of the scale that makes up for it:
      neither is exact, and every translation comes back. */
  lemma Sim2CancellingInput(f: Elementary, u: Vec2)
    requires Facts(f)
    ensures f.cos(0.000001) != 1.0
    ensures var x := Sim2.Twist(u, 0.000001, PlanarBands.Compensation(0.000001, f.sin(0.000001), f.cos(0.000001)));
            && !SimBands.Exact(x.theta) && !SimBands.Exact(x.sigma)
            && Sim2Exp(f, x).Pass? && Norm2(Sim2Exp(f, x).value.z) > 0.0 && Sim2Log(f, Sim2Exp(f, x).value) == Pass(x)
  {
    hide Facts, Norm2, Sim2Exp, Sim2Log, AngleBounds, HalfAngle, ScaleBounds, PlanarBands.Compensation;
    AngleOf(f, 0.000001);
    QuadrantOf(f, 0.0);
    PlanarBands.CompensationIsTiny(0.000001, f.sin(0.000001), f.cos(0.000001));
    var sigma := PlanarBands.Compensation(0.000001, f.sin(0.000001), f.cos(0.000001));
    ExpOf(f, sigma, 0.0);
    NearOne(sigma, f.exp(sigma));
    Sim2LogOfExpExactlyWhen(f, Sim2.Twist(u, 0.000001, sigma));
  }

  lemma NearOne(sigma: real, scale: real)
    requires 0.0 < sigma < 0.001 && scale > 0.0 && ScaleBounds(sigma, scale)
    ensures 0.5 <= scale <= 2.0
  {
    var n := Prod(sigma, sigma);
    var low, high := 1.0 - sigma + n / 2.0 - Prod(n, sigma) / 6.0, 1.0 - sigma + n / 2.0;
    TinyPowers(sigma, n, Prod(n, sigma));
    if scale > 2.0 {
      ProductSign(scale - 2.0, low);
      PAway(scale, low);
    } else if scale < 0.5 {
      ProductSign(scale, 2.0 - high);
      PAway(scale, high);
    }
    hide Prod;
  }

  lemma TinyPowers(sigma: real, n: real, cube: real)
    requires 0.0 < sigma < 0.001 && n == sigma * sigma && cube == Prod(n, sigma)
    ensures 0.0 < n < 0.001 && 0.0 < cube < 0.001
  {
    PositiveProduct(sigma, sigma, n);
    PositiveProduct(n, sigma, cube);
    PositiveProduct(1.0 - sigma, sigma, sigma - n);
    PositiveProduct(1.0 - sigma, n, n - cube);
  }

  lemma PAway(scale: real, x: real)
    ensures Prod(scale - 2.0, x) == Prod(scale, x) - 2.0 * x && Prod(scale, 2.0 - x) == 2.0 * scale - Prod(scale, x)
  {}
}
