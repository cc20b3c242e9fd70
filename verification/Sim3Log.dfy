/** The logarithm of the similarities, against their exponential. */
module Sim3Log {
  import opened Linear
  import opened Constants
  import opened Skew
  import opened Quaternions
  import opened Checked
  import opened Sim3
  import opened Logarithm
  import opened Elementary
  import opened ExpLog
  import opened TaylorBranches
  import opened Multiples
  import opened UnitQuaternions
  import RxSo3
  import So3
  import SimDetails
  import SimBands
  import Sim3Exp
  import TranslationBands

  /** The values of the elementary functions that exp takes. */
  function AnglesOf(f: Elementary, x: Twist): Sim3Exp.Angles {
    var theta, scale := Length(f, x.omega), f.exp(x.sigma);
    Sim3Exp.Angles(theta, f.sin(0.5 * theta), f.cos(0.5 * theta), f.sin(theta), f.cos(theta), scale, f.sqrt(RxSo3.ExpScale(scale)))
  }

  lemma AnglesConsistent(f: Elementary, x: Twist)
    requires Facts(f)
    ensures Sim3Exp.Consistent(x, AnglesOf(f, x)) && RxSo3.ExpScale(f.exp(x.sigma)) > 0.0
  {
    hide Facts, Prod, Length, SquaredNorm, HalfAngle, AngleBounds, ScaleBounds, SimDetails.Transcendental;
    LengthOf(f, x.omega);
    AngleOf(f, Length(f, x.omega));
    ExpOf(f, x.sigma, Length(f, x.omega));
    RootOf(f, RxSo3.ExpScale(f.exp(x.sigma)));
  }

  ghost function Exp(f: Elementary, x: Twist): Checked<Similarity>
    requires Facts(f)
  {
    hide Facts, Sim3Exp.Consistent, AnglesOf;
    AnglesConsistent(f, x);
    Sim3Exp.Exp(x, AnglesOf(f, x))
  }

  /** Log normalises the quaternion, takes the logarithm of the rotation and of the scale, and
      the inverse of W at the angle that the former reports. */
  ghost function Log(f: Elementary, a: Similarity): Checked<Twist>
    requires Facts(f) && a.q.SquaredNorm() > 0.0
  {
    hide Facts, Prod, So3Log, Unit, SimDetails.Transcendental, Quaternion.SquaredNorm;
    var scale := a.q.SquaredNorm();
    var length := f.sqrt(scale);
    if length < EPSILON then Abort
    else
      UnitNorm(f, a.q);
      match So3Log(f, Unit(a.q, length))
      case Pass(r) =>
        LogValues(f, Unit(a.q, length), scale);
        var wInv := Sim3Exp.WInv(r.tangent, r.theta, f.log(scale), scale, f.sin(r.theta), f.cos(r.theta));
        Pass(Twist(Apply(wInv, a.t), r.tangent, f.log(scale)))
      case Abort => Abort
  }

  lemma UnitNorm(f: Elementary, q: Quaternion)
    requires Facts(f) && q.SquaredNorm() > 0.0 && f.sqrt(q.SquaredNorm()) >= EPSILON
    ensures Unit(q, f.sqrt(q.SquaredNorm())).SquaredNorm() == 1.0
  {
    RootOf(f, q.SquaredNorm());
    UnitLength(q, f.sqrt(q.SquaredNorm()));
    hide Facts, Quaternion.SquaredNorm;
  }

  /** The values log reads, of which a full turn is none. */
  lemma LogValues(f: Elementary, unit: Quaternion, scale: real)
    requires Facts(f) && unit.SquaredNorm() == 1.0 && scale > 0.0 && So3Log(f, unit).Pass?
    ensures var theta, sigma := So3Log(f, unit).value.theta, f.log(scale);
            && f.exp(sigma) == scale && SimDetails.Transcendental(sigma, scale, f.sin(theta), f.cos(theta))
            && (Prod(theta, theta) >= EPSILON ==> f.cos(theta) != 1.0)
  {
    hide Facts, Prod, So3Log, So3.Regular, HalfAngle, AngleBounds, ScaleBounds, SimDetails.Transcendental, Quaternion.SquaredNorm;
    var theta := So3Log(f, unit).value.theta;
    LogOf(f, scale);
    ExpOf(f, f.log(scale), theta);
    LogIsBelowFullTurn(f, unit);
    AngleOf(f, theta);
    if Prod(theta, theta) >= EPSILON {
      Sim3Exp.LargeIsRegular(theta);
      NotFullTurn(f.sin(0.5 * theta), f.cos(0.5 * theta), f.sin(theta), f.cos(theta));
    }
  }

  lemma NotFullTurn(s: real, c: real, sine: real, cosine: real)
    requires HalfAngle(s, c, sine, cosine) && s != 0.0
    ensures cosine != 1.0
  {
    SquarePositive(s, s * s);
  }

  // ----- log after exp -----

  /** The rotation vectors of which exp makes a unit quaternion. */
  predicate UnitTurn(f: Elementary, omega: Vec3) {
    omega == ZERO || So3.Regular(Length(f, omega))
  }

  predicate Unclamped(scale: real) {
    EPSILON_PLUS <= scale <= 1.0 / EPSILON_PLUS
  }

  /** Exp in one formula for all such vectors. */
  lemma ExpShape(f: Elementary, x: Twist)
    requires Facts(f) && UnitTurn(f, x.omega) && Unclamped(f.exp(x.sigma))
    ensures var theta, scale := Length(f, x.omega), f.exp(x.sigma);
            var q := So3Exp(f, x.omega).Times(f.sqrt(scale));
            && Exp(f, x) == Pass(Similarity(q, Apply(Sim3Exp.W(x.omega, theta, x.sigma, scale, f.sin(theta), f.cos(theta)), x.upsilon)))
            && q.SquaredNorm() == scale
  {
    hide Facts, Prod, SquaredNorm, Length, HalfAngle, Apply, So3Exp, So3.Regular, Sim3Exp.W, Sim3Exp.Exp, Sim3Exp.Unit,
         SimDetails.Transcendental, AngleBounds, ScaleBounds, Quaternion.Times, Quaternion.SquaredNorm, Matrix, PolyMatrix, MatScale;
    AnglesConsistent(f, x);
    RotationOfExp(f, x);
    if x.omega == ZERO {
      LengthOfZero(f);
      ZeroAngle(f);
      UnitExactlyWhen(f, ZERO);
      ExpWithoutRotation(x, AnglesOf(f, x));
    } else {
      Sim3Exp.ExpParts(x, AnglesOf(f, x));
    }
  }

  lemma ExpWithoutRotation(x: Twist, e: Sim3Exp.Angles)
    requires Sim3Exp.Consistent(x, e) && x.omega == ZERO && Unclamped(e.scale)
    ensures Sim3Exp.Exp(x, e) == Pass(Similarity(Real(1.0).Times(e.root), Apply(Sim3Exp.W(ZERO, 0.0, x.sigma, e.scale, 0.0, 1.0), x.upsilon)))
    ensures Real(1.0).Times(e.root).SquaredNorm() == e.scale
  {
    hide Prod, SquaredNorm, HalfAngle, Apply, Sim3Exp.W, So3.ExpAndTheta, SimDetails.Transcendental, Quaternion.Times, Quaternion.SquaredNorm, Matrix, MatScale;
    ProdIs(e.theta, e.theta);
    TaylorAtZero(e.theta, e.sinHalf, e.cosHalf);
    ProdIs(e.root, e.root);
    RxSo3.ExpSucceeds(Real(1.0), e.scale, e.root);
  }

  lemma ZeroAngle(f: Elementary)
    requires Facts(f)
    ensures f.sin(0.0) == 0.0 && f.cos(0.0) == 1.0
  {
    AngleOf(f, 0.0);
    ParityOf(f, 0.0);
    HalfOfZero(f.sin(0.0), f.cos(0.0));
    hide Facts, HalfAngle, AngleBounds;
  }

  lemma HalfOfZero(s: real, c: real)
    requires HalfAngle(s, c, s, c) && s == -s
    ensures s == 0.0 && c == 1.0
  {}

  /** What log makes of exp: rotation and scale come back, and the translation as far as W and
      its inverse cancel. */
  lemma LogOfExp(f: Elementary, x: Twist)
    requires Facts(f) && Recovered(f, x.omega) && Unclamped(f.exp(x.sigma))
    ensures var theta, scale := Length(f, x.omega), f.exp(x.sigma);
            && SimBands.Values(theta, x.sigma, scale, f.sin(theta), f.cos(theta)) && SimDetails.Transcendental(x.sigma, scale, f.sin(theta), f.cos(theta))
            && Exp(f, x).Pass? && Exp(f, x).value.q.SquaredNorm() > 0.0
            && Log(f, Exp(f, x).value) == Pass(Twist(
                 Apply(Sim3Exp.WInv(x.omega, theta, x.sigma, scale, f.sin(theta), f.cos(theta)),
                       Apply(Sim3Exp.W(x.omega, theta, x.sigma, scale, f.sin(theta), f.cos(theta)), x.upsilon)), x.omega, x.sigma))
  {
    hide Facts, Prod, SquaredNorm, SquaredVec, Length, HalfAngle, Apply, So3Exp, So3Log, So3.Regular, Recovered, Exp, Sim3Exp.W, Sim3Exp.WInv,
         SimDetails.Transcendental, AngleBounds, ScaleBounds, Unit, Quaternion.Times, Quaternion.SquaredNorm;
    var theta, scale := Length(f, x.omega), f.exp(x.sigma);
    var root := f.sqrt(scale);
    TurnValues(f, x.omega, x.sigma);
    ExpShape(f, x);
    RootOf(f, scale);
    RootIsLarge(root, scale);
    UnitOfScaled(So3Exp(f, x.omega), root);
    So3LogOfExpExactlyWhen(f, x.omega, So3Exp(f, x.omega));
  }

  lemma TurnValues(f: Elementary, omega: Vec3, sigma: real)
    requires Facts(f) && Recovered(f, omega)
    ensures var theta, scale := Length(f, omega), f.exp(sigma);
            && SimBands.Values(theta, sigma, scale, f.sin(theta), f.cos(theta)) && SimDetails.Transcendental(sigma, scale, f.sin(theta), f.cos(theta))
            && UnitTurn(f, omega) && f.log(scale) == sigma && scale > 0.0
            && (theta != 0.0 ==> f.cos(theta) != 1.0)
  {
    hide Facts, Prod, SquaredNorm, SquaredVec, Length, HalfAngle, So3Exp, So3.Regular, SimDetails.Transcendental, AngleBounds, ScaleBounds;
    var theta := Length(f, omega);
    AngleOf(f, theta);
    ExpOf(f, sigma, theta);
    ScalePositive(sigma, f.exp(sigma), f.sin(theta), f.cos(theta));
    if omega == ZERO {
      LengthOfZero(f);
      POnes(0.0);
    } else {
      RecoveredIsRegular(f, omega);
      HalfOf(f, omega);
      NotFullTurn(f.sin(0.5 * theta), f.cos(0.5 * theta), f.sin(theta), f.cos(theta));
    }
  }

  lemma ScalePositive(sigma: real, scale: real, sine: real, cosine: real)
    requires SimDetails.Transcendental(sigma, scale, sine, cosine)
    ensures scale > 0.0
  {}

  lemma RotationOfExp(f: Elementary, x: Twist)
    requires Facts(f) && Sim3Exp.Consistent(x, AnglesOf(f, x))
    ensures var e := AnglesOf(f, x); Sim3Exp.Unit(x.omega, e.theta, e.sinHalf, e.cosHalf).0 == So3Exp(f, x.omega)
  {
    hide Facts, Prod, Length, SquaredNorm, So3.ExpAndTheta;
  }

  lemma RootIsLarge(root: real, scale: real)
    requires root >= 0.0 && Prod(root, root) == scale >= EPSILON
    ensures root >= EPSILON
  {
    if root < EPSILON {
      PositiveProduct(EPSILON - root, EPSILON + root, EPSILON * EPSILON - Prod(root, root));
    }
  }

  /** What log returns of the rotation and of the scale. */
  lemma LogParts(f: Elementary, a: Similarity)
    requires Facts(f) && a.q.SquaredNorm() > 0.0 && f.sqrt(a.q.SquaredNorm()) >= EPSILON
    ensures Log(f, a).Pass? && f.exp(Log(f, a).value.sigma) == a.q.SquaredNorm()
    ensures var unit := Unit(a.q, f.sqrt(a.q.SquaredNorm()));
            unit.SquaredNorm() == 1.0 && So3Log(f, unit).Pass? && Log(f, a).value.omega == So3Log(f, unit).value.tangent
  {
    hide Facts, Prod, Length, So3Log, Unit, Sim3Exp.WInv, Quaternion.SquaredNorm;
    UnitNorm(f, a.q);
    LogIsShort(f, Unit(a.q, f.sqrt(a.q.SquaredNorm())));
    LogOf(f, a.q.SquaredNorm());
  }

  lemma LogPassed(f: Elementary, a: Similarity)
    requires Facts(f) && a.q.SquaredNorm() > 0.0 && Log(f, a).Pass?
    ensures f.sqrt(a.q.SquaredNorm()) >= EPSILON
  {
    hide Facts, Prod, So3Log, Unit, Sim3Exp.WInv, Quaternion.SquaredNorm;
  }

  /** Exp passes for every tangent vector. The scale is the clamped one, or in the Taylor branch
      slightly more. */
  lemma ExpParts(f: Elementary, x: Twist)
    requires Facts(f)
    ensures Exp(f, x).Pass? && RxSo3.Valid(Exp(f, x).value.q)
    ensures var q, clamped := Exp(f, x).value.q, RxSo3.ExpScale(f.exp(x.sigma));
            && f.sqrt(clamped) > 0.0 && q == So3Exp(f, x.omega).Times(f.sqrt(clamped))
            && clamped <= q.SquaredNorm() < (1.0 + EPSILON) * clamped && (q.SquaredNorm() == clamped <==> UnitTurn(f, x.omega))
  {
    hide Facts, Prod, SquaredNorm, Length, HalfAngle, Apply, So3Exp, So3.Regular, Sim3Exp.W, Sim3Exp.Unit, Sim3Exp.Exp, RxSo3.RotationMatrix,
         Sim3Exp.Consistent, Quaternion.Times, Quaternion.SquaredNorm;
    AnglesConsistent(f, x);
    UnitExactlyWhen(f, x.omega);
    var clamped := RxSo3.ExpScale(f.exp(x.sigma));
    LengthIsLarge(f, clamped);
    RootOf(f, clamped);
    ProdIs(f.sqrt(clamped), f.sqrt(clamped));
    RxSo3.ExpSucceeds(So3Exp(f, x.omega), f.exp(x.sigma), f.sqrt(clamped));
    ExpIs(f, x);
  }

  lemma LengthIsLarge(f: Elementary, scale: real)
    requires Facts(f) && scale >= EPSILON
    ensures f.sqrt(scale) >= EPSILON
  {
    RootOf(f, scale);
    RootIsLarge(f.sqrt(scale), scale);
    hide Facts, Prod;
  }

  lemma ExpIs(f: Elementary, x: Twist)
    requires Facts(f) && Sim3Exp.Consistent(x, AnglesOf(f, x)) && RxSo3.Valid(So3Exp(f, x.omega).Times(AnglesOf(f, x).root))
    ensures Exp(f, x).Pass? && Exp(f, x).value.q == So3Exp(f, x.omega).Times(AnglesOf(f, x).root)
  {
    hide Facts, Sim3Exp.Consistent, So3Exp, Sim3Exp.Unit, AnglesOf, Sim3Exp.W, Apply, Quaternion.Times, Quaternion.SquaredNorm;
    RotationOfExp(f, x);
  }

  /** Whatever the scale, log returns what SO3 makes of the rotation. */
  lemma RotationOfLog(f: Elementary, a: Similarity, omega: Vec3, k: real)
    requires Facts(f) && a.q.SquaredNorm() > 0.0 && Log(f, a).Pass? && k > 0.0 && a.q == So3Exp(f, omega).Times(k)
    ensures So3Log(f, So3Exp(f, omega)).Pass? && Log(f, a).value.omega == So3Log(f, So3Exp(f, omega)).value.tangent
  {
    hide Facts, Prod, Quotient, So3Exp, So3Log, Log, Quaternion.SquaredNorm, Quaternion.Times;
    LogPassed(f, a);
    LogParts(f, a);
    var i := Quotient(1.0, f.sqrt(a.q.SquaredNorm()));
    PositiveInverse(f.sqrt(a.q.SquaredNorm()));
    ProdIs(k, i);
    PositiveProduct(k, i, Prod(k, i));
    RxSo3.TimesTimes(So3Exp(f, omega), k, i);
    LogOfRescaledExp(f, omega, Prod(k, i));
  }

  lemma PositiveInverse(x: real)
    requires x > 0.0
    ensures Quotient(1.0, x) > 0.0
  {}

  /** The translations that W and its inverse give back, for the rotation and scale of a twist. */
  predicate Kept(f: Elementary, omega: Vec3, sigma: real, u: Vec3) {
    TranslationBands.Kept(omega, Length(f, omega), sigma, f.sin(Length(f, omega)), f.cos(Length(f, omega)), u)
  }

  /** log(exp x) = x if and only if SO3 gives the rotation back, the scale is not clamped, and the
      translation is kept: along the axis the logarithm of the scale is zero or beyond the
      threshold on the square, or there is no component; across it the same holds of the angle
      too, or the errors cancel, or there is no component. */
  lemma LogOfExpExactlyWhen(f: Elementary, x: Twist)
    requires Facts(f)
    ensures Exp(f, x).Pass? && Exp(f, x).value.q.SquaredNorm() > 0.0 && Log(f, Exp(f, x).value).Pass?
    ensures Log(f, Exp(f, x).value) == Pass(x)
       <==> Recovered(f, x.omega) && Unclamped(f.exp(x.sigma)) && Kept(f, x.omega, x.sigma, x.upsilon)
  {
    hide Facts, Prod, SquaredNorm, Length, So3Exp, So3Log, Exp, Log, Kept, Recovered, UnitTurn, Unit, RxSo3.ExpScale, Quaternion.SquaredNorm, Quaternion.Times;
    ExpParts(f, x);
    var a, clamped := Exp(f, x).value, RxSo3.ExpScale(f.exp(x.sigma));
    ClampedRange(f.exp(x.sigma));
    LengthIsLarge(f, a.q.SquaredNorm());
    LogParts(f, a);
    RotationOfLog(f, a, x.omega, f.sqrt(clamped));
    So3LogOfExpExactlyWhen(f, x.omega, So3Exp(f, x.omega));
    if Recovered(f, x.omega) {
      TurnIsUnit(f, x.omega);
      if Unclamped(f.exp(x.sigma)) {
        RecoveredExactlyWhen(f, x);
      }
    }
  }

  lemma ClampedRange(scale: real)
    ensures EPSILON_PLUS <= RxSo3.ExpScale(scale) <= 1.0 / EPSILON_PLUS && (RxSo3.ExpScale(scale) == scale <==> Unclamped(scale))
  {}

  lemma TurnIsUnit(f: Elementary, omega: Vec3)
    requires Facts(f) && Recovered(f, omega)
    ensures UnitTurn(f, omega)
  {
    hide Facts, Length, So3Exp, Recovered, So3.Regular;
    if omega != ZERO {
      RecoveredIsRegular(f, omega);
    }
  }

  lemma RecoveredExactlyWhen(f: Elementary, x: Twist)
    requires Facts(f) && Unclamped(f.exp(x.sigma)) && Recovered(f, x.omega)
    ensures Exp(f, x).Pass? && Exp(f, x).value.q.SquaredNorm() > 0.0
    ensures Log(f, Exp(f, x).value) == Pass(x) <==> Kept(f, x.omega, x.sigma, x.upsilon)
  {
    hide Facts, Prod, SquaredNorm, Length, Sim3Exp.W, Sim3Exp.WInv, Exp, Log, Apply, Recovered, UnitTurn, SimBands.Values, TranslationBands.Kept,
         SimDetails.Transcendental, Quaternion.SquaredNorm;
    var theta, scale := Length(f, x.omega), f.exp(x.sigma);
    LogOfExp(f, x);
    TurnValues(f, x.omega, x.sigma);
    LengthOf(f, x.omega);
    TranslationBands.ActionExactlyWhen(x.omega, theta, x.sigma, scale, f.sin(theta), f.cos(theta), x.upsilon);
  }

  /** So all translations come back if and only if angle and logarithm of the scale are each zero
      or beyond the threshold on the square, and the scale is not clamped. */
  lemma LogOfExpEveryTranslation(f: Elementary, omega: Vec3, sigma: real)
    requires Facts(f)
    ensures (forall u :: Exp(f, Twist(u, omega, sigma)).Pass? && Exp(f, Twist(u, omega, sigma)).value.q.SquaredNorm() > 0.0
                         && Log(f, Exp(f, Twist(u, omega, sigma)).value) == Pass(Twist(u, omega, sigma)))
       <==> Length(f, omega) <= f.pi && Unclamped(f.exp(sigma)) && SimBands.Exact(Length(f, omega)) && SimBands.Exact(sigma)
  {
    hide Facts, Prod, SquaredNorm, Length, Exp, Log, Kept, Recovered, SimBands.Exact, Quaternion.SquaredNorm;
    forall u
      ensures Exp(f, Twist(u, omega, sigma)).Pass? && Exp(f, Twist(u, omega, sigma)).value.q.SquaredNorm() > 0.0
      ensures Log(f, Exp(f, Twist(u, omega, sigma)).value) == Pass(Twist(u, omega, sigma))
         <==> Recovered(f, omega) && Unclamped(f.exp(sigma)) && Kept(f, omega, sigma, u)
    {
      LogOfExpExactlyWhen(f, Twist(u, omega, sigma));
    }
    EveryTranslation(f, omega, sigma);
    ExactIsRecovered(f, omega);
    assert Kept(f, omega, sigma, ZERO) || !Kept(f, omega, sigma, ZERO);
    assert Exp(f, Twist(ZERO, omega, sigma)).Pass?;
  }

  lemma EveryTranslation(f: Elementary, omega: Vec3, sigma: real)
    requires Facts(f)
    ensures (forall u :: Kept(f, omega, sigma, u)) <==> SimBands.Exact(Length(f, omega)) && SimBands.Exact(sigma)
  {
    hide Facts, Prod, SquaredNorm, Length, HalfAngle, AngleBounds, TranslationBands.Kept, SimBands.Exact;
    LengthOf(f, omega);
    AngleOf(f, Length(f, omega));
    TranslationBands.KeptAllExactlyWhen(omega, Length(f, omega), sigma, f.sin(Length(f, omega)), f.cos(Length(f, omega)));
    forall u
      ensures Kept(f, omega, sigma, u) <==> TranslationBands.Kept(omega, Length(f, omega), sigma, f.sin(Length(f, omega)), f.cos(Length(f, omega)), u)
    {}
  }

  /** A rotation vector that log does not give back is below the threshold of calcWInv. */
  lemma NotRecoveredIsInexact(f: Elementary, omega: Vec3)
    requires Facts(f) && Length(f, omega) <= f.pi && !Recovered(f, omega)
    ensures !SimBands.Exact(Length(f, omega))
  {
    hide Facts, Prod, SquaredNorm, Length, HalfAngle, AngleBounds;
    var theta := Length(f, omega);
    LengthOf(f, omega);
    NormDefinite(omega);
    SquareSign(theta, theta * theta);
    QuadrantOf(f, 0.0);
    if So3.Regular(theta) {
      HalfOf(f, omega);
      AngleOf(f, theta);
      SimBands.PiBound(theta, f.pi);
      SmallSine(theta, f.sin(0.5 * theta), f.cos(0.5 * theta), f.sin(theta), f.cos(theta));
    }
  }

  lemma SmallSine(theta: real, s: real, c: real, sine: real, cosine: real)
    requires HalfAngle(s, c, sine, cosine) && AngleBounds(theta, sine, cosine) && theta != 0.0 && Prod(theta, theta) < 11.0 && 0.0 < s < EPSILON
    ensures Prod(theta, theta) < EPSILON
  {
    var n := Prod(theta, theta);
    SmallHalf(s, c, sine, cosine);
    hide HalfAngle;
    SimBands.SmallVersine(theta, sine, cosine);
    SimBands.NonzeroSquareOf(theta);
    ProductSign(n, 1.0 - n);
    ProductSign(n, n);
    ProductSign(n, Prod(n, n));
    ProductSign(1.0 - n, Prod(n, Prod(n, n)));
    SimBands.PShrinking(n);
    PSwap(n);
    hide Prod;
  }

  lemma SmallHalf(s: real, c: real, sine: real, cosine: real)
    requires HalfAngle(s, c, sine, cosine) && 0.0 < s < EPSILON
    ensures 1.0 - cosine < 2.0 * EPSILON * EPSILON
  {
    PositiveProduct(EPSILON - s, EPSILON + s, EPSILON * EPSILON - s * s);
  }

  lemma PSwap(n: real)
    ensures Prod(n, 1.0 - n) == n - Prod(n, n)
  {}

  /** An angle up to pi that is exact for calcWInv is one that log gives back. */
  lemma ExactIsRecovered(f: Elementary, omega: Vec3)
    requires Facts(f)
    ensures Length(f, omega) <= f.pi && SimBands.Exact(Length(f, omega)) ==> Recovered(f, omega)
    ensures Recovered(f, omega) ==> Length(f, omega) <= f.pi
  {
    hide Facts, Length, SimBands.Exact;
    LengthOfZero(f);
    QuadrantOf(f, 0.0);
    if Length(f, omega) <= f.pi && !Recovered(f, omega) {
      NotRecoveredIsInexact(f, omega);
    }
  }

  // ----- exp after log -----

  /** The unit quaternion of a scaled one. */
  ghost function UnitOf(f: Elementary, q: Quaternion): Quaternion
    requires Facts(f) && q.SquaredNorm() >= EPSILON
  {
    LengthIsLarge(f, q.SquaredNorm());
    Unit(q, f.sqrt(q.SquaredNorm()))
  }

  /** The unit quaternions whose logarithm exp undoes. */
  predicate Undone(unit: Quaternion) {
    unit.Vec() == ZERO || SquaredVec(unit) >= EPSILON * EPSILON
  }

  /** What exp makes of log: the similarity comes back with one sign or the other of the
      quaternion, and the translation as far as W and its inverse cancel. */
  lemma ExpOfLog(f: Elementary, a: Similarity, unit: Quaternion)
    requires Facts(f) && Unclamped(a.q.SquaredNorm()) && unit == UnitOf(f, a.q) && Undone(unit)
    ensures Log(f, a).Pass?
    ensures var x, scale := Log(f, a).value, a.q.SquaredNorm();
            var theta := Length(f, x.omega);
            && UnitTurn(f, x.omega) && x.sigma == f.log(scale) && x.omega == So3Log(f, unit).value.tangent
            && SimBands.Values(theta, x.sigma, scale, f.sin(theta), f.cos(theta)) && SimDetails.Transcendental(x.sigma, scale, f.sin(theta), f.cos(theta))
            && Exp(f, x) == Pass(Similarity(if unit.w < 0.0 then a.q.Times(-1.0) else a.q,
                 Apply(Sim3Exp.W(x.omega, theta, x.sigma, scale, f.sin(theta), f.cos(theta)),
                       Apply(Sim3Exp.WInv(x.omega, theta, x.sigma, scale, f.sin(theta), f.cos(theta)), a.t))))
  {
    hide Facts, Prod, Dot, SquaredNorm, Length, HalfAngle, Apply, So3Exp, So3Log, UnitTurn, Undone, Exp, Sim3Exp.W, Sim3Exp.WInv,
         SimDetails.Transcendental, AngleBounds, ScaleBounds, Unit, Quaternion.Times, Quaternion.SquaredNorm;
    var scale := a.q.SquaredNorm();
    var length := f.sqrt(scale);
    LengthIsLarge(f, scale);
    UnitNorm(f, a.q);
    RotationBack(f, unit);
    LogValues(f, unit, scale);
    var r, sigma := So3Log(f, unit).value, f.log(scale);
    var theta := Length(f, r.tangent);
    AngleOf(f, theta);
    ExpOf(f, sigma, theta);
    EvenWInv(r.tangent, theta, r.theta, sigma, scale, f.sin(theta), f.sin(r.theta), f.cos(r.theta));
    ExpShape(f, Log(f, a).value);
    ScaledBack(a.q, length);
  }

  /** The angle exp takes is plus or minus the one log reported. */
  lemma RotationBack(f: Elementary, unit: Quaternion)
    requires Facts(f) && unit.SquaredNorm() == 1.0 && Undone(unit)
    ensures So3Log(f, unit).Pass?
    ensures var r := So3Log(f, unit).value;
            var theta := Length(f, r.tangent);
            && So3Exp(f, r.tangent) == (if unit.w < 0.0 then unit.Times(-1.0) else unit) && UnitTurn(f, r.tangent)
            && f.cos(theta) == f.cos(r.theta)
            && ((theta == r.theta && f.sin(theta) == f.sin(r.theta)) || (theta == -r.theta && f.sin(theta) == -f.sin(r.theta)))
  {
    hide Facts, Prod, SquaredNorm, SquaredVec, Length, So3Log, So3Exp, So3.Regular, Quaternion.SquaredNorm, Quaternion.Times, Quaternion.Vec;
    So3ExpOfLogExactlyWhen(f, unit);
    if SquaredVec(unit) >= EPSILON * EPSILON {
      ClosedRotationBack(f, unit);
    } else {
      LogTaylor(f, unit);
      ReportsNoAngle(f, unit);
      LengthOfZero(f);
    }
  }

  lemma ClosedRotationBack(f: Elementary, unit: Quaternion)
    requires Facts(f) && unit.SquaredNorm() == 1.0 && SquaredVec(unit) >= EPSILON * EPSILON
    ensures So3Log(f, unit).Pass?
    ensures var r := So3Log(f, unit).value;
            var theta := Length(f, r.tangent);
            && So3.Regular(theta) && f.cos(theta) == f.cos(r.theta)
            && ((theta == r.theta && f.sin(theta) == f.sin(r.theta)) || (theta == -r.theta && f.sin(theta) == -f.sin(r.theta)))
  {
    hide Facts, Prod, SquaredNorm, SquaredVec, Length, Arc, HalfAngle, RotationAngle, LogAndTheta, So3Exp, So3.Regular, IsArcTangent,
         Quaternion.SquaredNorm, Quaternion.Times, Quaternion.Vec;
    var n, atan := Length(f, unit.Vec()), Arc(f, unit);
    So3ExpOfLog(f, unit);
    ArcIsArcTangent(f, unit);
    RotationSigns(unit, n, atan, f.sin(atan), f.cos(atan));
    ReportedAngle(unit, n, atan);
    Logarithm.ExpOfLog(unit, n, atan, f.sin(atan), f.cos(atan));
    var r := So3Log(f, unit).value;
    AngleOfLog(f, r.tangent, atan, n);
    ParityOf(f, 2.0 * atan);
    ArcTangentIsRegular(unit, n, atan, f.sin(atan), f.cos(atan));
    SquareOf(RotationAngle(atan), 2.0 * atan);
  }

  /** exp(log A) is A up to the sign of the quaternion if and only if SO3 gives the rotation
      back, the scale is not clamped, and the translation is kept; and then it has the quaternion
      with the non-negative real part. */
  lemma ExpOfLogExactlyWhen(f: Elementary, a: Similarity)
    requires Facts(f) && RxSo3.Valid(a.q)
    ensures Log(f, a).Pass?
    ensures var x := Log(f, a).value;
            var r, exact := Exp(f, x), Undone(UnitOf(f, a.q)) && Unclamped(a.q.SquaredNorm()) && Kept(f, x.omega, x.sigma, a.t);
            && (exact ==> r == Pass(Similarity(Upright(a.q), a.t)))
            && (r == Pass(a) || r == Pass(Similarity(a.q.Times(-1.0), a.t)) <==> exact)
  {
    hide Facts, Prod, SquaredNorm, Length, So3Log, Exp, Log, Unit, UnitOf, Undone, UnitTurn, Kept, Upright, RxSo3.ExpScale, Quaternion.SquaredNorm,
         Quaternion.Times;
    var unit := UnitOf(f, a.q);
    LengthIsLarge(f, a.q.SquaredNorm());
    LogParts(f, a);
    UnitOfIs(f, a.q);
    var x := Log(f, a).value;
    if !Undone(unit) {
      NotUndone(f, a, unit);
    } else if Unclamped(a.q.SquaredNorm()) {
      UndoneExactlyWhen(f, a, unit);
    } else {
      ExpParts(f, x);
      RotationBack(f, unit);
      ClampedRange(a.q.SquaredNorm());
      NegatedNorm(a.q);
    }
  }

  lemma UnitOfIs(f: Elementary, q: Quaternion)
    requires Facts(f) && q.SquaredNorm() >= EPSILON
    ensures f.sqrt(q.SquaredNorm()) >= EPSILON && UnitOf(f, q) == Unit(q, f.sqrt(q.SquaredNorm())) && UnitOf(f, q).SquaredNorm() == 1.0
  {
    LengthIsLarge(f, q.SquaredNorm());
    UnitNorm(f, q);
    hide Facts, Quaternion.SquaredNorm, Unit;
  }

  /** A rotation that SO3 loses is lost at every scale. */
  lemma NotUndone(f: Elementary, a: Similarity, unit: Quaternion)
    requires Facts(f) && RxSo3.Valid(a.q) && unit == UnitOf(f, a.q) && !Undone(unit)
    ensures Log(f, a).Pass?
    ensures Exp(f, Log(f, a).value) != Pass(a) && Exp(f, Log(f, a).value) != Pass(Similarity(a.q.Times(-1.0), a.t))
  {
    hide Facts, Prod, Quotient, SquaredNorm, SquaredVec, Length, So3Log, So3Exp, Exp, Log, Unit, UnitOf, UnitTurn, RxSo3.ExpScale, Quaternion.SquaredNorm,
         Quaternion.Times, Quaternion.Vec;
    var length := f.sqrt(a.q.SquaredNorm());
    LengthIsLarge(f, a.q.SquaredNorm());
    UnitOfIs(f, a.q);
    LogParts(f, a);
    var x := Log(f, a).value;
    ExpParts(f, x);
    var root := f.sqrt(RxSo3.ExpScale(f.exp(x.sigma)));
    ScaledBack(a.q, length);
    var k := Prod(length, Quotient(1.0, root));
    RxSo3.TimesTimes(So3Exp(f, x.omega), root, Quotient(1.0, root));
    PSym(root, Quotient(1.0, root));
    RxSo3.TimesOne(So3Exp(f, x.omega));
    RxSo3.TimesTimes(unit, length, Quotient(1.0, root));
    RxSo3.TimesTimes(unit.Times(-1.0), length, Quotient(1.0, root));
    RxSo3.TimesTimes(unit, -1.0, k);
    NotParallel(f, unit, k);
    NotParallel(f, unit, Prod(-1.0, k));
  }

  lemma UndoneExactlyWhen(f: Elementary, a: Similarity, unit: Quaternion)
    requires Facts(f) && Unclamped(a.q.SquaredNorm()) && unit == UnitOf(f, a.q) && Undone(unit)
    ensures Log(f, a).Pass?
    ensures var x := Log(f, a).value;
            var r, kept := Exp(f, x), Kept(f, x.omega, x.sigma, a.t);
            && (kept ==> r == Pass(Similarity(Upright(a.q), a.t)))
            && (r == Pass(a) || r == Pass(Similarity(a.q.Times(-1.0), a.t)) <==> kept)
  {
    hide Facts, Prod, SquaredNorm, SquaredVec, Length, So3Log, UnitTurn, Undone, Sim3Exp.W, Sim3Exp.WInv, Exp, Log, Apply, Unit, UnitOf, SimBands.Values,
         SimDetails.Transcendental, TranslationBands.Kept, Quaternion.SquaredNorm, Quaternion.Times;
    ExpOfLog(f, a, unit);
    UnitOfIs(f, a.q);
    SignOfUnitPart(a.q, f.sqrt(a.q.SquaredNorm()));
    var x, scale := Log(f, a).value, a.q.SquaredNorm();
    var theta := Length(f, x.omega);
    LengthOf(f, x.omega);
    LogIsNoFullTurn(f, unit);
    TranslationBands.ActionExactlyWhen(x.omega, theta, x.sigma, scale, f.sin(theta), f.cos(theta), a.t);
  }

  /** Normalising keeps the sign of the real part. */
  lemma SignOfUnitPart(q: Quaternion, length: real)
    requires length >= EPSILON
    ensures Unit(q, length).w < 0.0 <==> q.w < 0.0
  {
    PositiveInverse(length);
    var i := Quotient(1.0, length);
    hide Quotient;
    if q.w < 0.0 {
      PositiveProduct(-q.w, i, -q.w * i);
    } else {
      ProductSign(q.w, i);
    }
  }

  /** The vectors of log are no full turns. */
  lemma LogIsNoFullTurn(f: Elementary, q: Quaternion)
    requires Facts(f) && q.SquaredNorm() == 1.0
    ensures So3Log(f, q).Pass?
    ensures var theta := Length(f, So3Log(f, q).value.tangent);
            theta != 0.0 ==> f.cos(theta) != 1.0
  {
    hide Facts, Prod, SquaredNorm, Length, So3Log, HalfAngle, AngleBounds, Quaternion.SquaredNorm;
    LogIsShort(f, q);
    var theta := Length(f, So3Log(f, q).value.tangent);
    LengthOf(f, So3Log(f, q).value.tangent);
    AngleOf(f, theta);
    QuadrantOf(f, 0.5 * theta);
    if theta != 0.0 {
      NotFullTurn(f.sin(0.5 * theta), f.cos(0.5 * theta), f.sin(theta), f.cos(theta));
    }
  }

  /** The sign of the reported angle does not matter to the inverse of W. */
  lemma EvenWInv(omega: Vec3, norm: real, theta: real, sigma: real, scale: real, sinNorm: real, sinTheta: real, cosine: real)
    requires SimDetails.Transcendental(sigma, scale, sinTheta, cosine)
    requires Prod(sigma, sigma) < EPSILON && Prod(theta, theta) >= EPSILON ==> cosine != 1.0
    requires (norm == theta && sinNorm == sinTheta) || (norm == -theta && sinNorm == -sinTheta)
    ensures SimDetails.Transcendental(sigma, scale, sinNorm, cosine) && Prod(norm, norm) == Prod(theta, theta)
    ensures Sim3Exp.WInv(omega, norm, sigma, scale, sinNorm, cosine) == Sim3Exp.WInv(omega, theta, sigma, scale, sinTheta, cosine)
  {
    PEven(theta);
    PEven(sinTheta);
    EvenCoefficients(theta, sigma, scale, sinTheta, cosine);
    hide SimDetails.CalcWInv, Prod, PolyMatrix;
  }

  lemma PEven(x: real)
    ensures Prod(-x, -x) == Prod(x, x)
  {}

  lemma EvenCoefficients(theta: real, sigma: real, scale: real, sine: real, cosine: real)
    requires SimDetails.Transcendental(sigma, scale, sine, cosine)
    requires Prod(sigma, sigma) < EPSILON && Prod(theta, theta) >= EPSILON ==> cosine != 1.0
    requires Prod(-sine, -sine) == Prod(sine, sine)
    ensures SimDetails.CalcWInv(-theta, sigma, scale, -sine, cosine) == SimDetails.CalcWInv(theta, sigma, scale, sine, cosine)
  {
    PEven(theta);
    var sSine, sCosine := Prod(scale, sine), Prod(scale, cosine);
    var chord := Prod(scale, scale) - 2.0 * sCosine + 1.0;
    PNegated(scale, sine);
    PNegated(sigma, sSine);
    PNegated(theta, sCosine);
    PNegated(theta, chord);
    POpposites(theta, sine);
    POpposites(theta, sSine);
    if Prod(sigma, sigma) >= EPSILON && Prod(theta, theta) >= EPSILON {
      SimDetails.LargeIsNotSmall(sigma);
      SimDetails.LargeIsNotSmall(theta);
      SimDetails.InverseDenominators(theta, scale, sine, cosine);
      SimDetails.InverseDenominators(-theta, scale, -sine, cosine);
      NegatedQuotient(Prod(theta, sCosine) - theta - Prod(sigma, sSine), Prod(theta, chord));
    }
    hide Prod, Quotient;
  }

  lemma POpposites(x: real, y: real)
    ensures Prod(-x, -y) == Prod(x, y)
  {}

  lemma NegatedQuotient(x: real, y: real)
    requires y != 0.0
    ensures Quotient(-x, -y) == Quotient(x, y)
  {}
}
