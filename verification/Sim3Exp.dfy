/** Exponential of the similarities, and the translation through exp and log. */
module Sim3Exp {
  import opened Linear
  import opened Constants
  import opened Skew
  import opened Quaternions
  import opened Checked
  import opened Sim3
  import RxSo3
  import So3
  import SimDetails

  /** The values of the elementary functions that exp takes of theta and sigma:
      `theta` is the norm of omega, `scale` is exp(sigma), `root` the root of its clamp. */
  datatype Angles = Angles(theta: real, sinHalf: real, cosHalf: real, sine: real, cosine: real, scale: real, root: real)

  predicate Consistent(x: Twist, e: Angles) {
    && Prod(e.theta, e.theta) == SquaredNorm(x.omega)
    && HalfAngle(e.sinHalf, e.cosHalf, e.sine, e.cosine)
    && SimDetails.Transcendental(x.sigma, e.scale, e.sine, e.cosine)
    && Prod(e.root, e.root) == RxSo3.ExpScale(e.scale)
  }

  function W(omega: Vec3, theta: real, sigma: real, scale: real, sine: real, cosine: real): Mat3 {
    PolyMatrix(omega, SimDetails.CalcW(theta, sigma, scale, sine, cosine))
  }

  /** The matrix with which log recovers the translational part. */
  function WInv(omega: Vec3, theta: real, sigma: real, scale: real, sine: real, cosine: real): Mat3
    requires SimDetails.Transcendental(sigma, scale, sine, cosine)
    requires Prod(sigma, sigma) < EPSILON && Prod(theta, theta) >= EPSILON ==> cosine != 1.0
  {
    PolyMatrix(omega, SimDetails.CalcWInv(theta, sigma, scale, sine, cosine))
  }

  /** The rotation part of exp. */
  function Unit(omega: Vec3, theta: real, sinHalf: real, cosHalf: real): (Quaternion, real)
    requires Prod(theta, theta) == SquaredNorm(omega)
  {
    So3.ExpAndTheta(omega, theta, sinHalf, cosHalf)
  }

  function Exp(x: Twist, e: Angles): Checked<Similarity>
    requires Consistent(x, e)
  {
    var (unit, angle) := Unit(x.omega, e.theta, e.sinHalf, e.cosHalf);
    match RxSo3.Exp(unit, e.root)
    case Pass(q) =>
      var (sine, cosine) := if angle == 0.0 then (0.0, 1.0) else (e.sine, e.cosine);
      Pass(Similarity(q, Apply(W(x.omega, angle, x.sigma, e.scale, sine, cosine), x.upsilon)))
    case Abort => Abort
  }

  lemma UnitFacts(omega: Vec3, theta: real, s: real, c: real, sine: real, cosine: real)
    requires Prod(theta, theta) == SquaredNorm(omega) && HalfAngle(s, c, sine, cosine) && So3.Regular(theta)
    ensures theta != 0.0 && Unit(omega, theta, s, c).1 == theta && Unit(omega, theta, s, c).0.SquaredNorm() == 1.0
    ensures Matrix(Unit(omega, theta, s, c).0) == PolyMatrix(omega, So3.ExpPoly(theta, sine, cosine))
  {
    NonzeroSquare(theta);
    So3.ExpMatrix(omega, theta, s, c, sine, cosine);
    hide Matrix, PolyMatrix, So3.ExpPoly, HalfAngle, Quaternion.SquaredNorm;
  }

  lemma ScaledFacts(unit: Quaternion, scale: real, root: real)
    requires unit.SquaredNorm() == 1.0 && Prod(root, root) == RxSo3.ExpScale(scale)
    ensures RxSo3.Exp(unit, root) == Pass(unit.Times(root))
    ensures unit.Times(root).SquaredNorm() == RxSo3.ExpScale(scale)
    ensures Matrix(unit.Times(root)) == MatScale(RxSo3.ExpScale(scale), Matrix(unit))
  {
    RxSo3.ExpSucceeds(unit, scale, root);
    RxSo3.MatrixTimes(unit, root);
    hide Matrix, MatScale, Quaternion.Times, Quaternion.SquaredNorm;
  }

  /** Away from the Taylor branch of the rotation exp succeeds, with the parts expected. */
  lemma ExpParts(x: Twist, e: Angles)
    requires Consistent(x, e) && So3.Regular(e.theta)
    ensures var unit := Unit(x.omega, e.theta, e.sinHalf, e.cosHalf).0;
            && Exp(x, e) == Pass(Similarity(unit.Times(e.root), Apply(W(x.omega, e.theta, x.sigma, e.scale, e.sine, e.cosine), x.upsilon)))
            && unit.Times(e.root).SquaredNorm() == RxSo3.ExpScale(e.scale)
            && Matrix(unit.Times(e.root)) == MatScale(RxSo3.ExpScale(e.scale), PolyMatrix(x.omega, So3.ExpPoly(e.theta, e.sine, e.cosine)))
  {
    hide Prod, HalfAngle, SimDetails.Transcendental, RxSo3.ExpScale, RxSo3.Exp, So3.Regular, So3.ExpPoly, Unit, W, Apply,
      PolyMatrix, Matrix, MatScale, Quaternion.Times, Quaternion.SquaredNorm, SquaredNorm;
    UnitFacts(x.omega, e.theta, e.sinHalf, e.cosHalf, e.sine, e.cosine);
    ScaledFacts(Unit(x.omega, e.theta, e.sinHalf, e.cosHalf).0, e.scale, e.root);
  }

  // ----- exp integrates: (sigma I + Omega) W = s R - I -----

  lemma ScaledHatIsPoly(omega: Vec3, sigma: real)
    ensures ScaledHat(omega, sigma) == PolyMatrix(omega, Poly(sigma, 1.0, 0.0))
  {}

  lemma ScaledPoly(omega: Vec3, s: real, a: real, b: real)
    ensures MatSub(MatScale(s, PolyMatrix(omega, Poly(1.0, a, b))), IDENTITY) == PolyMatrix(omega, Poly(s - 1.0, Prod(s, a), Prod(s, b)))
  {
    var p, q := Poly(1.0, a, b), Poly(s - 1.0, Prod(s, a), Prod(s, b));
    var left := MatSub(MatScale(s, PolyMatrix(omega, p)), IDENTITY);
    forall v
      ensures Apply(left, v) == Apply(PolyMatrix(omega, q), v)
    {
      ApplyMatSub(MatScale(s, PolyMatrix(omega, p)), IDENTITY, v);
      ApplyMatScale(s, PolyMatrix(omega, p), v);
      ApplyPoly(omega, p, v);
      ApplyPoly(omega, q, v);
      ApplyIdentity(v);
      hide Apply, PolyMatrix, MatSub, MatScale;
      ScaledPolyAct(omega, s, a, b, v);
      hide *;
    }
    Extensional(left, PolyMatrix(omega, q));
  }

  lemma ScaledPolyAct(omega: Vec3, s: real, a: real, b: real, v: Vec3)
    ensures Sub(Scale(s, PolyAct(omega, Poly(1.0, a, b), v)), v) == PolyAct(omega, Poly(s - 1.0, Prod(s, a), Prod(s, b)), v)
  {
    var v1, v2 := Cross(omega, v), Cross(omega, Cross(omega, v));
    PScaledRow(s, a, b, v.x, v1.x, v2.x);
    PScaledRow(s, a, b, v.y, v1.y, v2.y);
    PScaledRow(s, a, b, v.z, v1.z, v2.z);
    hide Prod, Cross;
  }

  lemma PScaledRow(s: real, a: real, b: real, x: real, y: real, z: real)
    ensures Prod(s, Prod(1.0, x) + Prod(a, y) + Prod(b, z)) - x == Prod(s - 1.0, x) + Prod(Prod(s, a), y) + Prod(Prod(s, b), z)
  {}

  /** hat(sigma, omega) W = s R - I: the translation of exp solves (sigma I + Omega) t = (s R - I) u. */
  lemma ExpIsIntegral(x: Twist, e: Angles)
    requires Consistent(x, e) && So3.Regular(e.theta) && (x.sigma == 0.0 || !SimDetails.Small(x.sigma))
    requires EPSILON_PLUS <= e.scale <= 1.0 / EPSILON_PLUS
    ensures Exp(x, e).Pass?
    ensures Mul(ScaledHat(x.omega, x.sigma), W(x.omega, e.theta, x.sigma, e.scale, e.sine, e.cosine))
         == MatSub(Matrix(Exp(x, e).value.q), IDENTITY)
  {
    hide Prod, HalfAngle, SimDetails.Transcendental, So3.Regular, So3.ExpPoly, SimDetails.CalcW, PolyTimes, Exp, W, Apply, Mul, ScaledHat,
      PolyMatrix, Matrix, MatScale, MatSub, Quaternion.Times, Quaternion.SquaredNorm, SquaredNorm, Unit;
    var w, p := SimDetails.CalcW(e.theta, x.sigma, e.scale, e.sine, e.cosine), So3.ExpPoly(e.theta, e.sine, e.cosine);
    ExpParts(x, e);
    RegularIsLarge(e.theta);
    SimDetails.WIsIntegral(e.theta, x.sigma, e.scale, e.sine, e.cosine);
    ExpEntries(e.theta, e.sine, e.cosine, e.scale, PolyTimes(Prod(e.theta, e.theta), Poly(x.sigma, 1.0, 0.0), w));
    ScaledPoly(x.omega, e.scale, p.a, p.b);
    ScaledHatIsPoly(x.omega, x.sigma);
    PolyMatrixTimes(x.omega, Poly(x.sigma, 1.0, 0.0), w);
    WDefinition(x.omega, e.theta, x.sigma, e.scale, e.sine, e.cosine);
  }

  lemma WDefinition(omega: Vec3, theta: real, sigma: real, scale: real, sine: real, cosine: real)
    ensures W(omega, theta, sigma, scale, sine, cosine) == PolyMatrix(omega, SimDetails.CalcW(theta, sigma, scale, sine, cosine))
  {}

  lemma RegularIsLarge(theta: real)
    requires So3.Regular(theta)
    ensures !SimDetails.Small(theta)
  {
    if SimDetails.Small(theta) {
      SmallIsTaylor(theta);
    }
  }

  lemma SmallIsTaylor(theta: real)
    requires SimDetails.Small(theta)
    ensures !So3.Regular(theta)
  {
    var p := (EPSILON - theta) * (EPSILON + theta);
    PositiveProduct(EPSILON - theta, EPSILON + theta, p);
    assert p == EPSILON * EPSILON - theta * theta;
  }

  /** The entries of s R, from the same entries over theta and theta^2. */
  lemma ExpEntries(theta: real, sine: real, cosine: real, scale: real, p: Poly)
    requires So3.Regular(theta)
    requires p.c == scale - 1.0 && Prod(p.a, theta) == Prod(scale, sine) && Prod(p.b, Prod(theta, theta)) == scale - Prod(scale, cosine)
    ensures var e := So3.ExpPoly(theta, sine, cosine);
            e.c == 1.0 && p == Poly(scale - 1.0, Prod(scale, e.a), Prod(scale, e.b))
  {}

  // ----- log after exp -----

  /** W W^-1 = W^-1 W = I in the general branch and at sigma = 0 exactly. */
  lemma WInverse(omega: Vec3, theta: real, sigma: real, scale: real, sine: real, cosine: real)
    requires SimDetails.Transcendental(sigma, scale, sine, cosine) && Prod(theta, theta) == SquaredNorm(omega) >= EPSILON
    requires Prod(sigma, sigma) >= EPSILON || (sigma == 0.0 && cosine != 1.0)
    ensures Mul(W(omega, theta, sigma, scale, sine, cosine), WInv(omega, theta, sigma, scale, sine, cosine)) == IDENTITY
    ensures Mul(WInv(omega, theta, sigma, scale, sine, cosine), W(omega, theta, sigma, scale, sine, cosine)) == IDENTITY
  {
    var w, x := SimDetails.CalcW(theta, sigma, scale, sine, cosine), SimDetails.CalcWInv(theta, sigma, scale, sine, cosine);
    if Prod(sigma, sigma) >= EPSILON {
      SimDetails.GeneralInverse(theta, sigma, scale, sine, cosine);
    } else {
      SimDetails.FlatInverse(theta, sine, cosine);
    }
    So3.PolyTimesSym(SquaredNorm(omega), w, x);
    PolyMatrixTimes(omega, w, x);
    PolyMatrixTimes(omega, x, w);
    PolyMatrixOne(omega);
    hide Mul, PolyMatrix, SimDetails.CalcW, SimDetails.CalcWInv, PolyTimes;
  }

  /** Log recovers the translational part that exp used, from the scale of the result. */
  lemma TranslationRoundTrip(x: Twist, e: Angles)
    requires Consistent(x, e) && SquaredNorm(x.omega) >= EPSILON
    requires Prod(x.sigma, x.sigma) >= EPSILON || (x.sigma == 0.0 && e.cosine != 1.0)
    requires EPSILON_PLUS <= e.scale <= 1.0 / EPSILON_PLUS
    ensures Exp(x, e).Pass? && Exp(x, e).value.q.SquaredNorm() == e.scale
    ensures Apply(WInv(x.omega, e.theta, x.sigma, e.scale, e.sine, e.cosine), Exp(x, e).value.t) == x.upsilon
  {
    LargeIsRegular(e.theta);
    ExpParts(x, e);
    WInverse(x.omega, e.theta, x.sigma, e.scale, e.sine, e.cosine);
    ApplyMul(WInv(x.omega, e.theta, x.sigma, e.scale, e.sine, e.cosine), W(x.omega, e.theta, x.sigma, e.scale, e.sine, e.cosine), x.upsilon);
    ApplyIdentity(x.upsilon);
    hide Mul, Apply, W, WInv, Exp, Unit, Matrix, MatScale, PolyMatrix, HalfAngle, Quaternion.SquaredNorm, Quaternion.Times;
  }

  lemma LargeIsRegular(theta: real)
    requires Prod(theta, theta) >= EPSILON
    ensures So3.Regular(theta)
  {}
}
