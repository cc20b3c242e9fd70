/** Exponential and logarithm of SO3 and SE3 as the library calls them, with the elementary
    functions in place. */
module ExpLog {
  import opened Linear
  import opened Constants
  import opened Quaternions
  import opened Checked
  import opened Logarithm
  import opened Elementary
  import So3
  import Se3

  /** The norm of a vector. */
  function Length(f: Elementary, v: Vec3): real {
    f.sqrt(SquaredNorm(v))
  }

  lemma LengthOf(f: Elementary, v: Vec3)
    requires Facts(f)
    ensures Length(f, v) >= 0.0 && Prod(Length(f, v), Length(f, v)) == SquaredNorm(v) == Length(f, v) * Length(f, v)
  {
    NormDefinite(v);
    RootOf(f, SquaredNorm(v));
    ProdIs(Length(f, v), Length(f, v));
    hide Facts, Prod, SquaredNorm;
  }

  // ----- SO3 -----

  ghost function So3Exp(f: Elementary, omega: Vec3): Quaternion
    requires Facts(f)
  {
    hide Facts, Length, SquaredNorm;
    LengthOf(f, omega);
    var theta := Length(f, omega);
    So3.ExpAndTheta(omega, theta, f.sin(0.5 * theta), f.cos(0.5 * theta)).0
  }

  /** The arctangent that log takes, on the side of the real part. */
  function Arc(f: Elementary, q: Quaternion): real {
    var n := Length(f, q.Vec());
    if q.w < 0.0 then f.atan2(-n, -q.w) else f.atan2(n, q.w)
  }

  ghost function So3Log(f: Elementary, q: Quaternion): Checked<TangentAndTheta>
    requires Facts(f)
  {
    LengthOf(f, q.Vec());
    LogAndTheta(q, Length(f, q.Vec()), Arc(f, q))
  }

  /** On a unit quaternion with a vector part the arctangent is that of the half angle. */
  lemma ArcIsArcTangent(f: Elementary, q: Quaternion)
    requires Facts(f) && q.SquaredNorm() == 1.0 && SquaredVec(q) != 0.0
    ensures var n, a := Length(f, q.Vec()), Arc(f, q);
            && n > 0.0 && Prod(n, n) == SquaredVec(q) && IsArcTangent(q, n, a, f.sin(a), f.cos(a)) && -f.pi < a <= f.pi
            && Prod(f.sin(a), f.sin(a)) == SquaredVec(q)
            && HalfAngle(n, f.cos(a), if a < 0.0 then -f.sin(2.0 * a) else f.sin(2.0 * a), f.cos(2.0 * a))
  {
    var n, a := Length(f, q.Vec()), Arc(f, q);
    LengthOf(f, q.Vec());
    POnes(0.0);
    UnitParts(q);
    PNegated(n, -n);
    PNegated(n, n);
    PNegated(q.w, q.w);
    PNegated(q.w, -q.w);
    ArcOf(f, if q.w < 0.0 then -n else n, if q.w < 0.0 then -q.w else q.w);
    AngleOf(f, 2.0 * a);
    HalfAngleEven(f.sin(a), f.cos(a), f.sin(2.0 * a), f.cos(2.0 * a));
    hide Facts, Prod, SquaredNorm, HalfAngle, AngleBounds, Quaternion.SquaredNorm;
  }

  lemma UnitParts(q: Quaternion)
    ensures q.SquaredNorm() == SquaredVec(q) + Prod(q.w, q.w)
  {
    NormEntries(q);
    hide Prod, Quaternion.SquaredNorm;
  }

  lemma SumOfSquares(s: real, c: real, sine: real, cosine: real)
    requires HalfAngle(s, c, sine, cosine)
    ensures s * s + c * c == 1.0
  {}

  lemma HalfAngleEven(s: real, c: real, sine: real, cosine: real)
    requires HalfAngle(s, c, sine, cosine)
    ensures HalfAngle(-s, c, -sine, cosine)
  {}

  /** log(exp omega) = omega with its norm as the angle, for angles up to pi, outside the Taylor
      branches of exp and of log. */
  lemma So3LogOfExp(f: Elementary, omega: Vec3, q: Quaternion)
    requires Facts(f) && So3.Regular(Length(f, omega)) && Length(f, omega) <= f.pi
    requires q == So3Exp(f, omega) && SquaredVec(q) >= EPSILON * EPSILON
    ensures So3Log(f, q) == Pass(TangentAndTheta(omega, Length(f, omega)))
  {
    hide Facts, Prod, SquaredNorm, HalfAngle, LogAndTheta, So3.ExpAndTheta, So3.Regular, Quaternion.Vec, Length;
    HalfOf(f, omega);
    var theta := Length(f, omega);
    var s, c := f.sin(0.5 * theta), f.cos(0.5 * theta);
    ExpParts(omega, theta, s, c);
    LengthOf(f, q.Vec());
    ArcBack(f, 0.5 * theta);
    SameRoot(Length(f, q.Vec()), s);
    Logarithm.LogOfExp(omega, theta, s, c);
  }

  lemma HalfOf(f: Elementary, omega: Vec3)
    requires Facts(f) && So3.Regular(Length(f, omega)) && Length(f, omega) <= f.pi
    ensures var theta := Length(f, omega);
            && theta > 0.0 && theta * theta == SquaredNorm(omega) && 0.5 * theta <= 0.5 * f.pi < f.pi
            && HalfAngle(f.sin(0.5 * theta), f.cos(0.5 * theta), f.sin(theta), f.cos(theta))
            && f.sin(0.5 * theta) > 0.0 && f.cos(0.5 * theta) >= 0.0
            && f.sin(0.5 * theta) * f.sin(0.5 * theta) + f.cos(0.5 * theta) * f.cos(0.5 * theta) == 1.0
  {
    hide Facts, Prod, SquaredNorm, HalfAngle, AngleBounds, Length, So3.Regular;
    var theta := Length(f, omega);
    LengthOf(f, omega);
    RegularIsNonzero(theta);
    AngleOf(f, theta);
    QuadrantOf(f, 0.5 * theta);
    SumOfSquares(f.sin(0.5 * theta), f.cos(0.5 * theta), f.sin(theta), f.cos(theta));
  }

  lemma RegularIsNonzero(theta: real)
    requires So3.Regular(theta)
    ensures theta != 0.0
  {
    NonzeroSquare(theta);
  }

  lemma ExpParts(omega: Vec3, theta: real, s: real, c: real)
    requires theta * theta == SquaredNorm(omega) && theta > 0.0 && So3.Regular(theta) && s * s + c * c == 1.0
    ensures So3.ExpAndTheta(omega, theta, s, c).0.w == c && SquaredVec(So3.ExpAndTheta(omega, theta, s, c).0) == Prod(s, s) == s * s
  {
    var q, g := So3.ExpAndTheta(omega, theta, s, c).0, Quotient(s, theta);
    Logarithm.ClosedExp(omega, theta, s, c);
    LogNorm(omega, theta, s, g);
    VecIs(q, Scale(g, omega));
    hide Prod, Quotient, Scale, SquaredNorm, So3.ExpAndTheta, Quaternion.Vec;
    ProdIs(theta, theta);
    ProdIs(s, s);
  }

  /** exp(log q) is q, or -q when the real part is negative; the angle log reports is the norm
      of its result if and only if it is not. */
  lemma So3ExpOfLog(f: Elementary, q: Quaternion)
    requires Facts(f) && q.SquaredNorm() == 1.0 && SquaredVec(q) >= EPSILON * EPSILON
    ensures var r := So3Log(f, q);
            && r.Pass? && So3Exp(f, r.value.tangent) == (if q.w < 0.0 then q.Times(-1.0) else q)
            && (r.value.theta == Length(f, r.value.tangent) <==> q.w >= 0.0)
  {
    var n, a := Length(f, q.Vec()), Arc(f, q);
    ArcIsArcTangent(f, q);
    Logarithm.ExpOfLog(q, n, a, f.sin(a), f.cos(a));
    var r := So3Log(f, q);
    RotationSigns(q, n, a, f.sin(a), f.cos(a));
    AngleOfLog(f, r.value.tangent, a, n);
    hide Facts, Prod, SquaredNorm, HalfAngle, LogAndTheta, RotationAngle, So3.ExpAndTheta, Quaternion.Vec, Length, IsArcTangent;
  }

  /** The angle of exp is the norm of what log returned: plus or minus twice its arctangent. */
  lemma AngleOfLog(f: Elementary, omega: Vec3, a: real, n: real)
    requires Facts(f) && RotationAngle(a) * RotationAngle(a) == SquaredNorm(omega)
    requires n == if a < 0.0 then -f.sin(a) else f.sin(a)
    ensures var theta := Length(f, omega);
            theta == RotationAngle(a) && f.sin(0.5 * theta) == n && f.cos(0.5 * theta) == f.cos(a)
  {
    LengthOf(f, omega);
    ProdIs(RotationAngle(a), RotationAngle(a));
    SameRoot(Length(f, omega), RotationAngle(a));
    ParityOf(f, a);
    HalfRotation(a);
    hide Facts, Prod, SquaredNorm, Length, RotationAngle;
  }

  lemma HalfRotation(a: real)
    ensures 0.5 * RotationAngle(a) == (if a < 0.0 then -a else a) >= 0.0
  {}

  // ----- SE3 -----

  ghost function Se3Exp(f: Elementary, a: Se3.Twist): Se3.Pose
    requires Facts(f)
  {
    hide Facts, Length, SquaredNorm;
    LengthOf(f, a.omega);
    var theta := Length(f, a.omega);
    Se3.Exp(a, theta, f.sin(0.5 * theta), f.cos(0.5 * theta), f.sin(theta), f.cos(theta))
  }

  /** The quaternions that the operations make: unit ones, and those of the Taylor branch of exp,
      which are slightly longer. */
  predicate Loggable(q: Quaternion) {
    q.SquaredNorm() == 1.0 || (1.0 <= q.SquaredNorm() < 1.0 + EPSILON && SquaredVec(q) < EPSILON * EPSILON)
  }

  /** Log inverts the Jacobian at the angle that the rotation's logarithm reports. */
  ghost function Se3Log(f: Elementary, a: Se3.Pose): Checked<Se3.Twist>
    requires Facts(f) && Loggable(a.q)
  {
    hide Facts, Length, SquaredNorm, So3Log, So3.Regular, Loggable;
    match So3Log(f, a.q)
    case Pass(r) =>
      LogIsBelowFullTurn(f, a.q);
      var vInv := So3.LeftJacobianInverse(r.tangent, r.theta, f.sin(0.5 * r.theta), f.cos(0.5 * r.theta));
      Pass(Se3.Twist(Apply(vInv, a.t), r.tangent))
    case Abort => Abort
  }

  /** The angle log reports is one where the inverse Jacobian exists. */
  lemma LogIsBelowFullTurn(f: Elementary, q: Quaternion)
    requires Facts(f) && Loggable(q) && So3Log(f, q).Pass?
    ensures So3.Regular(So3Log(f, q).value.theta) ==> f.sin(0.5 * So3Log(f, q).value.theta) != 0.0
  {
    LengthOf(f, q.Vec());
    if SquaredVec(q) >= EPSILON * EPSILON {
      ArcIsArcTangent(f, q);
      ReportedAngle(q, Length(f, q.Vec()), Arc(f, q));
      RotationSigns(q, Length(f, q.Vec()), Arc(f, q), f.sin(Arc(f, q)), f.cos(Arc(f, q)));
    } else {
      TaylorAngleIsTiny(q, Length(f, q.Vec()), Arc(f, q));
    }
    hide Facts, Prod, Length, Arc, SquaredNorm, LogAndTheta, So3.Regular, HalfAngle, IsArcTangent, Quaternion.SquaredNorm;
  }

  lemma TaylorAngleIsTiny(q: Quaternion, n: real, atan: real)
    requires 1.0 <= q.SquaredNorm() < 1.0 + EPSILON && Prod(n, n) == SquaredVec(q) < EPSILON * EPSILON && LogAndTheta(q, n, atan).Pass?
    ensures !So3.Regular(LogAndTheta(q, n, atan).value.theta)
  {
    var v, theta := SquaredVec(q), LogAndTheta(q, n, atan).value.theta;
    UnitParts(q);
    NormDefinite(q.Vec());
    PTiny(q.w, v, theta);
    hide Quaternion.SquaredNorm, SquaredNorm, Quotient, Prod;
  }

  lemma PTiny(w: real, v: real, theta: real)
    requires 0.0 <= v < EPSILON * EPSILON && 1.0 <= v + Prod(w, w) && Prod(theta, w) == 2.0 * v
    ensures theta * theta < EPSILON * EPSILON
  {
    var bound, square, k := EPSILON * EPSILON, theta * theta, Prod(w, w);
    PTinySquare(w, v, theta);
    if square >= bound {
      ProductSign(square - bound, k);
      ProductSign(v, bound - v);
      PTinyBounds(square, bound, v, k);
    }
    hide Prod;
  }

  lemma PTinySquare(w: real, v: real, theta: real)
    requires Prod(theta, w) == 2.0 * v
    ensures Prod(theta * theta, Prod(w, w)) == 4.0 * Prod(v, v)
  {
    assert theta * theta * (w * w) == (theta * w) * (theta * w);
  }

  lemma PTinyBounds(square: real, bound: real, v: real, k: real)
    ensures Prod(square - bound, k) == Prod(square, k) - Prod(bound, k)
    ensures Prod(v, bound - v) == Prod(bound, v) - Prod(v, v)
    ensures bound == EPSILON * EPSILON ==> Prod(bound, v) == EPSILON * EPSILON * v && Prod(bound, k) == EPSILON * EPSILON * k
  {}

  lemma ExpIsValid(f: Elementary, a: Se3.Twist)
    requires Facts(f) && So3.Regular(Length(f, a.omega))
    ensures Se3Exp(f, a).q == So3Exp(f, a.omega) && Se3Exp(f, a).q.SquaredNorm() == 1.0
  {
    hide Facts, Length, SquaredNorm, HalfAngle, AngleBounds, So3.Regular, So3.ExpAndTheta, Se3.Exp, Quaternion.SquaredNorm, Matrix;
    var theta := Length(f, a.omega);
    LengthOf(f, a.omega);
    AngleOf(f, theta);
    Se3.ExpParts(a, theta, f.sin(0.5 * theta), f.cos(0.5 * theta), f.sin(theta), f.cos(theta));
    So3.ExpMatrix(a.omega, theta, f.sin(0.5 * theta), f.cos(0.5 * theta), f.sin(theta), f.cos(theta));
  }

  /** log(exp a) = a, rotation and translation, for angles up to pi, outside the Taylor branches. */
  lemma Se3LogOfExp(f: Elementary, a: Se3.Twist)
    requires Facts(f) && So3.Regular(Length(f, a.omega)) && Length(f, a.omega) <= f.pi
    requires SquaredVec(So3Exp(f, a.omega)) >= EPSILON * EPSILON
    ensures Se3Exp(f, a).q.SquaredNorm() == 1.0 && Se3Log(f, Se3Exp(f, a)) == Pass(a)
  {
    hide Facts, Length, SquaredNorm, SquaredVec, HalfAngle, AngleBounds, So3.Regular, So3Log, So3Exp, So3.LeftJacobianInverse, Se3.Exp,
         Quaternion.SquaredNorm, Apply;
    var theta := Length(f, a.omega);
    var s, c := f.sin(0.5 * theta), f.cos(0.5 * theta);
    ExpIsValid(f, a);
    So3LogOfExp(f, a.omega, So3Exp(f, a.omega));
    HalfOf(f, a.omega);
    Se3.TranslationRoundTrip(a, theta, s, c, f.sin(theta), f.cos(theta));
  }

  /** exp(log A) = A for every valid A outside the Taylor branch of log, up to the sign of the
      quaternion, which is no part of the motion. */
  lemma Se3ExpOfLog(f: Elementary, a: Se3.Pose)
    requires Facts(f) && a.q.SquaredNorm() == 1.0 && SquaredVec(a.q) >= EPSILON * EPSILON
    ensures var r := Se3Log(f, a);
            && r.Pass? && So3.Regular(Length(f, r.value.omega)) && Prod(Length(f, r.value.omega), Length(f, r.value.omega)) >= 4.0 * SquaredVec(a.q)
            && Se3Exp(f, r.value) == Se3.Pose(if a.q.w < 0.0 then a.q.Times(-1.0) else a.q, a.t)
  {
    hide Facts, Prod, Dot, Scale, So3Exp, Quaternion.Vec, Length, Arc, SquaredNorm, SquaredVec, HalfAngle, AngleBounds, So3.Regular,
         IsArcTangent, RotationAngle, So3.LeftJacobianInverse, Se3.Exp, LogAndTheta, Quaternion.SquaredNorm, Quaternion.Times, Apply;
    var n, atan, norm := Length(f, a.q.Vec()), Arc(f, a.q), RotationAngle(Arc(f, a.q));
    ArcIsArcTangent(f, a.q);
    RotationSigns(a.q, n, atan, f.sin(atan), f.cos(atan));
    ReportedAngle(a.q, n, atan);
    var sine := if atan < 0.0 then -f.sin(2.0 * atan) else f.sin(2.0 * atan);
    Logarithm.Se3ExpOfLog(a, n, atan, f.sin(atan), f.cos(atan), sine, f.cos(2.0 * atan), norm);
    var r := So3Log(f, a.q).value;
    AngleOfLog(f, r.tangent, atan, n);
    ParityOf(f, 2.0 * atan);
    ArcTangentIsRegular(a.q, n, atan, f.sin(atan), f.cos(atan));
    SquareOf(norm, 2.0 * atan);
    ArcIsLong(a.q, n, atan, f.sin(atan), f.cos(atan));
  }

  /** The rotation vector of log is at least twice as long as the vector part. */
  lemma ArcIsLong(q: Quaternion, n: real, atan: real, sinAtan: real, cosAtan: real)
    requires n > 0.0 && IsArcTangent(q, n, atan, sinAtan, cosAtan)
    ensures Prod(RotationAngle(atan), RotationAngle(atan)) >= 4.0 * Prod(n, n)
  {
    var size := RotationAngle(atan);
    ProductSign(size - 2.0 * n, size + 2.0 * n);
    PDifferenceOfSquares(size, n);
    hide Prod;
  }

  lemma PDifferenceOfSquares(x: real, n: real)
    ensures Prod(x - 2.0 * n, x + 2.0 * n) == Prod(x, x) - 4.0 * Prod(n, n)
  {}
}
