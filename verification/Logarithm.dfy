/** The logarithms of SO3 and SE3. */
module Logarithm {
  import opened Linear
  import opened Constants
  import opened Skew
  import opened Quaternions
  import opened Checked
  import So3
  import Se3

  datatype TangentAndTheta = TangentAndTheta(tangent: Vec3, theta: real)

  function SquaredVec(q: Quaternion): real {
    SquaredNorm(q.Vec())
  }

  /** The logarithm of a unit quaternion. `n` is the norm of its vector part and `atan` the
      two-argument arctangent of (n, w), or of (-n, -w) when w is negative. */
  function LogAndTheta(q: Quaternion, n: real, atan: real): Checked<TangentAndTheta>
    requires Prod(n, n) == SquaredVec(q)
  {
    if SquaredVec(q) < EPSILON * EPSILON then
      if -EPSILON < q.w < EPSILON then Abort
      else
        NonzeroCube(q.w);
        var squaredW := Prod(q.w, q.w);
        var factor := Quotient(2.0, q.w) - Quotient(2.0 / 3.0 * SquaredVec(q), Prod(q.w, squaredW));
        Pass(TangentAndTheta(Scale(factor, q.Vec()), Quotient(2.0 * SquaredVec(q), q.w)))
    else
      NonzeroRoot(n);
      var factor := Quotient(2.0 * atan, n);
      Pass(TangentAndTheta(Scale(factor, q.Vec()), Prod(factor, n)))
  }

  lemma NonzeroCube(w: real)
    requires w != 0.0
    ensures Prod(w, Prod(w, w)) != 0.0
  {
    NonzeroProd(w, w);
    NonzeroProd(w, Prod(w, w));
  }

  lemma NonzeroRoot(n: real)
    requires Prod(n, n) >= EPSILON * EPSILON
    ensures n != 0.0
  {}

  /** What the two-argument arctangent satisfies on the unit circle: `atan` is an angle in
      (-pi/2, pi/2] with the sine and cosine +-(n, w), the sign being that of w, and an angle
      is at least as large as its sine. */
  predicate IsArcTangent(q: Quaternion, n: real, atan: real, sinAtan: real, cosAtan: real) {
    && (if q.w < 0.0 then atan <= -n && sinAtan == -n && cosAtan == -q.w else atan >= n && sinAtan == n && cosAtan == q.w)
  }

  /** So exp takes its closed form wherever log does. */
  lemma ArcTangentIsRegular(q: Quaternion, n: real, atan: real, sinAtan: real, cosAtan: real)
    requires n > 0.0 && Prod(n, n) >= EPSILON * EPSILON && IsArcTangent(q, n, atan, sinAtan, cosAtan)
    ensures So3.Regular(2.0 * atan)
  {}

  /** The norm of the rotation vector that log returns. */
  function RotationAngle(atan: real): real {
    if atan < 0.0 then -2.0 * atan else 2.0 * atan
  }

  /** exp(log q) is q, or -q, which is the same rotation, when w is negative. The angle log
      reports is the norm of its result if and only if w is not negative. */
  lemma ExpOfLog(q: Quaternion, n: real, atan: real, sinAtan: real, cosAtan: real)
    requires q.SquaredNorm() == 1.0 && n > 0.0 && Prod(n, n) == SquaredVec(q) >= EPSILON * EPSILON
    requires IsArcTangent(q, n, atan, sinAtan, cosAtan)
    ensures
      var r := LogAndTheta(q, n, atan);
      var norm := RotationAngle(atan);
      var sinHalf := if atan < 0.0 then -sinAtan else sinAtan;
      && r.Pass? && norm > 0.0 && norm * norm == SquaredNorm(r.value.tangent)
      && So3.ExpAndTheta(r.value.tangent, norm, sinHalf, cosAtan).0 == (if q.w < 0.0 then q.Times(-1.0) else q)
      && (r.value.theta == norm <==> q.w >= 0.0)
  {
    var norm := RotationAngle(atan);
    var f := Quotient(2.0 * atan, n);
    ArcTangentIsRegular(q, n, atan, sinAtan, cosAtan);
    LogNorm(q.Vec(), n, 2.0 * atan, f);
    SquareOf(norm, 2.0 * atan);
    ClosedExp(Scale(f, q.Vec()), norm, n, cosAtan);
    var g := Quotient(n, norm);
    LogScale(q.Vec(), n, norm, f, g, if atan < 0.0 then -1.0 else 1.0);
    hide Prod, Quotient, Scale, Quaternion.Times, SquaredNorm, Quaternion.SquaredNorm, So3.ExpAndTheta, So3.Regular;
    TimesSign(q);
    VecOf(q, Scale(g, Scale(f, q.Vec())));
  }

  lemma TimesSign(q: Quaternion)
    ensures q.Times(-1.0) == Quaternion(-q.w, -q.x, -q.y, -q.z)
  {}

  lemma VecOf(q: Quaternion, v: Vec3)
    ensures q.Vec() == Vec3(q.x, q.y, q.z)
  {}

  lemma SquareOf(norm: real, x: real)
    requires norm == x || norm == -x
    ensures Prod(norm, norm) == Prod(x, x) && (So3.Regular(x) <==> So3.Regular(norm))
  {}

  /** |f v|^2 = x^2 when f = x / |v|. */
  lemma LogNorm(v: Vec3, n: real, x: real, f: real)
    requires n != 0.0 && Prod(n, n) == SquaredNorm(v) && Prod(f, n) == x
    ensures SquaredNorm(Scale(f, v)) == Prod(x, x)
  {}

  lemma ClosedExp(omega: Vec3, theta: real, s: real, c: real)
    requires theta * theta == SquaredNorm(omega) && So3.Regular(theta) && theta != 0.0
    ensures var v := Scale(Quotient(s, theta), omega); So3.ExpAndTheta(omega, theta, s, c).0 == Quaternion(c, v.x, v.y, v.z)
  {}

  lemma LogScale(v: Vec3, n: real, norm: real, f: real, g: real, sign: real)
    requires norm != 0.0 && Prod(f, n) == Prod(sign, norm) && Prod(g, norm) == n
    ensures Scale(g, Scale(f, v)) == Scale(sign, v)
  {
    hide Prod;
    PFactor(f, g, n, norm, sign);
    PAssoc(g, f, v.x);
    PAssoc(g, f, v.y);
    PAssoc(g, f, v.z);
    PCancel(norm, Prod(g, f), sign);
  }

  lemma PFactor(f: real, g: real, n: real, norm: real, sign: real)
    ensures Prod(norm, Prod(g, f)) == Prod(f, Prod(g, norm)) && Prod(norm, sign) == Prod(sign, norm)
  {}

  // ----- log after exp -----

  /** log(exp omega) = omega for angles up to pi, where the arctangent of the half angle's sine
      and cosine is the half angle; the reported angle is the norm. */
  lemma LogOfExp(omega: Vec3, theta: real, s: real, c: real)
    requires theta * theta == SquaredNorm(omega) && theta > 0.0 && So3.Regular(theta)
    requires s * s + c * c == 1.0 && s > 0.0 && s * s >= EPSILON * EPSILON && c >= 0.0
    ensures var q := So3.ExpAndTheta(omega, theta, s, c).0;
            Prod(s, s) == SquaredVec(q) && LogAndTheta(q, s, 0.5 * theta) == Pass(TangentAndTheta(omega, theta))
  {
    var f := Quotient(s, theta);
    var q := So3.ExpAndTheta(omega, theta, s, c).0;
    ClosedExp(omega, theta, s, c);
    VecIs(q, Scale(f, omega));
    LogNorm(omega, theta, s, f);
    var g := Quotient(2.0 * (0.5 * theta), s);
    LogScale(omega, theta, s, f, g, 1.0);
    UnitSign(s, theta, omega);
    hide Prod, Quotient, Scale, SquaredNorm, So3.ExpAndTheta, Quaternion.Vec;
  }

  lemma VecIs(q: Quaternion, v: Vec3)
    ensures Vec3(q.x, q.y, q.z) == v ==> q.Vec() == v
  {}

  lemma UnitSign(s: real, theta: real, v: Vec3)
    ensures Prod(1.0, s) == s && Scale(1.0, v) == v && 2.0 * (0.5 * theta) == theta
  {}

  /** The logarithm of SE3; `sinHalf` and `cosHalf` belong to half the reported angle. */
  function Log(a: Se3.Pose, n: real, atan: real, sinHalf: real, cosHalf: real): Checked<Se3.Twist>
    requires Prod(n, n) == SquaredVec(a.q) && sinHalf != 0.0
  {
    match LogAndTheta(a.q, n, atan)
    case Pass(r) =>
      var vInv := So3.LeftJacobianInverse(r.tangent, r.theta, sinHalf, cosHalf);
      Pass(Se3.Twist(Apply(vInv, a.t), r.tangent))
    case Abort => Abort
  }

  /** The sign of the reported angle does not matter to the inverse Jacobian. */
  lemma InverseJacobianIsEven(omega: Vec3, theta: real, sinHalf: real, cosHalf: real)
    requires So3.Regular(theta) && sinHalf != 0.0
    ensures So3.LeftJacobianInverse(omega, theta, sinHalf, cosHalf) == So3.LeftJacobianInverse(omega, -theta, -sinHalf, cosHalf)
  {
    NonzeroSquare(theta);
    EvenQuotient(theta, sinHalf, cosHalf);
    hide Hat, MatScale, MatAdd, MatSub, Mul;
  }

  lemma EvenQuotient(theta: real, s: real, c: real)
    requires s != 0.0
    ensures (-theta) * (-theta) == theta * theta
    ensures 0.5 * (-theta) * c / (-s) == 0.5 * theta * c / s
  {}

  // ----- exp after log -----

  /** exp(log A) = A on SE3, up to the sign of the quaternion, which is no part of the motion.
      Log works with the angle it reports, 2 atan; exp with the norm of the rotation vector. */
  lemma Se3ExpOfLog(a: Se3.Pose, n: real, atan: real, sinAtan: real, cosAtan: real, sine: real, cosine: real, norm: real)
    requires norm == RotationAngle(atan)
    requires a.q.SquaredNorm() == 1.0 && n > 0.0 && Prod(n, n) == SquaredVec(a.q) >= EPSILON * EPSILON
    requires IsArcTangent(a.q, n, atan, sinAtan, cosAtan) && HalfAngle(n, cosAtan, sine, cosine)
    ensures
      var r := Log(a, n, atan, sinAtan, cosAtan);
      && r.Pass? && norm * norm == SquaredNorm(r.value.omega)
      && Se3.Exp(r.value, norm, n, cosAtan, sine, cosine) == Se3.Pose(if a.q.w < 0.0 then a.q.Times(-1.0) else a.q, a.t)
  {
    hide Prod, HalfAngle, IsArcTangent, SquaredNorm, SquaredVec, Apply, Scale, LogAndTheta, RotationAngle, So3.ExpAndTheta, So3.LeftJacobianInverse,
         Se3.Exp, So3.Regular, Quaternion.SquaredNorm, Quaternion.Times;
    ExpOfLog(a.q, n, atan, sinAtan, cosAtan);
    var r := LogAndTheta(a.q, n, atan).value;
    ArcTangentIsRegular(a.q, n, atan, sinAtan, cosAtan);
    ReportedAngle(a.q, n, atan);
    RotationSigns(a.q, n, atan, sinAtan, cosAtan);
    EvenInverse(r.tangent, norm, 2.0 * atan, n, sinAtan, cosAtan);
    TranslationBack(r.tangent, a.t, norm, n, cosAtan, sine, cosine);
  }

  lemma RotationSigns(q: Quaternion, n: real, atan: real, sinAtan: real, cosAtan: real)
    requires n > 0.0 && IsArcTangent(q, n, atan, sinAtan, cosAtan)
    ensures sinAtan != 0.0 && n == if atan < 0.0 then -sinAtan else sinAtan
    ensures RotationAngle(atan) == if atan < 0.0 then -(2.0 * atan) else 2.0 * atan
  {}

  lemma TranslationBack(omega: Vec3, t: Vec3, theta: real, s: real, c: real, sine: real, cosine: real)
    requires HalfAngle(s, c, sine, cosine) && So3.Regular(theta) && s != 0.0 && theta * theta == SquaredNorm(omega)
    ensures Se3.Exp(Se3.Twist(Apply(So3.LeftJacobianInverse(omega, theta, s, c), t), omega), theta, s, c, sine, cosine)
         == Se3.Pose(So3.ExpAndTheta(omega, theta, s, c).0, t)
  {
    hide Prod, SquaredNorm, Apply, Mul, So3.ExpAndTheta, So3.LeftJacobian, So3.LeftJacobianInverse, Se3.Exp, So3.Regular;
    So3.JacobianInverse(omega, theta, s, c, sine, cosine);
    ApplyMul(So3.LeftJacobian(omega, theta, sine, cosine), So3.LeftJacobianInverse(omega, theta, s, c), t);
    ApplyIdentity(t);
    Se3.ExpParts(Se3.Twist(Apply(So3.LeftJacobianInverse(omega, theta, s, c), t), omega), theta, s, c, sine, cosine);
  }

  lemma ReportedAngle(q: Quaternion, n: real, atan: real)
    requires n > 0.0 && Prod(n, n) == SquaredVec(q) >= EPSILON * EPSILON
    ensures LogAndTheta(q, n, atan).Pass? && LogAndTheta(q, n, atan).value.theta == 2.0 * atan
  {}

  lemma EvenInverse(omega: Vec3, norm: real, theta: real, sinNorm: real, sinTheta: real, cosHalf: real)
    requires So3.Regular(theta) && sinTheta != 0.0
    requires (norm == theta && sinNorm == sinTheta) || (norm == -theta && sinNorm == -sinTheta)
    ensures So3.Regular(norm) && sinNorm != 0.0
    ensures So3.LeftJacobianInverse(omega, norm, sinNorm, cosHalf) == So3.LeftJacobianInverse(omega, theta, sinTheta, cosHalf)
  {
    SquareOf(norm, theta);
    InverseJacobianIsEven(omega, theta, sinTheta, cosHalf);
    hide So3.LeftJacobianInverse, So3.Regular;
  }
}
