/** Derivatives with respect to the stored parameters: Dx_this_mul_exp_x_at_0 and
    Dx_log_this_inv_by_x_at_this of every group, which are the Jacobians of the Ceres manifold. */
module ParameterDerivatives {
  import opened Linear
  import opened Quaternions
  import opened Planar
  import RxSo2
  import RxSo3
  import Se3
  import Sim3

  // ----- SO3: coefficients in the order x, y, z, w -----

  datatype Vec4 = Vec4(x: real, y: real, z: real, w: real)

  /** A 4x3 matrix, by rows. */
  datatype Mat43 = Mat43(r0: Vec3, r1: Vec3, r2: Vec3, r3: Vec3)

  /** A 3x4 matrix, by rows. */
  datatype Mat34 = Mat34(r0: Vec4, r1: Vec4, r2: Vec4)

  function Dot4(a: Vec4, b: Vec4): real {
    Prod(a.x, b.x) + Prod(a.y, b.y) + Prod(a.z, b.z) + Prod(a.w, b.w)
  }

  function Apply43(m: Mat43, v: Vec3): Vec4 {
    Vec4(Dot(m.r0, v), Dot(m.r1, v), Dot(m.r2, v), Dot(m.r3, v))
  }

  function Apply34(m: Mat34, v: Vec4): Vec3 {
    Vec3(Dot4(m.r0, v), Dot4(m.r1, v), Dot4(m.r2, v))
  }

  function Coefficients(q: Quaternion): Vec4 {
    Vec4(q.x, q.y, q.z, q.w)
  }

  function MulExpSo3(q: Quaternion): Mat43 {
    var c0, c1, c3, c4 := 0.5 * q.w, 0.5 * q.z, 0.5 * q.y, 0.5 * q.x;
    Mat43(Vec3(c0, -c1, c3), Vec3(c1, c0, -c4), Vec3(-c3, c4, c0), Vec3(-c4, -c3, -c1))
  }

  function LogInvSo3(q: Quaternion): Mat34 {
    Mat34(Vec4(2.0 * q.w, 2.0 * q.z, 2.0 * -q.y, 2.0 * -q.x),
          Vec4(2.0 * -q.z, 2.0 * q.w, 2.0 * q.x, 2.0 * -q.y),
          Vec4(2.0 * q.y, 2.0 * -q.x, 2.0 * q.w, 2.0 * -q.z))
  }

  /** The first matrix is the derivative of q exp(v), whose quaternion starts q (1, v/2). */
  lemma MulExpIsProduct(q: Quaternion, v: Vec3)
    ensures Apply43(MulExpSo3(q), v) == Coefficients(QuaternionProduct(q, Pure(Scale(0.5, v))))
  {
    PMulExp(q.w, q.x, q.y, q.z, v.x, v.y, v.z);
    ProductEntries(q, Pure(Scale(0.5, v)));
    POnes(q.w);
    POnes(q.x);
    POnes(q.y);
    POnes(q.z);
    hide Prod, QuaternionProduct;
  }

  lemma PMulExp(w: real, x: real, y: real, z: real, a: real, b: real, c: real)
    ensures Prod(0.5 * w, a) + Prod(-(0.5 * z), b) + Prod(0.5 * y, c) == Prod(w, Prod(0.5, a)) + Prod(y, Prod(0.5, c)) - Prod(z, Prod(0.5, b))
    ensures Prod(0.5 * z, a) + Prod(0.5 * w, b) + Prod(-(0.5 * x), c) == Prod(w, Prod(0.5, b)) + Prod(z, Prod(0.5, a)) - Prod(x, Prod(0.5, c))
    ensures Prod(-(0.5 * y), a) + Prod(0.5 * x, b) + Prod(0.5 * w, c) == Prod(w, Prod(0.5, c)) + Prod(x, Prod(0.5, b)) - Prod(y, Prod(0.5, a))
    ensures Prod(-(0.5 * x), a) + Prod(-(0.5 * y), b) + Prod(-(0.5 * z), c) == -Prod(x, Prod(0.5, a)) - Prod(y, Prod(0.5, b)) - Prod(z, Prod(0.5, c))
  {}

  /** The derivative of log(q^-1 p) along the coefficients of p, at p = q: twice the vector
      part of conj(q) p. */
  lemma LogInvIsProduct(q: Quaternion, p: Quaternion)
    ensures Apply34(LogInvSo3(q), Coefficients(p)) == Scale(2.0, QuaternionProduct(q.Conjugate(), p).Vec())
  {
    PLogInv(q.w, q.x, q.y, q.z, p.w, p.x, p.y, p.z);
    ProductEntries(q.Conjugate(), p);
    hide Prod, QuaternionProduct;
  }

  lemma PLogInv(w: real, x: real, y: real, z: real, d: real, a: real, b: real, c: real)
    ensures Prod(2.0 * w, a) + Prod(2.0 * z, b) + Prod(2.0 * -y, c) + Prod(2.0 * -x, d)
         == Prod(2.0, Prod(w, a) + Prod(-x, d) + Prod(-y, c) - Prod(-z, b))
    ensures Prod(2.0 * -z, a) + Prod(2.0 * w, b) + Prod(2.0 * x, c) + Prod(2.0 * -y, d)
         == Prod(2.0, Prod(w, b) + Prod(-y, d) + Prod(-z, a) - Prod(-x, c))
    ensures Prod(2.0 * y, a) + Prod(2.0 * -x, b) + Prod(2.0 * w, c) + Prod(2.0 * -z, d)
         == Prod(2.0, Prod(w, c) + Prod(-z, d) + Prod(-x, b) - Prod(-y, a))
  {}

  /** The two derivatives compose to |q|^2 times the identity, so to the identity on SO3. */
  lemma DerivativePairSo3(q: Quaternion, v: Vec3)
    ensures Apply34(LogInvSo3(q), Apply43(MulExpSo3(q), v)) == Scale(q.SquaredNorm(), v)
  {
    var p := QuaternionProduct(q, Pure(Scale(0.5, v)));
    MulExpIsProduct(q, v);
    LogInvIsProduct(q, p);
    ProductAssoc(q.Conjugate(), q, Pure(Scale(0.5, v)));
    ProductConjugate(q);
    ProductReal(q.SquaredNorm(), Pure(Scale(0.5, v)));
    PDoubleHalf(q.SquaredNorm(), v.x);
    PDoubleHalf(q.SquaredNorm(), v.y);
    PDoubleHalf(q.SquaredNorm(), v.z);
    hide Prod, Apply34, Apply43, LogInvSo3, MulExpSo3, QuaternionProduct, Quaternion.SquaredNorm, Quaternion.Conjugate;
  }

  lemma PDoubleHalf(s: real, x: real)
    ensures Prod(2.0, Prod(s, Prod(0.5, x))) == Prod(s, x)
  {}

  // ----- SE3 -----

  /** A tangent vector of SE3 as seven stored parameters: quaternion, then translation. */
  datatype Parameters = Parameters(coefficients: Vec4, translation: Vec3)

  /** The rows 4 to 6 of the source's 7x6 matrix spell out the rotation matrix. */
  function MulExpSe3(a: Se3.Pose, x: Se3.Twist): Parameters {
    var q := a.q;
    var c7, c8, c9, c11 := Prod(q.w, q.w), Prod(q.x, q.x), Prod(q.y, q.y), Prod(q.z, q.z);
    var c13 := 2.0 * q.w;
    var c14 := Prod(c13, q.z);
    var c15 := 2.0 * q.x;
    var c16 := Prod(c15, q.y);
    var c17 := Prod(c13, q.y);
    var c18 := Prod(c15, q.z);
    var c19 := c7 - c8;
    var c20 := Prod(c13, q.x);
    var c21 := Prod(2.0 * q.y, q.z);
    var rows := Mat3(Vec3(-c9 - c11 + c7 + c8, -c14 + c16, c17 + c18),
                     Vec3(c14 + c16, -c11 + c19 + c9, -c20 + c21),
                     Vec3(-c17 + c18, c20 + c21, -c9 + c11 + c19));
    Parameters(Apply43(MulExpSo3(q), x.omega), Apply(rows, x.upsilon))
  }

  function LogInvSe3(a: Se3.Pose, p: Parameters): Se3.Twist {
    Se3.Twist(Apply(Matrix(a.q.Conjugate()), p.translation), Apply34(LogInvSo3(a.q), p.coefficients))
  }

  lemma RowsAreMatrix(q: Quaternion)
    ensures Matrix(q).r0 == Vec3(-Prod(q.y, q.y) - Prod(q.z, q.z) + Prod(q.w, q.w) + Prod(q.x, q.x),
                                 -Prod(2.0 * q.w, q.z) + Prod(2.0 * q.x, q.y), Prod(2.0 * q.w, q.y) + Prod(2.0 * q.x, q.z))
    ensures Matrix(q).r1 == Vec3(Prod(2.0 * q.w, q.z) + Prod(2.0 * q.x, q.y),
                                 -Prod(q.z, q.z) + (Prod(q.w, q.w) - Prod(q.x, q.x)) + Prod(q.y, q.y), -Prod(2.0 * q.w, q.x) + Prod(2.0 * q.y, q.z))
    ensures Matrix(q).r2 == Vec3(-Prod(2.0 * q.w, q.y) + Prod(2.0 * q.x, q.z), Prod(2.0 * q.w, q.x) + Prod(2.0 * q.y, q.z),
                                 -Prod(q.y, q.y) + Prod(q.z, q.z) + (Prod(q.w, q.w) - Prod(q.x, q.x)))
  {
    MatrixEntries(q);
    PTwiceProduct(q.w, q.z);
    PTwiceProduct(q.x, q.y);
    PTwiceProduct(q.w, q.y);
    PTwiceProduct(q.x, q.z);
    PTwiceProduct(q.w, q.x);
    PTwiceProduct(q.y, q.z);
    hide Prod, Matrix;
  }

  lemma PTwiceProduct(a: real, b: real)
    ensures Prod(2.0 * a, b) == 2.0 * Prod(a, b) == 2.0 * Prod(b, a)
  {}

  lemma DerivativePairSe3(a: Se3.Pose, x: Se3.Twist)
    requires a.q.SquaredNorm() == 1.0
    ensures LogInvSe3(a, MulExpSe3(a, x)) == x
  {
    DerivativePairSo3(a.q, x.omega);
    ScaleOne(x.omega);
    RowsAreMatrix(a.q);
    InverseMatrix(a.q, x.upsilon);
    hide Prod, Matrix, Apply, Apply34, Apply43, LogInvSo3, MulExpSo3, Scale, Quaternion.SquaredNorm, Quaternion.Conjugate;
  }

  lemma InverseMatrix(q: Quaternion, v: Vec3)
    requires q.SquaredNorm() == 1.0
    ensures Apply(Matrix(q.Conjugate()), Apply(Matrix(q), v)) == v
  {
    ProductConjugate(q);
    ActionProduct(q.Conjugate(), q, v);
    MatrixReal(1.0);
    hide Matrix, QuaternionProduct, Quaternion.SquaredNorm, Quaternion.Conjugate;
  }

  // ----- RxSO3 and Sim3 -----

  function MulExpRxSo3(q: Quaternion, x: RxSo3.Tangent): Vec4 {
    var r := Apply43(MulExpSo3(q), x.omega);
    Vec4(r.x + Prod(0.5 * q.x, x.sigma), r.y + Prod(0.5 * q.y, x.sigma), r.z + Prod(0.5 * q.z, x.sigma), r.w + Prod(0.5 * q.w, x.sigma))
  }

  function LogInvRxSo3(q: Quaternion, p: Vec4): RxSo3.Tangent
    requires q.SquaredNorm() != 0.0
  {
    var scaler := Quotient(2.0, q.SquaredNorm());
    var r0, r1, r2 := Vec4(q.w, q.z, -q.y, -q.x), Vec4(-q.z, q.w, q.x, -q.y), Vec4(q.y, -q.x, q.w, -q.z);
    RxSo3.Tangent(Vec3(Prod(scaler, Dot4(r0, p)), Prod(scaler, Dot4(r1, p)), Prod(scaler, Dot4(r2, p))), Prod(scaler, Dot4(Coefficients(q), p)))
  }

  /** The quaternion with which q exp(x) = q (1 + Half(x)) to first order. */
  function Half(x: RxSo3.Tangent): Quaternion {
    Sum(Real(0.5 * x.sigma), Pure(Scale(0.5, x.omega)))
  }

  lemma MulExpRxIsProduct(q: Quaternion, x: RxSo3.Tangent)
    ensures MulExpRxSo3(q, x) == Coefficients(QuaternionProduct(q, Half(x)))
  {
    MulExpIsProduct(q, x.omega);
    ProductSum(q, Real(0.5 * x.sigma), Pure(Scale(0.5, x.omega)));
    ProductReal(0.5 * x.sigma, q);
    PHalfSigma(q.x, x.sigma);
    PHalfSigma(q.y, x.sigma);
    PHalfSigma(q.z, x.sigma);
    PHalfSigma(q.w, x.sigma);
    hide Prod, QuaternionProduct, Apply43, MulExpSo3, Scale;
  }

  lemma PHalfSigma(x: real, s: real)
    ensures Prod(0.5 * x, s) == Prod(0.5 * s, x)
  {}

  lemma LogInvRxIsProduct(q: Quaternion, p: Quaternion)
    requires q.SquaredNorm() != 0.0
    ensures var r := QuaternionProduct(q.Conjugate(), p);
            LogInvRxSo3(q, Coefficients(p))
            == RxSo3.Tangent(Scale(Quotient(2.0, q.SquaredNorm()), r.Vec()), Prod(Quotient(2.0, q.SquaredNorm()), r.w))
  {
    ProductEntries(q.Conjugate(), p);
    PSigns(q.x, p.x, p.y, p.z, p.w);
    PSigns(q.y, p.x, p.y, p.z, p.w);
    PSigns(q.z, p.x, p.y, p.z, p.w);
    hide Prod, Quotient, QuaternionProduct, Quaternion.SquaredNorm;
  }

  lemma PSigns(x: real, a: real, b: real, c: real, d: real)
    ensures Prod(-x, a) == -Prod(x, a) && Prod(-x, b) == -Prod(x, b) && Prod(-x, c) == -Prod(x, c) && Prod(-x, d) == -Prod(x, d)
  {}

  lemma DerivativePairRxSo3(q: Quaternion, x: RxSo3.Tangent)
    requires q.SquaredNorm() != 0.0
    ensures LogInvRxSo3(q, MulExpRxSo3(q, x)) == x
  {
    var n, p := q.SquaredNorm(), QuaternionProduct(q, Half(x));
    MulExpRxIsProduct(q, x);
    LogInvRxIsProduct(q, p);
    ProductAssoc(q.Conjugate(), q, Half(x));
    ProductConjugate(q);
    ProductReal(n, Half(x));
    PScaler(Quotient(2.0, n), n, x.omega.x);
    PScaler(Quotient(2.0, n), n, x.omega.y);
    PScaler(Quotient(2.0, n), n, x.omega.z);
    PScaler(Quotient(2.0, n), n, x.sigma);
    HalfParts(x);
    hide Prod, Quotient, Half, MulExpRxSo3, LogInvRxSo3, QuaternionProduct, Quaternion.SquaredNorm, Quaternion.Conjugate;
  }

  lemma HalfParts(x: RxSo3.Tangent)
    ensures Half(x) == Quaternion(Prod(0.5, x.sigma), Prod(0.5, x.omega.x), Prod(0.5, x.omega.y), Prod(0.5, x.omega.z))
  {}

  lemma PScaler(s: real, n: real, x: real)
    requires Prod(s, n) == 2.0
    ensures Prod(s, Prod(n, Prod(0.5, x))) == x
  {}

  function MulExpSim3(q: Quaternion, x: Sim3.Twist): Parameters {
    Parameters(MulExpRxSo3(q, RxSo3.Tangent(x.omega, x.sigma)), Apply(Matrix(q), x.upsilon))
  }

  function LogInvSim3(q: Quaternion, p: Parameters): Sim3.Twist
    requires q.SquaredNorm() != 0.0
  {
    var inverse := q.Conjugate().Times(1.0 / q.SquaredNorm());
    var rotation := LogInvRxSo3(q, p.coefficients);
    Sim3.Twist(Apply(Matrix(inverse), p.translation), rotation.omega, rotation.sigma)
  }

  lemma DerivativePairSim3(q: Quaternion, x: Sim3.Twist)
    requires q.SquaredNorm() != 0.0
    ensures LogInvSim3(q, MulExpSim3(q, x)) == x
  {
    DerivativePairRxSo3(q, RxSo3.Tangent(x.omega, x.sigma));
    ScaledInverseMatrix(q, x.upsilon);
    hide Prod, Matrix, Apply, MulExpRxSo3, LogInvRxSo3, Quaternion.SquaredNorm, Quaternion.Times, Quaternion.Conjugate;
  }

  lemma ScaledInverseMatrix(q: Quaternion, v: Vec3)
    requires q.SquaredNorm() != 0.0
    ensures Apply(Matrix(q.Conjugate().Times(1.0 / q.SquaredNorm())), Apply(Matrix(q), v)) == v
  {
    var inverse := q.Conjugate().Times(1.0 / q.SquaredNorm());
    Sim3.InverseQuaternion(q);
    ActionProduct(inverse, q, v);
    Sim3.UnitMatrix();
    ApplyIdentity(v);
    hide *;
  }

  // ----- the plane -----

  /** SO2 and SE2: the angle moves the stored number along (-y, x). */
  function MulExpSe2(z: Vec2, upsilon: Vec2, theta: real): (Vec2, Vec2) {
    (Vec2(Prod(-z.y, theta), Prod(z.x, theta)), Vec2(Prod(z.x, upsilon.x) + Prod(-z.y, upsilon.y), Prod(z.y, upsilon.x) + Prod(z.x, upsilon.y)))
  }

  function LogInvSe2(z: Vec2, p: (Vec2, Vec2)): (Vec2, real) {
    (Planar.Times(Conjugate(z), p.1), Prod(-z.y, p.0.x) + Prod(z.x, p.0.y))
  }

  lemma DerivativePairSe2(z: Vec2, upsilon: Vec2, theta: real)
    requires Norm2(z) == 1.0
    ensures LogInvSe2(z, MulExpSe2(z, upsilon, theta)) == (upsilon, theta)
  {
    MulExpIsProductSe2(z, upsilon, theta);
    PAngle(z.x, z.y, theta);
    ConjugateTimes(z);
    TimesSym(z, Conjugate(z));
    TimesAssoc(Conjugate(z), z, upsilon);
    Planar.TimesOne(upsilon);
    POnes(theta);
    hide Prod, Planar.Times, Conjugate;
  }

  /** The first matrix is the derivative of the product with exp: the angle turns the stored number by
      (0, theta), as complex numbers. */
  lemma MulExpIsProductSe2(z: Vec2, upsilon: Vec2, theta: real)
    ensures MulExpSe2(z, upsilon, theta) == (Planar.Times(z, Vec2(0.0, theta)), Planar.Times(z, upsilon))
  {
    PNegated(z.y, theta);
    PNegated(z.y, upsilon.y);
    POnes(z.x);
    POnes(z.y);
    hide Prod;
  }

  /** The second is the derivative of log(z^-1 p): its angle is the imaginary part of conj(z) p. */
  lemma LogInvIsProductSe2(z: Vec2, p: (Vec2, Vec2))
    ensures LogInvSe2(z, p) == (Planar.Times(Conjugate(z), p.1), Planar.Times(Conjugate(z), p.0).y)
  {}

  lemma PAngle(x: real, y: real, theta: real)
    ensures Prod(-y, Prod(-y, theta)) + Prod(x, Prod(x, theta)) == Prod(Prod(x, x) + Prod(y, y), theta)
  {}

  /** RxSO2 and Sim2: rows (-y, x) and (x, y), divided by the squared norm on the way back. */
  function MulExpSim2(z: Vec2, upsilon: Vec2, theta: real, sigma: real): (Vec2, Vec2) {
    (Vec2(Prod(-z.y, theta) + Prod(z.x, sigma), Prod(z.x, theta) + Prod(z.y, sigma)), Planar.Times(z, upsilon))
  }

  function LogInvSim2(z: Vec2, p: (Vec2, Vec2)): (Vec2, Vec2)
    requires Norm2(z) != 0.0
  {
    var inverse := Quotient(1.0, Norm2(z));
    (Planar.Times(Conjugate(Scale2(inverse, z)), p.1),
     Vec2(Prod(inverse, Prod(-z.y, p.0.x) + Prod(z.x, p.0.y)), Prod(inverse, Prod(z.x, p.0.x) + Prod(z.y, p.0.y))))
  }

  lemma DerivativePairSim2(z: Vec2, upsilon: Vec2, theta: real, sigma: real)
    requires Norm2(z) != 0.0
    ensures LogInvSim2(z, MulExpSim2(z, upsilon, theta, sigma)) == (upsilon, Vec2(theta, sigma))
  {
    hide Prod, Quotient, Planar.Times, Conjugate, Scale2, Norm2;
    var n := Norm2(z);
    var i := Quotient(1.0, n);
    NormIs(z);
    PPolar(z.x, z.y, theta, sigma, n);
    PUndo(i, n, theta);
    PUndo(i, n, sigma);
    RxSo2.ConjugateScale(i, z);
    ConjugateTimes(z);
    TimesScale(i, z, Conjugate(z));
    TimesSym(z, Conjugate(Scale2(i, z)));
    RxSo2.ScaleReal(i, n);
    TimesAssoc(Conjugate(Scale2(i, z)), z, upsilon);
    Planar.TimesOne(upsilon);
  }

  /** Here the stored number is multiplied by (sigma, theta). */
  lemma MulExpIsProductSim2(z: Vec2, upsilon: Vec2, theta: real, sigma: real)
    ensures MulExpSim2(z, upsilon, theta, sigma) == (Planar.Times(z, Vec2(sigma, theta)), Planar.Times(z, upsilon))
  {
    PNegated(z.y, theta);
    hide Prod;
  }

  /** Every change of the stored parameters is the one that its image under the second matrix makes. */
  lemma LogInvIsProductSim2(z: Vec2, p: (Vec2, Vec2))
    requires Norm2(z) != 0.0
    ensures var x := LogInvSim2(z, p); MulExpSim2(z, x.0, x.1.x, x.1.y) == p
  {
    var n, i, x := Norm2(z), Quotient(1.0, Norm2(z)), LogInvSim2(z, p);
    MulExpIsProductSim2(z, x.0, x.1.x, x.1.y);
    LogInvForm(z, p);
    RxSo2.ConjugateScale(i, z);
    ConjugateTimes(z);
    TimesScale(i, z, Conjugate(z));
    RxSo2.ScaleReal(i, n);
    TimesAssoc(z, Scale2(i, Conjugate(z)), p.0);
    TimesAssoc(z, Scale2(i, Conjugate(z)), p.1);
    Planar.TimesOne(p.0);
    Planar.TimesOne(p.1);
    hide Prod, Quotient, Planar.Times, Conjugate, Scale2, Norm2, LogInvSim2, MulExpSim2;
  }

  lemma LogInvForm(z: Vec2, p: (Vec2, Vec2))
    requires Norm2(z) != 0.0
    ensures var x, c := LogInvSim2(z, p), Conjugate(Scale2(Quotient(1.0, Norm2(z)), z));
            x.0 == Planar.Times(c, p.1) && Vec2(x.1.y, x.1.x) == Planar.Times(c, p.0)
  {
    var i := Quotient(1.0, Norm2(z));
    PScaledRow(i, z.x, p.0.x, z.y, p.0.y);
    PScaledRow(i, z.x, p.0.y, -z.y, p.0.x);
    PNegated(z.y, p.0.x);
    PNegated(Prod(i, z.y), p.0.x);
    PNegated(Prod(i, z.y), p.0.y);
    PNegated(i, z.y);
    hide Prod, Quotient, Norm2;
  }

  lemma PScaledRow(i: real, a: real, x: real, b: real, y: real)
    ensures Prod(i, Prod(a, x) + Prod(b, y)) == Prod(Prod(i, a), x) + Prod(Prod(i, b), y)
  {}

  lemma NormIs(z: Vec2)
    ensures Norm2(z) == Prod(z.x, z.x) + Prod(z.y, z.y)
  {}

  lemma PPolar(x: real, y: real, theta: real, sigma: real, n: real)
    requires n == Prod(x, x) + Prod(y, y)
    ensures Prod(-y, Prod(-y, theta) + Prod(x, sigma)) + Prod(x, Prod(x, theta) + Prod(y, sigma)) == Prod(n, theta)
    ensures Prod(x, Prod(-y, theta) + Prod(x, sigma)) + Prod(y, Prod(x, theta) + Prod(y, sigma)) == Prod(n, sigma)
  {}

  lemma PUndo(i: real, n: real, x: real)
    requires Prod(i, n) == 1.0
    ensures Prod(i, Prod(n, x)) == x
  {}
}
