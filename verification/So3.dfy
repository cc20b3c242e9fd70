/** The rotation group SO3: exponential, logarithm and left Jacobians. */
module So3 {
  import opened Linear
  import opened Constants
  import opened Skew
  import opened Quaternions

  /** Whether exp and the Jacobians use their closed forms, not a Taylor branch. */
  predicate Regular(theta: real) {
    theta * theta >= EPSILON * EPSILON
  }

  /** The quaternion of exp(omega) and the angle it reports. `theta` is the norm of
      omega, and `sinHalf` and `cosHalf` belong to half of it. */
  function ExpAndTheta(omega: Vec3, theta: real, sinHalf: real, cosHalf: real): (Quaternion, real)
    requires theta * theta == SquaredNorm(omega)
  {
    var thetaSq := SquaredNorm(omega);
    if thetaSq < EPSILON * EPSILON then
      var thetaPo4 := thetaSq * thetaSq;
      var imagFactor := 0.5 - 1.0 / 48.0 * thetaSq + 1.0 / 3840.0 * thetaPo4;
      var realFactor := 1.0 - 1.0 / 8.0 * thetaSq + 1.0 / 384.0 * thetaPo4;
      (Quaternion(realFactor, imagFactor * omega.x, imagFactor * omega.y, imagFactor * omega.z), 0.0)
    else
      NonzeroSquare(theta);
      var imagFactor := sinHalf / theta;
      (Quaternion(cosHalf, imagFactor * omega.x, imagFactor * omega.y, imagFactor * omega.z), theta)
  }

  function LeftJacobian(omega: Vec3, theta: real, sine: real, cosine: real): Mat3 {
    var thetaSq := theta * theta;
    if thetaSq < EPSILON * EPSILON then
      MatAdd(IDENTITY, MatScale(0.5, Hat(omega)))
    else
      NonzeroSquare(theta);
      MatAdd(MatAdd(IDENTITY, MatScale((1.0 - cosine) / thetaSq, Hat(omega))),
             MatScale((theta - sine) / (thetaSq * theta), Mul(Hat(omega), Hat(omega))))
  }

  /** The source divides by sin(theta / 2): over exact reals that must not vanish. */
  function LeftJacobianInverse(omega: Vec3, theta: real, sinHalf: real, cosHalf: real): Mat3
    requires Regular(theta) ==> sinHalf != 0.0
  {
    var thetaSq := theta * theta;
    if thetaSq < EPSILON * EPSILON then
      MatAdd(MatSub(IDENTITY, MatScale(0.5, Hat(omega))), MatScale(1.0 / 12.0, Mul(Hat(omega), Hat(omega))))
    else
      NonzeroSquare(theta);
      MatAdd(MatSub(IDENTITY, MatScale(0.5, Hat(omega))),
             MatScale((1.0 - 0.5 * theta * cosHalf / sinHalf) / (theta * theta), Mul(Hat(omega), Hat(omega))))
  }

  // ----- the closed forms as polynomials in the hat matrix -----

  function ExpPoly(theta: real, sine: real, cosine: real): Poly
    requires Regular(theta)
  {
    NonzeroSquare(theta);
    Poly(1.0, sine / theta, (1.0 - cosine) / (theta * theta))
  }

  function JacobianPoly(theta: real, sine: real, cosine: real): Poly
    requires Regular(theta)
  {
    NonzeroSquare(theta);
    Poly(1.0, (1.0 - cosine) / (theta * theta), (theta - sine) / (theta * theta * theta))
  }

  function InversePoly(theta: real, sinHalf: real, cosHalf: real): Poly
    requires Regular(theta) && sinHalf != 0.0
  {
    NonzeroSquare(theta);
    Poly(1.0, -0.5, (1.0 - 0.5 * theta * cosHalf / sinHalf) / (theta * theta))
  }

  lemma InverseLinear(theta: real, s: real, c: real, n: real, alpha: real, beta: real, delta: real, g: real, h: real)
    requires theta != 0.0 && n == theta * theta
    requires alpha * n == 2.0 * s * s && g == beta * n && theta * (1.0 - g) == 2.0 * s * c
    requires h * s == 0.5 * theta * c && delta * n == 1.0 - h
    ensures -0.5 + alpha - n * (alpha * delta - 0.5 * beta) == 0.0
  {
    assert alpha * h * theta == s * c by {
      assert theta * (alpha * h * theta) == theta * (s * c) by {
        assert theta * (alpha * h * theta) == (alpha * n) * h;
        assert (2.0 * s * s) * h == 2.0 * s * (h * s);
        assert 2.0 * s * (0.5 * theta * c) == theta * (s * c);
      }
      CancelEq(theta, alpha * h * theta, s * c);
    }
    var e := -0.5 + alpha - n * (alpha * delta - 0.5 * beta);
    assert n * (alpha * delta) == alpha - alpha * h by {
      assert n * (alpha * delta) == alpha * (delta * n);
      assert alpha * (1.0 - h) == alpha - alpha * h;
    }
    assert e == -0.5 + alpha * h + 0.5 * g;
    assert theta * e == -0.5 * (theta * (1.0 - g)) + alpha * h * theta;
    Cancel(theta, e);
  }

  lemma InverseSquare(theta: real, s: real, c: real, n: real, alpha: real, beta: real, delta: real, g: real, h: real)
    requires theta != 0.0 && n != 0.0 && s * s + c * c == 1.0
    requires alpha * n == 2.0 * s * s && g == beta * n && theta * (1.0 - g) == 2.0 * s * c
    requires h * s == 0.5 * theta * c && delta * n == 1.0 - h
    ensures delta + beta - 0.5 * alpha - n * (beta * delta) == 0.0
  {
    assert h - h * g == c * c by {
      assert theta * (h * (1.0 - g)) == theta * (c * c) by {
        assert theta * (h * (1.0 - g)) == h * (theta * (1.0 - g));
        assert h * (2.0 * s * c) == 2.0 * c * (h * s);
        assert 2.0 * c * (0.5 * theta * c) == theta * (c * c);
      }
      CancelEq(theta, h * (1.0 - g), c * c);
    }
    SquareSum(n, alpha, beta, delta, g, h, s * s);
  }

  lemma SquareSum(n: real, alpha: real, beta: real, delta: real, g: real, h: real, ss: real)
    requires n != 0.0 && alpha * n == 2.0 * ss && g == beta * n && delta * n == 1.0 - h
    requires 1.0 - ss == h - h * g
    ensures delta + beta - 0.5 * alpha - n * (beta * delta) == 0.0
  {}

  // ----- the algebra of the closed forms -----

  lemma VersineFact(theta: real, cosine: real, q: real)
    requires theta * theta != 0.0 && q == (1.0 - cosine) / (theta * theta)
    ensures q * (theta * theta) == 1.0 - cosine
  {}

  /** The coefficients without their denominators. */
  lemma JacobianFacts(theta: real, sine: real, cosine: real, n: real, alpha: real, beta: real, gamma: real)
    requires Regular(theta) && n == theta * theta
    requires alpha == JacobianPoly(theta, sine, cosine).a && beta == JacobianPoly(theta, sine, cosine).b
    requires gamma == ExpPoly(theta, sine, cosine).a
    ensures theta != 0.0 && n != 0.0
    ensures alpha * n == 1.0 - cosine && theta * (1.0 - beta * n) == sine && gamma == 1.0 - beta * n
    ensures ExpPoly(theta, sine, cosine).b == alpha
  {
    NonzeroSquare(theta);
    VersineFact(theta, cosine, alpha);
    DivMul(theta - sine, theta * theta * theta, beta);
    DivMul(sine, theta, gamma);
    assert beta * (n * theta) == theta * (beta * n);
    assert theta * (1.0 - beta * n) == theta - theta * (beta * n);
    CancelEq(theta, gamma, 1.0 - beta * n);
  }

  lemma JacobianUnit(theta: real, sine: real, cosine: real)
    requires Regular(theta)
    ensures JacobianPoly(theta, sine, cosine) == Poly(1.0, JacobianPoly(theta, sine, cosine).a, JacobianPoly(theta, sine, cosine).b)
  {}

  /** R = I + W J: the Jacobian integrates the exponential. */
  lemma ExpFromJacobian(theta: real, sine: real, cosine: real, n: real)
    requires Regular(theta) && n == theta * theta
    ensures PolyTimes(n, Poly(0.0, 1.0, 0.0), JacobianPoly(theta, sine, cosine))
         == Poly(0.0, ExpPoly(theta, sine, cosine).a, ExpPoly(theta, sine, cosine).b)
  {}

  lemma InverseTimes(theta: real, s: real, c: real, sine: real, cosine: real, n: real)
    requires HalfAngle(s, c, sine, cosine) && Regular(theta) && s != 0.0 && n == theta * theta
    ensures PolyTimes(n, JacobianPoly(theta, sine, cosine), InversePoly(theta, s, c)) == ONE
  {
    var j, e := JacobianPoly(theta, sine, cosine), ExpPoly(theta, sine, cosine);
    var alpha, beta, delta := j.a, j.b, InversePoly(theta, s, c).b;
    var h := 0.5 * theta * c / s;
    var g := beta * n;
    JacobianFacts(theta, sine, cosine, n, alpha, beta, e.a);
    DivMul(0.5 * theta * c, s, h);
    DivMul(1.0 - h, theta * theta, delta);
    InverseLinear(theta, s, c, n, alpha, beta, delta, g, h);
    InverseSquare(theta, s, c, n, alpha, beta, delta, g, h);
    PInverse(n, alpha, beta, delta);
    hide Prod;
  }

  lemma PInverse(n: real, alpha: real, beta: real, delta: real)
    requires -0.5 + alpha - n * (alpha * delta - 0.5 * beta) == 0.0
    requires delta + beta - 0.5 * alpha - n * (beta * delta) == 0.0
    ensures PolyTimes(n, Poly(1.0, alpha, beta), Poly(1.0, -0.5, delta)) == ONE
  {}

  // ----- the matrices -----

  lemma JacobianMatrix(omega: Vec3, theta: real, sine: real, cosine: real)
    requires Regular(theta)
    ensures LeftJacobian(omega, theta, sine, cosine) == PolyMatrix(omega, JacobianPoly(theta, sine, cosine))
  {
    var j := JacobianPoly(theta, sine, cosine);
    SumIsPoly(omega, j.a, j.b);
    hide Hat, Mul, MatScale, MatAdd, PolyMatrix;
  }

  lemma InverseMatrix(omega: Vec3, theta: real, sinHalf: real, cosHalf: real)
    requires Regular(theta) && sinHalf != 0.0
    ensures LeftJacobianInverse(omega, theta, sinHalf, cosHalf) == PolyMatrix(omega, InversePoly(theta, sinHalf, cosHalf))
  {
    DifferenceIsPoly(omega, 0.5, InversePoly(theta, sinHalf, cosHalf).b);
    hide Hat, Mul, MatScale, MatAdd, MatSub, PolyMatrix;
  }

  /** J J^-1 = J^-1 J = I wherever the closed form exists. */
  lemma JacobianInverse(omega: Vec3, theta: real, s: real, c: real, sine: real, cosine: real)
    requires HalfAngle(s, c, sine, cosine) && Regular(theta) && s != 0.0 && theta * theta == SquaredNorm(omega)
    ensures Mul(LeftJacobian(omega, theta, sine, cosine), LeftJacobianInverse(omega, theta, s, c)) == IDENTITY
    ensures Mul(LeftJacobianInverse(omega, theta, s, c), LeftJacobian(omega, theta, sine, cosine)) == IDENTITY
  {
    var j, k := JacobianPoly(theta, sine, cosine), InversePoly(theta, s, c);
    JacobianMatrix(omega, theta, sine, cosine);
    InverseMatrix(omega, theta, s, c);
    InverseTimes(theta, s, c, sine, cosine, SquaredNorm(omega));
    PolyTimesSym(SquaredNorm(omega), j, k);
    PolyMatrixTimes(omega, j, k);
    PolyMatrixTimes(omega, k, j);
    PolyMatrixOne(omega);
    hide *;
  }

  /** At a full turn the Jacobian annihilates every vector perpendicular to the axis. */
  lemma JacobianSingular(omega: Vec3, theta: real, c: real, sine: real, cosine: real, u: Vec3)
    requires HalfAngle(0.0, c, sine, cosine) && Regular(theta) && theta * theta == SquaredNorm(omega)
    ensures Apply(LeftJacobian(omega, theta, sine, cosine), Cross(omega, u)) == ZERO
  {
    hide Prod, Cross, SquaredNorm, Apply, PolyMatrix, LeftJacobian, HalfAngle, JacobianPoly;
    var j, n, x := JacobianPoly(theta, sine, cosine), SquaredNorm(omega), Cross(omega, u);
    SingularPoly(theta, c, sine, cosine, n);
    JacobianMatrix(omega, theta, sine, cosine);
    ApplyPoly(omega, j, x);
    CubeRule(omega, u);
    PSingular(j.b, n, x.x, Cross(omega, x).x);
    PSingular(j.b, n, x.y, Cross(omega, x).y);
    PSingular(j.b, n, x.z, Cross(omega, x).z);
  }

  lemma SingularPoly(theta: real, c: real, sine: real, cosine: real, n: real)
    requires HalfAngle(0.0, c, sine, cosine) && Regular(theta) && n == theta * theta
    ensures var j := JacobianPoly(theta, sine, cosine);
            j == Poly(1.0, 0.0, j.b) && Prod(j.b, n) == 1.0
  {
    hide HalfAngle, Regular, JacobianPoly, ExpPoly, Prod;
    var j := JacobianPoly(theta, sine, cosine);
    FullTurn(c, sine, cosine);
    JacobianUnit(theta, sine, cosine);
    JacobianFacts(theta, sine, cosine, n, j.a, j.b, ExpPoly(theta, sine, cosine).a);
    SingularCoefficients(theta, n, j.a, j.b, sine, cosine);
  }

  lemma FullTurn(c: real, sine: real, cosine: real)
    requires HalfAngle(0.0, c, sine, cosine)
    ensures sine == 0.0 && cosine == 1.0
  {}

  lemma SingularCoefficients(theta: real, n: real, alpha: real, beta: real, sine: real, cosine: real)
    requires theta != 0.0 && n != 0.0 && sine == 0.0 && cosine == 1.0
    requires alpha * n == 1.0 - cosine && theta * (1.0 - beta * n) == sine
    ensures alpha == 0.0 && Prod(beta, n) == 1.0
  {}

  lemma PSingular(beta: real, n: real, x: real, y: real)
    requires Prod(beta, n) == 1.0
    ensures Prod(1.0, x) + Prod(0.0, y) + Prod(beta, Prod(-n, x)) == 0.0
  {}

  /** The Jacobian has an inverse if and only if sin(theta / 2) does not vanish, which is
      where the closed form of the inverse divides. */
  lemma InverseExists(omega: Vec3, theta: real, s: real, c: real, sine: real, cosine: real)
    requires HalfAngle(s, c, sine, cosine) && Regular(theta) && theta * theta == SquaredNorm(omega)
    ensures (exists k: Mat3 :: Mul(k, LeftJacobian(omega, theta, sine, cosine)) == IDENTITY) <==> s != 0.0
  {
    var j := LeftJacobian(omega, theta, sine, cosine);
    if s != 0.0 {
      JacobianInverse(omega, theta, s, c, sine, cosine);
    } else if k: Mat3 :| Mul(k, j) == IDENTITY {
      RegularAxis(omega, theta);
      var u := Perpendicular(omega);
      JacobianSingular(omega, theta, c, sine, cosine, u);
      ApplyMul(k, j, Cross(omega, u));
      ApplyIdentity(Cross(omega, u));
      ApplyZeroVector(k);
      hide *;
    }
  }

  lemma RegularAxis(omega: Vec3, theta: real)
    requires Regular(theta) && theta * theta == SquaredNorm(omega)
    ensures omega != ZERO
  {
    NonzeroSquare(theta);
    NormDefinite(omega);
  }

  lemma PolyTimesSym(n: real, p: Poly, q: Poly)
    ensures PolyTimes(n, p, q) == PolyTimes(n, q, p)
  {}

  lemma ActionIsPoly(q: Quaternion, p: Vec3)
    ensures ScaledAction(q, p) == PolyAct(q.Vec(), Poly(q.SquaredNorm(), 2.0 * q.w, 2.0), p)
  {
    var v := q.Vec();
    var c := Cross(v, p);
    var d := Cross(v, c);
    AddTwice(c);
    CrossScale(v, 2.0, c);
    PTwice(q.w, c.x);
    PTwice(q.w, c.y);
    PTwice(q.w, c.z);
    hide Prod, Cross, Quaternion.SquaredNorm;
  }

  lemma AddTwice(c: Vec3)
    ensures Add(c, c) == Scale(2.0, c)
  {}

  lemma PTwice(w: real, x: real)
    ensures Prod(w, Prod(2.0, x)) == Prod(2.0 * w, x)
  {}

  /** Rodrigues: the matrix of exp(omega) is I + sin/theta W + (1 - cos)/theta^2 W^2. */
  lemma ExpMatrix(omega: Vec3, theta: real, s: real, c: real, sine: real, cosine: real)
    requires HalfAngle(s, c, sine, cosine) && Regular(theta) && theta * theta == SquaredNorm(omega)
    ensures ExpAndTheta(omega, theta, s, c).0.SquaredNorm() == 1.0
    ensures Matrix(ExpAndTheta(omega, theta, s, c).0) == PolyMatrix(omega, ExpPoly(theta, sine, cosine))
  {
    hide Prod, Scale, Matrix, PolyMatrix, Linear.SquaredNorm, Quaternion.SquaredNorm;
    NonzeroSquare(theta);
    var q, e := ExpAndTheta(omega, theta, s, c).0, ExpPoly(theta, sine, cosine);
    var f := s / theta;
    ScaleTimes(f, omega);
    ExpNorm(omega, theta, s, c, f);
    ExpCoefficients(theta, s, c, sine, cosine, f, e.a, e.b);
    ExpAction(omega, q, f, c, e);
  }

  lemma ExpAction(omega: Vec3, q: Quaternion, f: real, c: real, e: Poly)
    requires q.Vec() == Scale(f, omega) && q.w == c && q.SquaredNorm() == 1.0
    requires e == Poly(1.0, Prod(2.0 * c, f), Prod(2.0, Prod(f, f)))
    ensures Matrix(q) == PolyMatrix(omega, e)
  {
    forall p
      ensures Apply(Matrix(q), p) == Apply(PolyMatrix(omega, e), p)
    {
      hide *;
      ActionIsMatrix(q, p);
      ActionIsPoly(q, p);
      PolyActScaled(f, omega, Poly(1.0, 2.0 * c, 2.0), p);
      ApplyPoly(omega, e, p);
    }
    Extensional(Matrix(q), PolyMatrix(omega, e));
  }

  lemma ExpNorm(omega: Vec3, theta: real, s: real, c: real, f: real)
    requires theta != 0.0 && f == s / theta && theta * theta == SquaredNorm(omega) && s * s + c * c == 1.0
    ensures Quaternion(c, f * omega.x, f * omega.y, f * omega.z).SquaredNorm() == 1.0
  {
    var x, y, z := omega.x, omega.y, omega.z;
    var n := theta * theta;
    DivMul(s, theta, f);
    assert x * x + y * y + z * z == n;
    assert c * c + f * x * (f * x) + f * y * (f * y) + f * z * (f * z) == 1.0 by {
      assert f * x * (f * x) + f * y * (f * y) + f * z * (f * z) == f * f * (x * x + y * y + z * z);
      assert f * f * n == s * s by {
        assert f * f * n == f * theta * (f * theta);
      }
    }
  }

  lemma ExpCoefficients(theta: real, s: real, c: real, sine: real, cosine: real, f: real, a: real, b: real)
    requires HalfAngle(s, c, sine, cosine) && theta != 0.0 && theta * theta != 0.0
    requires f == s / theta && a == sine / theta && b == (1.0 - cosine) / (theta * theta)
    ensures a == Prod(2.0 * c, f) && b == Prod(2.0, Prod(f, f))
  {
    DivMul(s, theta, f);
    DivMul(sine, theta, a);
    VersineFact(theta, cosine, b);
    assert theta * (2.0 * c * f) == sine by {
      assert c * (f * theta) == c * s;
    }
    CancelEq(theta, a, 2.0 * c * f);
    SquareFact(theta, s, f, b);
  }

  lemma SquareFact(theta: real, s: real, f: real, b: real)
    requires theta != 0.0 && f * theta == s && b * (theta * theta) == 2.0 * s * s
    ensures b == 2.0 * f * f
  {
    assert f * f * theta == f * s;
    assert theta * (b * theta - 2.0 * f * s) == 0.0 by {
      assert 2.0 * (f * theta) * s == 2.0 * s * s;
    }
    Cancel(theta, b * theta - 2.0 * f * s);
    CancelEq(theta, b, 2.0 * f * f);
  }

  /** The rotation of exp(omega) is I + hat(omega) J(omega). */
  lemma ExpIsIntegral(omega: Vec3, theta: real, s: real, c: real, sine: real, cosine: real)
    requires HalfAngle(s, c, sine, cosine) && Regular(theta) && theta * theta == SquaredNorm(omega)
    ensures Matrix(ExpAndTheta(omega, theta, s, c).0)
         == MatAdd(IDENTITY, Mul(Hat(omega), LeftJacobian(omega, theta, sine, cosine)))
  {
    var j, e, w := JacobianPoly(theta, sine, cosine), ExpPoly(theta, sine, cosine), Poly(0.0, 1.0, 0.0);
    var n := SquaredNorm(omega);
    ExpMatrix(omega, theta, s, c, sine, cosine);
    JacobianMatrix(omega, theta, sine, cosine);
    ExpFromJacobian(theta, sine, cosine, n);
    HatIsPoly(omega);
    PolyMatrixTimes(omega, w, j);
    IdentityPlusPoly(omega, e.a, e.b);
    hide Prod, Hat, Mul, MatAdd, MatScale, PolyMatrix, Matrix, PolyTimes, JacobianPoly, LeftJacobian, SquaredNorm;
  }

  lemma HatIsPoly(omega: Vec3)
    ensures PolyMatrix(omega, Poly(0.0, 1.0, 0.0)) == Hat(omega)
  {}

  lemma IdentityPlusPoly(omega: Vec3, a: real, b: real)
    ensures MatAdd(IDENTITY, PolyMatrix(omega, Poly(0.0, a, b))) == PolyMatrix(omega, Poly(1.0, a, b))
  {}
}
