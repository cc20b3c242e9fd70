/** The left Jacobians of SO3 and SE3 in all their branches: exactly where they are inverse to each
    other, integrate exp and its adjoint, and bring a translation back. */
module JacobianBands {
  import opened Linear
  import opened Constants
  import opened Skew
  import opened Quaternions
  import opened UnitQuaternions
  import So3
  import Se3
  import Sim3
  import SimBands
  import TaylorBranches
  import TranslationBands

  /** No rotation, or one for which the closed forms are used. */
  predicate Closed(omega: Vec3, theta: real) {
    omega == ZERO || So3.Regular(theta)
  }

  // ----- polynomials in a hat matrix -----

  lemma IdentityExactlyWhen(omega: Vec3, p: Poly)
    ensures PolyMatrix(omega, p) == IDENTITY <==> p.c == 1.0 && (omega == ZERO || p == ONE)
  {
    hide Prod, PolyMatrix, PolyAct, Apply, Dot;
    PolyMatrixOne(omega);
    if omega == ZERO {
      forall v
        ensures Apply(PolyMatrix(ZERO, p), v) == v <==> p.c == 1.0 || v == ZERO
      {
        ApplyPoly(ZERO, p, v);
        TranslationBands.NoAxis(p, v);
      }
      SimBands.IdentityAction(PolyMatrix(ZERO, p));
      assert Apply(PolyMatrix(ZERO, p), E0) == E0 <==> p.c == 1.0 || E0 == ZERO;
    } else if PolyMatrix(omega, p) == IDENTITY {
      PolyMatrixOnly(omega, p);
    }
  }

  /** Around an axis the coefficients are determined by the matrix. */
  lemma SamePoly(omega: Vec3, p: Poly, q: Poly)
    requires omega != ZERO && PolyMatrix(omega, p) == PolyMatrix(omega, q)
    ensures p == q
  {
    hide Prod, PolyMatrix, Apply, Cross;
    var d := Poly(1.0 + p.c - q.c, p.a - q.a, p.b - q.b);
    forall v
      ensures Apply(PolyMatrix(omega, d), v) == v
    {
      ApplyPoly(omega, p, v);
      ApplyPoly(omega, q, v);
      ApplyPoly(omega, d, v);
      var v1 := Cross(omega, v);
      var v2 := Cross(omega, v1);
      PDifferenceRow(p.c, q.c, p.a, q.a, p.b, q.b, v.x, v1.x, v2.x);
      PDifferenceRow(p.c, q.c, p.a, q.a, p.b, q.b, v.y, v1.y, v2.y);
      PDifferenceRow(p.c, q.c, p.a, q.a, p.b, q.b, v.z, v1.z, v2.z);
    }
    SimBands.IdentityAction(PolyMatrix(omega, d));
    PolyMatrixOnly(omega, d);
  }

  lemma PDifferenceRow(c: real, d: real, a: real, e: real, b: real, g: real, x: real, y: real, z: real)
    ensures Prod(1.0 + c - d, x) + Prod(a - e, y) + Prod(b - g, z)
         == x + (Prod(c, x) + Prod(a, y) + Prod(b, z)) - (Prod(d, x) + Prod(e, y) + Prod(g, z))
  {}

  // ----- SO3 -----

  /** The Taylor branches of the Jacobian and of its inverse. */
  lemma TaylorMatrices(omega: Vec3, theta: real, s: real, c: real, sine: real, cosine: real)
    requires !So3.Regular(theta)
    ensures So3.LeftJacobian(omega, theta, sine, cosine) == PolyMatrix(omega, Poly(1.0, 0.5, 0.0))
    ensures So3.LeftJacobianInverse(omega, theta, s, c) == PolyMatrix(omega, Poly(1.0, -0.5, 1.0 / 12.0))
  {
    SumIsPoly(omega, 0.5, 0.0);
    NoMatrix(Mul(Hat(omega), Hat(omega)));
    ZeroProducts(MatAdd(IDENTITY, MatScale(0.5, Hat(omega))));
    DifferenceIsPoly(omega, 0.5, 1.0 / 12.0);
    hide Hat, Mul, MatScale, MatAdd, MatSub, PolyMatrix;
  }

  lemma NoMatrix(m: Mat3)
    ensures MatScale(0.0, m) == ZERO_MATRIX
  {}

  lemma TaylorProduct(n: real)
    ensures PolyTimes(n, Poly(1.0, 0.5, 0.0), Poly(1.0, -0.5, 1.0 / 12.0)) == Poly(1.0, -n / 24.0, -1.0 / 6.0)
  {}

  lemma TaylorProductMatrix(omega: Vec3, theta: real, s: real, c: real, sine: real, cosine: real)
    requires !So3.Regular(theta)
    ensures var j, k, p := So3.LeftJacobian(omega, theta, sine, cosine), So3.LeftJacobianInverse(omega, theta, s, c),
                           PolyMatrix(omega, Poly(1.0, -SquaredNorm(omega) / 24.0, -1.0 / 6.0));
            Mul(j, k) == p == Mul(k, j)
  {
    var p, q := Poly(1.0, 0.5, 0.0), Poly(1.0, -0.5, 1.0 / 12.0);
    TaylorMatrices(omega, theta, s, c, sine, cosine);
    TaylorProduct(SquaredNorm(omega));
    So3.PolyTimesSym(SquaredNorm(omega), p, q);
    PolyMatrixTimes(omega, p, q);
    PolyMatrixTimes(omega, q, p);
    hide *;
  }

  lemma RegularAxis(omega: Vec3, theta: real)
    requires theta * theta == SquaredNorm(omega)
    ensures omega == ZERO ==> !So3.Regular(theta)
  {
    if So3.Regular(theta) {
      So3.RegularAxis(omega, theta);
    }
    hide SquaredNorm;
  }

  /** J and the inverse the code computes are inverse, on either side, if and only if there is no
      rotation or one beyond the Taylor threshold. */
  lemma InverseExactlyWhen(omega: Vec3, theta: real, s: real, c: real, sine: real, cosine: real)
    requires HalfAngle(s, c, sine, cosine) && theta * theta == SquaredNorm(omega) && (So3.Regular(theta) ==> s != 0.0)
    ensures var j, k := So3.LeftJacobian(omega, theta, sine, cosine), So3.LeftJacobianInverse(omega, theta, s, c);
            && (Mul(j, k) == IDENTITY <==> Closed(omega, theta))
            && (Mul(k, j) == IDENTITY <==> Closed(omega, theta))
  {
    hide HalfAngle, SquaredNorm, Mul, So3.LeftJacobian, So3.LeftJacobianInverse, So3.Regular, PolyMatrix;
    if So3.Regular(theta) {
      So3.JacobianInverse(omega, theta, s, c, sine, cosine);
    } else {
      TaylorProductMatrix(omega, theta, s, c, sine, cosine);
      IdentityExactlyWhen(omega, Poly(1.0, -SquaredNorm(omega) / 24.0, -1.0 / 6.0));
    }
  }

  /** One translation comes back through J and its inverse if and only if the rotation is beyond
      the Taylor threshold or the translation lies along its axis. */
  lemma TranslationExactlyWhen(omega: Vec3, theta: real, s: real, c: real, sine: real, cosine: real, u: Vec3)
    requires HalfAngle(s, c, sine, cosine) && theta * theta == SquaredNorm(omega) && (So3.Regular(theta) ==> s != 0.0)
    ensures var j, k := So3.LeftJacobian(omega, theta, sine, cosine), So3.LeftJacobianInverse(omega, theta, s, c);
            && (Apply(k, Apply(j, u)) == u <==> So3.Regular(theta) || Cross(omega, u) == ZERO)
            && (Apply(j, Apply(k, u)) == u <==> So3.Regular(theta) || Cross(omega, u) == ZERO)
  {
    hide Prod, HalfAngle, Cross, Dot, SquaredNorm, Mul, Apply, So3.LeftJacobian, So3.LeftJacobianInverse, So3.Regular, PolyMatrix, PolyAct;
    var j, k, n := So3.LeftJacobian(omega, theta, sine, cosine), So3.LeftJacobianInverse(omega, theta, s, c), SquaredNorm(omega);
    ApplyMul(j, k, u);
    ApplyMul(k, j, u);
    if So3.Regular(theta) {
      So3.JacobianInverse(omega, theta, s, c, sine, cosine);
      ApplyIdentity(u);
    } else {
      TaylorProductMatrix(omega, theta, s, c, sine, cosine);
      ApplyPoly(omega, Poly(1.0, -n / 24.0, -1.0 / 6.0), u);
      TranslationBands.FixedExactlyWhen(omega, Poly(1.0, -n / 24.0, -1.0 / 6.0), u);
      NormDefinite(omega);
      SimBands.ZeroCross(u);
    }
  }

  /** The matrix of a quaternion with its vector part along omega. */
  lemma MatrixIsPoly(q: Quaternion, w: real, i: real, omega: Vec3)
    requires q.w == w && q.Vec() == Scale(i, omega)
    ensures UnitMatrix(q) == PolyMatrix(omega, Poly(1.0, Prod(2.0 * w, i), Prod(2.0, Prod(i, i))))
  {
    var p := Poly(1.0, Prod(2.0 * w, i), Prod(2.0, Prod(i, i)));
    forall v
      ensures Apply(UnitMatrix(q), v) == Apply(PolyMatrix(omega, p), v)
    {
      hide *;
      UnitMatrixActs(q, v);
      UnitActionIsPoly(q, v);
      PolyActScaled(i, omega, Poly(1.0, 2.0 * w, 2.0), v);
      ApplyPoly(omega, p, v);
    }
    Extensional(UnitMatrix(q), PolyMatrix(omega, p)) by { hide *; }
  }

  lemma UnitActionIsPoly(q: Quaternion, p: Vec3)
    ensures UnitAction(q, p) == PolyAct(q.Vec(), Poly(1.0, 2.0 * q.w, 2.0), p)
  {
    var v := q.Vec();
    var c := Cross(v, p);
    So3.AddTwice(c);
    CrossScale(v, 2.0, c);
    So3.PTwice(q.w, c.x);
    So3.PTwice(q.w, c.y);
    So3.PTwice(q.w, c.z);
    ScaleUnit(p);
    hide Prod, Cross;
  }

  /** I + hat(omega) J in the Taylor branch. */
  lemma TaylorIntegral(omega: Vec3, theta: real, sine: real, cosine: real)
    requires !So3.Regular(theta)
    ensures MatAdd(IDENTITY, Mul(Hat(omega), So3.LeftJacobian(omega, theta, sine, cosine))) == PolyMatrix(omega, Poly(1.0, 1.0, 0.5))
  {
    var n := SquaredNorm(omega);
    TaylorMatrices(omega, theta, 1.0, 0.0, sine, cosine);
    So3.HatIsPoly(omega);
    PolyMatrixTimes(omega, Poly(0.0, 1.0, 0.0), Poly(1.0, 0.5, 0.0));
    HatTimesTaylor(n);
    So3.IdentityPlusPoly(omega, 1.0, 0.5);
    hide *;
  }

  lemma HatTimesTaylor(n: real)
    ensures PolyTimes(n, Poly(0.0, 1.0, 0.0), Poly(1.0, 0.5, 0.0)) == Poly(0.0, 1.0, 0.5)
  {}

  /** The rotation of exp(omega) is I + hat(omega) J(omega) if and only if there is no rotation or
      one beyond the Taylor threshold. */
  lemma IntegralExactlyWhen(omega: Vec3, theta: real, s: real, c: real, sine: real, cosine: real)
    requires HalfAngle(s, c, sine, cosine) && theta * theta == SquaredNorm(omega)
    ensures UnitMatrix(So3.ExpAndTheta(omega, theta, s, c).0) == MatAdd(IDENTITY, Mul(Hat(omega), So3.LeftJacobian(omega, theta, sine, cosine)))
       <==> Closed(omega, theta)
  {
    hide Prod, HalfAngle, SquaredNorm, Mul, MatAdd, Hat, UnitMatrix, Matrix, So3.LeftJacobian, So3.ExpAndTheta, So3.Regular, PolyMatrix, Quaternion.SquaredNorm;
    if So3.Regular(theta) {
      So3.ExpIsIntegral(omega, theta, s, c, sine, cosine);
      So3.ExpMatrix(omega, theta, s, c, sine, cosine);
      UnitMatrixOfUnit(So3.ExpAndTheta(omega, theta, s, c).0);
    } else {
      TaylorIntegral(omega, theta, sine, cosine);
      TaylorBranches.NotRegular(theta, SquaredNorm(omega));
      var i, r := TaylorBranches.TaylorParts(omega, theta, s, c);
      MatrixIsPoly(So3.ExpAndTheta(omega, theta, s, c).0, r, i, omega);
      if omega == ZERO {
        IdentityExactlyWhen(omega, Poly(1.0, 1.0, 0.5));
        IdentityExactlyWhen(omega, Poly(1.0, Prod(2.0 * r, i), Prod(2.0, Prod(i, i))));
      } else {
        NormDefinite(omega);
        TaylorFactorIsShort(SquaredNorm(omega), i, r);
        if PolyMatrix(omega, Poly(1.0, Prod(2.0 * r, i), Prod(2.0, Prod(i, i)))) == PolyMatrix(omega, Poly(1.0, 1.0, 0.5)) {
          SamePoly(omega, Poly(1.0, Prod(2.0 * r, i), Prod(2.0, Prod(i, i))), Poly(1.0, 1.0, 0.5));
        }
      }
    }
  }

  lemma TaylorFactorIsShort(n: real, i: real, r: real)
    requires 0.0 < n < EPSILON * EPSILON && TaylorBranches.ExpSeries(n, i, r)
    ensures Prod(2.0, Prod(i, i)) < 0.5
  {
    PositiveProduct(n, 1.0 - n, n * (1.0 - n));
    PositiveProduct(n, n, n * n);
    PositiveProduct(0.5 - i, 0.5 + i, (0.5 - i) * (0.5 + i));
    assert (0.5 - i) * (0.5 + i) == 0.25 - i * i;
  }

  // ----- SE3 -----

  /** The adjoint as the code computes it, from the matrix of a quaternion taken to be unit. */
  function Adj(a: Se3.Pose): Se3.Mat6 {
    var r := UnitMatrix(a.q);
    Se3.Mat6(r, Mul(Hat(a.t), r), ZERO_MATRIX, r)
  }

  lemma AdjIs(a: Se3.Pose)
    requires a.q.SquaredNorm() == 1.0
    ensures Adj(a) == Se3.Adj(a)
  {
    UnitMatrixOfUnit(a.q);
    hide Mul, Hat, UnitMatrix, Matrix, Quaternion.SquaredNorm;
  }

  /** Adj(exp a) = I + ad_a J(a) if and only if there is no rotation or one beyond the Taylor
      threshold. */
  lemma AdjointExactlyWhen(a: Se3.Twist, theta: real, s: real, c: real, sine: real, cosine: real)
    requires HalfAngle(s, c, sine, cosine) && theta * theta == SquaredNorm(a.omega)
    ensures Adj(Se3.Exp(a, theta, s, c, sine, cosine)) == Se3.Add6(Se3.IDENTITY6, Se3.Mul6(Se3.Ad(a), Se3.LeftJacobian(a, theta, sine, cosine)))
       <==> Closed(a.omega, theta)
  {
    hide Prod, HalfAngle, SquaredNorm, Mul, MatAdd, Hat, UnitMatrix, Matrix, Apply, So3.LeftJacobian, So3.ExpAndTheta, So3.Regular, Se3.UpperRightBlock,
         Se3.Exp, Quaternion.SquaredNorm;
    if So3.Regular(theta) {
      Se3.AdjointOfExp(a, theta, s, c, sine, cosine);
      Se3.ExpParts(a, theta, s, c, sine, cosine);
      So3.ExpMatrix(a.omega, theta, s, c, sine, cosine);
      AdjIs(Se3.Exp(a, theta, s, c, sine, cosine));
    } else {
      IntegralExactlyWhen(a.omega, theta, s, c, sine, cosine);
      ExpRotation(a, theta, s, c, sine, cosine);
      var hj := Mul(Hat(a.omega), So3.LeftJacobian(a.omega, theta, sine, cosine));
      ZeroProducts(Hat(a.upsilon));
      ZeroProducts(hj);
      if a.omega == ZERO {
        AdjointWithoutRotation(a, theta, s, c, sine, cosine);
      }
    }
  }

  lemma ExpRotation(a: Se3.Twist, theta: real, s: real, c: real, sine: real, cosine: real)
    requires theta * theta == SquaredNorm(a.omega)
    ensures Se3.Exp(a, theta, s, c, sine, cosine).q == So3.ExpAndTheta(a.omega, theta, s, c).0
  {}

  lemma AdjointWithoutRotation(a: Se3.Twist, theta: real, s: real, c: real, sine: real, cosine: real)
    requires theta * theta == SquaredNorm(a.omega) && a.omega == ZERO
    ensures Adj(Se3.Exp(a, theta, s, c, sine, cosine)) == Se3.Add6(Se3.IDENTITY6, Se3.Mul6(Se3.Ad(a), Se3.LeftJacobian(a, theta, sine, cosine)))
  {
    hide Prod, SquaredNorm, Mul, MatAdd, MatScale, Hat, Apply;
    RegularAxis(ZERO, theta);
    TaylorBranches.HatOfZero();
    NothingScaled(0.5);
    MulIdentity(Hat(a.upsilon));
    ZeroProducts(IDENTITY);
    ZeroProducts(Hat(a.upsilon));
    ZeroProducts(MatScale(0.5, Hat(a.upsilon)));
    ZeroProducts(ZERO_MATRIX);
    ApplyIdentity(a.upsilon);
    ExpOfTranslation(a, theta, s, c, sine, cosine);
    JacobianWithoutRotation(theta, sine, cosine);
    BlockWithoutRotation(a.upsilon, theta, sine, cosine);
    TaylorBranches.IdentityIsUnit();
    UnitMatrixOfUnit(Real(1.0));
    Sim3.UnitMatrix();
    hide UnitMatrix, Matrix, So3.LeftJacobian, Se3.UpperRightBlock, Se3.Exp, Quaternion.SquaredNorm;
  }

  lemma NothingScaled(s: real)
    ensures MatScale(s, ZERO_MATRIX) == ZERO_MATRIX
  {}

  lemma JacobianWithoutRotation(theta: real, sine: real, cosine: real)
    requires !So3.Regular(theta)
    ensures So3.LeftJacobian(ZERO, theta, sine, cosine) == IDENTITY
  {
    TaylorBranches.HatOfZero();
    NothingScaled(0.5);
    ZeroProducts(IDENTITY);
    hide Hat, MatScale, MatAdd;
  }

  lemma BlockWithoutRotation(upsilon: Vec3, theta: real, sine: real, cosine: real)
    requires theta * theta == SquaredNorm(ZERO)
    ensures Se3.UpperRightBlock(upsilon, ZERO, theta, sine, cosine) == MatScale(0.5, Hat(upsilon))
  {
    NormDefinite(ZERO);
    hide SquaredNorm, Hat, MatScale;
  }

  lemma ExpOfTranslation(a: Se3.Twist, theta: real, s: real, c: real, sine: real, cosine: real)
    requires theta * theta == SquaredNorm(a.omega) && a.omega == ZERO
    ensures Se3.Exp(a, theta, s, c, sine, cosine) == Se3.Pose(Real(1.0), a.upsilon)
  {
    TaylorBranches.TaylorAtZero(theta, s, c);
    TaylorBranches.JacobianAtZero(sine, cosine);
    ApplyIdentity(a.upsilon);
    hide SquaredNorm, So3.LeftJacobian, So3.ExpAndTheta, Apply;
  }

  /** The 6x6 Jacobian and the inverse the code computes are inverse, on either side, if and only
      if there is no rotation or one beyond the Taylor threshold. */
  lemma Inverse6ExactlyWhen(a: Se3.Twist, theta: real, s: real, c: real, sine: real, cosine: real)
    requires HalfAngle(s, c, sine, cosine) && theta * theta == SquaredNorm(a.omega) && (So3.Regular(theta) ==> s != 0.0)
    ensures var j, k := Se3.LeftJacobian(a, theta, sine, cosine), Se3.LeftJacobianInverse(a, theta, s, c, sine, cosine);
            && (Se3.Mul6(j, k) == Se3.IDENTITY6 <==> Closed(a.omega, theta))
            && (Se3.Mul6(k, j) == Se3.IDENTITY6 <==> Closed(a.omega, theta))
  {
    hide Prod, HalfAngle, SquaredNorm, Mul, MatAdd, MatScale, So3.LeftJacobian, So3.LeftJacobianInverse, So3.Regular, Se3.UpperRightBlock;
    var j, k := So3.LeftJacobian(a.omega, theta, sine, cosine), So3.LeftJacobianInverse(a.omega, theta, s, c);
    var q := Se3.UpperRightBlock(a.upsilon, a.omega, theta, sine, cosine);
    InverseExactlyWhen(a.omega, theta, s, c, sine, cosine);
    if Closed(a.omega, theta) {
      Se3.BlockInverse(j, k, q);
    } else {
      ZeroProducts(Mul(j, k));
      ZeroProducts(Mul(k, j));
      ZeroProducts(q);
      ZeroProducts(MatScale(-1.0, Mul(Mul(k, q), k)));
    }
  }
}
