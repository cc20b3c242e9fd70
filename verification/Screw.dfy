/** The exponential of SE3 as a curve: exp(b v) runs through a one-parameter group of rigid
    motions, which starts in the direction of hat(v). */
module Screw {
  import opened Linear
  import opened Constants
  import opened Quaternions
  import opened Skew
  import opened Affine
  import opened Elementary
  import opened ExpLog
  import opened TaylorBranches
  import opened Se3Spline
  import So3
  import Se3
  import Se3Group
  import Spline

  // ----- polynomials in the 4x4 hat matrix -----

  /** The coefficients of I + d V + a V^2 + b V^3. */
  datatype Curve = Curve(d: real, a: real, b: real)

  function Powers(x: Mat4, p: Curve): Mat4 {
    var square := Mul4(x, x);
    Spline.Add4(Spline.Add4(Spline.Add4(IDENTITY4, Spline.Scale4(p.d, x)), Spline.Scale4(p.a, square)), Spline.Scale4(p.b, Mul4(square, x)))
  }

  /** The coefficient of W in the rotation, as W^3 = -n W. */
  function Turn(n: real, p: Curve): real {
    p.d - Prod(p.b, n)
  }

  /** The same motion, rotation and translation. */
  function Motion(v: Se3.Twist, p: Curve): Mat4 {
    Mat4(PolyMatrix(v.omega, Poly(1.0, Turn(SquaredNorm(v.omega), p), p.a)), PolyAct(v.omega, Poly(p.d, p.a, p.b), v.upsilon), 1.0)
  }

  lemma CubeMatrix(omega: Vec3)
    ensures Mul(Mul(Hat(omega), Hat(omega)), Hat(omega)) == MatScale(-SquaredNorm(omega), Hat(omega))
  {
    var w := Hat(omega);
    forall v
      ensures Apply(Mul(Mul(w, w), w), v) == Apply(MatScale(-SquaredNorm(omega), w), v)
    {
      hide *;
      ApplyMul(Mul(w, w), w, v);
      HatIsCross(omega, v);
      ApplyMul(w, w, Cross(omega, v));
      HatIsCross(omega, Cross(omega, v));
      HatIsCross(omega, Cross(omega, Cross(omega, v)));
      CubeRule(omega, v);
      ApplyMatScale(-SquaredNorm(omega), w, v);
    }
    Extensional(Mul(Mul(w, w), w), MatScale(-SquaredNorm(omega), w));
  }

  /** The square and the cube of the hat matrix. */
  lemma HatPowers(v: Se3.Twist)
    ensures var x, w := Se3Group.HatMatrix(v), Hat(v.omega);
            && Mul4(x, x) == Mat4(Mul(w, w), Cross(v.omega, v.upsilon), 0.0)
            && Mul4(Mul4(x, x), x) == Mat4(MatScale(-SquaredNorm(v.omega), w), Cross(v.omega, Cross(v.omega, v.upsilon)), 0.0)
  {
    var w, u := Hat(v.omega), v.upsilon;
    CubeMatrix(v.omega);
    HatIsCross(v.omega, u);
    ApplyMul(w, w, u);
    HatIsCross(v.omega, Cross(v.omega, u));
    ScaleUnit(u);
    ScaleUnit(Cross(v.omega, u));
    AddZero(Cross(v.omega, u));
    AddZero(Cross(v.omega, Cross(v.omega, u)));
    POnes(0.0);
    hide Prod, Mul, Apply, Scale, MatScale, Hat, Cross, SquaredNorm, Add;
  }

  lemma AddZero(v: Vec3)
    ensures Add(v, ZERO) == v == Add(ZERO, v)
  {}

  lemma MotionIsPowers(v: Se3.Twist, p: Curve)
    ensures Motion(v, p) == Powers(Se3Group.HatMatrix(v), p)
  {
    hide Prod, Hat, Mul, Mul4, Cross, SquaredNorm;
    HatPowers(v);
    POnes(p.d);
    POnes(p.a);
    POnes(p.b);
    MotionRotation(Hat(v.omega), Mul(Hat(v.omega), Hat(v.omega)), SquaredNorm(v.omega), p);
    MotionTranslation(v.upsilon, Cross(v.omega, v.upsilon), Cross(v.omega, Cross(v.omega, v.upsilon)), p);
    hide Scale, MatScale, MatAdd, Comb3, Add;
  }

  lemma MotionRotation(w: Mat3, square: Mat3, n: real, p: Curve)
    ensures MatAdd(MatAdd(MatScale(Turn(n, p), w), MatScale(p.a, square)), MatScale(1.0, IDENTITY))
         == MatAdd(MatAdd(MatAdd(IDENTITY, MatScale(p.d, w)), MatScale(p.a, square)), MatScale(p.b, MatScale(-n, w)))
  {
    MotionRow(w.r0, square.r0, E0, n, p);
    MotionRow(w.r1, square.r1, E1, n, p);
    MotionRow(w.r2, square.r2, E2, n, p);
    hide Scale, Add;
  }

  lemma MotionRow(w: Vec3, square: Vec3, e: Vec3, n: real, p: Curve)
    ensures Add(Add(Scale(Turn(n, p), w), Scale(p.a, square)), Scale(1.0, e))
         == Add(Add(Add(e, Scale(p.d, w)), Scale(p.a, square)), Scale(p.b, Scale(-n, w)))
  {
    PTurn(p.d, p.b, n, w.x);
    PTurn(p.d, p.b, n, w.y);
    PTurn(p.d, p.b, n, w.z);
    POnes(e.x);
    POnes(e.y);
    POnes(e.z);
    hide Prod;
  }

  lemma PTurn(d: real, b: real, n: real, x: real)
    ensures Prod(d - Prod(b, n), x) == Prod(d, x) + Prod(b, Prod(-n, x))
  {}

  lemma MotionTranslation(u: Vec3, first: Vec3, second: Vec3, p: Curve)
    ensures Comb3(p.d, u, p.a, first, p.b, second) == Add(Add(Add(ZERO, Scale(p.d, u)), Scale(p.a, first)), Scale(p.b, second))
  {}

  // ----- their products -----

  function Compose(n: real, p: Curve, q: Curve): Curve {
    Curve(p.d + q.d,
          p.a + q.a + Prod(Turn(n, p), Turn(n, q)) - Prod(n, Prod(p.a, q.a)),
          p.b + q.b + Prod(p.a, Turn(n, q)) + Prod(Turn(n, p), q.a))
  }

  lemma MotionTimes(v: Se3.Twist, p: Curve, q: Curve)
    ensures Mul4(Motion(v, p), Motion(v, q)) == Motion(v, Compose(SquaredNorm(v.omega), p, q))
  {
    hide Prod, PolyMatrix, PolyAct, Mul, Apply, SquaredNorm, Add, Scale, Turn, Compose;
    var n, w, u := SquaredNorm(v.omega), v.omega, v.upsilon;
    var turnP, turnQ := Poly(1.0, Turn(n, p), p.a), Poly(1.0, Turn(n, q), q.a);
    var moveP, moveQ := Poly(p.d, p.a, p.b), Poly(q.d, q.a, q.b);
    PolyMatrixTimes(w, turnP, turnQ);
    ApplyPoly(w, turnP, PolyAct(w, moveQ, u));
    PolyActTimes(w, turnP, moveQ, u);
    PolyActAdd(w, PolyTimes(n, turnP, moveQ), moveP, u);
    ScaleUnit(PolyAct(w, moveP, u));
    POnes(1.0);
    ComposeTurns(n, p, q);
    ComposeMoves(n, p, q);
  }

  function PolyAdd(p: Poly, q: Poly): Poly {
    Poly(p.c + q.c, p.a + q.a, p.b + q.b)
  }

  lemma PolyActAdd(omega: Vec3, p: Poly, q: Poly, v: Vec3)
    ensures Add(PolyAct(omega, p, v), PolyAct(omega, q, v)) == PolyAct(omega, PolyAdd(p, q), v)
  {
    var v1 := Cross(omega, v);
    var v2 := Cross(omega, v1);
    AddScale(p.c, q.c, v);
    AddScale(p.a, q.a, v1);
    AddScale(p.b, q.b, v2);
    hide Scale, Cross;
  }

  lemma ComposeTurns(n: real, p: Curve, q: Curve)
    ensures PolyTimes(n, Poly(1.0, Turn(n, p), p.a), Poly(1.0, Turn(n, q), q.a)) == Poly(1.0, Turn(n, Compose(n, p, q)), Compose(n, p, q).a)
  {
    PComposeTurn(n, p.a, p.b, Turn(n, p), q.a, q.b, Turn(n, q));
    POnes(1.0);
    POnes(Turn(n, p));
    POnes(Turn(n, q));
    POnes(p.a);
    POnes(q.a);
    hide Prod;
  }

  lemma PComposeTurn(n: real, a: real, b: real, g: real, a': real, b': real, g': real)
    ensures Prod(b + b' + Prod(a, g') + Prod(g, a'), n) == Prod(b, n) + Prod(b', n) + Prod(n, Prod(g, a') + Prod(a, g'))
  {}

  lemma ComposeMoves(n: real, p: Curve, q: Curve)
    ensures PolyAdd(PolyTimes(n, Poly(1.0, Turn(n, p), p.a), Poly(q.d, q.a, q.b)), Poly(p.d, p.a, p.b))
         == Poly(Compose(n, p, q).d, Compose(n, p, q).a, Compose(n, p, q).b)
  {
    PComposeMove(n, p.a, Turn(n, p), q.d, q.a, q.b, Turn(n, q));
    POnes(q.d);
    POnes(q.a);
    POnes(q.b);
    hide Prod;
  }

  lemma PComposeMove(n: real, a: real, g: real, d': real, a': real, b': real, g': real)
    requires g' == d' - Prod(b', n)
    ensures Prod(g, d') - Prod(n, Prod(g, b') + Prod(a, a')) == Prod(g, g') - Prod(n, Prod(a, a'))
    ensures Prod(a, d') + Prod(g, a') - Prod(n, Prod(a, b')) == Prod(a, g') + Prod(g, a')
  {}

  // ----- exp runs along these motions -----

  /** The coefficients of exp(b v): b, (1 - cos(b theta)) / theta^2 and (b - sin(b theta) / theta) / theta^2. */
  ghost function CurveOf(f: Elementary, b: real, omega: Vec3): Curve
    requires Facts(f)
  {
    hide Facts, SquaredNorm, Length;
    LengthOf(f, omega);
    POnes(0.0);
    var n, theta := SquaredNorm(omega), Length(f, omega);
    if n == 0.0 then Curve(b, 0.0, 0.0)
    else Curve(b, Quotient(1.0 - f.cos(Prod(b, theta)), n), Quotient(b - Quotient(f.sin(Prod(b, theta)), theta), n))
  }

  /** The same coefficients without their denominators. */
  predicate IsCurve(f: Elementary, b: real, theta: real, n: real, p: Curve) {
    p.d == b && Prod(p.a, n) == 1.0 - f.cos(Prod(b, theta)) && Prod(Turn(n, p), theta) == f.sin(Prod(b, theta))
  }

  lemma OnlyCurve(f: Elementary, b: real, omega: Vec3, p: Curve)
    requires Facts(f) && omega != ZERO
    ensures IsCurve(f, b, Length(f, omega), SquaredNorm(omega), p) <==> p == CurveOf(f, b, omega)
  {
    hide Facts, Prod, Quotient, SquaredNorm, Length;
    var n, theta, q := SquaredNorm(omega), Length(f, omega), CurveOf(f, b, omega);
    LengthOf(f, omega);
    NormDefinite(omega);
    POnes(0.0);
    PSym(p.a, n);
    PSym(q.a, n);
    PSym(p.b, n);
    PSym(q.b, n);
    PSym(Turn(n, p), theta);
    PSym(Turn(n, q), theta);
    PSym(Quotient(f.sin(Prod(b, theta)), theta), theta);
    if IsCurve(f, b, theta, n, p) {
      PCancel(n, p.a, q.a);
      PCancel(theta, Turn(n, p), Turn(n, q));
      PCancel(n, p.b, q.b);
    }
  }

  lemma CurveOfNothing(f: Elementary, omega: Vec3)
    requires Facts(f)
    ensures CurveOf(f, 0.0, omega) == Curve(0.0, 0.0, 0.0)
  {
    hide Facts, Prod, SquaredNorm, Length, CurveOf;
    if omega == ZERO {
      CurveOfTranslation(f, 0.0);
    } else {
      var n, theta := SquaredNorm(omega), Length(f, omega);
      POnes(theta);
      POnes(n);
      NoAngle(f);
      OnlyCurve(f, 0.0, omega, Curve(0.0, 0.0, 0.0));
    }
  }

  lemma CurveOfTranslation(f: Elementary, b: real)
    requires Facts(f)
    ensures CurveOf(f, b, ZERO) == Curve(b, 0.0, 0.0)
  {
    hide Facts;
    NormDefinite(ZERO);
  }

  lemma NoAngle(f: Elementary)
    requires Facts(f)
    ensures f.sin(0.0) == 0.0 && f.cos(0.0) == 1.0
  {
    hide Facts, AngleBounds;
    AngleOf(f, 0.0);
    ParityOf(f, 0.0);
    assert 0.5 * 0.0 == 0.0;
    assert -0.0 == 0.0;
  }

  /** Where exp uses its closed form, and at b = 0, it is the motion with these coefficients. */
  lemma ExpIsMotion(f: Elementary, b: real, v: Se3.Twist)
    requires Facts(f) && ClearFactor(b, v.omega)
    ensures Se3Group.Homogeneous(Se3Exp(f, ScaleTwist(b, v))) == Motion(v, CurveOf(f, b, v.omega))
  {
    hide Facts, Prod, SquaredNorm, Se3Exp, Motion, CurveOf;
    if b == 0.0 {
      ScaleUnit(v.upsilon);
      ScaleUnit(v.omega);
      ExpOfNoRotation(f, ZERO);
      UnitPose();
      CurveOfNothing(f, v.omega);
      MotionOfNothing(v);
    } else if v.omega == ZERO {
      ScaleZeroVector(b);
      ExpOfNoRotation(f, Scale(b, v.upsilon));
      MatrixOfReal();
      CurveOfTranslation(f, b);
      MotionOfTranslation(v, b);
    } else {
      ClosedExpIsMotion(f, b, v);
    }
    hide ClearFactor, Scale, Matrix;
  }

  lemma MatrixOfReal()
    ensures Matrix(Real(1.0)) == IDENTITY
  {
    UnitPose();
    hide Matrix;
  }

  lemma MotionOfNothing(v: Se3.Twist)
    ensures Motion(v, Curve(0.0, 0.0, 0.0)) == IDENTITY4
  {
    POnes(SquaredNorm(v.omega));
    PolyMatrixOne(v.omega);
    ScaleUnit(v.upsilon);
    ScaleUnit(Cross(v.omega, v.upsilon));
    ScaleUnit(Cross(v.omega, Cross(v.omega, v.upsilon)));
    AddZero(ZERO);
    hide Prod, SquaredNorm, PolyMatrix, Scale, Cross, Add;
  }

  lemma MotionOfTranslation(v: Se3.Twist, b: real)
    requires v.omega == ZERO
    ensures Motion(v, Curve(b, 0.0, 0.0)) == Mat4(IDENTITY, Scale(b, v.upsilon), 1.0)
  {
    HatOfZero();
    PolyMatrixOfNothing(Poly(1.0, Turn(SquaredNorm(ZERO), Curve(b, 0.0, 0.0)), 0.0));
    ScaleUnit(Cross(ZERO, v.upsilon));
    ScaleUnit(Cross(ZERO, Cross(ZERO, v.upsilon)));
    AddZero(Scale(b, v.upsilon));
    hide Prod, SquaredNorm, PolyMatrix, Scale, Cross, Add;
  }

  lemma PolyMatrixOfNothing(p: Poly)
    requires p.c == 1.0
    ensures PolyMatrix(ZERO, p) == IDENTITY
  {
    HatOfZero();
    ZeroProducts(ZERO_MATRIX);
    ScaleZeroVector(p.a);
    ScaleZeroVector(p.b);
    UnitScale(IDENTITY);
    ZeroProducts(IDENTITY);
    hide Prod, Scale, MatAdd, Mul;
  }

  /** Polynomials about a multiple of the axis. */
  lemma PolyMatrixScaled(b: real, omega: Vec3, p: Poly)
    ensures PolyMatrix(Scale(b, omega), p) == PolyMatrix(omega, Poly(p.c, Prod(p.a, b), Prod(p.b, Prod(b, b))))
  {
    var q := Poly(p.c, Prod(p.a, b), Prod(p.b, Prod(b, b)));
    forall v
      ensures Apply(PolyMatrix(Scale(b, omega), p), v) == Apply(PolyMatrix(omega, q), v)
    {
      hide *;
      ApplyPoly(Scale(b, omega), p, v);
      ApplyPoly(omega, q, v);
      PolyActScaled(b, omega, p, v);
    }
    Extensional(PolyMatrix(Scale(b, omega), p), PolyMatrix(omega, q));
  }

  lemma PolyActOfMultiple(omega: Vec3, p: Poly, b: real, v: Vec3)
    ensures PolyAct(omega, p, Scale(b, v)) == PolyAct(omega, Poly(Prod(b, p.c), Prod(b, p.a), Prod(b, p.b)), v)
  {
    var v1 := Cross(omega, v);
    var v2 := Cross(omega, v1);
    CrossScale(omega, b, v);
    CrossScale(omega, b, v1);
    ScaleTwice(p.c, b, v);
    ScaleTwice(p.a, b, v1);
    ScaleTwice(p.b, b, v2);
    PSym(p.c, b);
    PSym(p.a, b);
    PSym(p.b, b);
    hide Prod, Cross, Scale;
  }

  lemma ClosedExpIsMotion(f: Elementary, b: real, v: Se3.Twist)
    requires Facts(f) && b != 0.0 && v.omega != ZERO && Prod(Prod(b, b), SquaredNorm(v.omega)) >= EPSILON * EPSILON
    ensures Se3Group.Homogeneous(Se3Exp(f, ScaleTwist(b, v))) == Motion(v, CurveOf(f, b, v.omega))
  {
    hide Facts, Prod, SquaredNorm, Length, HalfAngle, AngleBounds, Se3Exp, CurveOf, PolyMatrix, PolyAct, So3.JacobianPoly, So3.ExpPoly, So3.Regular, Scale;
    var t, n, theta := ScaleTwist(b, v), SquaredNorm(v.omega), Length(f, v.omega);
    var angle := Length(f, t.omega);
    LengthOf(f, v.omega);
    LengthOf(f, t.omega);
    ScaledLength(b, v.omega);
    AngleOf(f, angle);
    RegularLength(angle, Prod(Prod(b, b), n));
    var e, j := So3.ExpPoly(angle, f.sin(angle), f.cos(angle)), So3.JacobianPoly(angle, f.sin(angle), f.cos(angle));
    ExpParts(f, t, angle);
    So3.JacobianUnit(angle, f.sin(angle), f.cos(angle));
    ExpUnit(angle, f.sin(angle), f.cos(angle));
    So3.JacobianFacts(angle, f.sin(angle), f.cos(angle), angle * angle, j.a, j.b, e.a);
    PolyMatrixScaled(b, v.omega, e);
    PolyActOfMultiple(t.omega, j, b, v.upsilon);
    PolyActScaled(b, v.omega, Poly(Prod(b, j.c), Prod(b, j.a), Prod(b, j.b)), v.upsilon);
    var p := Curve(b, Prod(Prod(b, j.a), b), Prod(Prod(b, j.b), Prod(b, b)));
    POnes(b);
    SameTurn(f, b, theta, angle);
    PScaledCurve(f, b, theta, n, angle, e.a, j.a, j.b, p);
    OnlyCurve(f, b, v.omega, p);
  }

  lemma ExpUnit(theta: real, sine: real, cosine: real)
    requires So3.Regular(theta)
    ensures So3.ExpPoly(theta, sine, cosine).c == 1.0
  {}

  lemma RegularLength(angle: real, n: real)
    requires angle * angle == n >= EPSILON * EPSILON
    ensures So3.Regular(angle)
  {}

  lemma ExpParts(f: Elementary, t: Se3.Twist, angle: real)
    requires Facts(f) && angle == Length(f, t.omega) && So3.Regular(angle)
    ensures Se3Group.Homogeneous(Se3Exp(f, t))
         == Mat4(PolyMatrix(t.omega, So3.ExpPoly(angle, f.sin(angle), f.cos(angle))),
                 PolyAct(t.omega, So3.JacobianPoly(angle, f.sin(angle), f.cos(angle)), t.upsilon), 1.0)
  {
    hide Facts, SquaredNorm, Length, HalfAngle, AngleBounds, PolyMatrix, PolyAct, So3.JacobianPoly, So3.ExpPoly, So3.Regular, So3.ExpAndTheta,
         So3.LeftJacobian, Matrix, Apply;
    LengthOf(f, t.omega);
    AngleOf(f, angle);
    Se3.ExpParts(t, angle, f.sin(0.5 * angle), f.cos(0.5 * angle), f.sin(angle), f.cos(angle));
    So3.ExpMatrix(t.omega, angle, f.sin(0.5 * angle), f.cos(0.5 * angle), f.sin(angle), f.cos(angle));
    So3.JacobianMatrix(t.omega, angle, f.sin(angle), f.cos(angle));
    ApplyPoly(t.omega, So3.JacobianPoly(angle, f.sin(angle), f.cos(angle)), t.upsilon);
  }

  /** The angle of exp(b v) is |b| theta. */
  lemma SameTurn(f: Elementary, b: real, theta: real, angle: real)
    requires Facts(f) && theta >= 0.0 && angle >= 0.0 && Prod(angle, angle) == Prod(Prod(b, b), Prod(theta, theta))
    ensures f.cos(angle) == f.cos(Prod(b, theta))
    ensures if b >= 0.0 then angle == Prod(b, theta) && f.sin(angle) == f.sin(Prod(b, theta))
            else angle == -Prod(b, theta) && f.sin(angle) == -f.sin(Prod(b, theta))
  {
    hide Facts, Prod;
    PSquareProduct(b, theta);
    var turn := if b >= 0.0 then Prod(b, theta) else -Prod(b, theta);
    ProductSign(b, theta);
    ProductSign(-b, theta);
    PNegated(b, theta);
    PSquareOfOpposite(Prod(b, theta));
    SameRoot(angle, turn);
    ParityOf(f, Prod(b, theta));
  }

  lemma PSquareOfOpposite(x: real)
    ensures Prod(-x, -x) == Prod(x, x)
  {}

  lemma PScaledCurve(f: Elementary, b: real, theta: real, n: real, angle: real, g: real, a: real, beta: real, p: Curve)
    requires b != 0.0 && Prod(theta, theta) == n && angle * angle == Prod(Prod(b, b), n)
    requires a * (angle * angle) == 1.0 - f.cos(angle) && angle * (1.0 - beta * (angle * angle)) == f.sin(angle) && g == 1.0 - beta * (angle * angle)
    requires f.cos(angle) == f.cos(Prod(b, theta))
    requires if b >= 0.0 then angle == Prod(b, theta) && f.sin(angle) == f.sin(Prod(b, theta))
             else angle == -Prod(b, theta) && f.sin(angle) == -f.sin(Prod(b, theta))
    requires p == Curve(b, Prod(Prod(b, a), b), Prod(Prod(b, beta), Prod(b, b)))
    ensures Prod(g, b) == Turn(n, p) && Prod(a, Prod(b, b)) == p.a && IsCurve(f, b, theta, n, p)
  {
    hide Prod;
    var k := angle * angle;
    PTurnScaled(b, n, a, beta, k, g);
    TurnSine(angle, beta, g, f.sin(angle));
    PTurnAngle(b, theta, g);
    PNegated(Prod(b, theta), g);
  }

  lemma TurnSine(angle: real, beta: real, g: real, sine: real)
    requires angle * (1.0 - beta * (angle * angle)) == sine && g == 1.0 - beta * (angle * angle)
    ensures Prod(angle, g) == sine
  {}

  lemma PTurnScaled(b: real, n: real, a: real, beta: real, k: real, g: real)
    requires k == Prod(Prod(b, b), n) && g == 1.0 - beta * k
    ensures Prod(g, b) == b - Prod(Prod(Prod(b, beta), Prod(b, b)), n)
    ensures Prod(a, Prod(b, b)) == Prod(Prod(b, a), b) && Prod(Prod(Prod(b, a), b), n) == a * k
  {}

  lemma PTurnAngle(b: real, theta: real, g: real)
    ensures Prod(Prod(g, b), theta) == Prod(Prod(b, theta), g)
  {}

  // ----- a one-parameter group -----

  lemma CurvesCompose(f: Elementary, b: real, c: real, omega: Vec3)
    requires Facts(f) && omega != ZERO
    ensures Compose(SquaredNorm(omega), CurveOf(f, b, omega), CurveOf(f, c, omega)) == CurveOf(f, b + c, omega)
  {
    hide Facts, Prod, SquaredNorm, Length, CurveOf, Turn, Compose;
    var n, theta, p, q := SquaredNorm(omega), Length(f, omega), CurveOf(f, b, omega), CurveOf(f, c, omega);
    OnlyCurve(f, b, omega, p);
    OnlyCurve(f, c, omega, q);
    SumOf(f, Prod(b, theta), Prod(c, theta));
    PSpread(b, c, theta);
    LengthOf(f, omega);
    ComposedCurve(f, b, c, theta, n, p, q);
    OnlyCurve(f, b + c, omega, Compose(n, p, q));
  }

  lemma ComposedCurve(f: Elementary, b: real, c: real, theta: real, n: real, p: Curve, q: Curve)
    requires IsCurve(f, b, theta, n, p) && IsCurve(f, c, theta, n, q) && Prod(theta, theta) == n
    requires var x, y := Prod(b, theta), Prod(c, theta);
             && f.sin(Prod(b + c, theta)) == Prod(f.sin(x), f.cos(y)) + Prod(f.cos(x), f.sin(y))
             && f.cos(Prod(b + c, theta)) == Prod(f.cos(x), f.cos(y)) - Prod(f.sin(x), f.sin(y))
    ensures IsCurve(f, b + c, theta, n, Compose(n, p, q))
  {
    var x, y := Prod(b, theta), Prod(c, theta);
    PComposeTurn(n, p.a, p.b, Turn(n, p), q.a, q.b, Turn(n, q));
    PCosines(n, theta, p.a, Turn(n, p), q.a, Turn(n, q), f.sin(x), f.cos(x), f.sin(y), f.cos(y));
    PSines(n, theta, p.a, Turn(n, p), q.a, Turn(n, q), f.sin(x), f.cos(x), f.sin(y), f.cos(y));
    TurnOfCompose(n, p, q);
    hide Prod, Turn;
  }

  lemma TurnOfCompose(n: real, p: Curve, q: Curve)
    ensures Turn(n, Compose(n, p, q)) == Turn(n, p) + Turn(n, q) - Prod(n, Prod(Turn(n, p), q.a) + Prod(p.a, Turn(n, q)))
  {
    PComposeTurn(n, p.a, p.b, Turn(n, p), q.a, q.b, Turn(n, q));
    hide Prod;
  }

  lemma PCosines(n: real, theta: real, a: real, g: real, a': real, g': real, s: real, c: real, s': real, c': real)
    requires Prod(theta, theta) == n && Prod(a, n) == 1.0 - c && Prod(a', n) == 1.0 - c' && Prod(g, theta) == s && Prod(g', theta) == s'
    ensures Prod(a + a' + Prod(g, g') - Prod(n, Prod(a, a')), n) == 1.0 - (Prod(c, c') - Prod(s, s'))
  {
    assert Prod(Prod(g, g'), n) == Prod(g, theta) * Prod(g', theta);
    assert Prod(Prod(n, Prod(a, a')), n) == Prod(a, n) * Prod(a', n);
    assert (1.0 - c) * (1.0 - c') == 1.0 - c - c' + Prod(c, c');
    assert Prod(s, s') == s * s';
    PSpreadFour(a, a', Prod(g, g'), Prod(n, Prod(a, a')), n);
    hide Prod;
  }

  lemma PSpreadFour(x: real, y: real, z: real, w: real, n: real)
    ensures Prod(x + y + z - w, n) == Prod(x, n) + Prod(y, n) + Prod(z, n) - Prod(w, n)
  {}

  lemma PSines(n: real, theta: real, a: real, g: real, a': real, g': real, s: real, c: real, s': real, c': real)
    requires Prod(a, n) == 1.0 - c && Prod(a', n) == 1.0 - c' && Prod(g, theta) == s && Prod(g', theta) == s'
    ensures Prod(g + g' - Prod(n, Prod(g, a') + Prod(a, g')), theta) == Prod(s, c') + Prod(c, s')
  {
    assert Prod(Prod(n, Prod(g, a') + Prod(a, g')), theta) == Prod(g, theta) * Prod(a', n) + Prod(a, n) * Prod(g', theta);
    assert s * (1.0 - c') == s - Prod(s, c') && (1.0 - c) * s' == s' - Prod(c, s');
    PSpreadFour(g, g', 0.0, Prod(n, Prod(g, a') + Prod(a, g')), theta);
    POnes(theta);
    hide Prod;
  }

  lemma MotionsCompose(f: Elementary, b: real, c: real, v: Se3.Twist)
    requires Facts(f)
    ensures Motion(v, CurveOf(f, b + c, v.omega)) == Mul4(Motion(v, CurveOf(f, b, v.omega)), Motion(v, CurveOf(f, c, v.omega)))
  {
    hide Facts, Prod, SquaredNorm, CurveOf, Compose, Motion, Mul4;
    if v.omega == ZERO {
      CurveOfTranslation(f, b);
      CurveOfTranslation(f, c);
      CurveOfTranslation(f, b + c);
      MotionOfTranslation(v, b);
      MotionOfTranslation(v, c);
      MotionOfTranslation(v, b + c);
      Spline.TranslationMatrix(Scale(b, v.upsilon), Scale(c, v.upsilon));
      AddScale(b, c, v.upsilon);
    } else {
      CurvesCompose(f, b, c, v.omega);
      MotionTimes(v, CurveOf(f, b, v.omega), CurveOf(f, c, v.omega));
    }
    hide Scale, Add;
  }

  /** The exponential of the spline: with V = hat(v), exp(b v) is I + b V + a V^2 + c V^3, where a and c are
      (1 - cos(b theta)) / theta^2 and (b - sin(b theta) / theta) / theta^2. */
  lemma ExpIsPowers(f: Elementary, b: real, v: Se3.Twist)
    requires Facts(f) && ClearFactor(b, v.omega)
    ensures var l := Poses(f);
            l.valid(l.exp(l.times(b, v))) && l.matrix(l.exp(l.times(b, v))) == Powers(l.hat(v), CurveOf(f, b, v.omega))
  {
    hide Facts, ClearFactor, CurveOf, Powers, Motion, Se3Exp, Se3Group.Valid, Se3Group.Homogeneous, MatrixOf, Composed, Logged, Se3Group.HatMatrix,
         ScaleTwist;
    ValidFactor(f, b, v);
    ExpIsMotion(f, b, v);
    MatrixOfValid(Se3Exp(f, ScaleTwist(b, v)));
    MotionIsPowers(v, CurveOf(f, b, v.omega));
  }

  /** The multiples of a twist act as times along one motion: first b, then c, is b + c. */
  lemma TimesAdds(f: Elementary, b: real, c: real, v: Se3.Twist)
    requires Facts(f) && ClearFactor(b, v.omega) && ClearFactor(c, v.omega) && ClearFactor(b + c, v.omega)
    ensures var l := Poses(f);
            l.matrix(l.exp(l.times(b + c, v))) == Mul4(l.matrix(l.exp(l.times(b, v))), l.matrix(l.exp(l.times(c, v))))
  {
    hide Facts, ClearFactor, CurveOf, Powers, Motion, Mul4, Se3Exp, Se3Group.Valid, Se3Group.Homogeneous, MatrixOf, Composed, Logged, Se3Group.HatMatrix,
         ScaleTwist;
    ExpIsPowers(f, b, v);
    ExpIsPowers(f, c, v);
    ExpIsPowers(f, b + c, v);
    MotionIsPowers(v, CurveOf(f, b, v.omega));
    MotionIsPowers(v, CurveOf(f, c, v.omega));
    MotionIsPowers(v, CurveOf(f, b + c, v.omega));
    MotionsCompose(f, b, c, v);
  }
}
