/** The spline over the poses of SE3: its laws, and at which knots it is smooth. */
module Se3Spline {
  import opened Linear
  import opened Constants
  import opened Quaternions
  import opened UnitQuaternions
  import opened Checked
  import opened Affine
  import opened Elementary
  import opened ExpLog
  import opened TaylorBranches
  import Logarithm
  import RxSo3
  import So3
  import Se3
  import Se3Group
  import Se3Product
  import Sim3
  import Spline

  // ----- the poses as a group for the spline -----

  function ScaleTwist(b: real, v: Se3.Twist): Se3.Twist {
    Se3.Twist(Scale(b, v.upsilon), Scale(b, v.omega))
  }

  /** The product as the operator computes it. With a valid left factor it never aborts, and only
      such products are used. */
  ghost function Composed(f: Elementary, a: Se3.Pose, b: Se3.Pose): Se3.Pose
    requires Facts(f)
  {
    match Se3Product.Product(f, a, b)
    case Pass(p) => p
    case Abort => a
  }

  /** Log of a valid pose, which always passes; the value for other arguments is never used. */
  ghost function Logged(f: Elementary, a: Se3.Pose): Se3.Twist
    requires Facts(f)
  {
    if a.q.SquaredNorm() == 1.0 && Se3Log(f, a).Pass? then Se3Log(f, a).value else Se3.Twist(ZERO, ZERO)
  }

  /** The 4x4 matrix as the code makes it, from a quaternion taken to be unit. */
  function MatrixOf(a: Se3.Pose): Mat4 {
    Mat4(UnitMatrix(a.q), a.t, 1.0)
  }

  ghost function Poses(f: Elementary): Spline.Lie<Se3.Pose, Se3.Twist, Mat4>
    requires Facts(f)
  {
    Spline.Lie(
      (a: Se3.Pose) => Se3Group.Valid(a), (a: Se3.Pose, b: Se3.Pose) => Composed(f, a, b), (a: Se3.Pose) => Se3Group.Inverse(a),
      (v: Se3.Twist) => Se3Exp(f, v), (a: Se3.Pose) => Logged(f, a), (b: real, v: Se3.Twist) => ScaleTwist(b, v),
      (a: Se3.Pose) => MatrixOf(a), (v: Se3.Twist) => Se3Group.HatMatrix(v), Spline.Matrices())
  }

  lemma LoggedIs(f: Elementary, a: Se3.Pose)
    requires Facts(f) && a.q.SquaredNorm() == 1.0
    ensures So3Log(f, a.q).Pass? && Se3Log(f, a) == Pass(Logged(f, a)) && Logged(f, a).omega == So3Log(f, a.q).value.tangent
  {
    hide Facts, So3Log, Se3Log, Quaternion.SquaredNorm;
    LogPasses(f, a);
  }

  lemma MatrixOfValid(a: Se3.Pose)
    requires Se3Group.Valid(a)
    ensures MatrixOf(a) == Se3Group.Homogeneous(a)
  {
    UnitMatrixOfUnit(a.q);
    hide UnitMatrix, Matrix;
  }

  /** On valid poses the product is that of the group, and so is its matrix. */
  lemma ComposedIs(f: Elementary, a: Se3.Pose, b: Se3.Pose)
    requires Facts(f) && Se3Group.Valid(a) && Se3Group.Valid(b)
    ensures Composed(f, a, b) == Se3Group.Times(a, b) && Se3Group.Valid(Composed(f, a, b))
    ensures MatrixOf(Composed(f, a, b)) == Mul4(Se3Group.Homogeneous(a), Se3Group.Homogeneous(b))
  {
    hide Facts, Se3Group.Times, Se3Group.Homogeneous, MatrixOf, Mul4, Se3Product.Product, Se3Product.UnitPose, Quaternion.SquaredNorm;
    Se3Product.ProductIs(f, a, b);
    Se3Group.ProductIsGroup(a, b, a);
    MatrixOfValid(Composed(f, a, b));
  }

  /** The pose that exp makes, normalised. */
  ghost function UnitExp(f: Elementary, v: Se3.Twist): Se3.Pose
    requires Facts(f)
  {
    hide Facts, Se3Exp;
    ExpIsLong(f, v);
    Se3Product.UnitPose(f, Se3Exp(f, v))
  }

  lemma ExpIsLong(f: Elementary, v: Se3.Twist)
    requires Facts(f)
    ensures Se3Exp(f, v).q.SquaredNorm() >= 1.0
  {
    hide Facts, Length, So3.Regular, So3Exp, Se3Exp, Quaternion.SquaredNorm;
    RotationOfPose(f, v);
    UnitExactlyWhen(f, v.omega);
  }

  /** A factor exp(v) acts as the normalised exp(v). */
  lemma ComposedExp(f: Elementary, a: Se3.Pose, v: Se3.Twist)
    requires Facts(f) && Se3Group.Valid(a)
    ensures Se3Group.Valid(UnitExp(f, v)) && Composed(f, a, Se3Exp(f, v)) == Se3Group.Times(a, UnitExp(f, v))
    ensures Se3Group.Valid(Composed(f, a, Se3Exp(f, v)))
    ensures MatrixOf(Composed(f, a, Se3Exp(f, v))) == Mul4(Se3Group.Homogeneous(a), Se3Group.Homogeneous(UnitExp(f, v)))
  {
    hide Facts, Se3Exp, Se3Group.Times, Se3Group.Homogeneous, MatrixOf, Mul4, Se3Product.Product, Se3Product.UnitPose, Quaternion.SquaredNorm;
    ExpIsLong(f, v);
    Se3Product.ProductIs(f, a, Se3Exp(f, v));
    Se3Product.UnitPoseIsValid(f, Se3Exp(f, v));
    Se3Group.ProductIsGroup(a, UnitExp(f, v), a);
    MatrixOfValid(Composed(f, a, Se3Exp(f, v)));
  }

  lemma PoseMultiplies(f: Elementary, a: Se3.Pose, b: Se3.Pose)
    requires Facts(f)
    ensures Spline.Multiplies(Poses(f), a, b) && Spline.Inverts(Poses(f), a)
  {
    hide Facts, Se3Group.Valid, Se3Group.Times, Se3Group.Inverse, Se3Group.Homogeneous, MatrixOf, Mul4, Se3Exp, Logged, Composed;
    if Se3Group.Valid(a) {
      Se3Group.EmbedInverse(a);
      Se3Group.InverseIsGroup(a);
      MatrixOfValid(a);
      MatrixOfValid(Se3Group.Inverse(a));
      if Se3Group.Valid(b) {
        ComposedIs(f, a, b);
        MatrixOfValid(b);
      }
    }
  }

  lemma PoseCarries(f: Elementary, a: Se3.Pose, b: Se3.Pose, v: Se3.Twist)
    requires Facts(f)
    ensures Spline.Carries(Poses(f), a, b, v)
  {
    hide Facts, Se3Group.Valid, Se3Group.Times, Se3Group.Inverse, Se3Group.Homogeneous, MatrixOf, Mul4, Se3Exp, Logged, Composed, UnitExp;
    if Se3Group.Valid(a) && Se3Group.Valid(b) {
      ComposedExp(f, a, v);
      ComposedExp(f, b, v);
      MatrixOfValid(a);
      MatrixOfValid(b);
    }
  }

  lemma PoseStartsAtOne(f: Elementary, v: Se3.Twist)
    requires Facts(f)
    ensures Spline.StartsAtOne(Poses(f), v)
  {
    hide Facts, Composed, Se3Group.Inverse, Se3Group.Valid, Mul4, MatrixOf, Se3Exp, Logged, Scale, Matrix;
    ScaleUnit(v.upsilon);
    ScaleUnit(v.omega);
    ExpOfNoRotation(f, ZERO);
    UnitPose();
    MatrixOfValid(Se3.Pose(Real(1.0), ZERO));
  }

  lemma UnitPose()
    ensures Se3Group.Valid(Se3.Pose(Real(1.0), ZERO)) && Se3Group.Homogeneous(Se3.Pose(Real(1.0), ZERO)) == IDENTITY4
  {
    Sim3.UnitMatrix();
    hide Matrix;
  }

  /** The poses satisfy the laws that the theorems about the spline assume. */
  lemma PosesAreLie(f: Elementary)
    requires Facts(f)
    ensures Spline.LieLaws(Poses(f))
  {
    hide Facts, Poses, Spline.RingLaws, Spline.StartsAtOne, Spline.Multiplies, Spline.Inverts, Spline.Carries;
    RingOfPoses(f);
    Spline.MatricesAreRing();
    forall a, b
      ensures Spline.Multiplies(Poses(f), a, b)
    {
      PoseMultiplies(f, a, b);
    }
    forall a
      ensures Spline.Inverts(Poses(f), a)
    {
      PoseMultiplies(f, a, a);
    }
    forall a, b, v
      ensures Spline.Carries(Poses(f), a, b, v)
    {
      PoseCarries(f, a, b, v);
    }
    forall v
      ensures Spline.StartsAtOne(Poses(f), v)
    {
      PoseStartsAtOne(f, v);
    }
  }

  lemma RingOfPoses(f: Elementary)
    requires Facts(f)
    ensures Poses(f).ring == Spline.Matrices()
  {}

  // ----- poses with the same matrix -----

  lemma SameRotation(q: Quaternion)
    ensures Matrix(q.Times(-1.0)) == Matrix(q)
  {
    RxSo3.MatrixTimes(q, -1.0);
    PNegated(1.0, -1.0);
    POnes(-1.0);
    UnitScale(Matrix(q));
    hide Prod, Matrix, MatScale, Quaternion.Times;
  }

  lemma OnlyIdentity(r: Quaternion)
    requires r.SquaredNorm() == 1.0 && Matrix(r) == IDENTITY
    ensures r == Real(1.0) || r == Real(-1.0)
  {
    MatrixEntries(r);
    NormEntries(r);
    SquareSign(r.x, Prod(r.x, r.x));
    SquareSign(r.y, Prod(r.y, r.y));
    SquareSign(r.z, Prod(r.z, r.z));
    SignOfUnit(r.w);
    hide Prod, Matrix, Quaternion.SquaredNorm;
  }

  /** Two unit quaternions with the same matrix differ by no more than the sign. */
  lemma OnlySigns(p: Quaternion, q: Quaternion)
    requires p.SquaredNorm() == 1.0 && q.SquaredNorm() == 1.0 && Matrix(p) == Matrix(q)
    ensures p == q || p == q.Times(-1.0)
  {
    hide Prod, Matrix, Mul, QuaternionProduct, Quaternion.SquaredNorm, Quaternion.Conjugate, Quaternion.Times;
    var r := QuaternionProduct(q.Conjugate(), p);
    TransposeConjugate(q);
    NormProduct(q.Conjugate(), p);
    MatrixProduct(q.Conjugate(), p);
    OrthogonalLeft(q);
    POnes(1.0);
    UnitScale(IDENTITY);
    OnlyIdentity(r);
    ProductAssoc(q, q.Conjugate(), p);
    ProductConjugate(q);
    ProductReal(1.0, p);
    ProductReal(1.0, q);
    ProductReal(-1.0, q);
    RxSo3.TimesOne(p);
    RxSo3.TimesOne(q);
  }

  lemma SameHomogeneous(a: Se3.Pose, b: Se3.Pose)
    requires Se3Group.Valid(a) && Se3Group.Valid(b)
    ensures Se3Group.Homogeneous(a) == Se3Group.Homogeneous(b) <==> a == b || a == Se3.Pose(b.q.Times(-1.0), b.t)
  {
    hide Matrix, Quaternion.SquaredNorm, Quaternion.Times;
    SameRotation(b.q);
    if Matrix(a.q) == Matrix(b.q) {
      OnlySigns(a.q, b.q);
    }
  }

  lemma CancelRight(a: Se3.Pose, b: Se3.Pose, u: Se3.Pose)
    requires Se3Group.Valid(u) && Mul4(Se3Group.Homogeneous(a), Se3Group.Homogeneous(u)) == Mul4(Se3Group.Homogeneous(b), Se3Group.Homogeneous(u))
    ensures Se3Group.Homogeneous(a) == Se3Group.Homogeneous(b)
  {
    hide Se3Group.Valid, Se3Group.Homogeneous, Se3Group.Times, Se3Group.Inverse, Mul4;
    Se3Group.InverseIsGroup(u);
    var m, n := Se3Group.Homogeneous(u), Se3Group.Homogeneous(Se3Group.Inverse(u));
    Mul4Assoc(Se3Group.Homogeneous(a), m, n);
    Mul4Assoc(Se3Group.Homogeneous(b), m, n);
    Mul4Identity(Se3Group.Homogeneous(a));
    Mul4Identity(Se3Group.Homogeneous(b));
  }

  // ----- the step that ends at a knot -----

  /** The difference of two poses, of which the spline takes the logarithm. */
  function Difference(p: Se3.Pose, q: Se3.Pose): Se3.Pose {
    Se3Group.Times(Se3Group.Inverse(p), q)
  }

  lemma DifferenceIs(f: Elementary, p: Se3.Pose, q: Se3.Pose)
    requires Facts(f) && Se3Group.Valid(p) && Se3Group.Valid(q)
    ensures Composed(f, Se3Group.Inverse(p), q) == Difference(p, q) && Se3Group.Valid(Difference(p, q))
    ensures Mul4(Se3Group.Homogeneous(p), Se3Group.Homogeneous(Difference(p, q))) == Se3Group.Homogeneous(q)
  {
    hide Facts, Composed, Se3Group.Homogeneous, Se3Group.Times, Se3Group.Inverse, Mul4, Quaternion.SquaredNorm;
    Se3Group.EmbedInverse(p);
    ComposedIs(f, Se3Group.Inverse(p), q);
    Se3Group.ProductIsGroup(Se3Group.Inverse(p), q, q);
    Se3Group.InverseIsGroup(p);
    Mul4Assoc(Se3Group.Homogeneous(p), Se3Group.Homogeneous(Se3Group.Inverse(p)), Se3Group.Homogeneous(q));
    Mul4Identity(Se3Group.Homogeneous(q));
  }

  /** No rotation, or a quaternion whose vector part is at least epsilon long. */
  predicate Clear(q: Quaternion) {
    q.Vec() == ZERO || Logarithm.SquaredVec(q) >= EPSILON * EPSILON
  }

  lemma ClearStep(f: Elementary, p: Se3.Pose, q: Se3.Pose)
    requires Facts(f) && Se3Group.Valid(p) && Se3Group.Valid(q) && Clear(Difference(p, q).q)
    ensures Spline.Step(Poses(f), p, q)
  {
    hide Facts, Logarithm.SquaredVec, MatrixOf, Composed, Se3Exp, Se3Log, Logged, Difference, Se3Group.Homogeneous, Se3Group.Inverse, Quaternion.SquaredNorm,
         Quaternion.Times, Quaternion.Vec;
    var g := Difference(p, q);
    DifferenceIs(f, p, q);
    LoggedIs(f, g);
    Se3ExpOfLogExactlyWhen(f, g);
    NegatedNorm(g.q);
    var e := Se3Exp(f, Logged(f, g));
    SameHomogeneous(e, g);
    MatrixOfValid(e);
    MatrixOfValid(g);
  }

  /** The normalised exp of the logarithm takes p to q, as far as the matrix goes, only if the
      step is clear. */
  lemma OnlyClear(f: Elementary, p: Se3.Pose, q: Se3.Pose)
    requires Facts(f) && Se3Group.Valid(p) && Se3Group.Valid(q)
    requires MatrixOf(Composed(f, p, Se3Exp(f, Logged(f, Difference(p, q))))) == MatrixOf(q)
    ensures Clear(Difference(p, q).q)
  {
    hide Facts, Logarithm.SquaredVec, MatrixOf, Composed, Mul4, Se3Exp, Se3Log, Logged, Difference, Se3Group.Homogeneous, Se3Group.Inverse, Quaternion.SquaredNorm,
         Quaternion.Times, Quaternion.Vec, Se3Product.UnitPose;
    var g := Difference(p, q);
    var v := Logged(f, g);
    DifferenceIs(f, p, q);
    LoggedIs(f, g);
    ComposedExp(f, p, v);
    MatrixOfValid(q);
    CancelLeft(p, UnitExp(f, v), g);
    SameHomogeneous(UnitExp(f, v), g);
    Se3Product.UnitExpOfLogExactlyWhen(f, g);
  }

  lemma CancelLeft(a: Se3.Pose, u: Se3.Pose, v: Se3.Pose)
    requires Se3Group.Valid(a) && Mul4(Se3Group.Homogeneous(a), Se3Group.Homogeneous(u)) == Mul4(Se3Group.Homogeneous(a), Se3Group.Homogeneous(v))
    ensures Se3Group.Homogeneous(u) == Se3Group.Homogeneous(v)
  {
    hide Se3Group.Valid, Se3Group.Homogeneous, Se3Group.Times, Se3Group.Inverse, Mul4;
    Se3Group.InverseIsGroup(a);
    var m, n := Se3Group.Homogeneous(a), Se3Group.Homogeneous(Se3Group.Inverse(a));
    Mul4Assoc(n, m, Se3Group.Homogeneous(u));
    Mul4Assoc(n, m, Se3Group.Homogeneous(v));
    Mul4Identity(Se3Group.Homogeneous(u));
    Mul4Identity(Se3Group.Homogeneous(v));
  }

  // ----- smoothness -----

  /** The difference of the two control points between which the step lies that ends at knot i + 1. */
  function StepAt(points: seq<Se3.Pose>, i: int): Quaternion
    requires |points| >= 1
  {
    Difference(Spline.Clamped(points, i - 1), Spline.Clamped(points, i)).q
  }

  ghost predicate Meets(f: Elementary, points: seq<Se3.Pose>, i: int)
    requires Facts(f) && |points| >= 2 && 0 <= i < |points| - 2
  {
    MatrixOf(Spline.Evaluate(Poses(f), points, i, 1.0).value) == MatrixOf(Spline.Evaluate(Poses(f), points, i + 1, 0.0).value)
  }

  /** Two segments that meet at a knot start from points with the same matrix. */
  lemma MeetsBackwards(f: Elementary, p0: Se3.Pose, p1: Se3.Pose, v0: Se3.Twist, v1: Se3.Twist, v2: Se3.Twist)
    requires Facts(f) && Se3Group.Valid(p0) && Se3Group.Valid(p1)
    requires MatrixOf(Composed(f, Composed(f, Composed(f, p0, Se3Exp(f, v0)), Se3Exp(f, v1)), Se3Exp(f, v2)))
          == MatrixOf(Composed(f, Composed(f, p1, Se3Exp(f, v1)), Se3Exp(f, v2)))
    ensures MatrixOf(Composed(f, p0, Se3Exp(f, v0))) == MatrixOf(p1)
  {
    hide Facts, MatrixOf, Composed, UnitExp, Se3Exp, Mul4, Se3Group.Valid, Se3Group.Homogeneous;
    var a, b := Composed(f, p0, Se3Exp(f, v0)), p1;
    ComposedExp(f, p0, v0);
    ComposedExp(f, a, v1);
    ComposedExp(f, b, v1);
    var c, d := Composed(f, a, Se3Exp(f, v1)), Composed(f, b, Se3Exp(f, v1));
    ComposedExp(f, c, v2);
    ComposedExp(f, d, v2);
    CancelRight(c, d, UnitExp(f, v2));
    MatrixOfValid(a);
    MatrixOfValid(b);
    MatrixOfValid(c);
    MatrixOfValid(d);
    CancelRight(a, b, UnitExp(f, v1));
  }

  /** The values on both sides of an interior knot are the same if and only if the step that ends
      there has no rotation or a quaternion with a vector part of at least epsilon; and then the
      first and second derivatives are the same too. At the first knot this is always so. */
  lemma SmoothExactlyWhen(f: Elementary, points: seq<Se3.Pose>, i: int, deltaT: real)
    requires Facts(f) && |points| >= 2 && 0 <= i < |points| - 2 && deltaT != 0.0
    requires forall k :: 0 <= k < |points| ==> Se3Group.Valid(points[k])
    ensures var l := Poses(f);
            && Spline.Evaluate(l, points, i, 1.0).Pass? && Spline.Evaluate(l, points, i + 1, 0.0).Pass?
            && (Meets(f, points, i) <==> Clear(StepAt(points, i)))
            && (Meets(f, points, i) ==> Spline.EvaluateDt(l, points, i, 1.0, deltaT) == Spline.EvaluateDt(l, points, i + 1, 0.0, deltaT))
            && (Meets(f, points, i) ==> Spline.EvaluateDt2(l, points, i, 1.0, deltaT) == Spline.EvaluateDt2(l, points, i + 1, 0.0, deltaT))
    ensures i == 0 ==> Clear(StepAt(points, i))
  {
    hide Facts, Clear, Difference, Composed, MatrixOf, Se3Exp, Logged, Se3Group.Valid, Spline.LieLaws, Spline.Step, Spline.SegmentControl, Spline.ParentTSpline,
         Spline.DtParentTSpline, Spline.Dt2ParentTSpline;
    PosesAreLie(f);
    var p, q := Spline.Clamped(points, i - 1), Spline.Clamped(points, i);
    if i == 0 {
      NoStep(p);
    }
    if Clear(StepAt(points, i)) {
      ClearStep(f, p, q);
      Spline.SmoothAtKnots(Poses(f), points, i, deltaT);
    } else {
      NotClear(f, points, i);
    }
  }

  lemma NotClear(f: Elementary, points: seq<Se3.Pose>, i: int)
    requires Facts(f) && |points| >= 2 && 0 <= i < |points| - 2
    requires forall k :: 0 <= k < |points| ==> Se3Group.Valid(points[k])
    requires !Clear(StepAt(points, i))
    ensures Spline.Evaluate(Poses(f), points, i, 1.0).Pass? && Spline.Evaluate(Poses(f), points, i + 1, 0.0).Pass? && !Meets(f, points, i)
  {
    hide Facts, Clear, Difference, Composed, MatrixOf, Se3Exp, Logged, Se3Group.Valid, Spline.LieLaws, Spline.Step, Spline.SegmentControl, Spline.ParentTSpline;
    var l, p, q := Poses(f), Spline.Clamped(points, i - 1), Spline.Clamped(points, i);
    PosesAreLie(f);
    var v0, v1, v2, v3 := Spline.Knot(l, points, i);
    DifferenceIs(f, p, q);
    Spline.ValueAtEnd(l, p, Spline.Triple(v0, v1, v2));
    Spline.ValueAtStart(l, q, Spline.Triple(v1, v2, v3));
    var w1, w2 := ScaleTwist(5.0 / 6.0, v1), ScaleTwist(1.0 / 6.0, v2);
    Spline.Unmoved(l, q, w1, w2, v3);
    if Meets(f, points, i) {
      MeetsBackwards(f, p, q, v0, w1, w2);
      OnlyClear(f, p, q);
    }
  }

  lemma NoStep(p: Se3.Pose)
    requires Se3Group.Valid(p)
    ensures Clear(Difference(p, p).q)
  {
    hide Se3Group.Valid, Se3Group.Times, Se3Group.Inverse, Se3Group.Homogeneous, Mul4, Logarithm.SquaredVec;
    Se3Group.InverseIsGroup(p);
    IdentityIsUnit();
  }

  // ----- the derivatives -----

  /** Exp of a multiple of a twist is valid without rotation or with one beyond the threshold. */
  lemma ValidMultiple(f: Elementary, b: real, v: Se3.Twist)
    requires Facts(f) && b != 0.0
    ensures Se3Group.Valid(Se3Exp(f, ScaleTwist(b, v))) <==> v.omega == ZERO || Prod(Prod(b, b), SquaredNorm(v.omega)) >= EPSILON * EPSILON
  {
    hide Facts, Prod, Length, SquaredNorm, Scale, So3.ExpAndTheta, So3.LeftJacobian, Apply, Quaternion.SquaredNorm;
    var omega := Scale(b, v.omega);
    UnitExactlyWhen(f, omega);
    LengthOf(f, omega);
    ScaledLength(b, v.omega);
    NonzeroMultiple(b, v.omega);
  }

  /** A factor exp(b v) with the values the basis takes. */
  predicate ClearFactor(b: real, omega: Vec3) {
    b == 0.0 || omega == ZERO || Prod(Prod(b, b), SquaredNorm(omega)) >= EPSILON * EPSILON
  }

  lemma ValidFactor(f: Elementary, b: real, v: Se3.Twist)
    requires Facts(f)
    ensures Se3Group.Valid(Se3Exp(f, ScaleTwist(b, v))) <==> ClearFactor(b, v.omega)
  {
    hide Facts, Prod, SquaredNorm, Scale, Se3Exp;
    if b == 0.0 {
      ScaleUnit(v.upsilon);
      ScaleUnit(v.omega);
      ExpOfNoRotation(f, ZERO);
      UnitPose();
    } else {
      ValidMultiple(f, b, v);
    }
    hide Se3Group.Valid;
  }

  /** Value and derivatives on poses follow the product rule wherever every factor turns not at
      all or beyond the Taylor threshold. */
  lemma DerivativesOfPoses(f: Elementary, point: Se3.Pose, v: Spline.Triple<Se3.Twist>, u: real, deltaT: real)
    requires Facts(f) && Se3Group.Valid(point) && deltaT != 0.0
    requires ClearFactor(Spline.B(u).x, v.x0.omega) && ClearFactor(Spline.B(u).y, v.x1.omega) && ClearFactor(Spline.B(u).z, v.x2.omega)
    ensures Spline.SplineJet(Poses(f), point, v, u, deltaT) ==
      Spline.Jet(MatrixOf(Spline.ParentTSpline(Poses(f), point, v, u)), Spline.DtParentTSpline(Poses(f), point, v, u, deltaT),
                 Spline.Dt2ParentTSpline(Poses(f), point, v, u, deltaT))
  {
    hide Facts, Spline.B, ClearFactor, ScaleTwist, Se3Exp, Composed, Se3Group.Valid, MatrixOf, Spline.LieLaws, Spline.SplineJet, Spline.ParentTSpline,
         Spline.DtParentTSpline, Spline.Dt2ParentTSpline;
    PosesAreLie(f);
    ValidFactor(f, Spline.B(u).x, v.x0);
    ValidFactor(f, Spline.B(u).y, v.x1);
    ValidFactor(f, Spline.B(u).z, v.x2);
    Spline.DerivativesAreProductRule(Poses(f), point, v, u, deltaT);
  }

  // ----- an input -----

  /** A step by half of epsilon between the first two of four control points: the spline jumps at
      the second knot, whatever the others are. */
  lemma JumpInput(f: Elementary, t: real, w: real, x: real, r: Se3.Pose, s: Se3.Pose)
    requires Facts(f) && t == 0.25 * EPSILON && Prod(w, 1.0 + Prod(t, t)) == 1.0 - Prod(t, t) && Prod(x, 1.0 + Prod(t, t)) == 2.0 * t
    requires Se3Group.Valid(r) && Se3Group.Valid(s)
    ensures var points := [Se3.Pose(Real(1.0), ZERO), Se3.Pose(Quaternion(w, x, 0.0, 0.0), ZERO), r, s];
            (forall k :: 0 <= k < |points| ==> Se3Group.Valid(points[k])) && !Meets(f, points, 1)
  {
    hide *;
    SmallRotation(t, w, x);
    UnitPose();
    UnitIsValid(Se3.Pose(Quaternion(w, x, 0.0, 0.0), ZERO));
    JumpAfter(f, [Se3.Pose(Real(1.0), ZERO), Se3.Pose(Quaternion(w, x, 0.0, 0.0), ZERO), r, s]);
  }

  lemma UnitIsValid(a: Se3.Pose)
    ensures Se3Group.Valid(a) <==> a.q.SquaredNorm() == 1.0
  {}

  lemma JumpAfter(f: Elementary, points: seq<Se3.Pose>)
    requires Facts(f) && |points| == 4 && points[0] == Se3.Pose(Real(1.0), ZERO)
    requires Se3Group.Valid(points[1]) && Se3Group.Valid(points[2]) && Se3Group.Valid(points[3])
    requires points[1].q.Vec() != ZERO && Logarithm.SquaredVec(points[1].q) < EPSILON * EPSILON
    ensures forall k :: 0 <= k < |points| ==> Se3Group.Valid(points[k])
    ensures !Meets(f, points, 1)
  {
    hide Facts, Meets, Matrix, Se3Group.Valid, Se3Group.Homogeneous, Se3Group.Times, Se3Group.Inverse, Quaternion.SquaredNorm, Logarithm.SquaredVec,
         Quaternion.Vec;
    UnitPose();
    Se3Group.InverseOfIdentity();
    Se3Group.IdentityTimes(points[1]);
    NotClear(f, points, 1);
  }

  lemma SmallRotation(t: real, w: real, x: real)
    requires t == 0.25 * EPSILON && Prod(w, 1.0 + Prod(t, t)) == 1.0 - Prod(t, t) && Prod(x, 1.0 + Prod(t, t)) == 2.0 * t
    ensures var q := Quaternion(w, x, 0.0, 0.0);
            q.SquaredNorm() == 1.0 && Logarithm.SquaredVec(q) < EPSILON * EPSILON && q.Vec() != ZERO
  {
    var k := 1.0 + Prod(t, t);
    SquarePositive(t, Prod(t, t));
    PCircle(w, x, k, t);
    PSmall(x, k, t);
    POnes(0.0);
    hide Prod, Quotient;
  }

  lemma PCircle(w: real, x: real, k: real, t: real)
    requires k == 1.0 + Prod(t, t) && k > 0.0 && Prod(w, k) == 1.0 - Prod(t, t) && Prod(x, k) == 2.0 * t
    ensures w * w + x * x + 0.0 * 0.0 + 0.0 * 0.0 == 1.0
  {
    assert (w * w + x * x) * (k * k) == Prod(w, k) * Prod(w, k) + Prod(x, k) * Prod(x, k) == k * k;
    PositiveProduct(k, k, k * k);
    CancelEq(k * k, w * w + x * x, 1.0);
    hide Prod;
  }

  lemma PSmall(x: real, k: real, t: real)
    requires k > 1.0 && t == 0.25 * EPSILON && Prod(x, k) == 2.0 * t
    ensures x > 0.0 && Prod(x, x) < EPSILON * EPSILON
  {}
}
