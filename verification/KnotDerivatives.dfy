/** The derivatives of the spline over poses at the start of a segment, where the last factor has
    not yet set out: for small steps it turns by less than the Taylor threshold of exp. */
module KnotDerivatives {
  import opened Linear
  import opened Constants
  import opened Skew
  import opened Quaternions
  import opened Affine
  import opened Elementary
  import opened ExpLog
  import opened TaylorBranches
  import opened Expansions
  import opened Se3Spline
  import opened SplineDerivatives
  import So3
  import Se3
  import Se3Group
  import Se3Product
  import Spline

  // ----- a factor in the Taylor branch -----

  /** The rotation of a unit quaternion with a small vector part. */
  lemma SmallQuaternion(a: Quaternion, e: real)
    requires a.SquaredNorm() == 1.0 && AtMostVec(a.Vec(), e)
    ensures AtMostVec(Sub(Matrix(a).r0, E0), 4.0 * e) && AtMostVec(Sub(Matrix(a).r1, E1), 4.0 * e) && AtMostVec(Sub(Matrix(a).r2, E2), 4.0 * e)
  {
    hide Prod, Matrix, Quaternion.SquaredNorm;
    MatrixEntries(a);
    NormEntries(a);
    UnitComponents(a);
    SmallSquare(a.x, e);
    SmallSquare(a.y, e);
    SmallSquare(a.z, e);
    SmallProducts(a.x, a.y, e);
    SmallProducts(a.y, a.z, e);
    SmallProducts(a.z, a.x, e);
    SmallProducts(a.x, a.w, e);
    SmallProducts(a.y, a.w, e);
    SmallProducts(a.z, a.w, e);
  }

  lemma UnitComponents(a: Quaternion)
    requires a.SquaredNorm() == 1.0
    ensures AtMost(a.w, 1.0) && AtMost(a.x, 1.0) && AtMost(a.y, 1.0) && AtMost(a.z, 1.0)
  {
    NormEntries(a);
    SquareSign(a.w, Prod(a.w, a.w));
    SquareSign(a.x, Prod(a.x, a.x));
    SquareSign(a.y, Prod(a.y, a.y));
    SquareSign(a.z, Prod(a.z, a.z));
    BelowOne(a.w);
    BelowOne(a.x);
    BelowOne(a.y);
    BelowOne(a.z);
    hide Prod, Quaternion.SquaredNorm;
  }

  lemma BelowOne(x: real)
    requires Prod(x, x) <= 1.0
    ensures AtMost(x, 1.0)
  {
    var s := Size(x);
    if s > 1.0 {
      PositiveProduct(s - 1.0, s + 1.0, Prod(s, s) - 1.0);
      PNegatedStep(x);
    }
  }

  lemma SmallSquare(x: real, e: real)
    requires AtMost(x, e) && AtMost(x, 1.0)
    ensures 0.0 <= Prod(x, x) <= e
  {
    AtMostProduct(x, x, e, 1.0);
    SquareSign(x, Prod(x, x));
    POnes(e);
    hide Prod;
  }

  lemma SmallProducts(x: real, y: real, e: real)
    requires AtMost(x, e) && AtMost(y, 1.0)
    ensures AtMost(Prod(x, y), e) && AtMost(Prod(y, x), e)
  {
    AtMostProduct(x, y, e, 1.0);
    POnes(e);
    PSym(x, y);
    hide Prod;
  }

  /** A multiple of at most one in size. */
  lemma SmallMultiple(k: real, x: real, e: real)
    requires AtMost(k, 1.0) && AtMost(x, e)
    ensures AtMost(Prod(k, x), e)
  {
    SmallProducts(x, k, e);
  }

  /** A factor with exponent b, normalised as the product does it. */
  ghost function FactorMatrix(f: Elementary, b: real, v: Se3.Twist): Mat4
    requires Facts(f)
  {
    Se3Group.Homogeneous(UnitExp(f, ScaleTwist(b, v)))
  }

  function BandBound(v: Se3.Twist): real {
    4.0 * SizeVec(v.omega) + SizeVec(v.upsilon)
  }

  /** In the Taylor branch the factor is the identity, up to a multiple of its exponent. */
  lemma BandFactor(f: Elementary, b: real, v: Se3.Twist)
    requires Facts(f) && !ClearFactor(b, v.omega)
    ensures AtMostMat(Sub4(FactorMatrix(f, b, v), IDENTITY4), Prod(BandBound(v), Size(b)))
  {
    hide Facts, Prod, SquaredNorm, Se3Exp, Se3Product.UnitPose, Matrix, Scale, SizeVec, Size, Quaternion.SquaredNorm, Quaternion.Vec;
    var t := ScaleTwist(b, v);
    var e := Prod(SizeVec(v.omega), Size(b));
    ExpIsLong(f, t);
    Se3Product.UnitPoseIsValid(f, Se3Exp(f, t));
    BandRotation(f, b, v);
    SmallQuaternion(UnitExp(f, t).q, e);
    BandTranslation(f, b, v);
    SizeVecIsSigned(v.omega);
    SizeVecIsSigned(v.upsilon);
    SizeIsSigned1(b);
    ProductSign(SizeVec(v.omega), Size(b));
    ProductSign(SizeVec(v.upsilon), Size(b));
    PBandBound(SizeVec(v.omega), SizeVec(v.upsilon), Size(b));
    LooserVec(Sub(Matrix(UnitExp(f, t).q).r0, E0), 4.0 * e, Prod(BandBound(v), Size(b)));
    LooserVec(Sub(Matrix(UnitExp(f, t).q).r1, E1), 4.0 * e, Prod(BandBound(v), Size(b)));
    LooserVec(Sub(Matrix(UnitExp(f, t).q).r2, E2), 4.0 * e, Prod(BandBound(v), Size(b)));
    LooserVec(UnitExp(f, t).t, Prod(SizeVec(v.upsilon), Size(b)), Prod(BandBound(v), Size(b)));
    SubNothing(UnitExp(f, t).t);
  }

  lemma SizeIsSigned1(b: real)
    ensures Size(b) >= 0.0
  {}

  lemma PBandBound(w: real, u: real, b: real)
    ensures Prod(4.0 * w + u, b) == 4.0 * Prod(w, b) + Prod(u, b)
  {}

  lemma LooserVec(x: Vec3, k: real, l: real)
    requires AtMostVec(x, k) && k <= l
    ensures AtMostVec(x, l)
  {}

  lemma SubNothing(x: Vec3)
    ensures Sub(x, ZERO) == x
  {}

  /** Band parts: the rotation vector is short and not zero. */
  lemma BandAxis(f: Elementary, b: real, v: Se3.Twist)
    requires Facts(f) && !ClearFactor(b, v.omega)
    ensures b != 0.0 && ScaleTwist(b, v).omega != ZERO && !So3.Regular(Length(f, ScaleTwist(b, v).omega))
    ensures AtMostVec(ScaleTwist(b, v).omega, 1.0)
  {
    hide Facts, Prod, Length, SquaredNorm, Scale;
    var omega := Scale(b, v.omega);
    LengthOf(f, omega);
    ScaledLength(b, v.omega);
    NonzeroMultiple(b, v.omega);
    ShortAxis(omega);
  }

  lemma ShortAxis(omega: Vec3)
    requires SquaredNorm(omega) <= 1.0
    ensures AtMostVec(omega, 1.0)
  {
    SquareSign(omega.x, Prod(omega.x, omega.x));
    SquareSign(omega.y, Prod(omega.y, omega.y));
    SquareSign(omega.z, Prod(omega.z, omega.z));
    BelowOne(omega.x);
    BelowOne(omega.y);
    BelowOne(omega.z);
    hide Prod;
  }

  lemma BandRotation(f: Elementary, b: real, v: Se3.Twist)
    requires Facts(f) && !ClearFactor(b, v.omega)
    ensures UnitExp(f, ScaleTwist(b, v)).q.SquaredNorm() == 1.0 && AtMostVec(UnitExp(f, ScaleTwist(b, v)).q.Vec(), Prod(SizeVec(v.omega), Size(b)))
  {
    hide Facts, Prod, Quotient, SquaredNorm, Length, So3.Regular, So3Exp, Se3Exp, Scale, ExpSeries, Quaternion.SquaredNorm, Quaternion.Vec;
    var t := ScaleTwist(b, v);
    BandAxis(f, b, v);
    RotationOfPose(f, t);
    var i, r := ExpTaylorParts(f, t.omega);
    TaylorRanges(SquaredNorm(t.omega), i, r);
    var q := Se3Exp(f, t).q;
    ExpIsLong(f, t);
    Se3Product.LongRoot(f, q.SquaredNorm());
    Se3Product.UnitPoseIsValid(f, Se3Exp(f, t));
    var length := f.sqrt(q.SquaredNorm());
    ShortQuotient(Quotient(1.0, length), length);
    VecTimes(q, Quotient(1.0, length));
    BandVector(Quotient(1.0, length), i, b, v.omega);
  }

  lemma VecTimes(q: Quaternion, k: real)
    ensures q.Times(k).Vec() == Scale(k, q.Vec())
  {}

  lemma ShortQuotient(k: real, length: real)
    requires Prod(k, length) == 1.0 && length >= 1.0
    ensures AtMost(k, 1.0)
  {
    if k > 1.0 {
      ProductSign(k - 1.0, length);
      PositiveProduct(k - 1.0, length, Prod(k - 1.0, length));
      PSpread(k, 1.0, length);
      POnes(length);
    }
    if k < 0.0 {
      ProductSign(-k, length);
      PNegated(k, length);
    }
    hide Prod;
  }

  lemma BandVector(k: real, i: real, b: real, omega: Vec3)
    requires AtMost(k, 1.0) && AtMost(i, 1.0)
    ensures AtMostVec(Scale(k, Scale(i, Scale(b, omega))), Prod(SizeVec(omega), Size(b)))
  {
    hide Prod;
    var e := Prod(SizeVec(omega), Size(b));
    BandEntry(b, omega.x, SizeVec(omega));
    BandEntry(b, omega.y, SizeVec(omega));
    BandEntry(b, omega.z, SizeVec(omega));
    SmallMultiple(i, Prod(b, omega.x), e);
    SmallMultiple(i, Prod(b, omega.y), e);
    SmallMultiple(i, Prod(b, omega.z), e);
    SmallMultiple(k, Prod(i, Prod(b, omega.x)), e);
    SmallMultiple(k, Prod(i, Prod(b, omega.y)), e);
    SmallMultiple(k, Prod(i, Prod(b, omega.z)), e);
  }

  lemma BandEntry(b: real, x: real, k: real)
    requires AtMost(x, k)
    ensures AtMost(Prod(b, x), Prod(k, Size(b)))
  {
    AtMostProduct(b, x, Size(b), k);
    PSym(Size(b), k);
    hide Prod;
  }

  lemma BandTranslation(f: Elementary, b: real, v: Se3.Twist)
    requires Facts(f) && !ClearFactor(b, v.omega)
    ensures AtMostVec(UnitExp(f, ScaleTwist(b, v)).t, Prod(SizeVec(v.upsilon), Size(b)))
  {
    hide Facts, Prod, SquaredNorm, Length, So3.Regular, Scale, Hat, Apply, Matrix, SizeVec, Size;
    var t := ScaleTwist(b, v);
    BandAxis(f, b, v);
    LengthOf(f, t.omega);
    NotRegular(Length(f, t.omega), SquaredNorm(t.omega));
    HalfTurn(t.omega, t.upsilon);
    BandMove(b, t.omega, v.upsilon);
  }

  /** The Jacobian of the Taylor branch. */
  lemma HalfTurn(omega: Vec3, u: Vec3)
    ensures Apply(MatAdd(IDENTITY, MatScale(0.5, Hat(omega))), u) == Add(u, Scale(0.5, Cross(omega, u)))
  {
    ApplyMatAdd(IDENTITY, MatScale(0.5, Hat(omega)), u);
    ApplyIdentity(u);
    ApplyMatScale(0.5, Hat(omega), u);
    HatIsCross(omega, u);
    hide Apply, MatAdd, MatScale, Hat, Cross, Scale;
  }

  lemma BandMove(b: real, omega: Vec3, u: Vec3)
    requires AtMostVec(omega, 1.0)
    ensures AtMostVec(Add(Scale(b, u), Scale(0.5, Cross(omega, Scale(b, u)))), Prod(SizeVec(u), Size(b)))
  {
    hide Prod, Size;
    var s := Size(b);
    var x, y, z := Prod(Size(u.x), s), Prod(Size(u.y), s), Prod(Size(u.z), s);
    SizeOf(u.x);
    SizeOf(u.y);
    SizeOf(u.z);
    BandEntry(b, u.x, Size(u.x));
    BandEntry(b, u.y, Size(u.y));
    BandEntry(b, u.z, Size(u.z));
    PSizes(Size(u.x), Size(u.y), Size(u.z), s);
    MoveEntry(Prod(b, u.x), omega.y, Prod(b, u.z), omega.z, Prod(b, u.y), x, z, y);
    MoveEntry(Prod(b, u.y), omega.z, Prod(b, u.x), omega.x, Prod(b, u.z), y, x, z);
    MoveEntry(Prod(b, u.z), omega.x, Prod(b, u.y), omega.y, Prod(b, u.x), z, y, x);
  }

  lemma SizeOf(x: real)
    ensures AtMost(x, Size(x))
  {}

  lemma MoveEntry(p: real, v: real, q: real, w: real, r: real, x: real, y: real, z: real)
    requires AtMost(p, x) && AtMost(v, 1.0) && AtMost(q, y) && AtMost(w, 1.0) && AtMost(r, z)
    ensures AtMost(p + Prod(0.5, Prod(v, q) - Prod(w, r)), x + y + z)
  {
    SmallMultiple(v, q, y);
    SmallMultiple(w, r, z);
    PHalfOf(Prod(v, q) - Prod(w, r));
    hide Prod;
  }

  lemma PSizes(x: real, y: real, z: real, s: real)
    ensures Prod(x + y + z, s) == Prod(x, s) + Prod(y, s) + Prod(z, s)
  {}

  lemma PHalfOf(x: real)
    ensures Prod(0.5, x) == 0.5 * x
  {}

  // ----- the value at any step -----

  /** A valid factor is its own normalisation. */
  lemma FactorMatrixOfClear(f: Elementary, b: real, v: Se3.Twist)
    requires Facts(f) && ClearFactor(b, v.omega)
    ensures var l := Poses(f); FactorMatrix(f, b, v) == l.matrix(l.exp(l.times(b, v)))
  {
    hide Facts, ClearFactor, ScaleTwist, Se3Exp, Se3Product.UnitPose, MatrixOf, Se3Group.Valid, Se3Group.Homogeneous, Composed, Logged;
    ValidFactor(f, b, v);
    ExpIsLong(f, ScaleTwist(b, v));
    Se3Product.UnitPoseIsValid(f, Se3Exp(f, ScaleTwist(b, v)));
    MatrixOfValid(Se3Exp(f, ScaleTwist(b, v)));
  }

  /** The matrix of the value is the product of the normalised factors, in whatever branches. */
  lemma ValueOfFactors(f: Elementary, point: Se3.Pose, v: Spline.Triple<Se3.Twist>, u: real)
    requires Facts(f) && Se3Group.Valid(point)
    ensures var b := Spline.B(u);
            MatrixOf(Spline.ParentTSpline(Poses(f), point, v, u)) ==
            Mul4(MatrixOf(point), Mul4(Mul4(FactorMatrix(f, b.x, v.x0), FactorMatrix(f, b.y, v.x1)), FactorMatrix(f, b.z, v.x2)))
  {
    hide Facts, Mul4, Spline.B, MatrixOf, Se3Exp, UnitExp, ScaleTwist, Se3Group.HatMatrix, Composed, Logged, Se3Group.Valid, Se3Group.Homogeneous, Se3Group.Inverse;
    var b := Spline.B(u);
    var w0, w1, w2 := ScaleTwist(b.x, v.x0), ScaleTwist(b.y, v.x1), ScaleTwist(b.z, v.x2);
    var p1 := Composed(f, point, Se3Exp(f, w0));
    var p2 := Composed(f, p1, Se3Exp(f, w1));
    ComposedExp(f, point, w0);
    ComposedExp(f, p1, w1);
    ComposedExp(f, p2, w2);
    MatrixOfValid(point);
    MatrixOfValid(p1);
    MatrixOfValid(p2);
    var m, m0, m1, m2 := MatrixOf(point), FactorMatrix(f, b.x, v.x0), FactorMatrix(f, b.y, v.x1), FactorMatrix(f, b.z, v.x2);
    Mul4Assoc(m, m0, m1);
    Mul4Assoc(m, Mul4(m0, m1), m2);
  }

  // ----- the first derivatives of a segment -----

  /** The last factor of a segment that has just begun, whichever branch of exp it takes. */
  lemma LastFactor(f: Elementary, v: Se3.Twist, e: real, t: real)
    requires Facts(f) && AtMost(t, 1.0)
    ensures NearMat(FactorMatrix(f, ExponentStep(t, 0.0, 0.0, e), v), Spline.Jet(IDENTITY4, Spline.ZERO4, Spline.ZERO4), t, LastRest(f, v, e))
  {
    hide Facts, Prod, Third, NearMat, ClearFactor, ExponentStep, FactorMatrix, FactorRest, LastRest, Size, BandBound, MatrixOf, Se3Exp, ScaleTwist, Se3Group.HatMatrix, Composed, Logged,
         Se3Group.Valid, Se3Group.Inverse, Spline.ExpJet, Spline.LieLaws;
    var b := ExponentStep(t, 0.0, 0.0, e);
    var c := LastRest(f, v, e);
    LastRests(f, v, e);
    if ClearFactor(b, v.omega) {
      FactorMatrixOfClear(f, b, v);
      ZeroIsClear(v.omega);
      NearFactorOf(f, v, 0.0, 0.0, 0.0, e, t);
      PosesAreLie(f);
      Spline.EndJets(Poses(f), v, v);
      RingOfPoses(f);
      LooserMat(FactorMatrix(f, b, v), Spline.Jet(IDENTITY4, Spline.ZERO4, Spline.ZERO4), t, FactorRest(f, v, 0.0, 0.0, 0.0, e), c);
    } else {
      BandFactor(f, b, v);
      CubeStep(t, e);
      BandIsSigned(v);
      Grows(Size(b), Prod(Size(e), Third(t)), BandBound(v));
      PSym(BandBound(v), Size(b));
      PSym(BandBound(v), Prod(Size(e), Third(t)));
      PAssoc(BandBound(v), Size(e), Third(t));
      NearIdentity(FactorMatrix(f, b, v), t, BandBound(v), Size(e), Prod(BandBound(v), Size(b)));
      LooserMat(FactorMatrix(f, b, v), Spline.Jet(IDENTITY4, Spline.ZERO4, Spline.ZERO4), t, Prod(BandBound(v), Size(e)), c);
    }
  }

  ghost function LastRest(f: Elementary, v: Se3.Twist, e: real): real
    requires Facts(f)
  {
    Larger(FactorRest(f, v, 0.0, 0.0, 0.0, e), Prod(BandBound(v), Size(e)))
  }

  lemma LastRests(f: Elementary, v: Se3.Twist, e: real)
    requires Facts(f)
    ensures FactorRest(f, v, 0.0, 0.0, 0.0, e) <= LastRest(f, v, e) && Prod(BandBound(v), Size(e)) <= LastRest(f, v, e)
  {
    hide Facts, Prod, FactorRest, BandBound, Size;
  }

  lemma BandIsSigned(v: Se3.Twist)
    ensures BandBound(v) >= 0.0
  {
    SizeVecIsSigned(v.omega);
    SizeVecIsSigned(v.upsilon);
    hide SizeVec;
  }

  lemma ZeroIsClear(omega: Vec3)
    ensures ClearFactor(0.0, omega)
  {}

  lemma CubeStep(t: real, e: real)
    requires AtMost(t, 1.0)
    ensures Size(ExponentStep(t, 0.0, 0.0, e)) <= Prod(Size(e), Third(t))
  {
    POnes(t);
    POnes(Prod(t, t));
    StepPowers(t);
    AtMostProduct(e, Prod(t, Prod(t, t)), Size(e), Third(t));
    hide Prod, Third;
  }

  lemma NearIdentity(m: Mat4, t: real, k: real, e: real, bound: real)
    requires AtMost(t, 1.0) && k >= 0.0 && AtMostMat(Sub4(m, IDENTITY4), bound) && bound <= Prod(Prod(k, e), Third(t))
    ensures NearMat(m, Spline.Jet(IDENTITY4, Spline.ZERO4, Spline.ZERO4), t, Prod(k, e))
  {
    POnes(t);
    POnes(Prod(t, t));
    hide Prod, Third;
  }

  /** The first two factors turn not at all, or beyond the Taylor threshold. */
  predicate StartClearAt(v: Spline.Triple<Se3.Twist>, u: real) {
    ClearFactor(Spline.B(u).x, v.x0.omega) && ClearFactor(Spline.B(u).y, v.x1.omega)
  }

  ghost function StartRest(f: Elementary, point: Se3.Pose, v: Spline.Triple<Se3.Twist>, deltaT: real): real
    requires Facts(f) && deltaT != 0.0
  {
    var l, b, d, dd := Poses(f), Spline.B(0.0), Spline.DtB(0.0, deltaT), Spline.Dt2B(0.0, deltaT);
    ProductRests(MatrixOf(point), Spline.ExpJet(l, v.x0, b.x, d.x, dd.x), Spline.ExpJet(l, v.x1, b.y, d.y, dd.y),
                 Spline.Jet(IDENTITY4, Spline.ZERO4, Spline.ZERO4),
                 FactorRest(f, v.x0, b.x, d.x, dd.x, CubeRate(1.0 / 6.0, deltaT)), FactorRest(f, v.x1, b.y, d.y, dd.y, CubeRate(-2.0 / 6.0, deltaT)),
                 LastRest(f, v.x2, CubeRate(1.0 / 6.0, deltaT)))
  }

  /** A factor after a step, given its coefficients. */
  lemma StartTurn(f: Elementary, v: Se3.Twist, b: real, d: real, dd: real, e: real, t: real, after: real)
    requires Facts(f) && AtMost(t, 1.0) && ClearFactor(b, v.omega) && ClearFactor(after, v.omega) && after == b + ExponentStep(t, d, dd, e)
    ensures NearMat(FactorMatrix(f, after, v), Spline.ExpJet(Poses(f), v, b, d, dd), t, FactorRest(f, v, b, d, dd, e))
  {
    hide Facts, NearMat, ClearFactor, ExponentStep, FactorRest, FactorMatrix, MatrixOf, Se3Exp, ScaleTwist, Se3Group.HatMatrix, Composed, Logged,
         Se3Group.Valid, Se3Group.Inverse, Spline.ExpJet;
    NearFactorOf(f, v, b, d, dd, e, t);
    FactorMatrixOfClear(f, after, v);
  }

  lemma StartJet(f: Elementary, v: Se3.Twist)
    requires Facts(f)
    ensures Spline.ExpJet(Poses(f), v, 0.0, 0.0, 0.0) == Spline.Jet(IDENTITY4, Spline.ZERO4, Spline.ZERO4)
  {
    hide Facts, MatrixOf, Se3Exp, ScaleTwist, Se3Group.HatMatrix, Composed, Logged, Se3Group.Valid, Se3Group.Inverse, Spline.ExpJet, Spline.LieLaws;
    PosesAreLie(f);
    Spline.EndJets(Poses(f), v, v);
    RingOfPoses(f);
  }

  /** The basis after a step from the start. */
  lemma StartBasis(h: real, deltaT: real)
    requires deltaT != 0.0
    ensures var b, d, dd, t, e := Spline.B(0.0), Spline.DtB(0.0, deltaT), Spline.Dt2B(0.0, deltaT), Prod(h, deltaT), Spline.B(h);
            && e.x == b.x + ExponentStep(t, d.x, dd.x, CubeRate(1.0 / 6.0, deltaT))
            && e.y == b.y + ExponentStep(t, d.y, dd.y, CubeRate(-2.0 / 6.0, deltaT))
            && b.z == d.z == dd.z == 0.0 && e.z == ExponentStep(t, 0.0, 0.0, CubeRate(1.0 / 6.0, deltaT))
  {
    Spline.BasisAtKnot(deltaT);
    hide Prod, ExponentStep, CubeRate, Spline.Cubic, Spline.DtCubic, Spline.Dt2Cubic;
    assert 0.0 + h == h;
    BasisStep(5.0 / 6.0, 3.0 / 6.0, -3.0 / 6.0, 1.0 / 6.0, 0.0, h, deltaT);
    BasisStep(1.0 / 6.0, 3.0 / 6.0, 3.0 / 6.0, -2.0 / 6.0, 0.0, h, deltaT);
    BasisStep(0.0, 0.0, 0.0, 1.0 / 6.0, 0.0, h, deltaT);
  }

  /** The three factors after a step from the start. */
  lemma StartFactors(f: Elementary, v: Spline.Triple<Se3.Twist>, h: real, deltaT: real)
    requires Facts(f) && deltaT != 0.0 && AtMost(Prod(h, deltaT), 1.0) && StartClearAt(v, 0.0) && StartClearAt(v, h)
    ensures var l, b, d, dd, t, e := Poses(f), Spline.B(0.0), Spline.DtB(0.0, deltaT), Spline.Dt2B(0.0, deltaT), Prod(h, deltaT), Spline.B(h);
            && NearMat(FactorMatrix(f, e.x, v.x0), Spline.ExpJet(l, v.x0, b.x, d.x, dd.x), t, FactorRest(f, v.x0, b.x, d.x, dd.x, CubeRate(1.0 / 6.0, deltaT)))
            && NearMat(FactorMatrix(f, e.y, v.x1), Spline.ExpJet(l, v.x1, b.y, d.y, dd.y), t, FactorRest(f, v.x1, b.y, d.y, dd.y, CubeRate(-2.0 / 6.0, deltaT)))
            && NearMat(FactorMatrix(f, e.z, v.x2), Spline.Jet(IDENTITY4, Spline.ZERO4, Spline.ZERO4), t, LastRest(f, v.x2, CubeRate(1.0 / 6.0, deltaT)))
            && Spline.ExpJet(l, v.x2, b.z, d.z, dd.z) == Spline.Jet(IDENTITY4, Spline.ZERO4, Spline.ZERO4)
  {
    hide Facts, Poses, Prod, NearMat, ClearFactor, ExponentStep, CubeRate, FactorRest, LastRest, FactorMatrix, Spline.B, Spline.DtB, Spline.Dt2B, Spline.ExpJet;
    var b, d, dd, t, e := Spline.B(0.0), Spline.DtB(0.0, deltaT), Spline.Dt2B(0.0, deltaT), Prod(h, deltaT), Spline.B(h);
    StartBasis(h, deltaT);
    StartTurn(f, v.x0, b.x, d.x, dd.x, CubeRate(1.0 / 6.0, deltaT), t, e.x);
    StartTurn(f, v.x1, b.y, d.y, dd.y, CubeRate(-2.0 / 6.0, deltaT), t, e.y);
    LastFactor(f, v.x2, CubeRate(1.0 / 6.0, deltaT), t);
    StartJet(f, v.x2);
  }

  /** At the start of a segment too, the reported derivatives are those of the value, whatever branch of exp
      the last factor takes after the step. */
  lemma ExpandsAtStart(f: Elementary, point: Se3.Pose, v: Spline.Triple<Se3.Twist>, h: real, deltaT: real)
    requires Facts(f) && Se3Group.Valid(point) && deltaT != 0.0 && AtMost(Prod(h, deltaT), 1.0) && StartClearAt(v, 0.0) && StartClearAt(v, h)
    ensures Expands(f, point, v, 0.0, h, deltaT, StartRest(f, point, v, deltaT))
  {
    LastIsClear(v);
    hide Facts, Poses, Prod, NearMat, ClearFactor, StartClearAt, CubeRate, FactorRest, LastRest, FactorMatrix, ProductRests, Mul4, Spline.Add4, Spline.Scale4, Spline.B, Spline.DtB,
         Spline.Dt2B, MatrixOf, Se3Exp, ScaleTwist, Se3Group.HatMatrix, Composed, Logged, Se3Group.Valid, Se3Group.Inverse, Spline.ExpJet, Spline.ParentTSpline,
         Spline.DtParentTSpline, Spline.Dt2ParentTSpline, Spline.JetMul, Spline.LieLaws;
    var l, b, d, dd, t, e := Poses(f), Spline.B(0.0), Spline.DtB(0.0, deltaT), Spline.Dt2B(0.0, deltaT), Prod(h, deltaT), Spline.B(h);
    DerivativesOfPoses(f, point, v, 0.0, deltaT);
    ValueOfFactors(f, point, v, h);
    assert 0.0 + h == h;
    StartFactors(f, v, h, deltaT);
    ProductExpands(MatrixOf(point), FactorMatrix(f, e.x, v.x0), Spline.ExpJet(l, v.x0, b.x, d.x, dd.x), FactorMatrix(f, e.y, v.x1),
                   Spline.ExpJet(l, v.x1, b.y, d.y, dd.y), FactorMatrix(f, e.z, v.x2), Spline.Jet(IDENTITY4, Spline.ZERO4, Spline.ZERO4), t,
                   FactorRest(f, v.x0, b.x, d.x, dd.x, CubeRate(1.0 / 6.0, deltaT)), FactorRest(f, v.x1, b.y, d.y, dd.y, CubeRate(-2.0 / 6.0, deltaT)),
                   LastRest(f, v.x2, CubeRate(1.0 / 6.0, deltaT)));
    RingOfPoses(f);
  }

  lemma LastIsClear(v: Spline.Triple<Se3.Twist>)
    requires StartClearAt(v, 0.0)
    ensures ClearFactor(Spline.B(0.0).x, v.x0.omega) && ClearFactor(Spline.B(0.0).y, v.x1.omega) && ClearFactor(Spline.B(0.0).z, v.x2.omega)
  {
    Spline.BasisAtKnot(1.0);
  }

  /** The same for the spline through a list of poses, at its knots: to the right of a knot the derivatives
      reported there are those of the value. */
  lemma DerivativesAtKnots(f: Elementary, points: seq<Se3.Pose>, i: int, h: real, deltaT: real)
    requires Facts(f) && |points| >= 2 && 0 <= i < |points| - 1 && deltaT != 0.0 && AtMost(Prod(h, deltaT), 1.0)
    requires forall k :: 0 <= k < |points| ==> Se3Group.Valid(points[k])
    requires var c := Spline.SegmentControl(Poses(f), points, i); StartClearAt(c.1, 0.0) && StartClearAt(c.1, h)
    ensures var l, c := Poses(f), Spline.SegmentControl(Poses(f), points, i);
            && Spline.Evaluate(l, points, i, 0.0).Pass? && Spline.Evaluate(l, points, i, h).Pass?
            && Spline.EvaluateDt(l, points, i, 0.0, deltaT).Pass? && Spline.EvaluateDt2(l, points, i, 0.0, deltaT).Pass?
            && NearMat(l.matrix(Spline.Evaluate(l, points, i, h).value),
                       Spline.Jet(l.matrix(Spline.Evaluate(l, points, i, 0.0).value), Spline.EvaluateDt(l, points, i, 0.0, deltaT).value,
                                  Spline.EvaluateDt2(l, points, i, 0.0, deltaT).value),
                       Prod(h, deltaT), StartRest(f, c.0, c.1, deltaT))
  {
    hide Facts, Prod, NearMat, StartRest, StartClearAt, MatrixOf, Se3Exp, ScaleTwist, Se3Group.HatMatrix, Composed, Logged, Se3Group.Valid, Se3Group.Inverse,
         Spline.ParentTSpline, Spline.DtParentTSpline, Spline.Dt2ParentTSpline;
    var c := Spline.SegmentControl(Poses(f), points, i);
    SegmentStart(f, points, i);
    assert 0.0 + h == h;
    ExpandsAtStart(f, c.0, c.1, h, deltaT);
  }

  predicate StartClearAfter(v: Spline.Triple<Se3.Twist>, h: real) {
    StartClearAt(v, h)
  }

  /** Where the first two factors are well clear at the start, there are steps of every size below some r. */
  lemma StartClearNearby(v: Spline.Triple<Se3.Twist>) returns (r: real)
    requires WellClear(Spline.B(0.0).x, v.x0.omega) && WellClear(Spline.B(0.0).y, v.x1.omega)
    ensures r > 0.0 && forall h :: AtMost(h, r) ==> StartClearAfter(v, h)
  {
    hide ClearFactor, WellClear, Spline.Cubic;
    var s0 := CoefficientStaysClear(5.0 / 6.0, 3.0 / 6.0, -3.0 / 6.0, 1.0 / 6.0, v.x0.omega, 0.0);
    var s1 := CoefficientStaysClear(1.0 / 6.0, 3.0 / 6.0, 3.0 / 6.0, -2.0 / 6.0, v.x1.omega, 0.0);
    r := if s0 <= s1 then s0 else s1;
    forall h | AtMost(h, r)
      ensures StartClearAfter(v, h)
    {
      assert AtMost(h, s0) && AtMost(h, s1) && 0.0 + h == h;
      assert ClearAfterStep(5.0 / 6.0, 3.0 / 6.0, -3.0 / 6.0, 1.0 / 6.0, v.x0.omega, 0.0, h);
      assert ClearAfterStep(1.0 / 6.0, 3.0 / 6.0, 3.0 / 6.0, -2.0 / 6.0, v.x1.omega, 0.0, h);
    }
  }
}
