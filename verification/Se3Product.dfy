/** The product of SE3 as the operator computes it, with the normalisation in the constructor of
    the rotation, and what it makes of the slightly long quaternions of exp. */
module Se3Product {
  import opened Linear
  import opened Constants
  import opened Quaternions
  import opened UnitQuaternions
  import opened Checked
  import opened Elementary
  import opened ExpLog
  import opened Logarithm
  import opened TaylorBranches
  import opened Multiples
  import RxSo3
  import So3
  import Se3
  import Se3Group

  /** The constructor of SO3 from a quaternion. */
  ghost function Normal(f: Elementary, q: Quaternion): Checked<Quaternion>
    requires Facts(f)
  {
    var length := f.sqrt(q.SquaredNorm());
    if length < EPSILON then Abort else Pass(Unit(q, length))
  }

  ghost function Product(f: Elementary, a: Se3.Pose, b: Se3.Pose): Checked<Se3.Pose>
    requires Facts(f)
  {
    match Normal(f, QuaternionProduct(a.q, b.q))
    case Pass(q) => Pass(Se3.Pose(q, Add(a.t, UnitAction(a.q, b.t))))
    case Abort => Abort
  }

  /** A product that passes is valid, whatever the factors. */
  lemma ProductIsValid(f: Elementary, a: Se3.Pose, b: Se3.Pose)
    requires Facts(f) && Product(f, a, b).Pass?
    ensures Se3Group.Valid(Product(f, a, b).value) && Loggable(Product(f, a, b).value.q)
  {
    hide Facts, Prod, QuaternionProduct, UnitAction, Unit, Quaternion.SquaredNorm;
    var q := QuaternionProduct(a.q, b.q);
    RxSo3.NormSign(q);
    RootOf(f, q.SquaredNorm());
    UnitLength(q, f.sqrt(q.SquaredNorm()));
  }

  lemma LongRoot(f: Elementary, n: real)
    requires Facts(f) && n >= 1.0
    ensures f.sqrt(n) >= 1.0 && Prod(f.sqrt(n), f.sqrt(n)) == n && (n == 1.0 ==> f.sqrt(n) == 1.0)
  {
    hide Facts, Prod;
    RootOf(f, n);
    POnes(1.0);
    PLong(f.sqrt(n));
    if n == 1.0 {
      SameRoot(f.sqrt(n), 1.0);
    }
  }

  lemma PLong(x: real)
    requires x >= 0.0 && Prod(x, x) >= 1.0
    ensures x >= 1.0
  {
    if x < 1.0 {
      PositiveProduct(1.0 - x, 1.0 + x, 1.0 - Prod(x, x));
    }
  }

  /** The pose with its quaternion normalised. */
  ghost function UnitPose(f: Elementary, a: Se3.Pose): Se3.Pose
    requires Facts(f) && a.q.SquaredNorm() >= 1.0
  {
    LongRoot(f, a.q.SquaredNorm());
    Se3.Pose(Unit(a.q, f.sqrt(a.q.SquaredNorm())), a.t)
  }

  lemma UnitPoseIsValid(f: Elementary, a: Se3.Pose)
    requires Facts(f) && a.q.SquaredNorm() >= 1.0
    ensures Se3Group.Valid(UnitPose(f, a)) && (Se3Group.Valid(a) ==> UnitPose(f, a) == a)
  {
    hide Facts, Prod, Quaternion.SquaredNorm, Quaternion.Times;
    LongRoot(f, a.q.SquaredNorm());
    UnitLength(a.q, f.sqrt(a.q.SquaredNorm()));
    POnes(Quotient(1.0, 1.0));
    RxSo3.TimesOne(a.q);
  }

  /** With a valid left factor the product never aborts. It is the product of the group with the
      right factor normalised, so on valid poses it is the product of the group. */
  lemma ProductIs(f: Elementary, a: Se3.Pose, b: Se3.Pose)
    requires Facts(f) && Se3Group.Valid(a) && b.q.SquaredNorm() >= 1.0
    ensures Product(f, a, b) == Pass(Se3Group.Times(a, UnitPose(f, b))) && Se3Group.Valid(Product(f, a, b).value)
    ensures Se3Group.Valid(b) ==> Product(f, a, b) == Pass(Se3Group.Times(a, b))
  {
    hide Facts, Prod, Quotient, QuaternionProduct, UnitAction, Quaternion.SquaredNorm, Quaternion.Times;
    NormProduct(a.q, b.q);
    LongRoot(f, b.q.SquaredNorm());
    ProductTimes(a.q, b.q, Quotient(1.0, f.sqrt(b.q.SquaredNorm())));
    UnitPoseIsValid(f, b);
    ProductIsValid(f, a, b);
  }

  lemma ProductTimes(x: Quaternion, z: Quaternion, k: real)
    ensures QuaternionProduct(x, z.Times(k)) == QuaternionProduct(x, z).Times(k)
  {
    ProductReal(k, z);
    ProductReal(k, QuaternionProduct(x, z));
    ProductAssoc(x, z, Real(k));
    hide QuaternionProduct, Quaternion.Times;
  }

  // ----- log of a normalised exp -----

  /** log after exp with a normalisation in between: what So3LogOfExpExactlyWhen says of the
      quaternion of exp holds of the normalised one. */
  lemma LogOfUnitExpExactlyWhen(f: Elementary, a: Se3.Twist)
    requires Facts(f)
    ensures Se3Exp(f, a).q.SquaredNorm() >= 1.0 && Loggable(UnitPose(f, Se3Exp(f, a)).q)
    ensures Se3Log(f, UnitPose(f, Se3Exp(f, a))) == Pass(a) <==> Recovered(f, a.omega)
  {
    hide Facts, Prod, Quotient, Length, SquaredNorm, SquaredVec, Se3Exp, Se3Log, So3Exp, So3Log, So3.Regular, Quaternion.SquaredNorm,
         Quaternion.Times, Quaternion.Vec;
    var e := Se3Exp(f, a);
    RotationOfPose(f, a);
    UnitExactlyWhen(f, a.omega);
    UnitPoseIsValid(f, e);
    Se3LogOfExpExactlyWhen(f, a);
    So3LogOfExpExactlyWhen(f, a.omega, So3Exp(f, a.omega));
    if e.q.SquaredNorm() != 1.0 {
      LongRoot(f, e.q.SquaredNorm());
      InverseOfLong(f.sqrt(e.q.SquaredNorm()));
      LogOfRescaledExp(f, a.omega, Quotient(1.0, f.sqrt(e.q.SquaredNorm())));
      SineIsShort(f, a.omega);
      LogPasses(f, UnitPose(f, e));
    }
  }

  lemma InverseOfLong(length: real)
    requires length >= 1.0
    ensures Quotient(1.0, length) > 0.0
  {}

  // ----- the normalised exp of a log -----

  /** exp(log A) with its quaternion normalised is A up to the sign of the quaternion if and only
      if the vector part of A's quaternion is zero or at least epsilon long. */
  lemma UnitExpOfLogExactlyWhen(f: Elementary, a: Se3.Pose)
    requires Facts(f) && Se3Group.Valid(a)
    ensures Se3Log(f, a).Pass? && Se3Exp(f, Se3Log(f, a).value).q.SquaredNorm() >= 1.0
    ensures var r, exact := UnitPose(f, Se3Exp(f, Se3Log(f, a).value)), a.q.Vec() == ZERO || SquaredVec(a.q) >= EPSILON * EPSILON;
            && (exact ==> r == Se3.Pose(Upright(a.q), a.t))
            && (r == a || r == Se3.Pose(a.q.Times(-1.0), a.t) <==> exact)
  {
    hide Facts, Prod, Quotient, Length, SquaredNorm, SquaredVec, Se3Exp, Se3Log, So3Exp, So3Log, So3.Regular, Unit, Quaternion.SquaredNorm,
         Quaternion.Times, Quaternion.Vec;
    LogPasses(f, a);
    var omega := Se3Log(f, a).value.omega;
    RotationOfPose(f, Se3Log(f, a).value);
    UnitExactlyWhen(f, omega);
    var e := Se3Exp(f, Se3Log(f, a).value);
    UnitPoseIsValid(f, e);
    Se3ExpOfLogExactlyWhen(f, a);
    NegatedNorm(a.q);
    if e.q.SquaredNorm() != 1.0 {
      UprightNorm(a.q);
      LongRoot(f, e.q.SquaredNorm());
      var length := f.sqrt(e.q.SquaredNorm());
      ScaledBack(e.q, length);
      RxSo3.TimesTimes(a.q, -1.0, length);
      NotParallel(f, a.q, length);
      NotParallel(f, a.q, Prod(-1.0, length));
    }
  }

  lemma UprightNorm(q: Quaternion)
    ensures Upright(q).SquaredNorm() == q.SquaredNorm()
  {
    NegatedNorm(q);
  }
}
