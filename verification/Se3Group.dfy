/** The group side of SE3, by its embedding into the similarities at scale one. */
module Se3Group {
  import opened Linear
  import opened Skew
  import opened Quaternions
  import opened Affine
  import RxSo3
  import Se3
  import Sim3

  /** The class invariant: a unit quaternion. */
  predicate Valid(a: Se3.Pose) {
    a.q.SquaredNorm() == 1.0
  }

  function Times(a: Se3.Pose, b: Se3.Pose): Se3.Pose {
    Se3.Pose(QuaternionProduct(a.q, b.q), Add(a.t, UnitAction(a.q, b.t)))
  }

  function Inverse(a: Se3.Pose): Se3.Pose {
    Se3.Pose(a.q.Conjugate(), UnitAction(a.q.Conjugate(), Scale(-1.0, a.t)))
  }

  function Act(a: Se3.Pose, p: Vec3): Vec3 {
    Add(UnitAction(a.q, p), a.t)
  }

  function Homogeneous(a: Se3.Pose): Mat4 {
    Mat4(Matrix(a.q), a.t, 1.0)
  }

  function HatMatrix(x: Se3.Twist): Mat4 {
    Mat4(Hat(x.omega), x.upsilon, 0.0)
  }

  function ActOnLine(a: Se3.Pose, l: Line): Line {
    Line(Act(a, l.origin), UnitAction(a.q, l.direction))
  }

  function ActOnPlane(a: Se3.Pose, p: Plane): Plane {
    var normal := UnitAction(a.q, p.normal);
    Plane(normal, p.offset - Dot(a.t, normal))
  }

  // ----- the embedding -----

  function Embed(a: Se3.Pose): Sim3.Similarity {
    Sim3.Similarity(a.q, a.t)
  }

  function EmbedTwist(x: Se3.Twist): Sim3.Twist {
    Sim3.Twist(x.upsilon, x.omega, 0.0)
  }

  lemma UnitIsScaled(q: Quaternion, p: Vec3)
    requires q.SquaredNorm() == 1.0
    ensures UnitAction(q, p) == ScaledAction(q, p)
  {}

  lemma EmbedTimes(a: Se3.Pose, b: Se3.Pose)
    requires Valid(a)
    ensures Embed(Times(a, b)) == Sim3.Times(Embed(a), Embed(b))
  {}

  lemma ConjugateTimesOne(q: Quaternion)
    requires q.SquaredNorm() == 1.0
    ensures q.Conjugate().Times(1.0 / q.SquaredNorm()) == q.Conjugate()
  {}

  lemma EmbedInverse(a: Se3.Pose)
    requires Valid(a)
    ensures Embed(Inverse(a)) == Sim3.Inverse(Embed(a)) && Valid(Inverse(a))
  {
    ConjugateTimesOne(a.q);
    TransposeConjugate(a.q);
    UnitIsScaled(a.q.Conjugate(), Scale(-1.0, a.t));
    hide UnitAction, ScaledAction, Scale, Quaternion.SquaredNorm, Quaternion.Times, Quaternion.Conjugate;
  }

  lemma EmbedHat(x: Se3.Twist)
    ensures Sim3.Hat4(EmbedTwist(x)) == HatMatrix(x)
  {}

  lemma EmbedAdj(a: Se3.Pose, x: Se3.Twist)
    requires Valid(a)
    ensures Sim3.Apply7(Sim3.Adj(Embed(a)), EmbedTwist(x)) == EmbedTwist(Se3.Apply6(Se3.Adj(a), x))
  {
    UnitScale(Matrix(a.q));
    ScaleUnit(Neg(a.t));
    ApplyZero(x.upsilon);
    hide Matrix, MatScale, Mul, Apply, Hat, Scale, Quaternion.SquaredNorm;
  }

  lemma EmbedBracket(x: Se3.Twist, y: Se3.Twist)
    ensures Sim3.LieBracket(EmbedTwist(x), EmbedTwist(y)) == EmbedTwist(Se3.LieBracket(x, y))
  {
    HatIsCross(x.omega, y.upsilon);
    HatIsCross(x.upsilon, y.omega);
    ScaleUnit(x.upsilon);
    ScaleUnit(y.upsilon);
    hide Apply, Cross, Hat, Scale;
  }

  // ----- group laws -----

  /** The product keeps the invariant and is the product of the 4x4 matrices. */
  lemma ProductIsGroup(a: Se3.Pose, b: Se3.Pose, c: Se3.Pose)
    requires Valid(a) && Valid(b) && Valid(c)
    ensures Valid(Times(a, b)) && Homogeneous(Times(a, b)) == Mul4(Homogeneous(a), Homogeneous(b))
    ensures Times(Times(a, b), c) == Times(a, Times(b, c))
  {
    hide QuaternionProduct, UnitAction, ScaledAction, Quaternion.SquaredNorm, Matrix, Mul4, Sim3.Times;
    NormProduct(a.q, b.q);
    EmbedTimes(a, b);
    EmbedTimes(Times(a, b), c);
    EmbedTimes(b, c);
    EmbedTimes(a, Times(b, c));
    Sim3.MatrixOfProduct(Embed(a), Embed(b));
    Sim3.TimesAssoc(Embed(a), Embed(b), Embed(c));
  }

  lemma InverseIsGroup(a: Se3.Pose)
    requires Valid(a)
    ensures Times(a, Inverse(a)) == Se3.Pose(Real(1.0), ZERO) == Times(Inverse(a), a)
    ensures Mul4(Homogeneous(a), Homogeneous(Inverse(a))) == IDENTITY4 == Mul4(Homogeneous(Inverse(a)), Homogeneous(a))
  {
    hide QuaternionProduct, UnitAction, ScaledAction, Quaternion.SquaredNorm, Matrix, Mul4, Sim3.Times, Sim3.Inverse;
    EmbedInverse(a);
    EmbedTimes(a, Inverse(a));
    EmbedTimes(Inverse(a), a);
    Sim3.InverseLaws(Embed(a));
  }

  lemma IdentityTimes(e: Se3.Pose)
    ensures Times(Se3.Pose(Real(1.0), ZERO), e) == e
  {
    ProductReal(1.0, e.q);
    RxSo3.TimesOne(e.q);
    UnitReal();
    UnitActionIsMatrix(Real(1.0), e.t);
    Sim3.UnitMatrix();
    ApplyIdentity(e.t);
    hide QuaternionProduct, UnitAction, Quaternion.Times, Matrix, Apply;
  }

  lemma UnitReal()
    ensures Real(1.0).SquaredNorm() == 1.0
  {}

  lemma InverseOfIdentity()
    ensures Inverse(Se3.Pose(Real(1.0), ZERO)) == Se3.Pose(Real(1.0), ZERO)
  {
    hide UnitAction, Matrix, Apply;
    ScaleZeroVector(-1.0);
    UnitReal();
    UnitActionIsMatrix(Real(1.0), ZERO);
    ApplyZeroVector(Matrix(Real(1.0)));
  }

  // ----- adjoint and bracket -----

  /** hat(Adj_A x) = A hat(x) A^-1. */
  lemma AdjointIsConjugation(a: Se3.Pose, x: Se3.Twist)
    requires Valid(a)
    ensures HatMatrix(Se3.Apply6(Se3.Adj(a), x)) == Mul4(Mul4(Homogeneous(a), HatMatrix(x)), Homogeneous(Inverse(a)))
  {
    hide Mul4, Se3.Apply6, Se3.Adj, Sim3.Apply7, Sim3.Adj, Sim3.Inverse, Inverse, Matrix, Hat, Sim3.Hat4, Quaternion.SquaredNorm;
    EmbedAdj(a, x);
    EmbedHat(x);
    EmbedHat(Se3.Apply6(Se3.Adj(a), x));
    EmbedInverse(a);
    Sim3.AdjointIsConjugation(Embed(a), EmbedTwist(x));
  }

  /** Adj_{AB} = Adj_A Adj_B. */
  lemma AdjointOfProduct(a: Se3.Pose, b: Se3.Pose, x: Se3.Twist)
    requires Valid(a) && Valid(b)
    ensures Se3.Apply6(Se3.Adj(Times(a, b)), x) == Se3.Apply6(Se3.Adj(a), Se3.Apply6(Se3.Adj(b), x))
  {
    hide Se3.Apply6, Se3.Adj, Sim3.Apply7, Sim3.Adj, Sim3.Times, Times, Mul4, Homogeneous, Quaternion.SquaredNorm;
    ProductIsGroup(a, b, a);
    EmbedTimes(a, b);
    EmbedAdj(b, x);
    EmbedAdj(a, Se3.Apply6(Se3.Adj(b), x));
    EmbedAdj(Times(a, b), x);
    Sim3.AdjointOfProduct(Embed(a), Embed(b), EmbedTwist(x));
  }

  /** Adj preserves the bracket, which is vee of the commutator and obeys Jacobi. */
  lemma AdjointPreservesBracket(a: Se3.Pose, x: Se3.Twist, y: Se3.Twist)
    requires Valid(a)
    ensures Se3.Apply6(Se3.Adj(a), Se3.LieBracket(x, y)) == Se3.LieBracket(Se3.Apply6(Se3.Adj(a), x), Se3.Apply6(Se3.Adj(a), y))
  {
    hide Se3.Apply6, Se3.Adj, Se3.LieBracket, Sim3.LieBracket, Sim3.Apply7, Sim3.Adj, Quaternion.SquaredNorm;
    EmbedAdj(a, x);
    EmbedAdj(a, y);
    EmbedBracket(x, y);
    EmbedAdj(a, Se3.LieBracket(x, y));
    EmbedBracket(Se3.Apply6(Se3.Adj(a), x), Se3.Apply6(Se3.Adj(a), y));
    Sim3.AdjointPreservesBracket(Embed(a), EmbedTwist(x), EmbedTwist(y));
  }

  lemma BracketIsCommutator(x: Se3.Twist, y: Se3.Twist)
    ensures Commutator(HatMatrix(x), HatMatrix(y)) == HatMatrix(Se3.LieBracket(x, y))
  {
    hide Commutator, Se3.LieBracket, Sim3.LieBracket, Sim3.Hat4;
    EmbedHat(x);
    EmbedHat(y);
    EmbedBracket(x, y);
    EmbedHat(Se3.LieBracket(x, y));
    Sim3.BracketIsCommutator(EmbedTwist(x), EmbedTwist(y));
  }

  lemma Jacobi(x: Se3.Twist, y: Se3.Twist, z: Se3.Twist)
    ensures var l, r := Se3.LieBracket(x, Se3.LieBracket(y, z)), Se3.LieBracket(y, Se3.LieBracket(x, z));
            Se3.Twist(Sub(l.upsilon, r.upsilon), Sub(l.omega, r.omega)) == Se3.LieBracket(Se3.LieBracket(x, y), z)
  {
    hide Se3.LieBracket, Sim3.LieBracket;
    EmbedBracket(y, z);
    EmbedBracket(x, z);
    EmbedBracket(x, y);
    EmbedBracket(x, Se3.LieBracket(y, z));
    EmbedBracket(y, Se3.LieBracket(x, z));
    EmbedBracket(Se3.LieBracket(x, y), z);
    Sim3.Jacobi(EmbedTwist(x), EmbedTwist(y), EmbedTwist(z));
  }

  // ----- lines and planes -----

  /** Rigid motions keep signed plane distances and the parameter of a line. */
  lemma LineAndPlane(a: Se3.Pose, l: Line, t: real, p: Plane, x: Vec3)
    requires Valid(a)
    ensures Act(a, PointAt(l, t)) == PointAt(ActOnLine(a, l), t)
    ensures SignedDistance(ActOnPlane(a, p), Act(a, x)) == SignedDistance(p, x)
  {
    hide Scale, Dot, UnitAction, ScaledAction, Prod, Quaternion.SquaredNorm, PointAt, SignedDistance;
    UnitIsScaled(a.q, PointAt(l, t));
    UnitIsScaled(a.q, l.origin);
    UnitIsScaled(a.q, l.direction);
    UnitIsScaled(a.q, p.normal);
    UnitIsScaled(a.q, x);
    ScaleUnit(ScaledAction(a.q, l.direction));
    ScaleUnit(ScaledAction(a.q, p.normal));
    POnes(t);
    POnes(p.offset);
    POnes(SignedDistance(p, x));
    Sim3.LineAction(Embed(a), l, t);
    Sim3.PlaneAction(Embed(a), p, x);
  }
}
