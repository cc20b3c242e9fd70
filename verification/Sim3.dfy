/** Similarities of space: group laws, adjoint and bracket, and the rigid motions
    among them. */
module Sim3 {
  import opened Linear
  import opened Constants
  import opened Skew
  import opened Quaternions
  import opened RxSo3
  import opened Affine

  /** A similarity: scaled quaternion and translation. */
  datatype Similarity = Similarity(q: Quaternion, t: Vec3)

  /** A tangent vector: translational part, rotation vector, logarithm of the scale. */
  datatype Twist = Twist(upsilon: Vec3, omega: Vec3, sigma: real)

  const IDENTITY_SIMILARITY := Similarity(Real(1.0), ZERO)

  /** Group multiplication wherever the scale of the product does not saturate. */
  function Times(a: Similarity, b: Similarity): Similarity {
    Similarity(QuaternionProduct(a.q, b.q), Add(a.t, ScaledAction(a.q, b.t)))
  }

  function Inverse(a: Similarity): Similarity
    requires a.q.SquaredNorm() != 0.0
  {
    var inv := a.q.Conjugate().Times(1.0 / a.q.SquaredNorm());
    Similarity(inv, ScaledAction(inv, Scale(-1.0, a.t)))
  }

  function Act(a: Similarity, p: Vec3): Vec3 {
    Add(ScaledAction(a.q, p), a.t)
  }

  function ActOnLine(a: Similarity, l: Line): Line
    requires a.q.SquaredNorm() != 0.0
  {
    var rotated := RxSo3.ActOnLine(a.q, l);
    Line(Add(rotated.origin, a.t), rotated.direction)
  }

  function ActOnPlane(a: Similarity, p: Plane): Plane
    requires a.q.SquaredNorm() != 0.0
  {
    var rotated := RxSo3.ActOnPlane(a.q, p);
    Plane(rotated.normal, rotated.offset - Dot(a.t, rotated.normal))
  }

  function Homogeneous(a: Similarity): Mat4 {
    Mat4(Matrix(a.q), a.t, 1.0)
  }

  /** The hat operator of the scaled rotations, and its inverse on hat matrices. */
  function ScaledHat(omega: Vec3, sigma: real): Mat3 {
    Mat3(
      Vec3(sigma, -omega.z, omega.y),
      Vec3(omega.z, sigma, -omega.x),
      Vec3(-omega.y, omega.x, sigma))
  }

  function Hat4(x: Twist): Mat4 {
    Mat4(ScaledHat(x.omega, x.sigma), x.upsilon, 0.0)
  }

  function Vee4(m: Mat4): Twist {
    Twist(m.offset, Vec3(m.linear.r2.y, m.linear.r0.z, m.linear.r1.x), m.linear.r0.x)
  }

  /** The 7x7 adjoint matrix in blocks; its remaining blocks are zero, its corner one. */
  datatype Adjoint = Adjoint(topLeft: Mat3, topMiddle: Mat3, topRight: Vec3, middle: Mat3)

  function Adj(a: Similarity): Adjoint
    requires a.q.SquaredNorm() != 0.0
  {
    var r := RotationMatrix(a.q);
    Adjoint(Matrix(a.q), Mul(Hat(a.t), r), Neg(a.t), r)
  }

  function Apply7(m: Adjoint, x: Twist): Twist {
    Twist(Add(Add(Apply(m.topLeft, x.upsilon), Apply(m.topMiddle, x.omega)), Scale(x.sigma, m.topRight)),
          Apply(m.middle, x.omega), x.sigma)
  }

  function LieBracket(a: Twist, b: Twist): Twist {
    Twist(
      Sub(Add(Add(Apply(Hat(a.omega), b.upsilon), Apply(Hat(a.upsilon), b.omega)), Scale(a.sigma, b.upsilon)),
          Scale(b.sigma, a.upsilon)),
      Cross(a.omega, b.omega), 0.0)
  }

  // ----- group laws -----

  lemma MatrixOfProduct(a: Similarity, b: Similarity)
    ensures Homogeneous(Times(a, b)) == Mul4(Homogeneous(a), Homogeneous(b))
  {
    MatrixProduct(a.q, b.q);
    ActionIsMatrix(a.q, b.t);
    ScaleUnit(a.t);
    POnes(1.0);
    AddSym(a.t, Apply(Matrix(a.q), b.t));
    hide Prod, Matrix, Mul, Apply, Scale, QuaternionProduct, ScaledAction;
  }

  lemma AddSym(a: Vec3, b: Vec3)
    ensures Add(a, b) == Add(b, a)
  {}

  lemma InverseQuaternion(q: Quaternion)
    requires q.SquaredNorm() != 0.0
    ensures var inv := q.Conjugate().Times(1.0 / q.SquaredNorm());
            QuaternionProduct(q, inv) == Real(1.0) == QuaternionProduct(inv, q)
  {
    var n := q.SquaredNorm();
    var i := 1.0 / n;
    DivMul(1.0, n, i);
    ProductConjugate(q);
    ProductReal(i, q.Conjugate());
    ProductAssoc(q, q.Conjugate(), Real(i));
    ProductAssoc(Real(i), q.Conjugate(), q);
    ProductReal(i, Real(n));
    RealTimes(n, i);
    hide *;
  }

  lemma UnitMatrix()
    ensures Matrix(Real(1.0)) == IDENTITY
  {
    MatrixReal(1.0);
    POnes(1.0);
    ScaleIdentity();
    hide Matrix, MatScale, Prod;
  }

  /** a a^-1 = a^-1 a = identity, also as quaternion and translation. */
  lemma InverseLaws(a: Similarity)
    requires a.q.SquaredNorm() != 0.0
    ensures Times(a, Inverse(a)) == IDENTITY_SIMILARITY == Times(Inverse(a), a)
    ensures Mul4(Homogeneous(a), Homogeneous(Inverse(a))) == IDENTITY4 == Mul4(Homogeneous(Inverse(a)), Homogeneous(a))
  {
    hide *;
    var inv := Inverse(a);
    InverseParts(a);
    InverseQuaternion(a.q);
    InverseTranslation(a.q, inv.q, a.t);
    TimesParts(a, inv);
    TimesParts(inv, a);
    MatrixOfProduct(a, inv);
    MatrixOfProduct(inv, a);
    IdentityParts();
  }

  lemma InverseParts(a: Similarity)
    requires a.q.SquaredNorm() != 0.0
    ensures Inverse(a).q == a.q.Conjugate().Times(1.0 / a.q.SquaredNorm())
    ensures Inverse(a).t == ScaledAction(Inverse(a).q, Scale(-1.0, a.t))
  {}

  lemma TimesParts(a: Similarity, b: Similarity)
    ensures Times(a, b) == Similarity(QuaternionProduct(a.q, b.q), Add(a.t, ScaledAction(a.q, b.t)))
  {}

  lemma IdentityParts()
    ensures IDENTITY_SIMILARITY == Similarity(Real(1.0), ZERO)
    ensures Homogeneous(IDENTITY_SIMILARITY) == IDENTITY4
  {
    UnitMatrix();
    hide Matrix;
  }

  lemma InverseTranslation(q: Quaternion, inv: Quaternion, t: Vec3)
    requires QuaternionProduct(q, inv) == Real(1.0)
    ensures Add(t, ScaledAction(q, ScaledAction(inv, Scale(-1.0, t)))) == ZERO
    ensures Add(ScaledAction(inv, Scale(-1.0, t)), ScaledAction(inv, t)) == ZERO
  {
    hide *;
    var back := Scale(-1.0, t);
    UnitMatrix();
    ActionIsMatrix(q, ScaledAction(inv, back));
    ActionIsMatrix(inv, back);
    ActionProduct(q, inv, back);
    ApplyIdentity(back);
    ActionIsMatrix(inv, t);
    ApplyScaled(Matrix(inv), -1.0, t);
    CancelOpposite(t);
    CancelOpposite(Apply(Matrix(inv), t));
  }

  lemma CancelOpposite(v: Vec3)
    ensures Add(v, Scale(-1.0, v)) == ZERO == Add(Scale(-1.0, v), v)
  {}

  lemma TimesAssoc(a: Similarity, b: Similarity, c: Similarity)
    ensures Times(Times(a, b), c) == Times(a, Times(b, c))
  {
    ProductAssoc(a.q, b.q, c.q);
    ActionIsMatrix(QuaternionProduct(a.q, b.q), c.t);
    ActionProduct(a.q, b.q, c.t);
    ActionIsMatrix(b.q, c.t);
    ActionIsMatrix(a.q, b.t);
    ActionIsMatrix(a.q, Add(b.t, ScaledAction(b.q, c.t)));
    ApplyAdd(Matrix(a.q), b.t, ScaledAction(b.q, c.t));
    AddAssoc(a.t, ScaledAction(a.q, b.t), Apply(Matrix(a.q), ScaledAction(b.q, c.t)));
    hide Add, Matrix, Apply, QuaternionProduct, ScaledAction;
  }

  lemma ActTimes(a: Similarity, b: Similarity, p: Vec3)
    ensures Act(Times(a, b), p) == Act(a, Act(b, p))
  {
    ActionIsMatrix(QuaternionProduct(a.q, b.q), p);
    ActionProduct(a.q, b.q, p);
    ActionIsMatrix(b.q, p);
    ActionIsMatrix(a.q, b.t);
    ActionIsMatrix(a.q, Add(ScaledAction(b.q, p), b.t));
    ApplyAdd(Matrix(a.q), ScaledAction(b.q, p), b.t);
    hide Matrix, Apply, QuaternionProduct, ScaledAction;
  }

  // ----- lines and planes -----

  /** Lines go to lines, with the parameter scaled by s. */
  lemma LineAction(a: Similarity, l: Line, t: real)
    requires a.q.SquaredNorm() != 0.0
    ensures Act(a, PointAt(l, t)) == PointAt(ActOnLine(a, l), Prod(t, a.q.SquaredNorm()))
    ensures SquaredNorm(ActOnLine(a, l).direction) == SquaredNorm(l.direction)
  {
    RxSo3.LineAction(a.q, l, t);
    hide Prod, Scale, Dot, ScaledAction, RxSo3.ActOnLine, Quaternion.SquaredNorm;
  }

  /** Signed plane distances are scaled by exactly s. */
  lemma PlaneAction(a: Similarity, p: Plane, x: Vec3)
    requires a.q.SquaredNorm() != 0.0
    ensures SignedDistance(ActOnPlane(a, p), Act(a, x)) == Prod(a.q.SquaredNorm(), SignedDistance(p, x))
    ensures SquaredNorm(ActOnPlane(a, p).normal) == SquaredNorm(p.normal)
  {
    RxSo3.PlaneAction(a.q, p, x);
    var n := RxSo3.ActOnPlane(a.q, p).normal;
    DotAdd(n, ScaledAction(a.q, x), a.t);
    DotSym(n, a.t);
    hide Prod, Dot, Add, ScaledAction, RxSo3.ActOnPlane, Quaternion.SquaredNorm;
  }

  lemma DotAdd(n: Vec3, u: Vec3, v: Vec3)
    ensures Dot(n, Add(u, v)) == Dot(n, u) + Dot(n, v)
  {}

  // ----- the adjoint -----

  lemma ScaledHatApply(omega: Vec3, sigma: real, v: Vec3)
    ensures Apply(ScaledHat(omega, sigma), v) == Add(Cross(omega, v), Scale(sigma, v))
  {
    PNegated(omega.x, v.z);
    PNegated(omega.y, v.x);
    PNegated(omega.z, v.y);
    hide Prod;
  }

  /** The rotation turns a cross product like the rotated factors: (R w) x (M v) = M (w x v). */
  lemma RotatedCross(q: Quaternion, w: Vec3, v: Vec3)
    requires q.SquaredNorm() != 0.0
    ensures Cross(Apply(RotationMatrix(q), w), Apply(Matrix(q), v)) == Apply(Matrix(q), Cross(w, v))
  {
    var s := q.SquaredNorm();
    ApplyMatScale(1.0 / s, Matrix(q), w);
    CrossScale(Apply(Matrix(q), v), 1.0 / s, Apply(Matrix(q), w));
    Conformal(q, w, v);
    var u := Apply(Matrix(q), Cross(w, v));
    ScaleTwice(1.0 / s, s, u);
    InverseProd(s);
    ScaleUnit(u);
    hide Prod, Scale, Matrix, MatScale, Apply, Cross, Quaternion.SquaredNorm;
  }

  lemma InverseProd(s: real)
    requires s != 0.0
    ensures Prod(1.0 / s, s) == 1.0
  {}

  /** hat(Adj_A x) A = A hat(x). */
  lemma AdjointIntertwines(a: Similarity, x: Twist)
    requires a.q.SquaredNorm() != 0.0
    ensures Intertwines(Homogeneous(a), Hat4(x), Hat4(Apply7(Adj(a), x)))
  {
    var m, r := Matrix(a.q), RotationMatrix(a.q);
    var w := Apply(r, x.omega);
    forall v
      ensures Apply(Mul(ScaledHat(w, x.sigma), m), v) == Apply(Mul(m, ScaledHat(x.omega, x.sigma)), v)
    {
      hide *;
      ApplyMul(ScaledHat(w, x.sigma), m, v);
      ScaledHatApply(w, x.sigma, Apply(m, v));
      RotatedCross(a.q, x.omega, v);
      ApplyMul(m, ScaledHat(x.omega, x.sigma), v);
      ScaledHatApply(x.omega, x.sigma, v);
      ApplyAdd(m, Cross(x.omega, v), Scale(x.sigma, v));
      ApplyScaled(m, x.sigma, v);
    }
    Extensional(Mul(ScaledHat(w, x.sigma), m), Mul(m, ScaledHat(x.omega, x.sigma)));
    ScaledHatApply(w, x.sigma, a.t);
    ApplyMul(Hat(a.t), r, x.omega);
    HatIsCross(a.t, w);
    CrossAntisymmetric(a.t, w);
    OppositeScale(x.sigma, a.t);
    ScaleUnit(Apply7(Adj(a), x).upsilon);
    ScaleUnit(a.t);
    POnes(0.0);
    POnes(1.0);
    hide Prod, Matrix, RotationMatrix, Mul, Apply, Scale, Cross, Hat, ScaledHat, Quaternion.SquaredNorm;
  }

  lemma OppositeScale(s: real, v: Vec3)
    ensures Scale(s, Neg(v)) == Neg(Scale(s, v))
  {}

  lemma VeeHat4(x: Twist)
    ensures Vee4(Hat4(x)) == x
  {}

  /** The adjoint is conjugation: hat(Adj_A x) = A hat(x) A^-1. */
  lemma AdjointIsConjugation(a: Similarity, x: Twist)
    requires a.q.SquaredNorm() != 0.0
    ensures Hat4(Apply7(Adj(a), x)) == Mul4(Mul4(Homogeneous(a), Hat4(x)), Homogeneous(Inverse(a)))
  {
    hide *;
    AdjointIntertwines(a, x);
    InverseLaws(a);
    ConjugateIs(Homogeneous(a), Homogeneous(Inverse(a)), Hat4(x), Hat4(Apply7(Adj(a), x)));
  }

  /** Adj_{AB} = Adj_A Adj_B. */
  lemma AdjointOfProduct(a: Similarity, b: Similarity, x: Twist)
    requires a.q.SquaredNorm() != 0.0 && b.q.SquaredNorm() != 0.0
    ensures Times(a, b).q.SquaredNorm() != 0.0
    ensures Apply7(Adj(Times(a, b)), x) == Apply7(Adj(a), Apply7(Adj(b), x))
  {
    var ab := Times(a, b);
    NonzeroNorm(a, b);
    var y := Apply7(Adj(b), x);
    hide *;
    var z, z' := Apply7(Adj(a), y), Apply7(Adj(ab), x);
    AdjointIntertwines(b, x);
    AdjointIntertwines(a, y);
    IntertwinesCompose(Homogeneous(a), Homogeneous(b), Hat4(x), Hat4(y), Hat4(z));
    MatrixOfProduct(a, b);
    AdjointIntertwines(ab, x);
    InverseLaws(ab);
    IntertwinesUnique(Homogeneous(ab), Homogeneous(Inverse(ab)), Hat4(x), Hat4(z), Hat4(z'));
    VeeHat4(z);
    VeeHat4(z');
  }

  lemma NonzeroNorm(a: Similarity, b: Similarity)
    requires a.q.SquaredNorm() != 0.0 && b.q.SquaredNorm() != 0.0
    ensures Times(a, b).q.SquaredNorm() != 0.0
  {
    NormProduct(a.q, b.q);
    NonzeroProduct(a.q.SquaredNorm(), b.q.SquaredNorm());
    hide QuaternionProduct, Quaternion.SquaredNorm;
  }

  // ----- the bracket -----

  /** The bracket is vee of the commutator, as its documentation defines it. */
  lemma BracketIsCommutator(a: Twist, b: Twist)
    ensures Commutator(Hat4(a), Hat4(b)) == Hat4(LieBracket(a, b))
    ensures LieBracket(a, b) == Vee4(Commutator(Hat4(a), Hat4(b)))
  {
    BracketLinear(a.omega, a.sigma, b.omega, b.sigma);
    ScaledHatApply(a.omega, a.sigma, b.upsilon);
    ScaledHatApply(b.omega, b.sigma, a.upsilon);
    ScaleUnit(a.upsilon);
    ScaleUnit(b.upsilon);
    HatIsCross(a.omega, b.upsilon);
    HatIsCross(a.upsilon, b.omega);
    CrossAntisymmetric(a.upsilon, b.omega);
    POnes(0.0);
    VeeHat4(LieBracket(a, b));
    hide Prod, Mul, Apply, MatSub, Scale, Cross, Hat, ScaledHat;
  }

  lemma BracketLinear(w: Vec3, s: real, u: Vec3, t: real)
    ensures MatSub(Mul(ScaledHat(w, s), ScaledHat(u, t)), Mul(ScaledHat(u, t), ScaledHat(w, s))) == ScaledHat(Cross(w, u), 0.0)
  {
    var m, n := Mul(ScaledHat(w, s), ScaledHat(u, t)), Mul(ScaledHat(u, t), ScaledHat(w, s));
    forall v
      ensures Apply(MatSub(m, n), v) == Apply(ScaledHat(Cross(w, u), 0.0), v)
    {
      ApplyMatSub(m, n, v);
      ApplyMul(ScaledHat(w, s), ScaledHat(u, t), v);
      ApplyMul(ScaledHat(u, t), ScaledHat(w, s), v);
      hide Apply, Mul, MatSub, Cross, ScaledHat;
      ScaledHatApply(u, t, v);
      ScaledHatApply(w, s, v);
      ScaledHatApply(w, s, Add(Cross(u, v), Scale(t, v)));
      ScaledHatApply(u, t, Add(Cross(w, v), Scale(s, v)));
      CrossAdd(w, Cross(u, v), Scale(t, v));
      CrossAdd(u, Cross(w, v), Scale(s, v));
      CrossScale(w, t, v);
      CrossScale(u, s, v);
      ScaleAdd(s, Cross(u, v), Scale(t, v));
      ScaleAdd(t, Cross(w, v), Scale(s, v));
      ScaleTwice(s, t, v);
      ScaleTwice(t, s, v);
      PSym(s, t);
      CrossJacobi(w, u, v);
      ScaledHatApply(Cross(w, u), 0.0, v);
      ScaleUnit(v);
      hide Prod, Scale;
    }
    Extensional(MatSub(m, n), ScaledHat(Cross(w, u), 0.0));
  }

  /** Adj preserves the bracket. */
  lemma AdjointPreservesBracket(a: Similarity, x: Twist, y: Twist)
    requires a.q.SquaredNorm() != 0.0
    ensures Apply7(Adj(a), LieBracket(x, y)) == LieBracket(Apply7(Adj(a), x), Apply7(Adj(a), y))
  {
    hide *;
    var x', y', z := Apply7(Adj(a), x), Apply7(Adj(a), y), Apply7(Adj(a), LieBracket(x, y));
    AdjointIntertwines(a, x);
    AdjointIntertwines(a, y);
    IntertwinesCommutator(Homogeneous(a), Hat4(x), Hat4(x'), Hat4(y), Hat4(y'));
    BracketIsCommutator(x, y);
    BracketIsCommutator(x', y');
    AdjointIntertwines(a, LieBracket(x, y));
    InverseLaws(a);
    IntertwinesUnique(Homogeneous(a), Homogeneous(Inverse(a)), Hat4(LieBracket(x, y)), Hat4(z), Hat4(LieBracket(x', y')));
    VeeHat4(z);
    VeeHat4(LieBracket(x', y'));
  }

  function SubTwist(a: Twist, b: Twist): Twist {
    Twist(Sub(a.upsilon, b.upsilon), Sub(a.omega, b.omega), a.sigma - b.sigma)
  }

  lemma HatSub(a: Twist, b: Twist)
    ensures Hat4(SubTwist(a, b)) == Sub4(Hat4(a), Hat4(b))
  {}

  /** The Jacobi identity. */
  lemma Jacobi(x: Twist, y: Twist, z: Twist)
    ensures SubTwist(LieBracket(x, LieBracket(y, z)), LieBracket(y, LieBracket(x, z))) == LieBracket(LieBracket(x, y), z)
  {
    hide *;
    BracketIsCommutator(y, z);
    BracketIsCommutator(x, z);
    BracketIsCommutator(x, y);
    BracketIsCommutator(x, LieBracket(y, z));
    BracketIsCommutator(y, LieBracket(x, z));
    BracketIsCommutator(LieBracket(x, y), z);
    CommutatorJacobi(Hat4(x), Hat4(y), Hat4(z));
    HatSub(LieBracket(x, LieBracket(y, z)), LieBracket(y, LieBracket(x, z)));
    VeeHat4(SubTwist(LieBracket(x, LieBracket(y, z)), LieBracket(y, LieBracket(x, z))));
    VeeHat4(LieBracket(LieBracket(x, y), z));
  }
}
