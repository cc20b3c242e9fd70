/** Similarities of the plane: group laws, adjoint, bracket, exponential and logarithm. */
module Sim2 {
  import opened Linear
  import opened Constants
  import opened Skew
  import opened Planar
  import opened Checked
  import RxSo2
  import SimDetails

  datatype Similarity = Similarity(z: Vec2, t: Vec2)

  /** A tangent vector: translational part, angle, logarithm of the scale. */
  datatype Twist = Twist(upsilon: Vec2, theta: real, sigma: real) {
    /** sigma + i theta. */
    function Turn(): Vec2 {
      Vec2(sigma, theta)
    }
  }

  /** Group multiplication wherever the scale does not saturate. */
  function Multiply(a: Similarity, b: Similarity): Similarity {
    Similarity(Times(a.z, b.z), Add2(a.t, Times(a.z, b.t)))
  }

  function Inverse(a: Similarity): Similarity
    requires Norm2(a.z) != 0.0
  {
    var inv := Conjugate(Scale2(Quotient(1.0, Norm2(a.z)), a.z));
    Similarity(inv, Times(inv, Scale2(-1.0, a.t)))
  }

  function Matrix(a: Similarity): Mat3 {
    Homogeneous(a.z, a.t)
  }

  function Hat(x: Twist): Mat3 {
    Hat3(x.Turn(), x.upsilon)
  }

  /** The 4x4 adjoint: the matrix of z, two columns, and an identity block below. */
  datatype Adjoint = Adjoint(z: Vec2, angleColumn: Vec2, scaleColumn: Vec2)

  function Adj(a: Similarity): Adjoint {
    Adjoint(a.z, Vec2(a.t.y, -a.t.x), Vec2(-a.t.x, -a.t.y))
  }

  function Apply4(m: Adjoint, x: Twist): Twist {
    Twist(Add2(Add2(Times(m.z, x.upsilon), Scale2(x.theta, m.angleColumn)), Scale2(x.sigma, m.scaleColumn)), x.theta, x.sigma)
  }

  function LieBracket(a: Twist, b: Twist): Twist {
    Twist(Vec2(-Prod(a.theta, b.upsilon.y) + Prod(b.theta, a.upsilon.y) + Prod(a.sigma, b.upsilon.x) - Prod(b.sigma, a.upsilon.x),
               Prod(a.theta, b.upsilon.x) - Prod(b.theta, a.upsilon.x) + Prod(a.sigma, b.upsilon.y) - Prod(b.sigma, a.upsilon.y)),
          0.0, 0.0)
  }

  // ----- group laws -----

  lemma MultiplyAssoc(a: Similarity, b: Similarity, c: Similarity)
    ensures Multiply(Multiply(a, b), c) == Multiply(a, Multiply(b, c))
    ensures Matrix(Multiply(a, b)) == Mul(Matrix(a), Matrix(b))
  {
    TimesAssoc(a.z, b.z, c.z);
    TimesAssoc(a.z, b.z, c.t);
    TimesAdd(a.z, b.t, Times(b.z, c.t));
    MatrixProducts(a.z, a.t, b.z, b.t);
    hide Times, Mul, Homogeneous;
  }

  lemma InverseLaws(a: Similarity)
    requires Norm2(a.z) != 0.0
    ensures Multiply(a, Inverse(a)) == Similarity(ONE2, ZERO2) == Multiply(Inverse(a), a)
    ensures Mul(Matrix(a), Matrix(Inverse(a))) == IDENTITY == Mul(Matrix(Inverse(a)), Matrix(a))
  {
    var n := Norm2(a.z);
    var i := Quotient(1.0, n);
    var inv := Inverse(a);
    RxSo2.ConjugateScale(i, a.z);
    ConjugateTimes(a.z);
    TimesScale(i, a.z, Conjugate(a.z));
    RxSo2.ScaleReal(i, n);
    TimesSym(a.z, inv.z);
    TimesAssoc(a.z, inv.z, Scale2(-1.0, a.t));
    TimesOne(Scale2(-1.0, a.t));
    TimesScale(-1.0, inv.z, a.t);
    Opposites(a.t);
    Opposites(Times(inv.z, a.t));
    MultiplyAssoc(a, inv, a);
    MultiplyAssoc(inv, a, inv);
    hide Prod, Quotient, Norm2, Times, Scale2, Mul;
  }

  lemma Opposites(t: Vec2)
    ensures Add2(t, Scale2(-1.0, t)) == ZERO2 == Add2(Scale2(-1.0, t), t)
  {}

  // ----- adjoint and bracket in complex form -----

  /** Adj turns u into z u - (sigma + i theta) t. */
  lemma AdjointForm(a: Similarity, x: Twist)
    ensures Apply4(Adj(a), x) == Twist(Sub2(Times(a.z, x.upsilon), Times(x.Turn(), a.t)), x.theta, x.sigma)
  {}

  /** The bracket is w1 u2 - w2 u1 with w = sigma + i theta. */
  lemma BracketForm(a: Twist, b: Twist)
    ensures LieBracket(a, b) == Twist(Sub2(Times(a.Turn(), b.upsilon), Times(b.Turn(), a.upsilon)), 0.0, 0.0)
  {}

  /** hat(Adj_A x) = A hat(x) A^-1. */
  lemma AdjointIsConjugation(a: Similarity, x: Twist)
    requires Norm2(a.z) != 0.0
    ensures Hat(Apply4(Adj(a), x)) == Mul(Mul(Matrix(a), Hat(x)), Matrix(Inverse(a)))
  {
    hide Prod, Norm2, Times, Mul, Apply4, Adj, Homogeneous, Hat3, Inverse;
    var y, w := Apply4(Adj(a), x), x.Turn();
    AdjointForm(a, x);
    MatrixProducts(w, y.upsilon, a.z, a.t);
    MatrixProducts(a.z, a.t, w, x.upsilon);
    TimesSym(a.z, w);
    InverseLaws(a);
    MulAssoc(Hat(y), Matrix(a), Matrix(Inverse(a)));
    MulIdentity(Hat(y));
  }

  /** Adj_{AB} = Adj_A Adj_B. */
  lemma AdjointOfProduct(a: Similarity, b: Similarity, x: Twist)
    ensures Apply4(Adj(Multiply(a, b)), x) == Apply4(Adj(a), Apply4(Adj(b), x))
  {
    hide Prod, Times, Apply4, Adj;
    var w := x.Turn();
    AdjointForm(b, x);
    AdjointForm(a, Apply4(Adj(b), x));
    AdjointForm(Multiply(a, b), x);
    TimesAssoc(a.z, b.z, x.upsilon);
    TimesAdd(a.z, Times(b.z, x.upsilon), Times(w, b.t));
    TimesAdd(w, a.t, Times(a.z, b.t));
    TimesAssoc(a.z, w, b.t);
    TimesAssoc(w, a.z, b.t);
    TimesSym(a.z, w);
  }

  /** Adj preserves the bracket. */
  lemma AdjointPreservesBracket(a: Similarity, x: Twist, y: Twist)
    ensures Apply4(Adj(a), LieBracket(x, y)) == LieBracket(Apply4(Adj(a), x), Apply4(Adj(a), y))
  {
    hide Prod, Times, Apply4, Adj, LieBracket;
    var v, w := x.Turn(), y.Turn();
    BracketForm(x, y);
    AdjointForm(a, x);
    AdjointForm(a, y);
    AdjointForm(a, LieBracket(x, y));
    BracketForm(Apply4(Adj(a), x), Apply4(Adj(a), y));
    TimesAdd(a.z, Times(v, y.upsilon), Times(w, x.upsilon));
    TimesAdd(v, Times(a.z, y.upsilon), Times(w, a.t));
    TimesAdd(w, Times(a.z, x.upsilon), Times(v, a.t));
    TimesAssoc(a.z, v, y.upsilon);
    TimesAssoc(v, a.z, y.upsilon);
    TimesSym(a.z, v);
    TimesAssoc(a.z, w, x.upsilon);
    TimesAssoc(w, a.z, x.upsilon);
    TimesSym(a.z, w);
    TimesAssoc(v, w, a.t);
    TimesAssoc(w, v, a.t);
    TimesSym(v, w);
    ZeroTurn(a.t);
  }

  lemma ZeroTurn(t: Vec2)
    ensures Times(Vec2(0.0, 0.0), t) == ZERO2
  {}

  /** The bracket is vee of the commutator. */
  lemma BracketIsCommutator(x: Twist, y: Twist)
    ensures MatSub(Mul(Hat(x), Hat(y)), Mul(Hat(y), Hat(x))) == Hat(LieBracket(x, y))
  {
    BracketForm(x, y);
    MatrixProducts(x.Turn(), x.upsilon, y.Turn(), y.upsilon);
    MatrixProducts(y.Turn(), y.upsilon, x.Turn(), x.upsilon);
    TimesSym(x.Turn(), y.Turn());
    hide Prod, Times, Mul, LieBracket;
  }

  lemma Jacobi(x: Twist, y: Twist, z: Twist)
    ensures var l, r := LieBracket(x, LieBracket(y, z)), LieBracket(y, LieBracket(x, z));
            Twist(Sub2(l.upsilon, r.upsilon), l.theta - r.theta, l.sigma - r.sigma) == LieBracket(LieBracket(x, y), z)
  {
    hide Prod, Times, LieBracket;
    var u, v, w := x.Turn(), y.Turn(), z.Turn();
    BracketForm(y, z);
    BracketForm(x, z);
    BracketForm(x, y);
    BracketForm(x, LieBracket(y, z));
    BracketForm(y, LieBracket(x, z));
    BracketForm(LieBracket(x, y), z);
    ZeroTurn(x.upsilon);
    ZeroTurn(y.upsilon);
    ZeroTurn(z.upsilon);
    TimesAdd(u, Times(v, z.upsilon), Times(w, y.upsilon));
    TimesAdd(v, Times(u, z.upsilon), Times(w, x.upsilon));
    TimesAdd(w, Times(u, y.upsilon), Times(v, x.upsilon));
    Swap(u, v, z.upsilon);
    Swap(u, w, y.upsilon);
    Swap(v, w, x.upsilon);
  }

  lemma Swap(a: Vec2, b: Vec2, c: Vec2)
    ensures Times(a, Times(b, c)) == Times(b, Times(a, c))
  {
    TimesAssoc(a, b, c);
    TimesAssoc(b, a, c);
    TimesSym(a, b);
    hide Times;
  }

  // ----- exponential and logarithm -----

  /** The matrix A Omega + B Omega^2 + C I of the planar rotation rate acts as one complex number. */
  lemma PolyIsComplex(theta: real, p: Poly, v: Vec2)
    ensures var omega := Vec2(0.0, theta);
            Add2(Add2(Scale2(p.a, Times(omega, v)), Scale2(p.b, Times(omega, Times(omega, v)))), Scale2(p.c, v))
            == Times(ToComplex(theta, p), v)
  {
    PPolyComplex(theta, p.c, p.a, p.b, v.x, v.y);
    hide Prod;
  }

  lemma PPolyComplex(theta: real, c: real, a: real, b: real, x: real, y: real)
    ensures Prod(a, Prod(0.0, x) - Prod(theta, y)) + Prod(b, Prod(0.0, Prod(0.0, x) - Prod(theta, y)) - Prod(theta, Prod(0.0, y) + Prod(theta, x))) + Prod(c, x)
         == Prod(c - Prod(Prod(theta, theta), b), x) - Prod(Prod(theta, a), y)
    ensures Prod(a, Prod(0.0, y) + Prod(theta, x)) + Prod(b, Prod(0.0, Prod(0.0, y) + Prod(theta, x)) + Prod(theta, Prod(0.0, x) - Prod(theta, y))) + Prod(c, y)
         == Prod(c - Prod(Prod(theta, theta), b), y) + Prod(Prod(theta, a), x)
  {}

  /** Exp, given the cosine and sine of theta and the exponential of sigma. */
  function Exp(x: Twist, scale: real, sine: real, cosine: real): Checked<Similarity> {
    match RxSo2.Exp(Vec2(cosine, sine), scale)
    case Pass(z) => Pass(Similarity(z, Times(ToComplex(x.theta, SimDetails.CalcW(x.theta, x.sigma, scale, sine, cosine)), x.upsilon)))
    case Abort => Abort
  }

  /** The translational part that log computes. */
  function LogTranslation(a: Similarity, theta: real, sigma: real, scale: real, sine: real, cosine: real): Vec2
    requires SimDetails.Transcendental(sigma, scale, sine, cosine)
    requires Prod(sigma, sigma) < EPSILON && Prod(theta, theta) >= EPSILON ==> cosine != 1.0
  {
    Times(ToComplex(theta, SimDetails.CalcWInv(theta, sigma, scale, sine, cosine)), a.t)
  }

  lemma UnitNorm(sine: real, cosine: real)
    requires Prod(sine, sine) + Prod(cosine, cosine) == 1.0
    ensures Norm2(Vec2(cosine, sine)) == 1.0
  {}

  /** (sigma + i theta) W = z - 1: the translation of exp integrates its rotation and scale. */
  lemma ExpIsIntegral(x: Twist, scale: real, sine: real, cosine: real)
    requires SimDetails.Transcendental(x.sigma, scale, sine, cosine) && !SimDetails.Small(x.theta)
    requires x.sigma == 0.0 || !SimDetails.Small(x.sigma)
    ensures Times(x.Turn(), ToComplex(x.theta, SimDetails.CalcW(x.theta, x.sigma, scale, sine, cosine)))
         == Sub2(Scale2(scale, Vec2(cosine, sine)), ONE2)
  {
    var w, n := SimDetails.CalcW(x.theta, x.sigma, scale, sine, cosine), Prod(x.theta, x.theta);
    var p := PolyTimes(n, Poly(x.sigma, 1.0, 0.0), w);
    SimDetails.WIsIntegral(x.theta, x.sigma, scale, sine, cosine);
    ToComplexTimes(x.theta, Poly(x.sigma, 1.0, 0.0), w);
    POnes(n);
    POnes(x.theta);
    PSym(p.a, x.theta);
    PSym(p.b, n);
    hide Prod, Times, PolyTimes, SimDetails.CalcW;
  }
}
