/** Rigid motions of the plane. */
module Se2 {
  import opened Linear
  import opened Planar
  import Sim2
  import SimDetails

  /** A pose: unit complex number and translation. */
  datatype Pose = Pose(z: Vec2, t: Vec2)

  datatype Twist = Twist(upsilon: Vec2, theta: real)

  predicate Valid(a: Pose) {
    Norm2(a.z) == 1.0
  }

  function Multiply(a: Pose, b: Pose): Pose {
    Pose(Times(a.z, b.z), Add2(a.t, Times(a.z, b.t)))
  }

  function Inverse(a: Pose): Pose {
    Pose(Conjugate(a.z), Times(Conjugate(a.z), Scale2(-1.0, a.t)))
  }

  function Hat(x: Twist): Mat3 {
    Hat3(Vec2(0.0, x.theta), x.upsilon)
  }

  /** The 3x3 adjoint applied to a tangent vector: rotation block, then the column (t.y, -t.x). */
  function AdjTimes(a: Pose, x: Twist): Twist {
    Twist(Add2(Times(a.z, x.upsilon), Scale2(x.theta, Vec2(a.t.y, -a.t.x))), x.theta)
  }

  function LieBracket(a: Twist, b: Twist): Twist {
    Twist(Vec2(-Prod(a.theta, b.upsilon.y) + Prod(b.theta, a.upsilon.y),
               Prod(a.theta, b.upsilon.x) - Prod(b.theta, a.upsilon.x)), 0.0)
  }

  // ----- as similarities without scale -----

  function Embed(a: Pose): Sim2.Similarity {
    Sim2.Similarity(a.z, a.t)
  }

  function EmbedTwist(x: Twist): Sim2.Twist {
    Sim2.Twist(x.upsilon, x.theta, 0.0)
  }

  lemma EmbedInverse(a: Pose)
    requires Valid(a)
    ensures Embed(Inverse(a)) == Sim2.Inverse(Embed(a)) && Valid(Inverse(a))
  {
    ConjugateTimes(a.z);
    UnitQuotient();
    ScaleScale(1.0, 1.0, a.z);
    hide Prod, Quotient, Norm2, Times, Scale2;
  }

  lemma UnitQuotient()
    ensures Quotient(1.0, 1.0) == 1.0
  {}

  lemma EmbedAdj(a: Pose, x: Twist)
    ensures Sim2.Apply4(Sim2.Adj(Embed(a)), EmbedTwist(x)) == EmbedTwist(AdjTimes(a, x))
  {}

  lemma EmbedBracket(x: Twist, y: Twist)
    ensures Sim2.LieBracket(EmbedTwist(x), EmbedTwist(y)) == EmbedTwist(LieBracket(x, y))
  {}

  /** The product keeps the invariant, is associative and is the product of the 3x3 matrices;
      the inverse is inverse on both sides. */
  lemma GroupLaws(a: Pose, b: Pose, c: Pose)
    requires Valid(a) && Valid(b) && Valid(c)
    ensures Valid(Multiply(a, b)) && Multiply(Multiply(a, b), c) == Multiply(a, Multiply(b, c))
    ensures Homogeneous(Multiply(a, b).z, Multiply(a, b).t) == Mul(Homogeneous(a.z, a.t), Homogeneous(b.z, b.t))
    ensures Multiply(a, Inverse(a)) == Pose(ONE2, ZERO2) == Multiply(Inverse(a), a)
  {
    NormTimes(a.z, b.z);
    POnes(1.0);
    Sim2.MultiplyAssoc(Embed(a), Embed(b), Embed(c));
    EmbedInverse(a);
    Sim2.InverseLaws(Embed(a));
    hide Prod, Norm2, Times, Mul, Homogeneous, Inverse, Sim2.Inverse;
  }

  /** hat(Adj_A x) = A hat(x) A^-1. */
  lemma AdjointIsConjugation(a: Pose, x: Twist)
    requires Valid(a)
    ensures Hat(AdjTimes(a, x)) == Mul(Mul(Homogeneous(a.z, a.t), Hat(x)), Homogeneous(Inverse(a).z, Inverse(a).t))
  {
    EmbedAdj(a, x);
    EmbedInverse(a);
    Sim2.AdjointIsConjugation(Embed(a), EmbedTwist(x));
    hide Norm2, Times, Mul, Homogeneous, Hat3, Inverse, Sim2.Inverse, Sim2.Adj, Sim2.Apply4, AdjTimes;
  }

  /** Adj_{AB} = Adj_A Adj_B, and Adj preserves the bracket. */
  lemma AdjointLaws(a: Pose, b: Pose, x: Twist, y: Twist)
    ensures AdjTimes(Multiply(a, b), x) == AdjTimes(a, AdjTimes(b, x))
    ensures AdjTimes(a, LieBracket(x, y)) == LieBracket(AdjTimes(a, x), AdjTimes(a, y))
  {
    hide Times, AdjTimes, LieBracket, Sim2.Adj, Sim2.Apply4, Sim2.LieBracket;
    EmbedAdj(b, x);
    EmbedAdj(a, AdjTimes(b, x));
    EmbedAdj(Multiply(a, b), x);
    Sim2.AdjointOfProduct(Embed(a), Embed(b), EmbedTwist(x));
    EmbedAdj(a, x);
    EmbedAdj(a, y);
    EmbedBracket(x, y);
    EmbedAdj(a, LieBracket(x, y));
    EmbedBracket(AdjTimes(a, x), AdjTimes(a, y));
    Sim2.AdjointPreservesBracket(Embed(a), EmbedTwist(x), EmbedTwist(y));
  }

  /** The bracket is vee of the commutator, and obeys the Jacobi identity. */
  lemma BracketLaws(x: Twist, y: Twist, z: Twist)
    ensures MatSub(Mul(Hat(x), Hat(y)), Mul(Hat(y), Hat(x))) == Hat(LieBracket(x, y))
    ensures var l, r := LieBracket(x, LieBracket(y, z)), LieBracket(y, LieBracket(x, z));
            Twist(Sub2(l.upsilon, r.upsilon), l.theta - r.theta) == LieBracket(LieBracket(x, y), z)
  {
    hide Mul, MatSub, Hat3, LieBracket, Sim2.LieBracket;
    EmbedBracket(x, y);
    EmbedBracket(y, z);
    EmbedBracket(x, z);
    EmbedBracket(x, LieBracket(y, z));
    EmbedBracket(y, LieBracket(x, z));
    EmbedBracket(LieBracket(x, y), z);
    Sim2.BracketIsCommutator(EmbedTwist(x), EmbedTwist(y));
    Sim2.Jacobi(EmbedTwist(x), EmbedTwist(y), EmbedTwist(z));
  }

  // ----- exponential and logarithm -----

  /** V of exp, as a complex number: sin / theta + i (1 - cos) / theta. */
  function V(theta: real, sine: real, cosine: real): Vec2 {
    if SimDetails.Small(theta) then
      var thetaSq := Prod(theta, theta);
      Vec2(1.0 - 1.0 / 6.0 * thetaSq, 0.5 * theta - 1.0 / 24.0 * Prod(theta, thetaSq))
    else
      Vec2(Quotient(sine, theta), Quotient(1.0 - cosine, theta))
  }

  function Exp(x: Twist, sine: real, cosine: real): Pose {
    var v := V(x.theta, sine, cosine);
    Pose(Vec2(cosine, sine),
         Vec2(Prod(v.x, x.upsilon.x) - Prod(v.y, x.upsilon.y), Prod(v.y, x.upsilon.x) + Prod(v.x, x.upsilon.y)))
  }

  /** V_inv of log, whose matrix is [h, theta/2; -theta/2, h], as a complex number. */
  function VInv(theta: real, z: Vec2): Vec2 {
    var halfTheta := 0.5 * theta;
    var realMinusOne := z.x - 1.0;
    var h := if SimDetails.Small(realMinusOne) then 1.0 - 1.0 / 12.0 * Prod(theta, theta)
             else Quotient(-Prod(halfTheta, z.y), realMinusOne);
    Vec2(h, -halfTheta)
  }

  function LogTranslation(a: Pose, theta: real): Vec2 {
    Times(VInv(theta, a.z), a.t)
  }

  /** i theta V = z - 1: the translation of exp integrates its rotation. */
  lemma ExpIsIntegral(theta: real, sine: real, cosine: real)
    requires !SimDetails.Small(theta)
    ensures Times(Vec2(0.0, theta), V(theta, sine, cosine)) == Sub2(Vec2(cosine, sine), ONE2)
  {
    hide Prod, Quotient;
    PSym(theta, Quotient(sine, theta));
    PSym(theta, Quotient(1.0 - cosine, theta));
    POnes(Quotient(sine, theta));
    POnes(Quotient(1.0 - cosine, theta));
  }

  /** V V_inv = 1 where both are in their closed forms. */
  lemma VInverse(theta: real, sine: real, cosine: real)
    requires Prod(sine, sine) + Prod(cosine, cosine) == 1.0
    requires !SimDetails.Small(theta) && !SimDetails.Small(cosine - 1.0)
    ensures Times(VInv(theta, Vec2(cosine, sine)), V(theta, sine, cosine)) == ONE2
  {
    hide Prod, Quotient;
    var k := 1.0 - cosine;
    var h := Quotient(-Prod(0.5 * theta, sine), cosine - 1.0);
    var p, q := Quotient(sine, theta), Quotient(1.0 - cosine, theta);
    PVInverse(theta, sine, cosine, k, h, p, q);
    PCancel(k, Prod(h, p), 0.5 * (1.0 + cosine));
    PCancel(theta, Prod(h, q), 0.5 * sine) by { PVScaled(theta, h, q, k); }
  }

  lemma PVInverse(theta: real, sine: real, cosine: real, k: real, h: real, p: real, q: real)
    requires k == 1.0 - cosine && Prod(sine, sine) + Prod(cosine, cosine) == 1.0
    requires Prod(h, cosine - 1.0) == -Prod(0.5 * theta, sine) && Prod(p, theta) == sine && Prod(q, theta) == k
    ensures Prod(k, Prod(h, p)) == Prod(k, 0.5 * (1.0 + cosine))
    ensures Prod(h, k) == Prod(theta, 0.5 * sine)
    ensures Prod(-0.5 * theta, q) == -0.5 * k && Prod(-0.5 * theta, p) == -0.5 * sine
  {}

  lemma PVScaled(theta: real, h: real, q: real, k: real)
    requires Prod(q, theta) == k
    ensures Prod(theta, Prod(h, q)) == Prod(h, k)
  {}

  /** Where exp uses its closed form and log its Taylor branch, the translation comes back
      for every input if and only if (1 - theta^2 / 12) 2 (1 - cos) = theta sin, which no such
      angle meets. */
  lemma VBand(theta: real, sine: real, cosine: real)
    requires Prod(sine, sine) + Prod(cosine, cosine) == 1.0 && cosine != 1.0
    requires !SimDetails.Small(theta) && SimDetails.Small(cosine - 1.0)
    ensures Times(VInv(theta, Vec2(cosine, sine)), V(theta, sine, cosine)) == ONE2
       <==> Prod(1.0 - 1.0 / 12.0 * Prod(theta, theta), 2.0 * (1.0 - cosine)) == Prod(theta, sine)
  {
    hide Prod, Quotient;
    var k, g := 1.0 - cosine, 1.0 - 1.0 / 12.0 * Prod(theta, theta);
    var h := Quotient(-Prod(0.5 * theta, sine), cosine - 1.0);
    var p, q := Quotient(sine, theta), Quotient(1.0 - cosine, theta);
    PVInverse(theta, sine, cosine, k, h, p, q);
    PCancel(k, Prod(h, p), 0.5 * (1.0 + cosine));
    PCancel(theta, Prod(h, q), 0.5 * sine) by { PVScaled(theta, h, q, k); }
    POnes(theta);
    PVBand(g, h, p, q, k, theta, sine);
    if q == 0.0 {
      assert false;
    }
    if Prod(g - h, q) == 0.0 {
      PSym(g - h, q);
      POnes(q);
      PCancel(q, g - h, 0.0);
    }
    if Prod(k, g - h) == 0.0 {
      POnes(k);
      PCancel(k, g - h, 0.0);
    }
  }

  lemma PVBand(g: real, h: real, p: real, q: real, k: real, theta: real, sine: real)
    ensures Prod(g, q) == Prod(h, q) + Prod(g - h, q) && Prod(g, p) == Prod(h, p) + Prod(g - h, p)
    ensures Prod(g, 2.0 * k) == 2.0 * Prod(h, k) + 2.0 * Prod(k, g - h)
    ensures Prod(theta, 0.5 * sine) == 0.5 * Prod(theta, sine)
    ensures g == h ==> Prod(g - h, p) == 0.0 == Prod(g - h, q) == Prod(k, g - h)
  {}

  lemma ExpTranslation(x: Twist, sine: real, cosine: real)
    ensures Exp(x, sine, cosine) == Pose(Vec2(cosine, sine), Times(V(x.theta, sine, cosine), x.upsilon))
  {}
}
