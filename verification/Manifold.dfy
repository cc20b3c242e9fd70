/** The Ceres manifold on SE3 and Sim3: Plus is T exp(x), Minus is log(x^-1 y). */
module Manifold {
  import opened Linear
  import opened Constants
  import opened Quaternions
  import opened Checked
  import opened Elementary
  import opened ExpLog
  import opened Logarithm
  import opened TaylorBranches
  import opened UnitQuaternions
  import RxSo3
  import Se3
  import Se3Group
  import Se3Product
  import Sim3
  import Sim3Log
  import Sim3Product

  // ----- SE3 -----

  ghost function PlusSe3(f: Elementary, x: Se3.Pose, d: Se3.Twist): Checked<Se3.Pose>
    requires Facts(f)
  {
    Se3Product.Product(f, x, Se3Exp(f, d))
  }

  ghost function DifferenceSe3(f: Elementary, y: Se3.Pose, x: Se3.Pose): Checked<Se3.Pose>
    requires Facts(f)
  {
    Se3Product.Product(f, Se3Group.Inverse(x), y)
  }

  ghost function MinusSe3(f: Elementary, y: Se3.Pose, x: Se3.Pose): Checked<Se3.Twist>
    requires Facts(f)
  {
    hide Facts, Se3Group.Inverse, Se3Log, Loggable;
    match DifferenceSe3(f, y, x)
    case Pass(z) => Se3Product.ProductIsValid(f, Se3Group.Inverse(x), y); Se3Log(f, z)
    case Abort => Abort
  }

  /** Minus(Plus(x, d), x) = d, products normalised, if and only if d does not rotate, or by at
      most pi and with a sine of half the angle that has reached epsilon. */
  lemma MinusOfPlusSe3(f: Elementary, x: Se3.Pose, d: Se3.Twist)
    requires Facts(f) && Se3Group.Valid(x)
    ensures PlusSe3(f, x, d).Pass? && Se3Group.Valid(PlusSe3(f, x, d).value)
    ensures MinusSe3(f, PlusSe3(f, x, d).value, x) == Pass(d) <==> Recovered(f, d.omega)
  {
    hide Facts, Recovered, Se3Exp, Se3Log, Loggable, Se3Group.Times, Se3Group.Inverse, Se3Group.Valid, Se3Product.Product, Se3Product.UnitPose,
         Quaternion.SquaredNorm;
    Se3Product.LogOfUnitExpExactlyWhen(f, d);
    var e := Se3Exp(f, d);
    var u := Se3Product.UnitPose(f, e);
    Se3Product.ProductIs(f, x, e);
    Se3Product.UnitPoseIsValid(f, e);
    DifferenceIs(f, Se3Group.Times(x, u), x);
    BackAndForth(x, u);
  }

  /** Between valid poses the difference never aborts. */
  lemma DifferenceIs(f: Elementary, y: Se3.Pose, x: Se3.Pose)
    requires Facts(f) && Se3Group.Valid(x) && Se3Group.Valid(y)
    ensures DifferenceSe3(f, y, x) == Pass(Se3Group.Times(Se3Group.Inverse(x), y)) && Se3Group.Valid(DifferenceSe3(f, y, x).value)
  {
    hide Facts, Se3Group.Times, Se3Group.Inverse, Se3Product.Product, Se3Product.UnitPose, Quaternion.SquaredNorm;
    Se3Group.EmbedInverse(x);
    Se3Product.ProductIs(f, Se3Group.Inverse(x), y);
  }

  /** Plus(x, Minus(y, x)) is y up to the sign of the quaternion, which is no part of the motion,
      if and only if the vector part of the difference is zero or at least epsilon long. */
  lemma PlusOfMinusSe3(f: Elementary, x: Se3.Pose, y: Se3.Pose)
    requires Facts(f) && Se3Group.Valid(x) && Se3Group.Valid(y)
    ensures DifferenceSe3(f, y, x).Pass? && MinusSe3(f, y, x).Pass? && PlusSe3(f, x, MinusSe3(f, y, x).value).Pass?
    ensures var r, z := PlusSe3(f, x, MinusSe3(f, y, x).value).value, DifferenceSe3(f, y, x).value.q;
            var exact := z.Vec() == ZERO || SquaredVec(z) >= EPSILON * EPSILON;
            && (exact ==> r == Se3.Pose(if z.w < 0.0 then y.q.Times(-1.0) else y.q, y.t))
            && (r == y || r == Se3.Pose(y.q.Times(-1.0), y.t) <==> exact)
  {
    hide Facts, Prod, SquaredVec, Se3Exp, Se3Log, Se3Group.Times, Se3Group.Inverse, Se3Product.Product, Se3Product.UnitPose,
         Quaternion.SquaredNorm, Quaternion.Times, Quaternion.Vec;
    DifferenceIs(f, y, x);
    var z := DifferenceSe3(f, y, x).value;
    BackAndForth(x, y);
    Se3Product.UnitExpOfLogExactlyWhen(f, z);
    var e := Se3Exp(f, Se3Log(f, z).value);
    var u, opposite := Se3Product.UnitPose(f, e), Se3.Pose(z.q.Times(-1.0), z.t);
    Se3Product.ProductIs(f, x, e);
    Se3Product.UnitPoseIsValid(f, e);
    SignedTimes(x, z);
    UprightParts(z.q);
    UprightParts(y.q);
    BackAndForth(x, opposite);
    BackAndForth(x, u);
  }

  /** The tangent space is that of the local frame: moving both poses by the same motion moves the sum with
      them and does not change the difference. */
  lemma LeftInvariantSe3(f: Elementary, z: Se3.Pose, x: Se3.Pose, y: Se3.Pose, d: Se3.Twist)
    requires Facts(f) && Se3Group.Valid(z) && Se3Group.Valid(x) && Se3Group.Valid(y)
    ensures PlusSe3(f, x, d).Pass? && PlusSe3(f, Se3Group.Times(z, x), d) == Pass(Se3Group.Times(z, PlusSe3(f, x, d).value))
    ensures MinusSe3(f, Se3Group.Times(z, y), Se3Group.Times(z, x)) == MinusSe3(f, y, x)
  {
    hide Facts, Se3Exp, Se3Log, Loggable, Se3Group.Times, Se3Group.Inverse, Se3Group.Valid, Se3Group.Homogeneous, Se3Product.Product, Se3Product.UnitPose,
         Quaternion.SquaredNorm;
    var e := Se3Exp(f, d);
    Se3Product.LogOfUnitExpExactlyWhen(f, d);
    var u, zx, zy := Se3Product.UnitPose(f, e), Se3Group.Times(z, x), Se3Group.Times(z, y);
    Se3Product.UnitPoseIsValid(f, e);
    BackAndForth(z, x);
    BackAndForth(z, y);
    Se3Product.ProductIs(f, x, e);
    Se3Product.ProductIs(f, zx, e);
    Se3Group.ProductIsGroup(z, x, u);
    DifferenceIs(f, y, x);
    DifferenceIs(f, zy, zx);
    var near := Se3Group.Times(Se3Group.Inverse(x), y);
    BackAndForth(x, y);
    Se3Group.ProductIsGroup(z, x, near);
    BackAndForth(zx, near);
  }

  /** Both ways round a pose and its inverse cancel. */
  lemma BackAndForth(x: Se3.Pose, e: Se3.Pose)
    requires Se3Group.Valid(x) && Se3Group.Valid(e)
    ensures Se3Group.Times(Se3Group.Inverse(x), Se3Group.Times(x, e)) == e && Se3Group.Valid(Se3Group.Times(x, e))
    ensures Se3Group.Times(x, Se3Group.Times(Se3Group.Inverse(x), e)) == e && Se3Group.Valid(Se3Group.Times(Se3Group.Inverse(x), e))
  {
    hide Prod, Se3Group.Times, Se3Group.Inverse, Se3Group.Valid, Se3Group.Homogeneous, Quaternion.SquaredNorm;
    Se3Group.EmbedInverse(x);
    Se3Group.ProductIsGroup(Se3Group.Inverse(x), x, e);
    Se3Group.ProductIsGroup(x, Se3Group.Inverse(x), e);
    Se3Group.ProductIsGroup(Se3Group.Inverse(x), e, e);
    Se3Group.ProductIsGroup(x, e, e);
    Se3Group.InverseIsGroup(x);
    Se3Group.IdentityTimes(e);
  }

  lemma SignedTimes(x: Se3.Pose, z: Se3.Pose)
    ensures Se3Group.Times(x, Se3.Pose(z.q.Times(-1.0), z.t)) == Se3.Pose(Se3Group.Times(x, z).q.Times(-1.0), Se3Group.Times(x, z).t)
  {
    Se3Product.ProductTimes(x.q, z.q, -1.0);
    hide QuaternionProduct, UnitAction, Quaternion.Times;
  }

  // ----- Sim3 -----

  ghost function PlusSim3(f: Elementary, x: Sim3.Similarity, d: Sim3.Twist): Checked<Sim3.Similarity>
    requires Facts(f)
  {
    match Sim3Log.Exp(f, d)
    case Pass(step) => Sim3Product.Product(f, x, step)
    case Abort => Abort
  }

  ghost function MinusSim3(f: Elementary, y: Sim3.Similarity, x: Sim3.Similarity): Checked<Sim3.Twist>
    requires Facts(f) && Sim3Product.ScaleOf(x) != 0.0
  {
    hide Facts, Quaternion.SquaredNorm, Sim3Product.Product, Sim3Log.Log;
    match Sim3Product.Inverse(x)
    case Abort => Abort
    case Pass(i) =>
      match Sim3Product.Product(f, i, y)
      case Pass(z) => PositiveScale(f, i, y); Sim3Log.Log(f, z)
      case Abort => Abort
  }

  lemma PositiveScale(f: Elementary, a: Sim3.Similarity, b: Sim3.Similarity)
    requires Facts(f) && Sim3Product.Product(f, a, b).Pass?
    ensures Sim3Product.Product(f, a, b).value.q.SquaredNorm() > 0.0
  {
    hide Facts, Prod, QuaternionProduct, Quaternion.SquaredNorm, Quaternion.Times, ScaledAction, RxSo3.SaturationFactor;
  }

  lemma LessProd(x: real, y: real, s: real)
    requires s > 0.0 && Prod(x, s) < Prod(y, s)
    ensures x < y
  {
    if x >= y {
      ProductSign(x - y, s);
    }
  }

  /** A saturated product, multiplied back, does not saturate again and misses the factor. */
  lemma SaturationMoves(s: real, i: real, e: real)
    requires EPSILON <= s < 1.0 / EPSILON && EPSILON <= e < 1.0 / EPSILON && Prod(s, i) == 1.0
    ensures Prod(s, e) < EPSILON ==> RxSo3.Saturated(Prod(i, RxSo3.Saturated(Prod(s, e)))) > (1.0 + EPSILON) * e
    ensures Prod(s, e) > 1.0 / EPSILON ==> (1.0 + EPSILON) * RxSo3.Saturated(Prod(i, RxSo3.Saturated(Prod(s, e)))) < e
  {
    var r := RxSo3.Saturated(Prod(s, e));
    var t := Prod(i, r);
    PBack(s, i, r);
    PSym(s, e);
    PMore(e, s);
    PMore(t, s);
    ProdIs((1.0 + EPSILON) * 2.0, s);
    ProdIs(EPSILON, s);
    hide Prod;
    if Prod(s, e) < EPSILON {
      LessProd((1.0 + EPSILON) * e, t, s);
      LessProd(t, (1.0 + EPSILON) * 2.0, s);
    } else if Prod(s, e) > 1.0 / EPSILON {
      LessProd((1.0 + EPSILON) * t, e, s);
      LessProd(EPSILON, t, s);
    }
  }

  lemma PMore(x: real, s: real)
    ensures Prod((1.0 + EPSILON) * x, s) == (1.0 + EPSILON) * Prod(x, s)
  {}

  lemma PBack(s: real, i: real, r: real)
    requires Prod(s, i) == 1.0
    ensures Prod(Prod(i, r), s) == r
  {
    assert Prod(Prod(i, r), s) == Prod(Prod(s, i), r);
  }

  lemma BackAndForthSim3(x: Sim3.Similarity, i: Sim3.Similarity, e: Sim3.Similarity)
    requires Sim3.Times(i, x) == Sim3.IDENTITY_SIMILARITY
    ensures Sim3.Times(i, Sim3.Times(x, e)) == e
  {
    Sim3.TimesAssoc(i, x, e);
    IdentityTimes(e);
    hide Sim3.Times;
  }

  lemma IdentityTimes(e: Sim3.Similarity)
    ensures Sim3.Times(Sim3.IDENTITY_SIMILARITY, e) == e
  {
    ProductReal(1.0, e.q);
    RxSo3.TimesOne(e.q);
    ActionIsMatrix(Real(1.0), e.t);
    Sim3.UnitMatrix();
    ApplyIdentity(e.t);
    hide QuaternionProduct, ScaledAction, Quaternion.Times, Matrix, Apply;
  }

  /** Multiplying by an element and then by its inverse gives back the factor if the first product
      does not saturate; if it does, the rotation comes back and the scale does not. */
  lemma ThereAndBack(f: Elementary, x: Sim3.Similarity, i: Sim3.Similarity, e: Sim3.Similarity) returns (k: real)
    requires Facts(f) && Sim3Product.Valid(x) && Sim3Product.Valid(i) && Sim3Product.Valid(e)
    requires Sim3.Times(i, x) == Sim3.IDENTITY_SIMILARITY && Prod(Sim3Product.ScaleOf(x), Sim3Product.ScaleOf(i)) == 1.0
    requires Sim3Product.Product(f, x, e).Pass?
    ensures var r, p, s := Sim3Product.Product(f, i, Sim3Product.Product(f, x, e).value), Sim3Product.TrueScale(x, e), Sim3Product.ScaleOf(e);
            && (EPSILON <= p <= 1.0 / EPSILON ==> r == Pass(e))
            && (r.Pass? && p < EPSILON ==> Sim3Product.ScaleOf(r.value) > (1.0 + EPSILON) * s)
            && (r.Pass? && p > 1.0 / EPSILON ==> (1.0 + EPSILON) * Sim3Product.ScaleOf(r.value) < s)
            && (r.Pass? ==> k > 0.0 && r.value.q == e.q.Times(k))
  {
    hide Facts, Prod, Sim3.Times, Sim3Product.Product, Quaternion.SquaredNorm, QuaternionProduct, Matrix, MatScale, Mul, RxSo3.RotationMatrix, Quaternion.Times;
    k := 1.0;
    Sim3Product.ProductSucceeds(f, x, e);
    var y := Sim3Product.Product(f, x, e).value;
    Sim3Product.ProductSucceeds(f, i, y);
    BackAndForthSim3(x, i, e);
    SaturationMoves(Sim3Product.ScaleOf(x), Sim3Product.ScaleOf(i), Sim3Product.ScaleOf(e));
    PCancelled(Sim3Product.ScaleOf(x), Sim3Product.ScaleOf(i), Sim3Product.ScaleOf(e));
    if Sim3Product.Product(f, i, y).Pass? {
      var j := Sim3Product.ProductIsMultiple(f, x, e);
      k := Sim3Product.ProductIsMultiple(f, i, y);
      Se3Product.ProductTimes(i.q, QuaternionProduct(x.q, e.q), j);
      RxSo3.TimesTimes(QuaternionProduct(i.q, QuaternionProduct(x.q, e.q)), j, k);
      Sim3Product.TimesQuaternion(x, e);
      Sim3Product.TimesQuaternion(i, Sim3.Times(x, e));
      ProdIs(j, k);
      PositiveProduct(j, k, Prod(j, k));
      k := Prod(j, k);
    }
  }

  lemma PCancelled(s: real, i: real, e: real)
    requires Prod(s, i) == 1.0
    ensures Prod(i, Prod(s, e)) == e
  {
    assert Prod(i, Prod(s, e)) == Prod(Prod(s, i), e);
  }

  /** Where a clamped scale makes a product saturate, the clamp has moved it the same way. */
  lemma ClampedSaturation(s: real, scale: real)
    requires EPSILON <= s < 1.0 / EPSILON
    ensures Prod(s, RxSo3.ExpScale(scale)) < EPSILON ==> scale <= RxSo3.ExpScale(scale)
    ensures Prod(s, RxSo3.ExpScale(scale)) > 1.0 / EPSILON ==> scale >= RxSo3.ExpScale(scale)
  {}

  lemma MoreThan(x: real)
    requires x > 0.0
    ensures (1.0 + EPSILON) * x > x
  {}

  /** What Minus(Plus(x, d), x) gives of rotation and scale, if nothing aborts. */
  lemma RoundTrip(f: Elementary, x: Sim3.Similarity, d: Sim3.Twist)
    requires Facts(f) && Sim3Product.Valid(x) && PlusSim3(f, x, d).Pass? && MinusSim3(f, PlusSim3(f, x, d).value, x).Pass?
    ensures var r, p := MinusSim3(f, PlusSim3(f, x, d).value, x).value, Prod(Sim3Product.ScaleOf(x), RxSo3.ExpScale(f.exp(d.sigma)));
            && Sim3Product.ScaleOf(x) != EPSILON && (r.omega == d.omega <==> Recovered(f, d.omega))
            && (Recovered(f, d.omega) && !(EPSILON <= p <= 1.0 / EPSILON) ==> r.sigma != d.sigma)
            && (Recovered(f, d.omega) && EPSILON <= p <= 1.0 / EPSILON ==> Pass(r) == Sim3Log.Log(f, Sim3Log.Exp(f, d).value) && p != 1.0 / EPSILON)
  {
    hide Facts, Prod, Length, Recovered, Sim3.Times, Sim3.Inverse, Sim3Log.UnitTurn, Sim3Product.Product, Sim3Product.Inverse, Sim3Log.Exp, Sim3Log.Log,
         So3Exp, So3Log, Unit, RxSo3.ExpScale, Quaternion.SquaredNorm, Quaternion.Times, QuaternionProduct, Matrix, MatScale, Mul, RxSo3.RotationMatrix;
    Sim3Log.ExpParts(f, d);
    var e, clamped := Sim3Log.Exp(f, d).value, RxSo3.ExpScale(f.exp(d.sigma));
    Sim3Product.ProductSucceeds(f, x, e);
    Sim3Product.InverseExactlyWhen(f, x);
    Sim3.InverseLaws(x);
    var i, y := Sim3Product.Inverse(x).value, Sim3Product.Product(f, x, e).value;
    var k := ThereAndBack(f, x, i, e);
    var z := Sim3Product.Product(f, i, y).value;
    PositiveScale(f, i, y);
    Sim3Log.LogPassed(f, z);
    Sim3Log.LogParts(f, z);
    RxSo3.TimesTimes(So3Exp(f, d.omega), f.sqrt(clamped), k);
    ProdIs(f.sqrt(clamped), k);
    PositiveProduct(f.sqrt(clamped), k, Prod(f.sqrt(clamped), k));
    Sim3Log.RotationOfLog(f, z, d.omega, Prod(f.sqrt(clamped), k));
    So3LogOfExpExactlyWhen(f, d.omega, So3Exp(f, d.omega));
    if Recovered(f, d.omega) {
      Sim3Log.TurnIsUnit(f, d.omega);
      ClampedSaturation(Sim3Product.ScaleOf(x), f.exp(d.sigma));
      MoreThan(clamped);
      MoreThan(Sim3Product.ScaleOf(z));
    }
  }

  /** Minus(Plus(x, d), x) = d if and only if log undoes exp on d, the scale of x is not epsilon,
      and the scale of the product neither saturates nor is exactly 1/epsilon. */
  lemma MinusOfPlusSim3(f: Elementary, x: Sim3.Similarity, d: Sim3.Twist)
    requires Facts(f) && Sim3Product.Valid(x)
    ensures PlusSim3(f, x, d).Pass? && MinusSim3(f, PlusSim3(f, x, d).value, x) == Pass(d)
       <==> && Recovered(f, d.omega) && Sim3Log.Unclamped(f.exp(d.sigma)) && Sim3Log.Kept(f, d.omega, d.sigma, d.upsilon)
            && Sim3Product.ScaleOf(x) != EPSILON && EPSILON <= Prod(Sim3Product.ScaleOf(x), f.exp(d.sigma)) < 1.0 / EPSILON
  {
    hide Facts, Prod, Recovered, Sim3Log.Kept, Sim3Log.Exp, Sim3Log.Log, PlusSim3, MinusSim3, RxSo3.ExpScale, Quaternion.SquaredNorm;
    Sim3Log.LogOfExpExactlyWhen(f, d);
    Sim3Log.ClampedRange(f.exp(d.sigma));
    if PlusSim3(f, x, d).Pass? && MinusSim3(f, PlusSim3(f, x, d).value, x).Pass? {
      RoundTrip(f, x, d);
    } else if Recovered(f, d.omega) && Sim3Log.Unclamped(f.exp(d.sigma)) && Sim3Product.ScaleOf(x) != EPSILON {
      NothingAborts(f, x, d);
    }
  }

  lemma NothingAborts(f: Elementary, x: Sim3.Similarity, d: Sim3.Twist)
    requires Facts(f) && Sim3Product.Valid(x) && Recovered(f, d.omega) && Sim3Log.Unclamped(f.exp(d.sigma)) && Sim3Product.ScaleOf(x) != EPSILON
    ensures EPSILON <= Prod(Sim3Product.ScaleOf(x), f.exp(d.sigma)) < 1.0 / EPSILON ==>
              PlusSim3(f, x, d).Pass? && MinusSim3(f, PlusSim3(f, x, d).value, x).Pass?
  {
    hide Facts, Prod, Recovered, Sim3.Times, Sim3.Inverse, Sim3Log.UnitTurn, Sim3Product.Product, Sim3Product.Inverse, Sim3Log.Exp, Sim3Log.Log,
         So3Exp, RxSo3.ExpScale, Quaternion.SquaredNorm, Quaternion.Times, QuaternionProduct, Matrix, MatScale, Mul, RxSo3.RotationMatrix;
    Sim3Log.ExpParts(f, d);
    Sim3Log.ClampedRange(f.exp(d.sigma));
    Sim3Log.TurnIsUnit(f, d.omega);
    var e := Sim3Log.Exp(f, d).value;
    Sim3Product.ProductSucceeds(f, x, e);
    Sim3Product.InverseExactlyWhen(f, x);
    Sim3.InverseLaws(x);
    if EPSILON <= Prod(Sim3Product.ScaleOf(x), f.exp(d.sigma)) < 1.0 / EPSILON {
      var k := ThereAndBack(f, x, Sim3Product.Inverse(x).value, e);
      Sim3Log.LogOfExpExactlyWhen(f, d);
    }
  }

  // ----- Sim3: Plus after Minus -----

  /** The same similarity with the opposite quaternion. */
  function Opposite(a: Sim3.Similarity): Sim3.Similarity {
    Sim3.Similarity(a.q.Times(-1.0), a.t)
  }

  lemma SignedTimesSim3(x: Sim3.Similarity, z: Sim3.Similarity)
    ensures Sim3.Times(x, Opposite(z)) == Opposite(Sim3.Times(x, z)) && Sim3Product.ScaleOf(Opposite(z)) == Sim3Product.ScaleOf(z)
  {
    Se3Product.ProductTimes(x.q, z.q, -1.0);
    NegatedNorm(z.q);
    hide QuaternionProduct, ScaledAction, Quaternion.Times, Quaternion.SquaredNorm;
  }

  /** The difference that Minus takes the logarithm of, without saturation. */
  function DifferenceSim3(y: Sim3.Similarity, x: Sim3.Similarity): (z: Sim3.Similarity)
    requires Sim3Product.ScaleOf(x) != 0.0
    ensures Sim3.Times(x, z) == y && Sim3.Times(Sim3.Inverse(x), y) == z
    ensures Prod(Sim3Product.ScaleOf(x), Sim3Product.ScaleOf(z)) == Sim3Product.ScaleOf(y)
  {
    Sim3.InverseLaws(x);
    BackAndForthSim3(Sim3.Inverse(x), x, y);
    var z := Sim3.Times(Sim3.Inverse(x), y);
    Sim3Product.TimesQuaternion(x, z);
    RxSo3.NormProd(x.q, z.q);
    z
  }

  /** A product of x with an element of the scale that exp gives has the scale of y only if it
      does not saturate, and the difference did not. */
  lemma ScalesDiffer(sx: real, sy: real, p: real, e: real)
    requires EPSILON <= sx < 1.0 / EPSILON && EPSILON <= sy < 1.0 / EPSILON && Prod(sx, p) == sy
    requires RxSo3.ExpScale(RxSo3.Saturated(p)) <= e < (1.0 + EPSILON) * RxSo3.ExpScale(RxSo3.Saturated(p))
    requires RxSo3.Saturated(Prod(sx, e)) == sy
    ensures EPSILON <= p <= 1.0 / EPSILON && EPSILON <= Prod(sx, e) <= 1.0 / EPSILON
  {
    PSym(sx, p);
    PSym(sx, e);
    hide Prod;
    if p < EPSILON {
      TooSmall(sx, sy, p, e);
    } else if p > 1.0 / EPSILON {
      TooLarge(sx, sy, p, e);
    } else if Prod(e, sx) < EPSILON {
      NotSaturatedBelow(sx, sy, p, e);
    } else if Prod(e, sx) > 1.0 / EPSILON {
      NotSaturatedAbove(sx, sy, p, e);
    }
  }

  lemma TooSmall(sx: real, sy: real, p: real, e: real)
    requires EPSILON <= sx < 1.0 / EPSILON && EPSILON <= sy && Prod(p, sx) == sy && p < EPSILON
    requires EPSILON_PLUS <= e < (1.0 + EPSILON) * EPSILON_PLUS
    ensures RxSo3.Saturated(Prod(e, sx)) > sy
  {
    Ordered(p, EPSILON, sx);
    Ordered(EPSILON, e, sx);
    Ordered(e, (1.0 + EPSILON) * EPSILON_PLUS, sx);
    ProdIs((1.0 + EPSILON) * EPSILON_PLUS, sx);
    hide Prod;
  }

  lemma TooLarge(sx: real, sy: real, p: real, e: real)
    requires EPSILON <= sx && sy < 1.0 / EPSILON && Prod(p, sx) == sy && p > 1.0 / EPSILON
    requires 1.0 / EPSILON_PLUS <= e < (1.0 + EPSILON) * (1.0 / EPSILON_PLUS)
    ensures RxSo3.Saturated(Prod(e, sx)) < sy
  {
    Ordered(1.0 / EPSILON, p, sx);
    Ordered(e, 1.0 / EPSILON, sx);
    Ordered(1.0 / EPSILON_PLUS, e, sx);
    ProdIs(1.0 / EPSILON_PLUS, sx);
    hide Prod;
  }

  lemma NotSaturatedBelow(sx: real, sy: real, p: real, e: real)
    requires sx > 0.0 && Prod(p, sx) == sy && EPSILON <= p <= 1.0 / EPSILON && RxSo3.ExpScale(p) <= e && Prod(e, sx) < EPSILON
    ensures sy != EPSILON_PLUS
  {
    Ordered(p, (1.0 + EPSILON) * e, sx);
    PMore(e, sx);
    hide Prod;
  }

  lemma NotSaturatedAbove(sx: real, sy: real, p: real, e: real)
    requires 0.0 < sx < 1.0 / EPSILON && Prod(p, sx) == sy && EPSILON <= p <= 1.0 / EPSILON && e < (1.0 + EPSILON) * RxSo3.ExpScale(p)
    requires Prod(e, sx) > 1.0 / EPSILON
    ensures sy != 1.0 / EPSILON_PLUS
  {
    Ordered(e, (1.0 + EPSILON) * p, sx);
    Ordered(e, 1.0, sx);
    POnes(sx);
    PMore(p, sx);
    hide Prod;
  }

  lemma Ordered(x: real, y: real, s: real)
    requires s > 0.0
    ensures x <= y ==> Prod(x, s) <= Prod(y, s)
    ensures x < y ==> Prod(x, s) < Prod(y, s)
  {
    if x < y {
      PositiveProduct(y - x, s, (y - x) * s);
    }
  }

  /** Minus(y, x) passes unless the scale of x is epsilon or that of the difference exactly
      1/epsilon. Plus(x, Minus(y, x)) is then y, up to the sign of the quaternion, if and only if
      exp undoes log on the difference: its rotation, an unclamped scale, and its translation. */
  lemma PlusOfMinusSim3(f: Elementary, x: Sim3.Similarity, y: Sim3.Similarity)
    requires Facts(f) && Sim3Product.Valid(x) && Sim3Product.Valid(y)
    ensures Sim3Product.ScaleOf(x) != 0.0
    ensures MinusSim3(f, y, x).Pass? <==> Sim3Product.ScaleOf(x) != EPSILON && Sim3Product.ScaleOf(DifferenceSim3(y, x)) != 1.0 / EPSILON
    ensures MinusSim3(f, y, x).Pass? ==>
      var z, d := DifferenceSim3(y, x), MinusSim3(f, y, x).value;
      var r := PlusSim3(f, x, d);
      var exact := Sim3Log.Unclamped(Sim3Product.ScaleOf(z)) && Sim3Log.Undone(Sim3Log.UnitOf(f, z.q)) && Sim3Log.Kept(f, d.omega, d.sigma, z.t);
      && (exact ==> r == Pass(if z.q.w < 0.0 then Opposite(y) else y))
      && (r == Pass(y) || r == Pass(Opposite(y)) <==> exact)
  {
    hide Facts, Prod, Sim3.Times, Sim3.Inverse, Sim3Product.Product, Sim3Product.Inverse, Sim3Log.Exp, Sim3Log.Log, Sim3Log.Undone, Sim3Log.UnitOf, Sim3Log.Kept,
         Unit, So3Log, RxSo3.ExpScale, RxSo3.Saturated, Opposite, Quaternion.SquaredNorm, Quaternion.Times, Matrix, MatScale, Mul, RxSo3.RotationMatrix;
    var z := DifferenceSim3(y, x);
    Sim3Product.InverseExactlyWhen(f, x);
    if Sim3Product.ScaleOf(x) != EPSILON {
      var i := Sim3Product.Inverse(x).value;
      Sim3Product.ProductSucceeds(f, i, y);
      Sim3Product.TimesQuaternion(i, y);
      RxSo3.NormProd(i.q, y.q);
      if Sim3Product.Product(f, i, y).Pass? {
        var zs := Sim3Product.Product(f, i, y).value;
        Sim3Log.LengthIsLarge(f, zs.q.SquaredNorm());
        Sim3Log.LogParts(f, zs);
        PlusBack(f, x, y, z, zs);
      }
    }
  }

  /** Plus with the logarithm of `zs`, the difference after saturation. */
  lemma PlusBack(f: Elementary, x: Sim3.Similarity, y: Sim3.Similarity, z: Sim3.Similarity, zs: Sim3.Similarity)
    requires Facts(f) && Sim3Product.Valid(x) && Sim3Product.Valid(y) && Sim3Product.Valid(zs) && z == DifferenceSim3(y, x)
    requires Sim3Product.ScaleOf(zs) == RxSo3.Saturated(Sim3Product.ScaleOf(z))
    requires EPSILON <= Sim3Product.ScaleOf(z) <= 1.0 / EPSILON ==> zs == z
    ensures Sim3Log.Log(f, zs).Pass?
    ensures var d := Sim3Log.Log(f, zs).value;
            var r := PlusSim3(f, x, d);
            var exact := Sim3Log.Unclamped(Sim3Product.ScaleOf(z)) && Sim3Log.Undone(Sim3Log.UnitOf(f, z.q)) && Sim3Log.Kept(f, d.omega, d.sigma, z.t);
            && (exact ==> r == Pass(if z.q.w < 0.0 then Opposite(y) else y))
            && (r == Pass(y) || r == Pass(Opposite(y)) <==> exact)
  {
    hide Facts, Prod, Sim3.Times, Sim3.Inverse, Sim3Product.Product, Sim3Log.Exp, Sim3Log.Log, Sim3Log.Undone, Sim3Log.UnitOf, Sim3Log.Kept, Sim3Log.UnitTurn,
         RxSo3.ExpScale, RxSo3.Saturated, Quaternion.SquaredNorm, Quaternion.Times, QuaternionProduct, Matrix, MatScale, Mul, RxSo3.RotationMatrix, So3Exp;
    var sx, sy, p := Sim3Product.ScaleOf(x), Sim3Product.ScaleOf(y), Sim3Product.ScaleOf(z);
    Sim3Log.ExpOfLogExactlyWhen(f, zs);
    Sim3Log.LengthIsLarge(f, zs.q.SquaredNorm());
    Sim3Log.LogParts(f, zs);
    var d := Sim3Log.Log(f, zs).value;
    Sim3Log.ExpParts(f, d);
    var e := Sim3Log.Exp(f, d).value;
    Sim3Product.ProductSucceeds(f, x, e);
    SignedTimesSim3(x, z);
    MiddleRange(p);
    if Sim3Product.Product(f, x, e).Pass? {
      var r := Sim3Product.Product(f, x, e).value;
      SignedTimesSim3(x, y);
      if r == y || r == Opposite(y) {
        ScalesDiffer(sx, sy, p, Sim3Product.ScaleOf(e));
        Sim3.InverseLaws(x);
        BackAndForthSim3(x, Sim3.Inverse(x), e);
        SignedTimesSim3(Sim3.Inverse(x), y);
      }
    }
  }

  lemma MiddleRange(p: real)
    ensures Sim3Log.Unclamped(p) ==> EPSILON <= p <= 1.0 / EPSILON
    ensures EPSILON <= p <= 1.0 / EPSILON ==> RxSo3.Saturated(p) == p
  {}
}
