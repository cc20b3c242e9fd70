/** Exp and log of SO3 where a quaternion is rescaled in between, as normalisation and the scaled
    groups do. */
module Multiples {
  import opened Linear
  import opened Constants
  import opened Quaternions
  import opened Elementary
  import opened ExpLog
  import opened Logarithm
  import opened TaylorBranches
  import RxSo3
  import So3

  // ----- log of a rescaled exp -----

  /** The Taylor branch of log gives the same for all multiples of a quaternion. */
  lemma LogOfMultiple(f: Elementary, q: Quaternion, k: real)
    requires Facts(f) && k != 0.0 && SquaredVec(q) < EPSILON * EPSILON && !(-EPSILON < q.w < EPSILON)
    requires SquaredVec(q.Times(k)) < EPSILON * EPSILON && !(-EPSILON < q.Times(k).w < EPSILON)
    ensures So3Log(f, q).Pass? && So3Log(f, q.Times(k)).Pass? && So3Log(f, q.Times(k)).value.tangent == So3Log(f, q).value.tangent
  {
    hide Facts, Prod, SquaredNorm, SquaredVec, LogFactor, Scale, So3Log, Quaternion.Vec;
    var p := q.Times(k);
    LogTaylorIs(f, q);
    LogTaylorIs(f, p);
    MultipleParts(q, k);
    ScaleTwice(LogFactor(p), k, q.Vec());
    NonzeroCube(q.w);
    PSameFactor(LogFactor(p), LogFactor(q), q.w, SquaredVec(q), k);
    PCancel(Prod(q.w, Prod(q.w, q.w)), Prod(LogFactor(p), k), LogFactor(q));
  }

  lemma MultipleParts(q: Quaternion, k: real)
    ensures q.Times(k).w == Prod(k, q.w) && q.Times(k).Vec() == Scale(k, q.Vec()) && SquaredVec(q.Times(k)) == Prod(Prod(k, k), SquaredVec(q))
  {
    ScaledLength(k, q.Vec());
    PSym(k, q.w);
    PSym(k, q.x);
    PSym(k, q.y);
    PSym(k, q.z);
    hide Prod, SquaredNorm;
  }

  lemma PSameFactor(h: real, g: real, w: real, v: real, k: real)
    requires k != 0.0 && Prod(g, Prod(w, Prod(w, w))) == 2.0 * Prod(w, w) - 2.0 / 3.0 * v
    requires Prod(h, Prod(Prod(k, w), Prod(Prod(k, w), Prod(k, w)))) == 2.0 * Prod(Prod(k, w), Prod(k, w)) - 2.0 / 3.0 * Prod(Prod(k, k), v)
    ensures Prod(Prod(w, Prod(w, w)), Prod(h, k)) == Prod(Prod(w, Prod(w, w)), g)
  {
    PPowers(h, w, v, k);
    NonzeroProd(k, k);
    PSym(g, Prod(w, Prod(w, w)));
    PCancel(Prod(k, k), Prod(Prod(w, Prod(w, w)), Prod(h, k)), 2.0 * Prod(w, w) - 2.0 / 3.0 * v);
    hide Prod;
  }

  lemma PPowers(h: real, w: real, v: real, k: real)
    ensures Prod(h, Prod(Prod(k, w), Prod(Prod(k, w), Prod(k, w)))) == Prod(Prod(k, k), Prod(Prod(w, Prod(w, w)), Prod(h, k)))
    ensures 2.0 * Prod(Prod(k, w), Prod(k, w)) - 2.0 / 3.0 * Prod(Prod(k, k), v) == Prod(Prod(k, k), 2.0 * Prod(w, w) - 2.0 / 3.0 * v)
  {}

  lemma SquaredVecSign(q: Quaternion)
    ensures SquaredVec(q) >= 0.0 && (SquaredVec(q) == 0.0 <==> q.Vec() == ZERO)
  {
    NormDefinite(q.Vec());
    hide SquaredNorm;
  }

  lemma ShorterVector(k: real, v: real)
    requires 0.0 < k <= 1.0 && v >= 0.0
    ensures Prod(Prod(k, k), v) <= v
  {
    ProductSign(k, 1.0 - k);
    ProductSign(1.0 - Prod(k, k), v);
    PSpread(1.0, Prod(k, k), v);
    POnes(v);
  }

  /** Rescaling what exp makes to a unit quaternion does not change its logarithm. */
  lemma LogOfRescaledExp(f: Elementary, omega: Vec3, k: real)
    requires Facts(f) && k > 0.0 && So3Exp(f, omega).Times(k).SquaredNorm() == 1.0
    ensures var q := So3Exp(f, omega);
            So3Log(f, q).Pass? && So3Log(f, q.Times(k)).Pass? && So3Log(f, q.Times(k)).value.tangent == So3Log(f, q).value.tangent
  {
    hide Facts, Prod, SquaredNorm, SquaredVec, Length, So3Exp, So3Log, So3.Regular, Quaternion.SquaredNorm, Quaternion.Times, Quaternion.Vec;
    var q := So3Exp(f, omega);
    So3LogOfExpExactlyWhen(f, omega, So3Exp(f, omega));
    UnitExactlyWhen(f, omega);
    RxSo3.NormTimes(q, k);
    FactorIsShort(k, q.SquaredNorm());
    RxSo3.TimesOne(q);
    if q.SquaredNorm() != 1.0 {
      var i, r := ExpTaylorParts(f, omega);
      MultipleParts(q, k);
      SquaredVecSign(q);
      ShorterVector(k, SquaredVec(q));
      UnitParts(q.Times(k));
      RealPartIsLarge(q.Times(k).w, SquaredVec(q.Times(k)));
      LogOfMultiple(f, q, k);
    }
  }

  lemma FactorIsShort(k: real, n: real)
    requires k > 0.0 && n >= 1.0 && Prod(Prod(k, k), n) == 1.0
    ensures k <= 1.0 && (n == 1.0 ==> k == 1.0)
  {
    if k > 1.0 {
      ProductSign(k - 1.0, k + 1.0);
      ProductSign(Prod(k, k), n - 1.0);
      PositiveProduct(k - 1.0, k, k * (k - 1.0));
    }
    if n == 1.0 {
      POnes(Prod(k, k));
      POnes(1.0);
      SameRoot(k, 1.0);
    }
  }

  // ----- exp of a log, up to a factor -----

  /** Exp of what the Taylor branch of log returns is no multiple of the quaternion. */
  lemma NotParallel(f: Elementary, q: Quaternion, k: real)
    requires Facts(f) && q.SquaredNorm() == 1.0 && SquaredVec(q) < EPSILON * EPSILON && q.Vec() != ZERO
    ensures So3Log(f, q).Pass? && So3Exp(f, So3Log(f, q).value.tangent) != q.Times(k)
  {
    hide Facts, Prod, SquaredNorm, SquaredVec, Length, So3Exp, So3Log, So3.Regular, Quaternion.SquaredNorm, Quaternion.Times, Quaternion.Vec;
    ExpOfTaylorLog(f, q);
    LogTaylor(f, q);
    var omega := So3Log(f, q).value.tangent;
    if So3.Regular(Length(f, omega)) {
      UnitExactlyWhen(f, omega);
      if So3Exp(f, omega) == q.Times(k) {
        RxSo3.NormTimes(q, k);
        POnes(Prod(k, k));
        SignOfUnit(k);
        RxSo3.TimesOne(q);
      }
    } else {
      SmallTurn(f, q, omega, k);
    }
  }

  /** Log and exp both in their Taylor branches: the direction of the quaternion is not met. */
  lemma SmallTurn(f: Elementary, q: Quaternion, omega: Vec3, k: real)
    requires Facts(f) && q.SquaredNorm() == 1.0 && SquaredVec(q) < EPSILON * EPSILON && q.Vec() != ZERO
    requires So3Log(f, q).Pass? && omega == So3Log(f, q).value.tangent && omega != ZERO && !So3.Regular(Length(f, omega))
    ensures So3Exp(f, omega) != q.Times(k)
  {
    hide Facts, Prod, SquaredNorm, SquaredVec, Length, So3Exp, So3Log, So3.Regular, LogFactor, Scale, ExpSeries, Quaternion.SquaredNorm,
         Quaternion.Times, Quaternion.Vec;
    var v := SquaredVec(q);
    UnitParts(q);
    RealPartIsLarge(q.w, v);
    SquaredVecSign(q);
    var g := LogFactor(q);
    LogTaylorIs(f, q);
    var i, r := ExpTaylorParts(f, omega);
    ScaledLength(g, q.Vec());
    NormOfVec(q);
    Direction(q.w, v, g, SquaredNorm(omega), i, r);
    if So3Exp(f, omega) == q.Times(k) {
      SameDirection(q, k, i, g);
    }
  }

  lemma NormOfVec(q: Quaternion)
    ensures SquaredVec(q) == SquaredNorm(q.Vec())
  {}

  lemma SameDirection(q: Quaternion, k: real, i: real, g: real)
    requires q.Times(k).Vec() == Scale(i, Scale(g, q.Vec())) && q.Vec() != ZERO
    ensures q.Times(k).w == Prod(i, Prod(g, q.w))
  {
    MultipleParts(q, k);
    ScaleTwice(i, g, q.Vec());
    SameScale(k, Prod(i, g), q.Vec());
    PAssoc(i, g, q.w);
    hide Prod, Scale, Quaternion.Vec, Quaternion.Times;
  }

  lemma SameScale(j: real, k: real, u: Vec3)
    requires u != ZERO && Scale(j, u) == Scale(k, u)
    ensures j == k
  {
    if u.x != 0.0 {
      CancelEq(u.x, j, k);
    } else if u.y != 0.0 {
      CancelEq(u.y, j, k);
    } else {
      CancelEq(u.z, j, k);
    }
  }

  /** With t = v / w^2, the square of the tangent of the half angle, log gives a vector whose
      product with w is 2 - 2/3 t long per unit of the vector part. */
  lemma Direction(w: real, v: real, g: real, n: real, i: real, r: real)
    requires 0.0 < v < EPSILON * EPSILON && v + Prod(w, w) == 1.0 && Prod(g, Prod(w, Prod(w, w))) == 2.0 * Prod(w, w) - 2.0 / 3.0 * v
    requires n == Prod(Prod(g, g), v) && ExpSeries(n, i, r)
    ensures r != Prod(i, Prod(g, w))
  {
    hide Prod, Quotient, ExpSeries;
    var k, m := Prod(w, w), Prod(g, w);
    var t := Quotient(v, k);
    PTangent(w, v, g, t, k, m);
    PCancel(k, m, 2.0 - 2.0 / 3.0 * t);
    SmallTangent(t, v, k);
    PTurnGap(t, m, n, i, r);
    TurnGapPositive(t);
  }

  lemma PTangent(w: real, v: real, g: real, t: real, k: real, m: real)
    requires k == Prod(w, w) && m == Prod(g, w) && Prod(t, k) == v && Prod(g, Prod(w, k)) == 2.0 * k - 2.0 / 3.0 * v
    ensures Prod(k, m) == Prod(k, 2.0 - 2.0 / 3.0 * t) && Prod(Prod(g, g), v) == Prod(t, Prod(m, m))
  {
    assert Prod(k, m) == Prod(g, Prod(w, k));
    assert g * g * (t * (w * w)) == t * (g * w * (g * w));
  }

  lemma SmallTangent(t: real, v: real, k: real)
    requires 0.0 < v < EPSILON * EPSILON && k == 1.0 - v && Prod(t, k) == v
    ensures 0.0 < t < 1.0
  {
    if t <= 0.0 {
      ProductSign(-t, k);
    } else if t >= 1.0 {
      ProductSign(t - 1.0, k);
    }
  }

  function TurnGap(t: real): real {
    1.0 / 5.0 - 1.0 / 24.0 * t + 1.0 / 81.0 * (t * t) - 1.0 / 324.0 * (t * t * t) + 1.0 / 29160.0 * (t * t * t * t * t)
  }

  lemma PTurnGap(t: real, m: real, n: real, i: real, r: real)
    requires m == 2.0 - 2.0 / 3.0 * t && n == Prod(t, Prod(m, m)) && ExpSeries(n, i, r)
    ensures r - Prod(i, m) == Prod(Prod(t, t), TurnGap(t))
  {
    assert n == 4.0 * t - 8.0 / 3.0 * (t * t) + 4.0 / 9.0 * (t * t * t);
  }

  lemma TurnGapPositive(t: real)
    requires 0.0 < t < 1.0
    ensures Prod(Prod(t, t), TurnGap(t)) > 0.0
  {
    PositiveProduct(t, t, t * t);
    PositiveProduct(t * t, t, t * t * t);
    PositiveProduct(t * t * t, t, t * t * t * t);
    PositiveProduct(t * t * t * t, t, t * t * t * t * t);
    Shrinks(t, t);
    Shrinks(t * t, t);
    PositiveProduct(t * t, TurnGap(t), t * t * TurnGap(t));
  }
}
