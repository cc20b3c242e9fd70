/** The branches of exp and log of SO3 and SE3 near zero, and the exact conditions under which
    exp and log undo each other. */
module TaylorBranches {
  import opened Linear
  import opened Constants
  import opened Skew
  import opened Quaternions
  import opened Checked
  import opened Elementary
  import opened ExpLog
  import opened Logarithm
  import So3
  import Se3
  import SimBands
  import Sim3

  // ----- where exp makes a unit quaternion -----

  /** The squared norm of the Taylor branch of exp, as a polynomial in n = theta^2. */
  lemma TaylorNorm(x: real, y: real, z: real, n: real)
    requires n == Prod(x, x) + Prod(y, y) + Prod(z, z)
    ensures var i, r := 0.5 - 1.0 / 48.0 * n + 1.0 / 3840.0 * (n * n), 1.0 - 1.0 / 8.0 * n + 1.0 / 384.0 * (n * n);
            r * r + (i * x) * (i * x) + (i * y) * (i * y) + (i * z) * (i * z)
            == 1.0 + n * n * n * (1.0 / 23040.0 - 1.0 / 245760.0 * n + 1.0 / 14745600.0 * (n * n))
  {}

  lemma TaylorIsLonger(n: real, square: real)
    requires 0.0 < n < EPSILON * EPSILON
    requires square == 1.0 + n * n * n * (1.0 / 23040.0 - 1.0 / 245760.0 * n + 1.0 / 14745600.0 * (n * n))
    ensures 1.0 < square < 1.0 + EPSILON
  {
    PositiveProduct(n, n, n * n);
    PositiveProduct(n * n, n, n * n * n);
    Shrinks(n, n);
    var rest := 1.0 / 23040.0 - 1.0 / 245760.0 * n + 1.0 / 14745600.0 * (n * n);
    PositiveProduct(n * n * n, rest, n * n * n * rest);
    CubeIsTiny(n, rest);
  }

  lemma Shrinks(x: real, y: real)
    requires x > 0.0 && y < 1.0
    ensures x * y < x
  {}

  lemma CubeIsTiny(n: real, rest: real)
    requires 0.0 < n < 1.0 && 0.0 < rest < 1.0
    ensures n * n * n * rest < n
  {
    PositiveProduct(n, n, n * n);
    PositiveProduct(n * n, n, n * n * n);
    Shrinks(n, n);
    Shrinks(n * n, n);
    Shrinks(n * n * n, rest);
  }

  /** Exp makes a unit quaternion of no rotation and of those beyond the Taylor threshold, and
      a longer one of all others, by less than the check at the end of exp allows. */
  lemma UnitExactlyWhen(f: Elementary, omega: Vec3)
    requires Facts(f)
    ensures So3Exp(f, omega).SquaredNorm() == 1.0 <==> omega == ZERO || So3.Regular(Length(f, omega))
    ensures 1.0 <= So3Exp(f, omega).SquaredNorm() < 1.0 + EPSILON
    ensures omega == ZERO ==> So3Exp(f, omega) == Real(1.0)
  {
    hide Facts, Prod, HalfAngle, AngleBounds, Length, SquaredNorm, Matrix, So3.ExpAndTheta, Quaternion.SquaredNorm, So3.Regular;
    var theta := Length(f, omega);
    LengthOf(f, omega);
    NormDefinite(omega);
    if So3.Regular(theta) {
      AngleOf(f, theta);
      RegularVector(f, omega);
      So3.ExpMatrix(omega, theta, f.sin(0.5 * theta), f.cos(0.5 * theta), f.sin(theta), f.cos(theta));
    } else {
      TaylorQuaternion(omega, theta, f.sin(0.5 * theta), f.cos(0.5 * theta));
    }
  }

  lemma RegularVector(f: Elementary, omega: Vec3)
    requires Facts(f) && So3.Regular(Length(f, omega))
    ensures omega != ZERO
  {
    hide Facts, Length, SquaredNorm;
    LengthOf(f, omega);
    RegularIsNonzero(Length(f, omega));
    NormDefinite(omega);
  }

  lemma TaylorQuaternion(omega: Vec3, theta: real, s: real, c: real)
    requires theta * theta == SquaredNorm(omega) && !So3.Regular(theta)
    ensures So3.ExpAndTheta(omega, theta, s, c).0.SquaredNorm() == 1.0 <==> omega == ZERO
    ensures 1.0 <= So3.ExpAndTheta(omega, theta, s, c).0.SquaredNorm() < 1.0 + EPSILON
    ensures omega == ZERO ==> So3.ExpAndTheta(omega, theta, s, c).0 == Real(1.0)
  {
    hide SquaredNorm, Prod, Quaternion.SquaredNorm;
    var n := SquaredNorm(omega);
    NormDefinite(omega);
    if omega == ZERO {
      TaylorAtZero(theta, s, c);
    } else {
      TaylorSquare(omega, theta, s, c);
      TaylorIsLonger(n, So3.ExpAndTheta(omega, theta, s, c).0.SquaredNorm());
    }
  }

  lemma TaylorAtZero(theta: real, s: real, c: real)
    requires theta * theta == SquaredNorm(ZERO)
    ensures So3.ExpAndTheta(ZERO, theta, s, c) == (Real(1.0), 0.0) && Real(1.0).SquaredNorm() == 1.0
  {
    hide SquaredNorm;
    NormDefinite(ZERO);
    var n := SquaredNorm(ZERO);
    TaylorConstants(n, 0.5 - 1.0 / 48.0 * n + 1.0 / 3840.0 * (n * n));
  }

  lemma TaylorConstants(n: real, i: real)
    requires n == 0.0
    ensures 1.0 - 1.0 / 8.0 * n + 1.0 / 384.0 * (n * n) == 1.0 && n < EPSILON * EPSILON && i * 0.0 == 0.0
    ensures Quaternion(1.0, 0.0, 0.0, 0.0).SquaredNorm() == 1.0
  {}

  lemma TaylorSquare(omega: Vec3, theta: real, s: real, c: real)
    requires theta * theta == SquaredNorm(omega) < EPSILON * EPSILON
    ensures var n := SquaredNorm(omega);
            So3.ExpAndTheta(omega, theta, s, c).0.SquaredNorm() == 1.0 + n * n * n * (1.0 / 23040.0 - 1.0 / 245760.0 * n + 1.0 / 14745600.0 * (n * n))
  {
    var n := SquaredNorm(omega);
    TaylorNorm(omega.x, omega.y, omega.z, n);
    hide SquaredNorm, Prod;
  }

  // ----- the logarithm of a valid rotation -----

  /** In the Taylor branch of log the rotation vector is a short multiple of the vector part. */
  lemma TaylorFactor(w: real, v: real, g: real)
    requires 0.0 <= v < EPSILON * EPSILON && v + Prod(w, w) == 1.0
    requires Prod(g, Prod(w, Prod(w, w))) == 2.0 * Prod(w, w) - 2.0 / 3.0 * v
    ensures g != 0.0 && Prod(g, g) < 9.0
  {
    var k, h := Prod(w, w), Prod(g, g);
    var right := 2.0 * k - 2.0 / 3.0 * v;
    PTaylorSquare(g, w, k, h, right);
    PTaylorBound(h, k, right);
  }

  lemma PTaylorSquare(g: real, w: real, k: real, h: real, right: real)
    requires k == Prod(w, w) && h == Prod(g, g) && Prod(g, Prod(w, k)) == right
    ensures Prod(h, k * k * k) == right * right && (right > 0.0 ==> g != 0.0)
  {
    assert Prod(h, k * k * k) == Prod(g, Prod(w, k)) * Prod(g, Prod(w, k)) by {
      assert k * k * k == (w * k) * (w * k);
    }
  }

  lemma PTaylorBound(h: real, k: real, right: real)
    requires 0.9 < k <= 1.0 && 0.0 < right <= 2.0 * k && Prod(h, k * k * k) == right * right
    ensures h < 9.0
  {
    if h >= 9.0 {
      PositiveProduct(k, k, k * k);
      PositiveProduct(k * k, k, k * k * k);
      ProductSign(h - 9.0, k * k * k);
      ProductSign(2.0 * k - right, 2.0 * k + right);
      PositiveProduct(k * k, 9.0 * k - 4.0, k * k * (9.0 * k - 4.0));
      PTaylorSum(h, k, right);
    }
    hide Prod;
  }

  lemma PTaylorSum(h: real, k: real, right: real)
    ensures Prod(h - 9.0, k * k * k) + Prod(2.0 * k - right, 2.0 * k + right) + k * k * (9.0 * k - 4.0) == Prod(h, k * k * k) - right * right
  {}

  lemma LogTaylor(f: Elementary, q: Quaternion)
    requires Facts(f) && q.SquaredNorm() == 1.0 && SquaredVec(q) < EPSILON * EPSILON
    ensures So3Log(f, q).Pass?
    ensures var omega := So3Log(f, q).value.tangent;
            SquaredNorm(omega) < 36.0 * EPSILON * EPSILON && (omega == ZERO <==> q.Vec() == ZERO)
  {
    hide Facts, Prod, Quotient, SquaredNorm, Length, Arc, Quaternion.SquaredNorm, Scale, Quaternion.Vec;
    LengthOf(f, q.Vec());
    var v, w := SquaredVec(q), q.w;
    UnitParts(q);
    NormDefinite(q.Vec());
    RealPartIsLarge(w, v);
    NonzeroCube(w);
    var g := Quotient(2.0, w) - Quotient(2.0 / 3.0 * v, Prod(w, Prod(w, w)));
    FactorCleared(w, v, g);
    TaylorFactor(w, v, g);
    ScaledLength(g, q.Vec());
    ShortMultiple(Prod(g, g), v);
    NonzeroMultiple(g, q.Vec());
  }

  lemma RealPartIsLarge(w: real, v: real)
    requires v + Prod(w, w) == 1.0 && v < EPSILON * EPSILON
    ensures !(-EPSILON < w < EPSILON) && w != 0.0
  {
    if -EPSILON < w < EPSILON {
      PositiveProduct(EPSILON - w, EPSILON + w, EPSILON * EPSILON - Prod(w, w));
    }
  }

  lemma FactorCleared(w: real, v: real, g: real)
    requires w != 0.0 && Prod(w, Prod(w, w)) != 0.0 && g == Quotient(2.0, w) - Quotient(2.0 / 3.0 * v, Prod(w, Prod(w, w)))
    ensures Prod(g, Prod(w, Prod(w, w))) == 2.0 * Prod(w, w) - 2.0 / 3.0 * v
  {
    var x, y := Quotient(2.0, w), Quotient(2.0 / 3.0 * v, Prod(w, Prod(w, w)));
    hide Quotient;
    PSplitFactor(x, y, w);
  }

  lemma PSplitFactor(x: real, y: real, w: real)
    ensures Prod(x - y, Prod(w, Prod(w, w))) == Prod(Prod(x, w), Prod(w, w)) - Prod(y, Prod(w, Prod(w, w)))
    ensures Prod(2.0, Prod(w, w)) == 2.0 * Prod(w, w)
  {}

  lemma ScaledLength(g: real, u: Vec3)
    ensures SquaredNorm(Scale(g, u)) == Prod(Prod(g, g), SquaredNorm(u))
  {
    DotScaled(g, u, Scale(g, u));
    DotScaledRight(g, u, u);
    PAssoc(g, g, Dot(u, u));
    hide Prod, Scale, Dot;
  }

  lemma ShortMultiple(h: real, v: real)
    requires 0.0 <= v < EPSILON * EPSILON && h < 9.0
    ensures Prod(h, v) < 36.0 * EPSILON * EPSILON
  {
    ProductSign(9.0 - h, v);
  }

  lemma NonzeroMultiple(g: real, u: Vec3)
    requires g != 0.0
    ensures Scale(g, u) == ZERO <==> u == ZERO
  {}

  // ----- SO3: exactly when log undoes exp -----

  /** The Taylor branch of log gives less than the arctangent. */
  lemma SeriesIsShort(f: Elementary, s: real, c: real, half: real, g: real)
    requires Facts(f) && s > 0.0 && c > 0.0 && Prod(s, s) + Prod(c, c) == 1.0 && f.atan2(s, c) == half
    requires Prod(g, Prod(c, Prod(c, c))) == 2.0 * Prod(c, c) - 2.0 / 3.0 * Prod(s, s)
    ensures Prod(g, s) != 2.0 * half
  {
    ArcOf(f, s, c);
    PSeries(s, c, half, g);
    hide Facts, Prod;
  }

  lemma PSeries(s: real, c: real, half: real, g: real)
    requires Prod(g, Prod(c, Prod(c, c))) == 2.0 * Prod(c, c) - 2.0 / 3.0 * Prod(s, s)
    ensures Prod(g, s) == 2.0 * half ==> 3.0 * Prod(half, Prod(c, Prod(c, c))) == ArcSeries(s, c)
  {
    PReorder(g, s, c);
    PScaledSeries(s, c, half);
    if Prod(g, s) == 2.0 * half {
      assert Prod(Prod(g, s), Prod(c, Prod(c, c))) == Prod(2.0 * half, Prod(c, Prod(c, c)));
    }
    hide Prod;
  }

  lemma PReorder(g: real, s: real, c: real)
    ensures Prod(Prod(g, s), Prod(c, Prod(c, c))) == Prod(s, Prod(g, Prod(c, Prod(c, c))))
  {}

  lemma PScaledSeries(s: real, c: real, half: real)
    ensures 3.0 * Prod(s, 2.0 * Prod(c, c) - 2.0 / 3.0 * Prod(s, s)) == 2.0 * ArcSeries(s, c)
    ensures Prod(2.0 * half, Prod(c, Prod(c, c))) == 2.0 * Prod(half, Prod(c, Prod(c, c)))
  {}

  /** The factor by which the Taylor branch of log multiplies the vector part. */
  function LogFactor(q: Quaternion): real
    requires q.w != 0.0
  {
    NonzeroCube(q.w);
    Quotient(2.0, q.w) - Quotient(2.0 / 3.0 * SquaredVec(q), Prod(q.w, Prod(q.w, q.w)))
  }

  lemma LogTaylorIs(f: Elementary, q: Quaternion)
    requires Facts(f) && SquaredVec(q) < EPSILON * EPSILON && !(-EPSILON < q.w < EPSILON)
    ensures So3Log(f, q).Pass? && So3Log(f, q).value.tangent == Scale(LogFactor(q), q.Vec())
    ensures Prod(LogFactor(q), Prod(q.w, Prod(q.w, q.w))) == 2.0 * Prod(q.w, q.w) - 2.0 / 3.0 * SquaredVec(q)
  {
    hide Facts, Prod, Quotient, SquaredNorm, Length, Arc, Scale, Quaternion.Vec;
    LengthOf(f, q.Vec());
    NonzeroCube(q.w);
    FactorCleared(q.w, SquaredVec(q), LogFactor(q));
  }

  lemma ScaleIsOne(k: real, u: Vec3)
    requires u != ZERO && Scale(k, u) == u
    ensures k == 1.0
  {
    PFixed(k, u.x);
    PFixed(k, u.y);
    PFixed(k, u.z);
    hide Prod;
  }

  lemma PFixed(k: real, x: real)
    requires Prod(k, x) == x
    ensures x == 0.0 || k == 1.0
  {}

  /** Exp in its closed form, log in its Taylor branch. */
  lemma ClosedThenTaylor(f: Elementary, omega: Vec3, theta: real, s: real, c: real, g: real)
    requires Facts(f) && theta > 0.0 && theta * theta == SquaredNorm(omega) && f.atan2(s, c) == 0.5 * theta
    requires s > 0.0 && c > 0.0 && Prod(s, s) + Prod(c, c) == 1.0
    requires Prod(g, Prod(c, Prod(c, c))) == 2.0 * Prod(c, c) - 2.0 / 3.0 * Prod(s, s)
    ensures Scale(g, Scale(Quotient(s, theta), omega)) != omega
  {
    hide Facts, Prod, Quotient, SquaredNorm, Scale;
    var h := Quotient(s, theta);
    SeriesIsShort(f, s, c, 0.5 * theta, g);
    ScaleTwice(g, h, omega);
    NonzeroNorm(omega, theta);
    if Scale(g, Scale(h, omega)) == omega {
      ScaleIsOne(Prod(g, h), omega);
      PAssoc(g, h, theta);
      POnes(theta);
    }
  }

  lemma NonzeroNorm(omega: Vec3, theta: real)
    requires theta > 0.0 && theta * theta == SquaredNorm(omega)
    ensures omega != ZERO
  {
    PositiveProduct(theta, theta, theta * theta);
    NormDefinite(omega);
    hide SquaredNorm;
  }

  lemma ExpVector(omega: Vec3, theta: real, s: real, c: real)
    requires theta * theta == SquaredNorm(omega) && theta > 0.0 && So3.Regular(theta)
    ensures So3.ExpAndTheta(omega, theta, s, c).0.Vec() == Scale(Quotient(s, theta), omega)
  {
    hide SquaredNorm;
  }

  /** Both in their Taylor branches. */
  lemma TaylorThenTaylor(omega: Vec3, n: real, i: real, r: real, g: real)
    requires n == SquaredNorm(omega) && 0.0 < n < EPSILON * EPSILON && ExpSeries(n, i, r)
    requires Prod(g, Prod(r, Prod(r, r))) == 2.0 * Prod(r, r) - 2.0 / 3.0 * Prod(Prod(i, i), n)
    ensures Scale(g, Scale(i, omega)) != omega
  {
    hide Prod, SquaredNorm, Scale, ExpSeries;
    NormDefinite(omega);
    ScaleTwice(g, i, omega);
    TaylorGap(n, i, r, g);
    if Scale(g, Scale(i, omega)) == omega {
      ScaleIsOne(Prod(g, i), omega);
    }
  }

  lemma NotRegular(theta: real, n: real)
    requires !So3.Regular(theta) && n == theta * theta
    ensures n < EPSILON * EPSILON
  {}

  /** The factors of the Taylor branch of exp. */
  predicate ExpSeries(n: real, i: real, r: real) {
    i == 0.5 - 1.0 / 48.0 * n + 1.0 / 3840.0 * (n * n) && r == 1.0 - 1.0 / 8.0 * n + 1.0 / 384.0 * (n * n)
  }

  lemma TaylorParts(omega: Vec3, theta: real, s: real, c: real) returns (i: real, r: real)
    requires theta * theta == SquaredNorm(omega) < EPSILON * EPSILON
    ensures ExpSeries(SquaredNorm(omega), i, r)
    ensures So3.ExpAndTheta(omega, theta, s, c).0.w == r && So3.ExpAndTheta(omega, theta, s, c).0.Vec() == Scale(i, omega)
  {
    hide SquaredNorm;
    var n := SquaredNorm(omega);
    i := 0.5 - 1.0 / 48.0 * n + 1.0 / 3840.0 * (n * n);
    r := 1.0 - 1.0 / 8.0 * n + 1.0 / 384.0 * (n * n);
  }

  lemma TaylorRanges(n: real, i: real, r: real)
    requires 0.0 < n < EPSILON * EPSILON && ExpSeries(n, i, r)
    ensures 0.4 < i < 0.6 && 0.9 < r < 1.1
  {
    PositiveProduct(n, n, n * n);
    Shrinks(n, n);
  }

  lemma TaylorVector(i: real, n: real)
    requires 0.4 < i < 0.6 && 0.0 < n < EPSILON * EPSILON
    ensures Prod(Prod(i, i), n) < EPSILON * EPSILON
  {
    ProductSign(0.6 - i, i);
    assert Prod(0.6 - i, i) == 0.6 * i - Prod(i, i);
    ProductSign(1.0 - Prod(i, i), n);
    assert Prod(1.0 - Prod(i, i), n) == n - Prod(Prod(i, i), n);
    hide Prod;
  }

  lemma TaylorGap(n: real, i: real, r: real, g: real)
    requires 0.0 < n < EPSILON * EPSILON && ExpSeries(n, i, r)
    requires Prod(g, Prod(r, Prod(r, r))) == 2.0 * Prod(r, r) - 2.0 / 3.0 * Prod(Prod(i, i), n)
    ensures Prod(g, i) != 1.0
  {
    hide ExpSeries, Prod, Gap;
    if Prod(g, i) == 1.0 {
      PGapEquation(n, i, r, g);
      PGapPolynomial(n, i, r);
      GapPositive(n);
    }
  }

  lemma PGapEquation(n: real, i: real, r: real, g: real)
    requires Prod(g, i) == 1.0 && Prod(g, Prod(r, Prod(r, r))) == 2.0 * Prod(r, r) - 2.0 / 3.0 * Prod(Prod(i, i), n)
    ensures Prod(r, Prod(r, r)) - 2.0 * Prod(i, Prod(r, r)) + 2.0 / 3.0 * Prod(i, Prod(Prod(i, i), n)) == 0.0
  {
    PTimesEntry(g, i, r);
    PEntryOf(i, Prod(r, r), Prod(Prod(i, i), n));
    POnes(Prod(r, Prod(r, r)));
    hide Prod;
  }

  lemma PTimesEntry(g: real, i: real, r: real)
    ensures Prod(Prod(g, i), Prod(r, Prod(r, r))) == Prod(i, Prod(g, Prod(r, Prod(r, r))))
  {}

  lemma PEntryOf(i: real, x: real, y: real)
    ensures Prod(i, 2.0 * x - 2.0 / 3.0 * y) == 2.0 * Prod(i, x) - 2.0 / 3.0 * Prod(i, y)
  {}

  function Gap(n: real): real {
    1.0 / 80.0 - 13.0 / 7680.0 * n + 67.0 / 829440.0 * (n * n) - 1.0 / 614400.0 * (n * n * n)
    + 1.0 / 88473600.0 * (n * n * n * n) + 1.0 / 84934656000.0 * (n * n * n * n * n)
  }

  lemma PGapPolynomial(n: real, i: real, r: real)
    requires ExpSeries(n, i, r)
    ensures Prod(r, Prod(r, r)) - 2.0 * Prod(i, Prod(r, r)) + 2.0 / 3.0 * Prod(i, Prod(Prod(i, i), n)) == Prod(Prod(n, n), Gap(n))
  {}

  lemma GapPositive(n: real)
    requires 0.0 < n < EPSILON * EPSILON
    ensures Prod(Prod(n, n), Gap(n)) > 0.0
  {
    PositiveProduct(n, n, n * n);
    PositiveProduct(n * n, n, n * n * n);
    PositiveProduct(n * n * n, n, n * n * n * n);
    PositiveProduct(n * n * n * n, n, n * n * n * n * n);
    Shrinks(n, n);
    Shrinks(n * n, n);
    PositiveProduct(n * n, Gap(n), n * n * Gap(n));
  }

  /** The rotation vectors that log gives back: zero, and those up to a length of pi whose half
      angle has a sine of at least epsilon. */
  predicate Recovered(f: Elementary, omega: Vec3) {
    omega == ZERO || (Length(f, omega) <= f.pi && f.sin(0.5 * Length(f, omega)) >= EPSILON)
  }

  /** Log returns vectors of length at most pi. */
  lemma LogIsShort(f: Elementary, q: Quaternion)
    requires Facts(f) && q.SquaredNorm() == 1.0
    ensures So3Log(f, q).Pass? && Length(f, So3Log(f, q).value.tangent) <= f.pi
  {
    hide Facts, Prod, Quotient, SquaredNorm, So3Log, Length, Quaternion.SquaredNorm, Quaternion.Vec;
    QuadrantOf(f, 0.0);
    if SquaredVec(q) < EPSILON * EPSILON {
      LogTaylor(f, q);
      var omega := So3Log(f, q).value.tangent;
      LengthOf(f, omega);
      ShorterThanOne(Length(f, omega), SquaredNorm(omega));
    } else {
      ClosedLogIsShort(f, q);
    }
  }

  lemma ShorterThanOne(length: real, square: real)
    requires length >= 0.0 && Prod(length, length) == square < 36.0 * EPSILON * EPSILON
    ensures length < 1.0
  {
    if length >= 1.0 {
      ProductSign(length - 1.0, length + 1.0);
    }
  }

  lemma ClosedLogIsShort(f: Elementary, q: Quaternion)
    requires Facts(f) && q.SquaredNorm() == 1.0 && SquaredVec(q) >= EPSILON * EPSILON
    ensures So3Log(f, q).Pass? && Length(f, So3Log(f, q).value.tangent) <= f.pi
  {
    hide Facts, Prod, Quotient, SquaredNorm, HalfAngle, AngleBounds, LogAndTheta, RotationAngle, Length, Arc, So3.ExpAndTheta, So3.Regular,
         IsArcTangent, Quaternion.SquaredNorm, Quaternion.Times, Quaternion.Vec;
    var n, atan := Length(f, q.Vec()), Arc(f, q);
    LengthOf(f, q.Vec());
    ArcIsArcTangent(f, q);
    RotationSigns(q, n, atan, f.sin(atan), f.cos(atan));
    Logarithm.ExpOfLog(q, n, atan, f.sin(atan), f.cos(atan));
    AngleOfLog(f, So3Log(f, q).value.tangent, atan, n);
    CosineOfArc(q, n, atan, f.sin(atan), f.cos(atan));
    QuadrantOf(f, atan);
    QuadrantOf(f, -atan);
    ParityOf(f, atan);
  }

  lemma CosineOfArc(q: Quaternion, n: real, atan: real, sinAtan: real, cosAtan: real)
    requires IsArcTangent(q, n, atan, sinAtan, cosAtan)
    ensures cosAtan >= 0.0
  {}

  /** log(exp omega) = omega, with its norm as the angle, if and only if the rotation vector is
      zero, or at most pi long with a sine of half the angle that has reached epsilon. */
  lemma So3LogOfExpExactlyWhen(f: Elementary, omega: Vec3, q: Quaternion)
    requires Facts(f) && q == So3Exp(f, omega)
    ensures So3Log(f, q).Pass?
    ensures So3Log(f, q).value.tangent == omega <==> Recovered(f, omega)
    ensures So3Log(f, q) == Pass(TangentAndTheta(omega, Length(f, omega))) <==> Recovered(f, omega)
  {
    hide Facts, Prod, SquaredNorm, HalfAngle, AngleBounds, So3Exp, So3Log, LogFactor, Scale, Quaternion.Vec, Quaternion.SquaredNorm, Length, So3.Regular;
    var theta := Length(f, omega);
    if omega == ZERO {
      UnitExactlyWhen(f, ZERO);
      IdentityIsUnit();
      NormDefinite(ZERO);
      LogTaylor(f, Real(1.0));
      ReportsNoAngle(f, Real(1.0));
      LengthOfZero(f);
    } else if theta > f.pi {
      LongTurn(f, omega);
      UnitExactlyWhen(f, omega);
      LogIsShort(f, q);
    } else if So3.Regular(theta) {
      HalfOf(f, omega);
      SineOfExp(f, omega);
      SineThreshold(f.sin(0.5 * theta));
      if f.sin(0.5 * theta) >= EPSILON {
        So3LogOfExp(f, omega, q);
      } else {
        var s, c := HalfParts(f, omega);
        RealPartIsLarge(c, Prod(s, s));
        LogTaylorIs(f, q);
        ClosedThenTaylor(f, omega, theta, s, c, LogFactor(q));
      }
    } else {
      var i, r := ExpTaylorParts(f, omega);
      LogTaylorIs(f, q);
      TaylorThenTaylor(omega, SquaredNorm(omega), i, r, LogFactor(q));
      SineIsShort(f, omega);
    }
  }

  lemma LongTurn(f: Elementary, omega: Vec3)
    requires Facts(f) && Length(f, omega) > f.pi
    ensures So3.Regular(Length(f, omega)) && omega != ZERO
  {
    hide Facts, SquaredNorm, Length, So3.Regular;
    QuadrantOf(f, 0.0);
    if !So3.Regular(Length(f, omega)) {
      BelowThreshold(Length(f, omega));
    }
    RegularVector(f, omega);
  }

  lemma ExpTaylorParts(f: Elementary, omega: Vec3) returns (i: real, r: real)
    requires Facts(f) && !So3.Regular(Length(f, omega)) && omega != ZERO
    ensures 0.0 < SquaredNorm(omega) < EPSILON * EPSILON && ExpSeries(SquaredNorm(omega), i, r) && r > 0.9
    ensures So3Exp(f, omega).w == r && So3Exp(f, omega).Vec() == Scale(i, omega)
    ensures SquaredVec(So3Exp(f, omega)) == Prod(Prod(i, i), SquaredNorm(omega)) < EPSILON * EPSILON
  {
    hide Facts, Prod, SquaredNorm, So3.ExpAndTheta, So3.Regular, Quaternion.Vec, Length, Scale, ExpSeries;
    var theta := Length(f, omega);
    LengthOf(f, omega);
    NormDefinite(omega);
    NotRegular(theta, SquaredNorm(omega));
    i, r := TaylorParts(omega, theta, f.sin(0.5 * theta), f.cos(0.5 * theta));
    TaylorRanges(SquaredNorm(omega), i, r);
    ScaledLength(i, omega);
    TaylorVector(i, SquaredNorm(omega));
  }

  lemma IdentityIsUnit()
    ensures Real(1.0).SquaredNorm() == 1.0 && Real(1.0).Vec() == ZERO
  {}

  lemma LengthOfZero(f: Elementary)
    requires Facts(f)
    ensures Length(f, ZERO) == 0.0
  {
    hide Facts, Length, SquaredNorm, Prod;
    LengthOf(f, ZERO);
    NormDefinite(ZERO);
    SquareSign(Length(f, ZERO), 0.0);
  }

  lemma SineOfExp(f: Elementary, omega: Vec3)
    requires Facts(f) && So3.Regular(Length(f, omega)) && Length(f, omega) <= f.pi
    ensures SquaredVec(So3Exp(f, omega)) == Prod(f.sin(0.5 * Length(f, omega)), f.sin(0.5 * Length(f, omega)))
  {
    hide Facts, Prod, SquaredNorm, SquaredVec, HalfAngle, So3.ExpAndTheta, So3.Regular, Length;
    HalfOf(f, omega);
    var theta := Length(f, omega);
    ExpParts(omega, theta, f.sin(0.5 * theta), f.cos(0.5 * theta));
  }

  lemma SineThreshold(s: real)
    requires s > 0.0
    ensures s >= EPSILON <==> Prod(s, s) >= EPSILON * EPSILON
  {
    if s >= EPSILON {
      ProductSign(s - EPSILON, s + EPSILON);
    } else {
      PositiveProduct(EPSILON - s, EPSILON + s, EPSILON * EPSILON - Prod(s, s));
    }
    assert Prod(s - EPSILON, s + EPSILON) == Prod(s, s) - EPSILON * EPSILON;
  }

  /** An angle below the threshold has a sine below it. */
  lemma SineIsShort(f: Elementary, omega: Vec3)
    requires Facts(f) && !So3.Regular(Length(f, omega)) && omega != ZERO
    ensures f.sin(0.5 * Length(f, omega)) < EPSILON
  {
    hide Facts, Prod, SquaredNorm, HalfAngle, AngleBounds, Length;
    var theta := Length(f, omega);
    LengthOf(f, omega);
    NormDefinite(omega);
    BelowThreshold(theta);
    AngleOf(f, 0.5 * theta);
    SineBelowAngle(0.5 * theta, f.sin(0.5 * theta), f.cos(0.5 * theta));
  }

  lemma BelowThreshold(theta: real)
    requires theta >= 0.0 && !So3.Regular(theta)
    ensures theta < EPSILON
  {
    if theta >= EPSILON {
      ProductSign(theta - EPSILON, theta + EPSILON);
    }
  }

  lemma SineBelowAngle(x: real, sine: real, cosine: real)
    requires x >= 0.0 && AngleBounds(x, sine, cosine) && Prod(sine, sine) + Prod(cosine, cosine) == 1.0 && (x == 0.0 ==> sine <= 0.0)
    ensures sine <= x
  {
    hide AngleBounds, Prod;
    if x > 0.0 && sine > x {
      SimBands.SineBelow(x, sine, cosine, Prod(x, x), Prod(x, sine));
      ProductSign(x, sine - x);
      PSub(x, sine);
    }
  }

  lemma PSub(x: real, y: real)
    ensures Prod(x, y - x) == Prod(x, y) - Prod(x, x)
  {}

  /** A rotation by epsilon: exp is in its closed form, log is not, and the vector is lost. */
  lemma LostRotation(f: Elementary, omega: Vec3)
    requires Facts(f) && omega == Vec3(EPSILON, 0.0, 0.0)
    ensures So3Log(f, So3Exp(f, omega)).Pass? && So3Log(f, So3Exp(f, omega)).value.tangent != omega
  {
    hide Facts, So3Exp, So3Log, Length, HalfAngle, AngleBounds;
    LengthOf(f, omega);
    SingleEntry(omega);
    SameRoot(Length(f, omega), EPSILON);
    QuadrantOf(f, 0.0);
    AngleOf(f, 0.5 * EPSILON);
    SineBelowAngle(0.5 * EPSILON, f.sin(0.5 * EPSILON), f.cos(0.5 * EPSILON));
    So3LogOfExpExactlyWhen(f, omega, So3Exp(f, omega));
  }

  lemma SingleEntry(omega: Vec3)
    requires omega == Vec3(EPSILON, 0.0, 0.0)
    ensures SquaredNorm(omega) == Prod(EPSILON, EPSILON)
  {}

  // ----- SO3: exactly when exp undoes log -----

  /** The quaternion with its real part made positive, which exp gives. */
  function Upright(q: Quaternion): Quaternion {
    if q.w < 0.0 then q.Times(-1.0) else q
  }

  lemma UprightParts(q: Quaternion)
    ensures SquaredVec(q.Times(-1.0)) == SquaredVec(q) && q.Times(-1.0).w == -q.w
    ensures q.Times(-1.0).SquaredNorm() == q.SquaredNorm()
  {}

  /** exp(log q) is q or -q if and only if the vector part is zero or at least epsilon long; and
      then it is the one with the non-negative real part. */
  lemma So3ExpOfLogExactlyWhen(f: Elementary, q: Quaternion)
    requires Facts(f) && q.SquaredNorm() == 1.0
    ensures So3Log(f, q).Pass?
    ensures var r, exact := So3Exp(f, So3Log(f, q).value.tangent), q.Vec() == ZERO || SquaredVec(q) >= EPSILON * EPSILON;
            && (exact ==> r == Upright(q))
            && (r == q || r == q.Times(-1.0) <==> exact)
  {
    hide Facts, Prod, SquaredNorm, So3Exp, So3Log, Quaternion.SquaredNorm, Quaternion.Times, Quaternion.Vec;
    if SquaredVec(q) >= EPSILON * EPSILON {
      So3ExpOfLog(f, q);
    } else {
      LogTaylor(f, q);
      if q.Vec() == ZERO {
        UnitExactlyWhen(f, ZERO);
        UnitParts(q);
        NormDefinite(ZERO);
        RealUnit(q);
      } else {
        ExpOfTaylorLog(f, q);
      }
    }
  }

  lemma RealUnit(q: Quaternion)
    requires q.Vec() == ZERO && Prod(q.w, q.w) == 1.0
    ensures Upright(q) == Real(1.0)
  {
    SignOfUnit(q.w);
  }

  lemma SignOfUnit(w: real)
    requires Prod(w, w) == 1.0
    ensures w == 1.0 || w == -1.0
  {
    hide Prod;
    POnes(1.0);
    if w > 0.0 {
      SameRoot(w, 1.0);
    } else {
      PNegatedCube(1.0, w);
      SameRoot(-w, 1.0);
    }
  }

  /** Exp of what the Taylor branch of log returns turns by too little. */
  lemma ExpOfTaylorLog(f: Elementary, q: Quaternion)
    requires Facts(f) && q.SquaredNorm() == 1.0 && SquaredVec(q) < EPSILON * EPSILON && q.Vec() != ZERO
    ensures So3Log(f, q).Pass?
    ensures var r := So3Exp(f, So3Log(f, q).value.tangent); r != q && r != q.Times(-1.0)
  {
    hide Facts, Prod, SquaredNorm, SquaredVec, So3Exp, So3Log, LogFactor, Scale, Length, So3.Regular, Quaternion.SquaredNorm, Quaternion.Times, Quaternion.Vec;
    LogTaylor(f, q);
    var omega := So3Log(f, q).value.tangent;
    var r := So3Exp(f, omega);
    UnitExactlyWhen(f, omega);
    UprightParts(q);
    if So3.Regular(Length(f, omega)) {
      var length, n, g := TurnParts(f, q, omega);
      var s, c := HalfParts(f, omega);
      ShortTurn(f, length, n, g, q.w, SquaredVec(q), s, c);
    }
  }

  lemma HalfParts(f: Elementary, omega: Vec3) returns (s: real, c: real)
    requires Facts(f) && So3.Regular(Length(f, omega)) && Length(f, omega) <= f.pi
    ensures Length(f, omega) > 0.0 && Length(f, omega) * Length(f, omega) == SquaredNorm(omega)
    ensures s > 0.0 && c >= 0.0 && Prod(s, s) + Prod(c, c) == 1.0 && f.atan2(s, c) == 0.5 * Length(f, omega)
    ensures So3Exp(f, omega).w == c && SquaredVec(So3Exp(f, omega)) == Prod(s, s)
    ensures So3Exp(f, omega).Vec() == Scale(Quotient(s, Length(f, omega)), omega)
  {
    hide Facts, Prod, Quotient, SquaredNorm, SquaredVec, HalfAngle, So3.ExpAndTheta, So3.Regular, Quaternion.Vec, Length, Scale;
    HalfOf(f, omega);
    var theta := Length(f, omega);
    s, c := f.sin(0.5 * theta), f.cos(0.5 * theta);
    ExpParts(omega, theta, s, c);
    ProdIs(s, s);
    ProdIs(c, c);
    ExpVector(omega, theta, s, c);
    ArcBack(f, 0.5 * theta);
  }

  lemma TurnParts(f: Elementary, q: Quaternion, omega: Vec3) returns (length: real, n: real, g: real)
    requires Facts(f) && q.SquaredNorm() == 1.0 && SquaredVec(q) < EPSILON * EPSILON && q.Vec() != ZERO
    requires So3Log(f, q).Pass? && omega == So3Log(f, q).value.tangent
    ensures length == Length(f, omega) < 1.0 < f.pi && length >= 0.0 && n > 0.0 && Prod(n, n) == SquaredVec(q) >= 0.0 && q.w != 0.0
    ensures Prod(length, length) == Prod(Prod(g, g), SquaredVec(q)) && SquaredVec(q) + Prod(q.w, q.w) == 1.0
    ensures Prod(g, Prod(q.w, Prod(q.w, q.w))) == 2.0 * Prod(q.w, q.w) - 2.0 / 3.0 * SquaredVec(q)
  {
    hide Facts, Prod, SquaredNorm, So3Log, LogFactor, Scale, Length, Quaternion.SquaredNorm, Quaternion.Vec;
    UnitParts(q);
    RealPartIsLarge(q.w, SquaredVec(q));
    LogTaylorIs(f, q);
    LengthOf(f, omega);
    LengthOf(f, q.Vec());
    NormDefinite(q.Vec());
    length, n, g := Length(f, omega), Length(f, q.Vec()), LogFactor(q);
    PositiveRoot(n, SquaredVec(q));
    ScaledLength(g, q.Vec());
    TaylorFactor(q.w, SquaredVec(q), g);
    ProdIs(g, g);
    SquareSign(g, Prod(g, g));
    ShortLength(length, Prod(g, g), SquaredVec(q));
    QuadrantOf(f, 0.0);
  }

  lemma PositiveRoot(n: real, v: real)
    requires n >= 0.0 && Prod(n, n) == v > 0.0
    ensures n > 0.0
  {}

  /** The Taylor branch of log gives a rotation by less than the quaternion's. */
  lemma ShortTurn(f: Elementary, length: real, n: real, g: real, w: real, v: real, s: real, c: real)
    requires Facts(f) && 0.0 < length && s > 0.0 && c >= 0.0 && f.atan2(s, c) == 0.5 * length && Prod(s, s) + Prod(c, c) == 1.0
    requires n > 0.0 && 0.0 <= v == Prod(n, n) && v < EPSILON * EPSILON && Prod(length, length) == Prod(Prod(g, g), v) && w != 0.0 && v + Prod(w, w) == 1.0
    requires Prod(g, Prod(w, Prod(w, w))) == 2.0 * Prod(w, w) - 2.0 / 3.0 * v
    ensures !(Prod(s, s) == v && (c == w || c == -w))
  {
    hide Facts, Prod;
    if Prod(s, s) == v && (c == w || c == -w) {
      SameRoot(s, n);
      var h := if w < 0.0 then -g else g;
      SignsCancel(w, g, c, h, v);
      SeriesIsShort(f, s, c, 0.5 * length, h);
      PSquareProduct(h, n);
      ProdIs(h, n);
      ProductSign(h, n);
      SameRoot(length, Prod(h, n));
    }
  }

  lemma ShortLength(length: real, h: real, v: real)
    requires length >= 0.0 && 0.0 <= h < 9.0 && 0.0 <= v < EPSILON * EPSILON && Prod(length, length) == Prod(h, v)
    ensures length < 1.0
  {
    ProductSign(9.0 - h, v);
    assert Prod(9.0 - h, v) == 9.0 * v - Prod(h, v) && Prod(length - 1.0, length + 1.0) == Prod(length, length) - 1.0;
    if length >= 1.0 {
      ProductSign(length - 1.0, length + 1.0);
    }
    hide Prod;
  }

  lemma SignsCancel(w0: real, g0: real, w: real, g: real, v: real)
    requires w0 != 0.0 && w == (if w0 < 0.0 then -w0 else w0) && g == if w0 < 0.0 then -g0 else g0
    requires Prod(g0, Prod(w0, Prod(w0, w0))) == 2.0 * Prod(w0, w0) - 2.0 / 3.0 * v && 0.0 <= v < EPSILON * EPSILON && v + Prod(w0, w0) == 1.0
    ensures w > 0.0 && Prod(w, w) == Prod(w0, w0) && Prod(g, g) == Prod(g0, g0) && g >= 0.0
    ensures Prod(g, Prod(w, Prod(w, w))) == 2.0 * Prod(w, w) - 2.0 / 3.0 * v
  {
    PNegatedCube(g0, w0);
    PositiveCube(w, Prod(w, Prod(w, w)));
    NegativeProduct(g, Prod(w, Prod(w, w)));
    hide Prod;
  }

  lemma NegativeProduct(x: real, y: real)
    requires y > 0.0
    ensures x < 0.0 ==> Prod(x, y) < 0.0
  {
    if x < 0.0 {
      PositiveProduct(-x, y, -Prod(x, y));
    }
  }

  lemma PNegatedCube(g: real, w: real)
    ensures Prod(-g, Prod(-w, Prod(-w, -w))) == Prod(g, Prod(w, Prod(w, w))) && Prod(-w, -w) == Prod(w, w) && Prod(-g, -g) == Prod(g, g)
  {}

  lemma PositiveCube(w: real, cube: real)
    requires w > 0.0 && cube == Prod(w, Prod(w, w))
    ensures cube > 0.0
  {
    PositiveProduct(w, w, Prod(w, w));
    PositiveProduct(w, Prod(w, w), cube);
  }

  // ----- SE3 without rotation -----

  /** Log of a valid element never aborts. */
  lemma LogPasses(f: Elementary, a: Se3.Pose)
    requires Facts(f) && a.q.SquaredNorm() == 1.0
    ensures So3Log(f, a.q).Pass? && Se3Log(f, a).Pass? && Se3Log(f, a).value.omega == So3Log(f, a.q).value.tangent
  {
    hide Facts, Length, SquaredNorm, Quaternion.SquaredNorm, So3.LeftJacobianInverse, Apply;
    if SquaredVec(a.q) < EPSILON * EPSILON {
      hide So3Log;
      LogTaylor(f, a.q);
    } else {
      So3ExpOfLog(f, a.q);
      hide So3Log;
    }
  }

  lemma ExpOfNoRotation(f: Elementary, upsilon: Vec3)
    requires Facts(f)
    ensures Se3Exp(f, Se3.Twist(upsilon, ZERO)) == Se3.Pose(Real(1.0), upsilon)
  {
    hide Facts, Length, SquaredNorm, Quaternion.SquaredNorm, So3.ExpAndTheta, So3.LeftJacobian, Apply;
    var theta := Length(f, ZERO);
    LengthOf(f, ZERO);
    TaylorAtZero(theta, f.sin(0.5 * theta), f.cos(0.5 * theta));
    JacobianAtZero(f.sin(theta), f.cos(theta));
    ApplyIdentity(upsilon);
  }

  lemma JacobianAtZero(sine: real, cosine: real)
    ensures So3.LeftJacobian(ZERO, 0.0, sine, cosine) == IDENTITY
  {
    hide Prod, Scale, MatAdd, Mul;
    HatOfZero();
    ScaleZeroVector(0.5);
    ZeroProducts(IDENTITY);
  }

  lemma HatOfZero()
    ensures Hat(ZERO) == ZERO_MATRIX
  {}

  /** Without rotation log is the translation, and exp gives it back. */
  lemma NoRotation(f: Elementary, a: Se3.Pose)
    requires Facts(f) && a.q.SquaredNorm() == 1.0 && a.q.Vec() == ZERO
    ensures Se3Log(f, a) == Pass(Se3.Twist(a.t, ZERO)) && Se3Exp(f, Se3.Twist(a.t, ZERO)) == Se3.Pose(Real(1.0), a.t)
    ensures Matrix(a.q) == IDENTITY == Matrix(Real(1.0))
  {
    hide Facts, Prod, Length, SquaredNorm, Quaternion.SquaredNorm, Quaternion.Vec, So3.LeftJacobianInverse, So3Log, Se3Exp, Matrix, Apply;
    NormDefinite(ZERO);
    LogTaylor(f, a.q);
    LogPasses(f, a);
    ReportsNoAngle(f, a.q);
    InverseJacobianAtZero(f.sin(0.5 * 0.0), f.cos(0.5 * 0.0));
    ApplyIdentity(a.t);
    ExpOfNoRotation(f, a.t);
    UnitParts(a.q);
    UnitRealMatrix(a.q);
    Sim3.UnitMatrix();
  }

  lemma ReportsNoAngle(f: Elementary, q: Quaternion)
    requires Facts(f) && q.Vec() == ZERO && So3Log(f, q).Pass?
    ensures So3Log(f, q).value.theta == 0.0
  {
    hide Facts, Length, SquaredNorm, Quaternion.Vec, Scale;
    NormDefinite(ZERO);
    LengthOf(f, ZERO);
    ZeroQuotient(q.w);
    hide Prod, Quotient;
  }

  lemma ZeroQuotient(w: real)
    requires w != 0.0
    ensures Quotient(2.0 * 0.0, w) == 0.0
  {}

  lemma InverseJacobianAtZero(s: real, c: real)
    ensures So3.LeftJacobianInverse(ZERO, 0.0, s, c) == IDENTITY
  {
    hide Prod, Scale, MatAdd, MatSub, Mul;
    HatOfZero();
    ScaleZeroVector(0.5);
    ScaleZeroVector(1.0 / 12.0);
    ZeroProducts(IDENTITY);
    ZeroProducts(ZERO_MATRIX);
    NoDifference();
  }

  lemma NoDifference()
    ensures MatSub(IDENTITY, ZERO_MATRIX) == IDENTITY
  {}

  lemma UnitRealMatrix(q: Quaternion)
    requires q.Vec() == ZERO && Prod(q.w, q.w) == 1.0
    ensures Matrix(q) == IDENTITY
  {
    MatrixReal(q.w);
    UnitScale(IDENTITY);
    hide Prod, Matrix, MatScale;
  }

  // ----- SE3: the exact conditions -----

  lemma RotationOfPose(f: Elementary, a: Se3.Twist)
    requires Facts(f)
    ensures Se3Exp(f, a).q == So3Exp(f, a.omega)
  {
    hide Facts, Length, SquaredNorm, So3.ExpAndTheta, So3.LeftJacobian, Apply;
  }

  lemma ExpIsLoggable(f: Elementary, omega: Vec3)
    requires Facts(f)
    ensures Loggable(So3Exp(f, omega))
  {
    hide Facts, Length, SquaredNorm, SquaredVec, So3.Regular, So3Exp, Quaternion.SquaredNorm;
    UnitExactlyWhen(f, omega);
    if omega != ZERO && !So3.Regular(Length(f, omega)) {
      var i, r := ExpTaylorParts(f, omega);
    }
  }

  /** log(exp a) = a, rotation and translation, if and only if the rotation vector is zero, or at
      most pi long with a sine of half the angle that has reached epsilon. */
  lemma Se3LogOfExpExactlyWhen(f: Elementary, a: Se3.Twist)
    requires Facts(f)
    ensures Loggable(Se3Exp(f, a).q) && (Se3Log(f, Se3Exp(f, a)) == Pass(a) <==> Recovered(f, a.omega))
  {
    hide Facts, Length, SquaredNorm, SquaredVec, So3.Regular, So3Log, So3Exp, Se3Exp, Se3Log, Loggable, Quaternion.SquaredNorm, Quaternion.Vec;
    RotationOfPose(f, a);
    So3LogOfExpExactlyWhen(f, a.omega, So3Exp(f, a.omega));
    ExpIsLoggable(f, a.omega);
    if a.omega == ZERO {
      ExpOfNoRotation(f, a.upsilon);
      IdentityIsUnit();
      NoRotation(f, Se3.Pose(Real(1.0), a.upsilon));
    } else if Recovered(f, a.omega) {
      RecoveredIsRegular(f, a.omega);
      ExpLog.Se3LogOfExp(f, a);
    } else if Se3Log(f, Se3Exp(f, a)).Pass? {
      OmegaOfLog(f, Se3Exp(f, a));
    }
  }

  lemma OmegaOfLog(f: Elementary, a: Se3.Pose)
    requires Facts(f) && Loggable(a.q) && Se3Log(f, a).Pass?
    ensures So3Log(f, a.q).Pass? && Se3Log(f, a).value.omega == So3Log(f, a.q).value.tangent
  {
    hide Facts, So3Log, Loggable, Apply, So3.LeftJacobianInverse;
  }

  lemma RecoveredIsRegular(f: Elementary, omega: Vec3)
    requires Facts(f) && omega != ZERO && Recovered(f, omega)
    ensures Length(f, omega) <= f.pi && So3.Regular(Length(f, omega)) && SquaredVec(So3Exp(f, omega)) >= EPSILON * EPSILON
  {
    hide Facts, Prod, Length, SquaredVec, So3.Regular, So3Exp;
    if !So3.Regular(Length(f, omega)) {
      SineIsShort(f, omega);
    } else {
      SineOfExp(f, omega);
      SineThreshold(f.sin(0.5 * Length(f, omega)));
    }
  }

  /** exp(log A) is A or A with the opposite quaternion, which is the same motion, if and only if
      the vector part of A's quaternion is zero or at least epsilon long. */
  lemma Se3ExpOfLogExactlyWhen(f: Elementary, a: Se3.Pose)
    requires Facts(f) && a.q.SquaredNorm() == 1.0
    ensures Se3Log(f, a).Pass?
    ensures var r, exact := Se3Exp(f, Se3Log(f, a).value), a.q.Vec() == ZERO || SquaredVec(a.q) >= EPSILON * EPSILON;
            && (exact ==> r == Se3.Pose(Upright(a.q), a.t))
            && (r == a || r == Se3.Pose(a.q.Times(-1.0), a.t) <==> exact)
  {
    hide Facts, Prod, Length, SquaredNorm, So3.Regular, So3Log, So3Exp, Se3Exp, Se3Log, Quaternion.SquaredNorm, Quaternion.Vec, Quaternion.Times, Matrix;
    LogPasses(f, a);
    RotationOfPose(f, Se3Log(f, a).value);
    So3ExpOfLogExactlyWhen(f, a.q);
    if a.q.Vec() == ZERO {
      NoRotation(f, a);
      UnitParts(a.q);
      NormDefinite(ZERO);
      RealUnit(a.q);
    } else if SquaredVec(a.q) >= EPSILON * EPSILON {
      ExpLog.Se3ExpOfLog(f, a);
    }
  }
}
