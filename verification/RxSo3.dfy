/** Scaled rotations: the saturating product, inverse and exp, and the action on points,
    lines and planes. */
module RxSo3 {
  import opened Linear
  import opened Constants
  import opened Quaternions
  import opened Checked

  /** A tangent vector: rotation vector and logarithm of the scale. */
  datatype Tangent = Tangent(omega: Vec3, sigma: real)

  /** The check of the constructors. Its upper bound is strict. */
  predicate Valid(q: Quaternion) {
    EPSILON <= q.SquaredNorm() < 1.0 / EPSILON
  }

  /** The constructor from a quaternion. */
  function Construct(q: Quaternion): (r: Checked<Quaternion>)
    ensures r.Pass? ==> Valid(r.value)
  {
    if Valid(q) then Pass(q) else Abort
  }

  function RotationMatrix(q: Quaternion): Mat3
    requires q.SquaredNorm() != 0.0
  {
    MatScale(1.0 / q.SquaredNorm(), Matrix(q))
  }

  /** The scale that saturation leaves. */
  function Saturated(scale: real): real {
    if scale < EPSILON then EPSILON_PLUS
    else if scale > 1.0 / EPSILON then 1.0 / EPSILON_PLUS
    else scale
  }

  /** The factor by which saturation rescales the product quaternion. */
  function SaturationFactor(scale: real, norm: real, rootPlus: real): real
    requires norm * norm == scale && scale != 0.0 && rootPlus > 0.0
  {
    if scale < EPSILON then Prod(1.0 / norm, rootPlus)
    else if scale > 1.0 / EPSILON then Prod(1.0 / norm, 1.0 / rootPlus)
    else 1.0
  }

  /** The product, saturated and passed through the constructor. */
  function Saturating(a: Quaternion, b: Quaternion, norm: real, rootPlus: real): Checked<Quaternion>
    requires norm >= 0.0 && norm * norm == QuaternionProduct(a, b).SquaredNorm()
    requires rootPlus > 0.0 && rootPlus * rootPlus == EPSILON_PLUS
  {
    var product := QuaternionProduct(a, b);
    var scale := product.SquaredNorm();
    if scale == 0.0 then Abort else Construct(product.Times(SaturationFactor(scale, norm, rootPlus)))
  }

  /** Group multiplication. `norm` is the square root of the product's squared norm and
      `rootPlus` that of the saturation target. The local quaternion is rescaled in steps. */
  method Multiply(a: Quaternion, b: Quaternion, norm: real, rootPlus: real) returns (r: Checked<Quaternion>)
    requires norm >= 0.0 && norm * norm == QuaternionProduct(a, b).SquaredNorm()
    requires rootPlus > 0.0 && rootPlus * rootPlus == EPSILON_PLUS
    ensures QuaternionProduct(a, b).SquaredNorm() == a.SquaredNorm() * b.SquaredNorm()
    ensures var scale := QuaternionProduct(a, b).SquaredNorm();
            && (r.Pass? <==> scale != 0.0 && scale != 1.0 / EPSILON)
            && (r.Pass? ==> r.value == QuaternionProduct(a, b).Times(SaturationFactor(scale, norm, rootPlus)))
            && (r.Pass? ==> Valid(r.value) && r.value.SquaredNorm() == Saturated(scale))
    ensures r == Saturating(a, b, norm, rootPlus)
  {
    hide QuaternionProduct, Quaternion.Times, Quaternion.SquaredNorm, Prod;
    NormProduct(a, b);
    var product := QuaternionProduct(a, b);
    var result := product;
    var scale := result.SquaredNorm();
    NormSign(result);
    TimesOne(product);
    if scale < EPSILON {
      if scale <= 0.0 {
        return Abort;
      }
      DivMul(1.0, norm, 1.0 / norm);
      NormalizedNorm(product, scale, norm, 1.0 / norm, rootPlus);
      result := result.Times(1.0 / norm);
      result := result.Times(rootPlus);
    }
    if scale > 1.0 / EPSILON {
      DivMul(1.0, norm, 1.0 / norm);
      InverseSquared(rootPlus, EPSILON_PLUS);
      NormalizedNorm(product, scale, norm, 1.0 / norm, 1.0 / rootPlus);
      result := result.Times(1.0 / norm);
      result := result.Times(1.0 / rootPlus);
    }
    r := Construct(result);
  }

  lemma NormSign(q: Quaternion)
    ensures q.SquaredNorm() >= 0.0
    ensures q.SquaredNorm() == 0.0 ==> q == Quaternion(0.0, 0.0, 0.0, 0.0)
  {
    NormEntries(q);
    SquareSign(q.w, Prod(q.w, q.w));
    SquareSign(q.x, Prod(q.x, q.x));
    SquareSign(q.y, Prod(q.y, q.y));
    SquareSign(q.z, Prod(q.z, q.z));
    hide Prod, Quaternion.SquaredNorm;
  }

  lemma TimesOne(q: Quaternion)
    ensures q.Times(1.0) == q
  {}

  lemma NormTimes(q: Quaternion, k: real)
    ensures q.Times(k).SquaredNorm() == Prod(Prod(k, k), q.SquaredNorm())
  {
    NormEntries(q);
    NormEntries(q.Times(k));
    PNormTimes(q.w, q.x, q.y, q.z, k);
    hide Prod, Quaternion.SquaredNorm;
  }

  lemma PNormTimes(w: real, x: real, y: real, z: real, k: real)
    ensures Prod(Prod(k, w), Prod(k, w)) + Prod(Prod(k, x), Prod(k, x)) + Prod(Prod(k, y), Prod(k, y)) + Prod(Prod(k, z), Prod(k, z))
         == Prod(Prod(k, k), Prod(w, w) + Prod(x, x) + Prod(y, y) + Prod(z, z))
  {}

  lemma TimesTimes(q: Quaternion, j: real, k: real)
    ensures q.Times(j).Times(k) == q.Times(Prod(j, k))
  {}

  lemma RescaledSquare(scale: real, norm: real, i: real, k: real)
    requires norm * norm == scale && i * norm == 1.0
    ensures Prod(Prod(Prod(i, k), Prod(i, k)), scale) == k * k
  {}

  /** Normalising and then multiplying by k leaves squared norm k^2. */
  lemma NormalizedNorm(q: Quaternion, scale: real, norm: real, i: real, k: real)
    requires scale == q.SquaredNorm() && norm * norm == scale && i * norm == 1.0
    ensures q.Times(i).Times(k) == q.Times(Prod(i, k))
    ensures q.Times(Prod(i, k)).SquaredNorm() == k * k
  {
    TimesTimes(q, i, k);
    NormTimes(q, Prod(i, k));
    RescaledSquare(scale, norm, i, k);
    hide *;
  }

  lemma InverseSquared(root: real, square: real)
    requires root != 0.0 && root * root == square && square != 0.0
    ensures 1.0 / root * (1.0 / root) == 1.0 / square
  {}

  /** Rescaling a quaternion changes its scaled rotation matrix, not its rotation. */
  lemma RotationTimes(q: Quaternion, k: real)
    requires k != 0.0 && q.SquaredNorm() != 0.0
    ensures q.Times(k).SquaredNorm() != 0.0
    ensures RotationMatrix(q.Times(k)) == RotationMatrix(q)
  {
    var n, kk := q.SquaredNorm(), Prod(k, k);
    NormTimes(q, k);
    MatrixTimes(q, k);
    NonzeroProd(k, k);
    RescaledInverse(kk, n);
    MatScaleTwice(1.0 / Prod(kk, n), kk, Matrix(q));
    hide Prod, Matrix, MatScale, Quaternion.Times, Quaternion.SquaredNorm;
  }

  lemma RescaledInverse(k: real, n: real)
    requires k != 0.0 && n != 0.0
    ensures Prod(k, n) != 0.0 && Prod(1.0 / Prod(k, n), k) == 1.0 / n
  {}

  lemma MatrixTimes(q: Quaternion, k: real)
    ensures Matrix(q.Times(k)) == MatScale(Prod(k, k), Matrix(q))
  {
    MatrixEntries(q);
    MatrixEntries(q.Times(k));
    PMatrixTimes(k, q.w, q.x, q.y, q.z);
    PMatrixTimes(k, q.w, q.y, q.z, q.x);
    PMatrixTimes(k, q.w, q.z, q.x, q.y);
    hide Matrix, Prod;
  }

  lemma PMatrixTimes(k: real, w: real, x: real, y: real, z: real)
    ensures Prod(Prod(k, x), Prod(k, x)) - Prod(Prod(k, y), Prod(k, y)) - Prod(Prod(k, z), Prod(k, z)) + Prod(Prod(k, w), Prod(k, w))
         == Prod(Prod(k, k), Prod(x, x) - Prod(y, y) - Prod(z, z) + Prod(w, w))
    ensures 2.0 * Prod(Prod(k, x), Prod(k, y)) - 2.0 * Prod(Prod(k, z), Prod(k, w))
         == Prod(Prod(k, k), 2.0 * Prod(x, y) - 2.0 * Prod(z, w))
    ensures 2.0 * Prod(Prod(k, x), Prod(k, y)) + 2.0 * Prod(Prod(k, z), Prod(k, w))
         == Prod(Prod(k, k), 2.0 * Prod(x, y) + 2.0 * Prod(z, w))
  {}

  /** However a product is saturated, its rotation is the product of the rotations. */
  lemma RotationOfProduct(a: Quaternion, b: Quaternion, k: real)
    requires a.SquaredNorm() != 0.0 && b.SquaredNorm() != 0.0 && k != 0.0
    ensures QuaternionProduct(a, b).Times(k).SquaredNorm() != 0.0
    ensures RotationMatrix(QuaternionProduct(a, b).Times(k)) == Mul(RotationMatrix(a), RotationMatrix(b))
  {
    hide Prod, Matrix, MatScale, Mul, Quaternion.Times, Quaternion.SquaredNorm, QuaternionProduct;
    var m, n := a.SquaredNorm(), b.SquaredNorm();
    NormProd(a, b);
    InverseProduct(m, n);
    RotationTimes(QuaternionProduct(a, b), k);
    MatrixProduct(a, b);
    MulScaled(1.0 / m, Matrix(a), 1.0 / n, Matrix(b));
  }

  lemma NormProd(a: Quaternion, b: Quaternion)
    ensures QuaternionProduct(a, b).SquaredNorm() == Prod(a.SquaredNorm(), b.SquaredNorm())
  {
    NormProduct(a, b);
  }

  lemma InverseProduct(m: real, n: real)
    requires m != 0.0 && n != 0.0
    ensures Prod(m, n) != 0.0 && Prod(1.0 / m, 1.0 / n) == 1.0 / Prod(m, n)
  {}

  // ----- inverse and exponential -----

  /** The inverse: conjugate over squared norm, through the constructor. */
  function Inverse(q: Quaternion): (r: Checked<Quaternion>)
    requires q.SquaredNorm() != 0.0
  {
    Construct(q.Conjugate().Times(1.0 / q.SquaredNorm()))
  }

  /** Inverting a valid element fails exactly on the boundary of the strict check. */
  lemma InverseSucceeds(q: Quaternion)
    requires Valid(q)
    ensures Inverse(q).Pass? <==> q.SquaredNorm() != EPSILON
    ensures Inverse(q).Pass? ==> QuaternionProduct(q, Inverse(q).value) == Real(1.0) == QuaternionProduct(Inverse(q).value, q)
  {
    var n := q.SquaredNorm();
    var i := 1.0 / n;
    var r := q.Conjugate().Times(i);
    DivMul(1.0, n, i);
    TransposeConjugate(q);
    NormTimes(q.Conjugate(), i);
    InverseScale(n, i);
    ProductConjugate(q);
    ProductReal(i, q.Conjugate());
    ProductAssoc(q, q.Conjugate(), Real(i));
    ProductAssoc(Real(i), q.Conjugate(), q);
    ProductReal(i, Real(n));
    RealTimes(n, i);
    hide Prod, QuaternionProduct, Quaternion.Times, Quaternion.SquaredNorm, Quaternion.Conjugate;
  }

  lemma RealTimes(n: real, i: real)
    requires i * n == 1.0
    ensures Real(n).Times(i) == Real(1.0)
  {}

  lemma InverseScale(n: real, i: real)
    requires EPSILON <= n < 1.0 / EPSILON && i == 1.0 / n
    ensures Prod(Prod(i, i), n) == i && EPSILON <= i && (i < 1.0 / EPSILON <==> n != EPSILON)
  {}

  /** The clamp that exp applies to the scale. */
  function ExpScale(scale: real): real {
    var raised := if scale < EPSILON_PLUS then EPSILON_PLUS else scale;
    if raised > 1.0 / EPSILON_PLUS then 1.0 / EPSILON_PLUS else raised
  }

  /** Exp from the unit quaternion of the rotation part and the root of the clamped scale. */
  function Exp(unit: Quaternion, rootScale: real): Checked<Quaternion> {
    Construct(unit.Times(rootScale))
  }

  /** The quaternion that SO3::exp makes is a unit one or slightly longer. Either way exp passes
      the constructor with the rotation of that quaternion; the scale is the clamped one, or
      slightly more if and only if the quaternion is longer. */
  lemma ExpSucceeds(unit: Quaternion, scale: real, rootScale: real)
    requires 1.0 <= unit.SquaredNorm() < 1.0 + EPSILON && rootScale * rootScale == ExpScale(scale)
    ensures var r, clamped := Exp(unit, rootScale), ExpScale(scale);
            && r.Pass? && clamped <= r.value.SquaredNorm() < (1.0 + EPSILON) * clamped
            && (r.value.SquaredNorm() == clamped <==> unit.SquaredNorm() == 1.0)
            && RotationMatrix(r.value) == RotationMatrix(unit)
    ensures EPSILON_PLUS <= scale <= 1.0 / EPSILON_PLUS <==> ExpScale(scale) == scale
    ensures (scale < EPSILON_PLUS ==> ExpScale(scale) == EPSILON_PLUS) && (scale > 1.0 / EPSILON_PLUS ==> ExpScale(scale) == 1.0 / EPSILON_PLUS)
  {
    NormTimes(unit, rootScale);
    SlightlyLarger(ExpScale(scale), unit.SquaredNorm());
    RootNonzero(rootScale);
    ProdIs(rootScale, rootScale);
    RotationTimes(unit, rootScale);
    hide Prod, Matrix, MatScale, Quaternion.Times, Quaternion.SquaredNorm;
  }

  lemma SlightlyLarger(scale: real, n: real)
    requires EPSILON_PLUS <= scale <= 1.0 / EPSILON_PLUS && 1.0 <= n < 1.0 + EPSILON
    ensures EPSILON <= Prod(scale, n) < 1.0 / EPSILON && scale <= Prod(scale, n) < (1.0 + EPSILON) * scale
    ensures Prod(scale, n) == scale <==> n == 1.0
  {
    PositiveProduct(scale, 1.0 + EPSILON - n, scale * (1.0 + EPSILON - n));
    if n > 1.0 {
      PositiveProduct(scale, n - 1.0, scale * (n - 1.0));
    }
  }

  lemma RootNonzero(root: real)
    requires root * root >= EPSILON_PLUS
    ensures root != 0.0
  {}

  // ----- points, lines and planes -----

  function ActOnLine(q: Quaternion, l: Line): Line
    requires q.SquaredNorm() != 0.0
  {
    Line(ScaledAction(q, l.origin), Scale(1.0 / q.SquaredNorm(), ScaledAction(q, l.direction)))
  }

  function ActOnPlane(q: Quaternion, p: Plane): Plane
    requires q.SquaredNorm() != 0.0
  {
    Plane(Scale(1.0 / q.SquaredNorm(), ScaledAction(q, p.normal)), Prod(q.SquaredNorm(), p.offset))
  }

  /** The image line passes through the image points, at a parameter scaled by s. */
  lemma LineAction(q: Quaternion, l: Line, t: real)
    requires q.SquaredNorm() != 0.0
    ensures ScaledAction(q, PointAt(l, t)) == PointAt(ActOnLine(q, l), Prod(t, q.SquaredNorm()))
    ensures SquaredNorm(ActOnLine(q, l).direction) == SquaredNorm(l.direction)
  {
    var m, s := Matrix(q), q.SquaredNorm();
    ActionIsMatrix(q, PointAt(l, t));
    ActionIsMatrix(q, l.origin);
    ActionIsMatrix(q, l.direction);
    ApplyAdd(m, l.origin, Scale(t, l.direction));
    ApplyScaled(m, t, l.direction);
    ScaleTwice(Prod(t, s), 1.0 / s, Apply(m, l.direction));
    ScaleBack(t, s);
    RotatedDot(q, l.direction, l.direction);
    hide Prod, Dot, Matrix, Apply, ScaledAction, Quaternion.SquaredNorm;
  }

  lemma ScaleBack(t: real, s: real)
    requires s != 0.0
    ensures Prod(Prod(t, s), 1.0 / s) == t
  {}

  /** The rotation part keeps inner products. */
  lemma RotatedDot(q: Quaternion, u: Vec3, v: Vec3)
    requires q.SquaredNorm() != 0.0
    ensures Dot(Scale(1.0 / q.SquaredNorm(), Apply(Matrix(q), u)), Scale(1.0 / q.SquaredNorm(), Apply(Matrix(q), v))) == Dot(u, v)
  {
    var s := q.SquaredNorm();
    var i := 1.0 / s;
    Conformal(q, u, v);
    DotScaled(i, Apply(Matrix(q), u), Scale(i, Apply(Matrix(q), v)));
    DotScaledRight(i, Apply(Matrix(q), u), Apply(Matrix(q), v));
    UnscaledDot(i, s, Dot(u, v));
    hide Prod, Dot, Scale, Matrix, Apply, Quaternion.SquaredNorm;
  }

  lemma UnscaledDot(i: real, s: real, d: real)
    requires s != 0.0 && i == 1.0 / s
    ensures Prod(i, Prod(i, Prod(Prod(s, s), d))) == d
  {}

  /** Signed distances are scaled by exactly s, and normals keep their length. */
  lemma PlaneAction(q: Quaternion, p: Plane, x: Vec3)
    requires q.SquaredNorm() != 0.0
    ensures SignedDistance(ActOnPlane(q, p), ScaledAction(q, x)) == Prod(q.SquaredNorm(), SignedDistance(p, x))
    ensures SquaredNorm(ActOnPlane(q, p).normal) == SquaredNorm(p.normal)
  {
    var s := q.SquaredNorm();
    ActionIsMatrix(q, x);
    ActionIsMatrix(q, p.normal);
    RotatedDot(q, p.normal, p.normal);
    Conformal(q, p.normal, x);
    DotScaled(1.0 / s, Apply(Matrix(q), p.normal), Apply(Matrix(q), x));
    hide Prod, Dot, Scale, Matrix, Apply, ScaledAction, Quaternion.SquaredNorm;
    PlaneScale(s, Dot(p.normal, x), p.offset, Dot(Apply(Matrix(q), p.normal), Apply(Matrix(q), x)));
  }

  lemma PlaneScale(s: real, d: real, offset: real, e: real)
    requires s != 0.0 && e == Prod(Prod(s, s), d)
    ensures Prod(1.0 / s, e) + Prod(s, offset) == Prod(s, d + offset)
  {}

  // ----- products of valid elements -----

  lemma SaturatingSucceeds(a: Quaternion, b: Quaternion, norm: real, rootPlus: real)
    requires Valid(a) && Valid(b) && norm >= 0.0 && norm * norm == QuaternionProduct(a, b).SquaredNorm()
    requires rootPlus > 0.0 && rootPlus * rootPlus == EPSILON_PLUS
    ensures var scale, r := Prod(a.SquaredNorm(), b.SquaredNorm()), Saturating(a, b, norm, rootPlus);
            && (r.Pass? <==> scale != 1.0 / EPSILON)
            && (r.Pass? ==> Valid(r.value) && r.value.SquaredNorm() == Saturated(scale))
  {
    hide QuaternionProduct, Quaternion.Times, Quaternion.SquaredNorm, Prod;
    NormProd(a, b);
    var product, scale := QuaternionProduct(a, b), Prod(a.SquaredNorm(), b.SquaredNorm());
    NonzeroProd(a.SquaredNorm(), b.SquaredNorm());
    NormSign(product);
    TimesOne(product);
    if scale < EPSILON {
      NonzeroNorm(norm, scale);
      DivMul(1.0, norm, 1.0 / norm);
      NormalizedNorm(product, scale, norm, 1.0 / norm, rootPlus);
    } else if scale > 1.0 / EPSILON {
      NonzeroNorm(norm, scale);
      DivMul(1.0, norm, 1.0 / norm);
      InverseSquared(rootPlus, EPSILON_PLUS);
      NormalizedNorm(product, scale, norm, 1.0 / norm, 1.0 / rootPlus);
    }
  }

  lemma NonzeroNorm(norm: real, scale: real)
    requires norm * norm == scale && scale != 0.0
    ensures norm != 0.0
  {}

  // ----- inputs at the two boundaries -----

  /** Valid elements can have scales whose product is 1 / epsilon, and scale epsilon. */
  lemma BoundaryInputs(norm: real, rootPlus: real)
    requires norm == 100000.0 && rootPlus > 0.0 && rootPlus * rootPlus == EPSILON_PLUS
    ensures var a, b := Quaternion(300.0, 100.0, 0.0, 0.0), Quaternion(0.00001, 0.0, 0.0, 0.0);
            && Valid(a) && norm * norm == QuaternionProduct(a, a).SquaredNorm() && Saturating(a, a, norm, rootPlus) == Abort
            && Valid(b) && b.SquaredNorm() != 0.0 && Inverse(b) == Abort
  {
    hide QuaternionProduct, Quaternion.SquaredNorm, Saturating, Inverse, Prod;
    BoundaryNorms();
    var a, b := Quaternion(300.0, 100.0, 0.0, 0.0), Quaternion(0.00001, 0.0, 0.0, 0.0);
    NormProd(a, a);
    ProdIs(100000.0, 100000.0);
    SaturatingSucceeds(a, a, norm, rootPlus);
    InverseSucceeds(b);
  }

  lemma BoundaryNorms()
    ensures Quaternion(300.0, 100.0, 0.0, 0.0).SquaredNorm() == 100000.0 && Quaternion(0.00001, 0.0, 0.0, 0.0).SquaredNorm() == EPSILON
  {}
}
