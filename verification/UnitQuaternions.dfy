/** Dividing a quaternion by its norm, as the constructors of SO3 do. */
module UnitQuaternions {
  import opened Linear
  import opened Constants
  import opened Quaternions
  import RxSo3

  function Unit(q: Quaternion, length: real): Quaternion
    requires length >= EPSILON
  {
    q.Times(Quotient(1.0, length))
  }

  lemma UnitLength(q: Quaternion, length: real)
    requires length >= EPSILON && Prod(length, length) == q.SquaredNorm()
    ensures Unit(q, length).SquaredNorm() == 1.0
  {
    hide Prod, Quotient, Quaternion.SquaredNorm, Quaternion.Times;
    var i := Quotient(1.0, length);
    RxSo3.NormTimes(q, i);
    PSquareProduct(i, length);
    POnes(1.0);
  }

  lemma NormalisedRotation(q: Quaternion, length: real)
    requires length >= EPSILON && Prod(length, length) == q.SquaredNorm()
    ensures q.SquaredNorm() != 0.0 && Matrix(Unit(q, length)) == RxSo3.RotationMatrix(q)
  {
    hide Prod, Quotient, Matrix, MatScale, Quaternion.SquaredNorm, Quaternion.Times;
    var i := Quotient(1.0, length);
    NonzeroProd(length, length);
    InverseNonzero(i, length);
    RxSo3.RotationTimes(q, i);
    UnitLength(q, length);
    UnitScale(Matrix(q.Times(i)));
  }

  lemma InverseNonzero(i: real, length: real)
    requires Prod(i, length) == 1.0
    ensures i != 0.0
  {}

  lemma UnitOfScaled(unit: Quaternion, root: real)
    requires root >= EPSILON
    ensures Unit(unit.Times(root), root) == unit
  {}

  lemma ScaledBack(q: Quaternion, length: real)
    requires length >= EPSILON
    ensures Unit(q, length).Times(length) == q && Unit(q, length).Times(-1.0).Times(length) == q.Times(-1.0)
  {
    hide Prod, Quotient, Quaternion.Times;
    var i := Quotient(1.0, length);
    RxSo3.TimesTimes(q, i, length);
    RxSo3.TimesOne(q);
    RxSo3.TimesTimes(q.Times(i), -1.0, length);
    RxSo3.TimesTimes(q, i, Prod(-1.0, length));
    PAssoc(i, -1.0, length);
    PNegated(1.0, 1.0);
    POnes(1.0);
  }

  lemma NegatedNorm(q: Quaternion)
    ensures q.Times(-1.0).SquaredNorm() == q.SquaredNorm()
  {}

  // ----- the matrix of a quaternion that is taken to be unit -----

  /** The rotation matrix as Eigen computes it, without looking at the norm. */
  function UnitMatrix(q: Quaternion): Mat3 {
    var xx, yy, zz := Prod(2.0 * q.x, q.x), Prod(2.0 * q.y, q.y), Prod(2.0 * q.z, q.z);
    var xy, xz, yz := Prod(2.0 * q.y, q.x), Prod(2.0 * q.z, q.x), Prod(2.0 * q.z, q.y);
    var wx, wy, wz := Prod(2.0 * q.x, q.w), Prod(2.0 * q.y, q.w), Prod(2.0 * q.z, q.w);
    Mat3(Vec3(1.0 - (yy + zz), xy - wz, xz + wy),
         Vec3(xy + wz, 1.0 - (xx + zz), yz - wx),
         Vec3(xz - wy, yz + wx, 1.0 - (xx + yy)))
  }

  /** It is the matrix of the action of SO3 on points, and on unit quaternions the scaled one. */
  lemma UnitMatrixActs(q: Quaternion, p: Vec3)
    ensures UnitAction(q, p) == Apply(UnitMatrix(q), p)
  {
    PDoubled(q.x, q.x);
    PDoubled(q.y, q.y);
    PDoubled(q.z, q.z);
    PDoubled(q.y, q.x);
    PDoubled(q.z, q.x);
    PDoubled(q.z, q.y);
    PDoubled(q.x, q.w);
    PDoubled(q.y, q.w);
    PDoubled(q.z, q.w);
    PUnitAction(q.w, q.x, q.y, q.z, p.x, p.y, p.z);
    PUnitAction(q.w, q.y, q.z, q.x, p.y, p.z, p.x);
    PUnitAction(q.w, q.z, q.x, q.y, p.z, p.x, p.y);
    hide Prod;
  }

  lemma PDoubled(x: real, y: real)
    ensures Prod(2.0 * x, y) == 2.0 * Prod(x, y) == 2.0 * Prod(y, x)
  {}

  lemma PUnitAction(w: real, x: real, y: real, z: real, p: real, q: real, r: real)
    ensures p + (Prod(w, Prod(y, r) - Prod(z, q) + (Prod(y, r) - Prod(z, q)))
         +  (Prod(y, Prod(x, q) - Prod(y, p) + (Prod(x, q) - Prod(y, p))) - Prod(z, Prod(z, p) - Prod(x, r) + (Prod(z, p) - Prod(x, r)))))
         == Prod(1.0 - (2.0 * Prod(y, y) + 2.0 * Prod(z, z)), p) + Prod(2.0 * Prod(x, y) - 2.0 * Prod(z, w), q)
         +  Prod(2.0 * Prod(z, x) + 2.0 * Prod(y, w), r)
  {}

  lemma UnitMatrixOfUnit(q: Quaternion)
    requires q.SquaredNorm() == 1.0
    ensures UnitMatrix(q) == Matrix(q)
  {
    forall p
      ensures Apply(UnitMatrix(q), p) == Apply(Matrix(q), p)
    {
      UnitMatrixActs(q, p);
      UnitActionIsMatrix(q, p);
      hide *;
    }
    Extensional(UnitMatrix(q), Matrix(q)) by { hide *; }
  }
}
