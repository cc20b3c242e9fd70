/** The scaled rotation class with the operations that change it. */
module RxSo3Class {
  import opened Linear
  import opened Constants
  import opened Quaternions
  import RxSo3

  class RxSo3Element {
    var q: Quaternion

    /** The documented invariant. */
    ghost predicate Valid()
      reads this
    {
      RxSo3.Valid(q)
    }

    constructor (quaternion: Quaternion)
      requires RxSo3.Valid(quaternion)
      ensures Valid() && q == quaternion
    {
      q := quaternion;
    }

    /** In-place multiplication, which saturates and then goes through the constructor: it aborts,
        changing nothing, exactly when the product of the scales is 1 / epsilon. The rotation is
        always the product of the rotations; `other` may be this object. */
    method MulAssign(other: RxSo3Element, norm: real, rootPlus: real) returns (ok: bool)
      requires Valid() && other.Valid()
      requires norm >= 0.0 && norm * norm == QuaternionProduct(q, other.q).SquaredNorm()
      requires rootPlus > 0.0 && rootPlus * rootPlus == EPSILON_PLUS
      modifies this
      ensures ok <==> old(q.SquaredNorm()) * old(other.q.SquaredNorm()) != 1.0 / EPSILON
      ensures !ok ==> q == old(q)
      ensures ok ==> Valid() && q.SquaredNorm() == RxSo3.Saturated(old(q.SquaredNorm()) * old(other.q.SquaredNorm()))
      ensures ok ==> RxSo3.RotationMatrix(q) == Mul(RxSo3.RotationMatrix(old(q)), RxSo3.RotationMatrix(old(other.q)))
    {
      hide QuaternionProduct, Matrix, Mul, MatScale, RxSo3.RotationMatrix, RxSo3.SaturationFactor;
      hide Quaternion.SquaredNorm, Quaternion.Times;
      ProductMeaning(q, other.q, norm, rootPlus);
      var r := RxSo3.Multiply(q, other.q, norm, rootPlus);
      if r.Abort? {
        return false;
      }
      q := r.value;
      return true;
    }

    /** Replaces the rotation by that of a unit quaternion; the scale stays. */
    method SetSo3(unit: Quaternion, rootScale: real)
      requires Valid() && unit.SquaredNorm() == 1.0 && rootScale * rootScale == q.SquaredNorm()
      modifies this
      ensures Valid() && q.SquaredNorm() == old(q.SquaredNorm()) && RxSo3.RotationMatrix(q) == Matrix(unit)
    {
      Rescaled(unit, rootScale, q.SquaredNorm());
      q := unit;
      q := q.Times(rootScale);
    }

    /** Replaces the scale; the rotation stays. Nothing is checked: the invariant survives only
        if the new scale itself meets it, and scale zero leaves no rotation at all. */
    method SetScale(scale: real, norm: real, rootScale: real)
      requires Valid() && norm > 0.0 && norm * norm == q.SquaredNorm()
      requires rootScale >= 0.0 && rootScale * rootScale == scale
      modifies this
      ensures q.SquaredNorm() == scale
      ensures scale != 0.0 ==> RxSo3.RotationMatrix(q) == RxSo3.RotationMatrix(old(q))
      ensures Valid() <==> EPSILON <= scale < 1.0 / EPSILON
    {
      hide Quaternion.SquaredNorm, Quaternion.Times;
      SetScaleMeaning(q, scale, norm, rootScale);
      q := q.Times(1.0 / norm);
      q := q.Times(rootScale);
    }
  }

  /** A valid element and a positive scale that SetScale accepts, and that break the invariant. */
  method SetScaleBreaks() returns (e: RxSo3Element)
    ensures !e.Valid() && e.q.SquaredNorm() == 0.000000000001
  {
    var q := Quaternion(1.0, 0.0, 0.0, 0.0);
    assert q.SquaredNorm() == 1.0;
    e := new RxSo3Element(q);
    e.SetScale(0.000000000001, 1.0, 0.000001);
  }

  lemma SetScaleMeaning(q: Quaternion, scale: real, norm: real, rootScale: real)
    requires RxSo3.Valid(q) && norm > 0.0 && norm * norm == q.SquaredNorm()
    requires rootScale >= 0.0 && rootScale * rootScale == scale
    ensures var r := q.Times(1.0 / norm).Times(rootScale);
            && r.SquaredNorm() == scale
            && (scale != 0.0 ==> RxSo3.RotationMatrix(r) == RxSo3.RotationMatrix(q))
  {
    hide Matrix, MatScale, RxSo3.RotationMatrix, Quaternion.SquaredNorm, Quaternion.Times, Prod;
    DivMul(1.0, norm, 1.0 / norm);
    RxSo3.NormalizedNorm(q, q.SquaredNorm(), norm, 1.0 / norm, rootScale);
    if scale != 0.0 {
      SquareSign(rootScale, scale);
      InverseFactor(norm, rootScale);
      SameRotation(q, Prod(1.0 / norm, rootScale), q.Times(1.0 / norm).Times(rootScale));
    }
  }

  lemma SameRotation(q: Quaternion, k: real, r: Quaternion)
    requires q.SquaredNorm() != 0.0 && k != 0.0 && r == q.Times(k)
    ensures r.SquaredNorm() != 0.0 && RxSo3.RotationMatrix(r) == RxSo3.RotationMatrix(q)
  {
    RxSo3.RotationTimes(q, k);
    hide *;
  }

  lemma ProductMeaning(a: Quaternion, b: Quaternion, norm: real, rootPlus: real)
    requires RxSo3.Valid(a) && RxSo3.Valid(b) && norm >= 0.0 && rootPlus > 0.0
    requires norm * norm == QuaternionProduct(a, b).SquaredNorm()
    ensures var scale := a.SquaredNorm() * b.SquaredNorm();
            && scale != 0.0 && norm * norm == scale
            && var r := QuaternionProduct(a, b).Times(RxSo3.SaturationFactor(scale, norm, rootPlus));
               r.SquaredNorm() != 0.0 && RxSo3.RotationMatrix(r) == Mul(RxSo3.RotationMatrix(a), RxSo3.RotationMatrix(b))
  {
    var m, n := a.SquaredNorm(), b.SquaredNorm();
    NormProduct(a, b);
    hide QuaternionProduct, Matrix, Mul, MatScale, Quaternion.SquaredNorm, Quaternion.Times, Prod;
    NonzeroProduct(m, n);
    FactorNonzero(m * n, norm, rootPlus);
    RxSo3.RotationOfProduct(a, b, RxSo3.SaturationFactor(m * n, norm, rootPlus));
  }

  lemma InverseFactor(norm: real, k: real)
    requires norm > 0.0 && k > 0.0
    ensures Prod(1.0 / norm, k) != 0.0
  {}

  lemma FactorNonzero(scale: real, norm: real, rootPlus: real)
    requires norm >= 0.0 && norm * norm == scale && scale != 0.0 && rootPlus > 0.0
    ensures RxSo3.SaturationFactor(scale, norm, rootPlus) != 0.0
  {}

  lemma Rescaled(unit: Quaternion, root: real, scale: real)
    requires unit.SquaredNorm() == 1.0 && root * root == scale && EPSILON <= scale < 1.0 / EPSILON
    ensures unit.Times(root).SquaredNorm() == scale && RxSo3.RotationMatrix(unit.Times(root)) == Matrix(unit)
  {
    RxSo3.NormTimes(unit, root);
    POnes(Prod(root, root));
    SquareSign(root, scale);
    RxSo3.RotationTimes(unit, root);
    UnitScale(Matrix(unit));
    hide Matrix, MatScale, Quaternion.Times, Quaternion.SquaredNorm;
  }
}
