/** The rotation class with the operations that change it. */
module So3Class {
  import opened Linear
  import opened Constants
  import opened Quaternions
  import opened UnitQuaternions
  import RxSo3

  class So3 {
    var q: Quaternion

    /** The class invariant. */
    ghost predicate Valid()
      reads this
    {
      q.SquaredNorm() == 1.0
    }

    constructor (quaternion: Quaternion, length: real)
      requires length >= EPSILON && Prod(length, length) == quaternion.SquaredNorm()
      ensures Valid() && q == Unit(quaternion, length)
    {
      UnitLength(quaternion, length);
      q := Unit(quaternion, length);
    }

    /** Divides by the norm, or aborts, changing nothing, when that is below epsilon. */
    method Normalize(length: real) returns (ok: bool)
      requires length >= 0.0 && Prod(length, length) == q.SquaredNorm()
      modifies this
      ensures ok <==> length >= EPSILON
      ensures ok ==> Valid() && q == Unit(old(q), length)
      ensures !ok ==> q == old(q)
    {
      ok := length >= EPSILON;
      if ok {
        UnitLength(q, length);
        q := Unit(q, length);
      }
    }

    /** Stores the quaternion first: when normalising aborts, the old value is already gone.
        On success the rotation is that of the quaternion, whatever its length. */
    method SetQuaternion(quaternion: Quaternion, length: real) returns (ok: bool)
      requires length >= 0.0 && Prod(length, length) == quaternion.SquaredNorm()
      modifies this
      ensures ok <==> length >= EPSILON
      ensures ok ==> Valid() && quaternion.SquaredNorm() != 0.0 && Matrix(q) == RxSo3.RotationMatrix(quaternion)
      ensures !ok ==> q == quaternion
    {
      q := quaternion;
      ok := Normalize(length);
      if ok {
        NormalisedRotation(quaternion, length);
      }
    }

    /** In-place multiplication: the product of unit quaternions, normalised by the constructor
        of the result, keeps the invariant and composes the rotations; `other` may be this object. */
    method MulAssign(other: So3, length: real) returns (ok: bool)
      requires Valid() && other.Valid()
      requires length >= 0.0 && Prod(length, length) == QuaternionProduct(q, other.q).SquaredNorm()
      modifies this
      ensures ok && Valid() && q == QuaternionProduct(old(q), old(other.q))
      ensures Matrix(q) == Mul(old(Matrix(q)), old(Matrix(other.q)))
    {
      hide QuaternionProduct, Matrix, Mul, Quaternion.SquaredNorm, Quaternion.Times, Prod, Quotient;
      NormProduct(q, other.q);
      MatrixProduct(q, other.q);
      var product := QuaternionProduct(q, other.q);
      UnitRoot(length);
      RxSo3.TimesOne(product);
      ok := Assign(product, length);
    }

    /** The constructor of a result, followed by its assignment to this object. */
    method Assign(quaternion: Quaternion, length: real) returns (ok: bool)
      requires length >= 0.0 && Prod(length, length) == quaternion.SquaredNorm()
      modifies this
      ensures ok <==> length >= EPSILON
      ensures ok ==> Valid() && q == Unit(quaternion, length)
    {
      ok := length >= EPSILON;
      if ok {
        var result := new So3(quaternion, length);
        q := result.q;
      }
    }
  }
}
