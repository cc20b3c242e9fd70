/** Rotations of the plane: the product with its first-order rescaling, and the class
    with the operations that change it. */
module So2 {
  import opened Linear
  import opened Constants
  import opened Planar
  import opened Checked
  import RxSo2

  /** The complex product, pulled to first order towards the unit circle. */
  function Rescaled(product: Vec2): Vec2 {
    var squaredNorm := Norm2(product);
    if squaredNorm != 1.0 then
      NormSign2(product);
      var scale := Quotient(2.0, 1.0 + squaredNorm);
      Vec2(Prod(product.x, scale), Prod(product.y, scale))
    else product
  }

  /** The rescaling leaves an error of second order: 1 - n' = ((1 - n) / (1 + n))^2. */
  lemma RescalingIsSecondOrder(p: Vec2)
    ensures var n := Norm2(p);
            n >= 0.0 && Prod(Prod(1.0 + n, 1.0 + n), 1.0 - Norm2(Rescaled(p))) == Prod(1.0 - n, 1.0 - n)
    ensures exists k :: k > 0.0 && Rescaled(p) == Scale2(k, p)
  {
    hide Prod, Quotient, Norm2, Scale2;
    var n := Norm2(p);
    NormSign2(p);
    ScaleScale(1.0, 1.0, p);
    if n != 1.0 {
      var k := Quotient(2.0, 1.0 + n);
      PSym(p.x, k);
      PSym(p.y, k);
      ScaleIs(k, p);
      NormScale(k, p);
      PSecondOrder(n, k);
      Half(k, n);
      assert k > 0.0 && Rescaled(p) == Scale2(k, p);
    } else {
      POnes(Prod(2.0, 2.0));
      PZeroSquare();
      assert 1.0 > 0.0 && Rescaled(p) == Scale2(1.0, p);
    }
  }

  lemma PZeroSquare()
    ensures Prod(0.0, 0.0) == 0.0
  {}

  lemma ScaleIs(k: real, p: Vec2)
    ensures Scale2(k, p) == Vec2(Prod(k, p.x), Prod(k, p.y))
  {}

  lemma Half(k: real, n: real)
    requires n >= 0.0 && Prod(k, 1.0 + n) == 2.0
    ensures k > 0.0
  {}

  lemma PSecondOrder(n: real, k: real)
    requires Prod(k, 1.0 + n) == 2.0
    ensures Prod(Prod(1.0 + n, 1.0 + n), 1.0 - Prod(Prod(k, k), n)) == Prod(1.0 - n, 1.0 - n)
  {}

  class So2 {
    var z: Vec2

    /** The class invariant. */
    ghost predicate Valid()
      reads this
    {
      Norm2(z) == 1.0
    }

    /** The constructors that take a complex number and normalise it; `length` is its norm. */
    constructor (z0: Vec2, length: real)
      requires length >= EPSILON && Prod(length, length) == Norm2(z0)
      ensures Valid() && z == Scale2(Quotient(1.0, length), z0)
    {
      UnitLength(z0, length);
      z := Scale2(Quotient(1.0, length), z0);
    }

    /** Divides by the norm, or aborts, changing nothing, when that is below epsilon. */
    method Normalize(length: real) returns (ok: bool)
      requires length >= 0.0 && Prod(length, length) == Norm2(z)
      modifies this
      ensures ok <==> length >= EPSILON
      ensures ok ==> Valid() && z == Scale2(Quotient(1.0, length), old(z))
      ensures !ok ==> z == old(z)
    {
      ok := length >= EPSILON;
      if ok {
        UnitLength(z, length);
        z := Scale2(Quotient(1.0, length), z);
      }
    }

    /** Stores the number first: when normalising aborts, the old value is already gone. */
    method SetComplex(complex: Vec2, length: real) returns (ok: bool)
      requires length >= 0.0 && Prod(length, length) == Norm2(complex)
      modifies this
      ensures ok <==> length >= EPSILON
      ensures ok ==> Valid() && z == Scale2(Quotient(1.0, length), complex)
      ensures !ok ==> z == complex
    {
      z := complex;
      ok := Normalize(length);
    }

    /** Group multiplication; `length` is the norm of the rescaled product, by which the
        constructor of the result divides. */
    method Times(other: So2, length: real) returns (r: Checked<Vec2>)
      requires length >= 0.0 && Prod(length, length) == Norm2(Rescaled(Planar.Times(z, other.z)))
      ensures r.Pass? <==> length >= EPSILON
      ensures r.Pass? ==> Norm2(r.value) == 1.0 && exists k :: k > 0.0 && r.value == Scale2(k, Planar.Times(z, other.z))
      ensures Valid() && other.Valid() ==> r == Pass(Planar.Times(z, other.z))
    {
      hide Prod, Quotient, Norm2, Scale2, Planar.Times;
      var product := Planar.Times(z, other.z);
      RescalingIsSecondOrder(product);
      NormTimes(z, other.z);
      var squaredNorm := Norm2(product);
      var result := product;
      if squaredNorm != 1.0 {
        var scale := Quotient(2.0, 1.0 + squaredNorm);
        result := Vec2(Prod(result.x, scale), Prod(result.y, scale));
      }
      POnes(1.0);
      if length < EPSILON {
        ShortLength(length);
        return Abort;
      }
      UnitLength(result, length);
      UnitRoot(length);
      ScaleScale(1.0, 1.0, product);
      Positive(product, result, length);
      r := Pass(Scale2(Quotient(1.0, length), result));
    }

    /** In-place multiplication keeps the invariant and multiplies; `other` may be this object. */
    method MulAssign(other: So2, length: real) returns (ok: bool)
      requires Valid() && other.Valid()
      requires length >= 0.0 && Prod(length, length) == Norm2(Rescaled(Planar.Times(z, other.z)))
      modifies this
      ensures ok && Valid() && z == Planar.Times(old(z), old(other.z))
    {
      NormTimes(z, other.z);
      POnes(1.0);
      UnitRoot(length);
      var r := Times(other, length);
      if r.Abort? {
        return false;
      }
      z := r.value;
      return true;
    }
  }

  lemma ShortLength(length: real)
    requires 0.0 <= length < EPSILON
    ensures Prod(length, length) != 1.0
  {
    if length > 0.0 {
      PositiveProduct(1.0 - length, 1.0 + length, 1.0 - Prod(length, length));
    }
  }

  lemma UnitLength(z: Vec2, length: real)
    requires length >= EPSILON && Prod(length, length) == Norm2(z)
    ensures Norm2(Scale2(Quotient(1.0, length), z)) == 1.0
  {}

  lemma Positive(product: Vec2, result: Vec2, length: real)
    requires length >= EPSILON && exists k :: k > 0.0 && result == Scale2(k, product)
    ensures exists k :: k > 0.0 && Scale2(Quotient(1.0, length), result) == Scale2(k, product)
  {
    hide Prod, Quotient, Scale2;
    var j :| j > 0.0 && result == Scale2(j, product);
    var i := Quotient(1.0, length);
    RxSo2.PositiveInverse(length, i);
    RxSo2.PositiveProd(i, j);
    ScaleScale(i, j, product);
  }
}
