/** Product and inverse of the similarities as the operators compute them: the scale saturates,
    and the constructor checks it. */
module Sim3Product {
  import opened Linear
  import opened Constants
  import opened Quaternions
  import opened Checked
  import opened Affine
  import opened Sim3
  import opened Elementary
  import RxSo3
  import RxSo3Runs

  /** The class invariant. */
  predicate Valid(a: Similarity) {
    RxSo3.Valid(a.q)
  }

  function ScaleOf(a: Similarity): real {
    a.q.SquaredNorm()
  }

  /** The scale the product would have without saturation. */
  function TrueScale(a: Similarity, b: Similarity): real {
    Prod(ScaleOf(a), ScaleOf(b))
  }

  predicate Saturates(a: Similarity, b: Similarity) {
    TrueScale(a, b) < EPSILON || TrueScale(a, b) > 1.0 / EPSILON
  }

  ghost function Product(f: Elementary, a: Similarity, b: Similarity): Checked<Similarity>
    requires Facts(f)
  {
    match RxSo3Runs.Multiply(f, a.q, b.q)
    case Pass(q) => Pass(Similarity(q, Add(a.t, ScaledAction(a.q, b.t))))
    case Abort => Abort
  }

  /** The factor by which saturation scales the linear part. */
  function Excess(a: Similarity, b: Similarity): real
    requires TrueScale(a, b) != 0.0
  {
    Quotient(RxSo3.Saturated(TrueScale(a, b)), TrueScale(a, b))
  }

  /** The product of valid elements aborts on one scale only. Otherwise it is valid, with the
      right rotation and translation; its linear part is the right one times the factor of the
      saturation. */
  lemma ProductSucceeds(f: Elementary, a: Similarity, b: Similarity)
    requires Facts(f) && Valid(a) && Valid(b)
    ensures TrueScale(a, b) > 0.0 && (Product(f, a, b).Pass? <==> TrueScale(a, b) != 1.0 / EPSILON)
    ensures Product(f, a, b).Pass? ==>
      var r := Product(f, a, b).value;
      && Valid(r) && ScaleOf(r) == RxSo3.Saturated(TrueScale(a, b)) && r.t == Act(a, b.t)
      && RxSo3.RotationMatrix(r.q) == Mul(RxSo3.RotationMatrix(a.q), RxSo3.RotationMatrix(b.q))
      && Matrix(r.q) == MatScale(Excess(a, b), Mul(Matrix(a.q), Matrix(b.q)))
      && (!Saturates(a, b) ==> r == Times(a, b))
  {
    hide Facts, Prod, QuaternionProduct, ScaledAction, Matrix, MatScale, Mul, Quaternion.SquaredNorm, Quaternion.Times, RxSo3.Saturating,
         RxSo3.SaturationFactor;
    var p := QuaternionProduct(a.q, b.q);
    var norm, rootPlus := f.sqrt(p.SquaredNorm()), f.sqrt(EPSILON_PLUS);
    RxSo3Runs.Roots(f, p);
    RxSo3.NormProd(a.q, b.q);
    PositiveProduct(ScaleOf(a), ScaleOf(b), ScaleOf(a) * ScaleOf(b));
    ProdIs(ScaleOf(a), ScaleOf(b));
    RxSo3.SaturatingSucceeds(a.q, b.q, norm, rootPlus);
    if Product(f, a, b).Pass? {
      SaturatingIsRescaling(a.q, b.q, norm, rootPlus);
      var k := RxSo3.SaturationFactor(p.SquaredNorm(), norm, rootPlus);
      RxSo3.NormTimes(p, k);
      FactorOfSaturation(k, TrueScale(a, b), RxSo3.Saturated(TrueScale(a, b)));
      RxSo3.RotationOfProduct(a.q, b.q, k);
      RxSo3.MatrixTimes(p, k);
      MatrixProduct(a.q, b.q);
      RxSo3.TimesOne(p);
      AddSym(a.t, ScaledAction(a.q, b.t));
    }
  }

  lemma SaturatingIsRescaling(a: Quaternion, b: Quaternion, norm: real, rootPlus: real)
    requires norm >= 0.0 && norm * norm == QuaternionProduct(a, b).SquaredNorm()
    requires rootPlus > 0.0 && rootPlus * rootPlus == EPSILON_PLUS && RxSo3.Saturating(a, b, norm, rootPlus).Pass?
    ensures var p := QuaternionProduct(a, b);
            && p.SquaredNorm() != 0.0
            && RxSo3.Saturating(a, b, norm, rootPlus).value == p.Times(RxSo3.SaturationFactor(p.SquaredNorm(), norm, rootPlus))
            && (EPSILON <= p.SquaredNorm() <= 1.0 / EPSILON ==> RxSo3.SaturationFactor(p.SquaredNorm(), norm, rootPlus) == 1.0)
  {
    hide QuaternionProduct, Quaternion.SquaredNorm, Quaternion.Times, Prod;
  }

  /** The quaternion of a product is that of the group up to a positive factor. */
  lemma ProductIsMultiple(f: Elementary, a: Similarity, b: Similarity) returns (k: real)
    requires Facts(f) && Valid(a) && Valid(b) && Product(f, a, b).Pass?
    ensures k > 0.0 && Product(f, a, b).value.q == QuaternionProduct(a.q, b.q).Times(k)
  {
    hide Facts, Prod, QuaternionProduct, ScaledAction, Quaternion.SquaredNorm, Quaternion.Times, RxSo3.Saturating, RxSo3.SaturationFactor;
    var p := QuaternionProduct(a.q, b.q);
    RxSo3Runs.Roots(f, p);
    SaturatingIsRescaling(a.q, b.q, f.sqrt(p.SquaredNorm()), f.sqrt(EPSILON_PLUS));
    FactorIsPositive(p.SquaredNorm(), f.sqrt(p.SquaredNorm()), f.sqrt(EPSILON_PLUS));
    k := RxSo3.SaturationFactor(p.SquaredNorm(), f.sqrt(p.SquaredNorm()), f.sqrt(EPSILON_PLUS));
  }

  lemma FactorIsPositive(scale: real, norm: real, rootPlus: real)
    requires norm >= 0.0 && norm * norm == scale && scale != 0.0 && rootPlus > 0.0
    ensures RxSo3.SaturationFactor(scale, norm, rootPlus) > 0.0
  {
    PositiveProduct(1.0 / norm, rootPlus, 1.0 / norm * rootPlus);
    PositiveProduct(1.0 / norm, 1.0 / rootPlus, 1.0 / norm * (1.0 / rootPlus));
  }

  lemma TimesQuaternion(a: Similarity, b: Similarity)
    ensures Times(a, b).q == QuaternionProduct(a.q, b.q)
  {}

  lemma FactorOfSaturation(k: real, scale: real, saturated: real)
    requires Prod(Prod(k, k), scale) == saturated && scale > 0.0 && saturated > 0.0
    ensures k != 0.0 && Prod(k, k) == Quotient(saturated, scale)
  {}

  // ----- where the product is that of the group -----

  lemma SameMatrix(p: Quaternion, q: Quaternion)
    requires Matrix(p) == Matrix(q)
    ensures p.SquaredNorm() == q.SquaredNorm()
  {
    hide Prod, Dot, Matrix, Apply, Quaternion.SquaredNorm;
    Conformal(p, E0, E0);
    Conformal(q, E0, E0);
    NormOfE0();
    POnes(Prod(p.SquaredNorm(), p.SquaredNorm()));
    POnes(Prod(q.SquaredNorm(), q.SquaredNorm()));
    RxSo3.NormSign(p);
    RxSo3.NormSign(q);
    SameRoot(p.SquaredNorm(), q.SquaredNorm());
  }

  lemma NormOfE0()
    ensures Dot(E0, E0) == 1.0
  {}

  /** Elements that act alike, or have the same adjoint, have the same linear part. */
  lemma SameAction(r: Similarity, p: Similarity)
    requires ScaleOf(r) != 0.0 && ScaleOf(p) != 0.0
    requires (forall v :: Act(r, v) == Act(p, v)) || (forall x :: Apply7(Adj(r), x) == Apply7(Adj(p), x))
    ensures Matrix(r.q) == Matrix(p.q)
  {
    hide Prod, Matrix, Quaternion.SquaredNorm, Apply7, Adj;
    forall v
      ensures Apply(Matrix(r.q), v) == Apply(Matrix(p.q), v)
    {
      if forall v :: Act(r, v) == Act(p, v) {
        Displacement(r, v);
        Displacement(p, v);
        assert Act(r, v) == Act(p, v) && Act(r, ZERO) == Act(p, ZERO);
      } else {
        AdjointOfShift(r, v);
        AdjointOfShift(p, v);
        assert Apply7(Adj(r), Twist(v, ZERO, 0.0)) == Apply7(Adj(p), Twist(v, ZERO, 0.0));
      }
      hide Apply, Act;
    }
    Extensional(Matrix(r.q), Matrix(p.q)) by { hide Apply; }
  }

  lemma Displacement(a: Similarity, v: Vec3)
    ensures Apply(Matrix(a.q), v) == Sub(Act(a, v), Act(a, ZERO))
  {
    hide Prod, Matrix, ScaledAction;
    ActionIsMatrix(a.q, v);
    ActionIsMatrix(a.q, ZERO);
    ApplyZeroVector(Matrix(a.q));
    hide Apply;
  }

  lemma AdjointOfShift(a: Similarity, v: Vec3)
    requires ScaleOf(a) != 0.0
    ensures Apply7(Adj(a), Twist(v, ZERO, 0.0)).upsilon == Apply(Matrix(a.q), v)
  {
    hide Prod, Matrix, Quaternion.SquaredNorm, RxSo3.RotationMatrix, Mul;
    ApplyZeroVector(Adj(a).topMiddle);
    ScaleUnit(Adj(a).topRight);
    hide Apply, Adj, Scale;
  }

  /** The product is that of the group, its matrix the product of the matrices, its action the
      composed action and its adjoint the product of the adjoints, each if and only if the scale
      does not saturate. */
  lemma GroupLawsExactlyWhen(f: Elementary, a: Similarity, b: Similarity)
    requires Facts(f) && Valid(a) && Valid(b) && TrueScale(a, b) != 1.0 / EPSILON
    ensures Product(f, a, b).Pass? && ScaleOf(Product(f, a, b).value) != 0.0
    ensures
      var r := Product(f, a, b).value;
      && (r == Times(a, b) <==> !Saturates(a, b))
      && (Homogeneous(r) == Mul4(Homogeneous(a), Homogeneous(b)) <==> !Saturates(a, b))
      && ((forall p :: Act(r, p) == Act(a, Act(b, p))) <==> !Saturates(a, b))
      && ((forall x :: Apply7(Adj(r), x) == Apply7(Adj(a), Apply7(Adj(b), x))) <==> !Saturates(a, b))
  {
    hide Facts, Prod, Product, Times, Act, Adj, Apply7, Matrix, Mul, MatScale, Mul4, QuaternionProduct, Quaternion.SquaredNorm;
    ProductSucceeds(f, a, b);
    var r, p := Product(f, a, b).value, Times(a, b);
    RxSo3.NormProd(a.q, b.q);
    TimesParts(a, b);
    MatrixOfProduct(a, b);
    SaturationChanges(a, b);
    forall v
      ensures Act(p, v) == Act(a, Act(b, v))
    {
      ActTimes(a, b, v);
    }
    forall x
      ensures Apply7(Adj(p), x) == Apply7(Adj(a), Apply7(Adj(b), x))
    {
      AdjointOfProduct(a, b, x);
    }
    if Matrix(r.q) == Matrix(p.q) {
      SameMatrix(r.q, p.q);
    }
    if forall v :: Act(r, v) == Act(a, Act(b, v)) {
      SameAction(r, p);
    }
    if forall x :: Apply7(Adj(r), x) == Apply7(Adj(a), Apply7(Adj(b), x)) {
      SameAction(r, p);
    }
  }

  lemma SaturationChanges(a: Similarity, b: Similarity)
    requires TrueScale(a, b) > 0.0
    ensures RxSo3.Saturated(TrueScale(a, b)) == TrueScale(a, b) <==> !Saturates(a, b)
  {
    hide Prod, ScaleOf;
  }

  /** Where neither order saturates on the way, the product is associative; the rotations are
      associative wherever both orders pass. */
  lemma Associativity(f: Elementary, a: Similarity, b: Similarity, c: Similarity)
    requires Facts(f) && Valid(a) && Valid(b) && Valid(c)
    requires Product(f, a, b).Pass? && Product(f, b, c).Pass?
    requires Product(f, Product(f, a, b).value, c).Pass? && Product(f, a, Product(f, b, c).value).Pass?
    ensures
      var l, r := Product(f, Product(f, a, b).value, c).value, Product(f, a, Product(f, b, c).value).value;
      && ScaleOf(l) != 0.0 && ScaleOf(r) != 0.0 && RxSo3.RotationMatrix(l.q) == RxSo3.RotationMatrix(r.q)
      && (!Saturates(a, b) && !Saturates(b, c) && EPSILON <= Prod(TrueScale(a, b), ScaleOf(c)) <= 1.0 / EPSILON ==> l == r)
  {
    hide Facts, Prod, Product, Times, Act, Matrix, Mul, MatScale, RxSo3.RotationMatrix, Quaternion.SquaredNorm;
    var ab, bc := Product(f, a, b).value, Product(f, b, c).value;
    ProductSucceeds(f, a, b);
    ProductSucceeds(f, b, c);
    ProductSucceeds(f, ab, c);
    ProductSucceeds(f, a, bc);
    MulAssoc(RxSo3.RotationMatrix(a.q), RxSo3.RotationMatrix(b.q), RxSo3.RotationMatrix(c.q));
    PAssoc(ScaleOf(a), ScaleOf(b), ScaleOf(c));
    TimesAssoc(a, b, c);
  }

  // ----- the inverse -----

  function Inverse(a: Similarity): Checked<Similarity>
    requires ScaleOf(a) != 0.0
  {
    match RxSo3.Inverse(a.q)
    case Pass(q) => Pass(Similarity(q, ScaledAction(q, Scale(-1.0, a.t))))
    case Abort => Abort
  }

  /** A valid element has an inverse unless its scale is epsilon, and the products with it pass
      and are the identity. */
  lemma InverseExactlyWhen(f: Elementary, a: Similarity)
    requires Facts(f) && Valid(a)
    ensures Inverse(a).Pass? <==> ScaleOf(a) != EPSILON
    ensures Inverse(a).Pass? ==>
      && Valid(Inverse(a).value) && Inverse(a).value == Sim3.Inverse(a) && Prod(ScaleOf(a), ScaleOf(Inverse(a).value)) == 1.0
      && Product(f, a, Inverse(a).value) == Pass(IDENTITY_SIMILARITY) == Product(f, Inverse(a).value, a)
  {
    hide Facts, Prod, Product, Times, Sim3.Inverse, Scale, ScaledAction, QuaternionProduct, Quaternion.Times, Quaternion.Conjugate, Quaternion.SquaredNorm;
    RxSo3.InverseSucceeds(a.q);
    InverseParts(a);
    if Inverse(a).Pass? {
      var i := Inverse(a).value;
      RxSo3.NormProd(a.q, i.q);
      RxSo3.NormProd(i.q, a.q);
      NormOfOne();
      InverseLaws(a);
      ProductSucceeds(f, a, i);
      ProductSucceeds(f, i, a);
    }
  }

  lemma NormOfOne()
    ensures Real(1.0).SquaredNorm() == 1.0
  {}
}
