/** Product and inverse of the planar similarities as the operators compute them: the scale
    saturates, and the constructor checks it. */
module Sim2Product {
  import opened Linear
  import opened Constants
  import opened Planar
  import opened Checked
  import opened Sim2
  import opened Elementary
  import RxSo2

  /** The class invariant. */
  predicate Valid(a: Similarity) {
    RxSo2.Valid(a.z)
  }

  function Act(a: Similarity, p: Vec2): Vec2 {
    Add2(Times(a.z, p), a.t)
  }

  /** The square of the scale the product would have without saturation. */
  function TrueSquare(a: Similarity, b: Similarity): real {
    Prod(Norm2(a.z), Norm2(b.z))
  }

  predicate Saturates(a: Similarity, b: Similarity) {
    TrueSquare(a, b) < RxSo2.LOW || TrueSquare(a, b) > RxSo2.HIGH
  }

  lemma Root(f: Elementary, z: Vec2)
    requires Facts(f)
    ensures f.sqrt(Norm2(z)) >= 0.0 && Prod(f.sqrt(Norm2(z)), f.sqrt(Norm2(z))) == Norm2(z)
  {
    NormSign2(z);
    RootOf(f, Norm2(z));
    hide Facts, Prod, Norm2;
  }

  ghost function Product(f: Elementary, a: Similarity, b: Similarity): Checked<Similarity>
    requires Facts(f)
  {
    hide Facts, Prod, Norm2, Times;
    Root(f, Times(a.z, b.z));
    match RxSo2.Saturating(a.z, b.z, f.sqrt(Norm2(Times(a.z, b.z))))
    case Pass(z) => Pass(Similarity(z, Add2(a.t, Times(a.z, b.t))))
    case Abort => Abort
  }

  /** The factor by which saturation scales the linear part. */
  function Excess(f: Elementary, a: Similarity, b: Similarity): real
    requires f.sqrt(TrueSquare(a, b)) != 0.0
  {
    Quotient(f.sqrt(RxSo2.Saturated(TrueSquare(a, b))), f.sqrt(TrueSquare(a, b)))
  }

  /** The product of valid elements passes and is valid, with the right translation; its linear
      part is the right one times the positive factor of the saturation. */
  lemma ProductSucceeds(f: Elementary, a: Similarity, b: Similarity)
    requires Facts(f) && Valid(a) && Valid(b)
    ensures f.sqrt(TrueSquare(a, b)) > 0.0 && Excess(f, a, b) > 0.0 && Product(f, a, b).Pass?
    ensures
      var r := Product(f, a, b).value;
      && Valid(r) && Norm2(r.z) == RxSo2.Saturated(TrueSquare(a, b)) && r.t == Act(a, b.t)
      && r.z == Scale2(Excess(f, a, b), Times(a.z, b.z)) && (!Saturates(a, b) ==> r == Multiply(a, b))
  {
    hide Facts, Prod, Quotient, Norm2, Times, Scale2, RxSo2.Saturating;
    var p := Times(a.z, b.z);
    var norm := f.sqrt(Norm2(p));
    Root(f, p);
    NormTimes(a.z, b.z);
    RxSo2.PositiveProd(Norm2(a.z), Norm2(b.z));
    RxSo2.NonzeroNorm(norm);
    RxSo2.ProductSucceeds(a.z, b.z, norm);
    SaturatingIsRescaling(a.z, b.z, norm);
    RootOfSaturated(f, Norm2(p));
    PositiveQuotient(f.sqrt(RxSo2.Saturated(Norm2(p))), norm);
  }

  lemma SaturatingIsRescaling(a: Vec2, b: Vec2, norm: real)
    requires norm > 0.0 && Prod(norm, norm) == Norm2(Times(a, b)) != 0.0 && RxSo2.Saturating(a, b, norm).Pass?
    ensures var n, p := Norm2(Times(a, b)), Times(a, b);
            RxSo2.Saturating(a, b, norm).value == if n < RxSo2.LOW then Scale2(Quotient(EPSILON_PLUS, norm), p)
                                                  else if n > RxSo2.HIGH then Scale2(Quotient(1.0 / EPSILON_PLUS, norm), p) else p
    ensures Scale2(Quotient(norm, norm), Times(a, b)) == Times(a, b)
  {
    hide Prod, Quotient, Norm2, Times, Scale2;
    var p := Times(a, b);
    ScaleScale(EPSILON_PLUS, Quotient(1.0, norm), p);
    ScaleScale(1.0 / EPSILON_PLUS, Quotient(1.0, norm), p);
    QuotientOf(EPSILON_PLUS, norm);
    QuotientOf(1.0 / EPSILON_PLUS, norm);
    QuotientOf(norm, norm);
  }

  lemma QuotientOf(x: real, y: real)
    requires y != 0.0
    ensures Prod(x, Quotient(1.0, y)) == Quotient(x, y) && Quotient(y, y) == 1.0
  {}

  lemma PositiveQuotient(x: real, y: real)
    requires x > 0.0 && y > 0.0
    ensures Quotient(x, y) > 0.0
  {}

  lemma RootOfSaturated(f: Elementary, n: real)
    requires Facts(f) && n > 0.0
    ensures f.sqrt(RxSo2.Saturated(n)) == (if n < RxSo2.LOW then EPSILON_PLUS else if n > RxSo2.HIGH then 1.0 / EPSILON_PLUS else f.sqrt(n))
    ensures f.sqrt(RxSo2.Saturated(n)) > 0.0
  {
    hide Facts;
    RootOf(f, RxSo2.Saturated(n));
    SquareSign(f.sqrt(RxSo2.Saturated(n)), RxSo2.Saturated(n));
    if n < RxSo2.LOW {
      SameRoot(f.sqrt(RxSo2.Saturated(n)), EPSILON_PLUS);
    } else if n > RxSo2.HIGH {
      SameRoot(f.sqrt(RxSo2.Saturated(n)), 1.0 / EPSILON_PLUS);
    }
  }

  // ----- where the product is that of the group -----

  /** Elements that act alike, or have the same adjoint, have the same linear part. */
  lemma SameAction(r: Similarity, p: Similarity)
    requires (forall v :: Act(r, v) == Act(p, v)) || (forall x :: Apply4(Adj(r), x) == Apply4(Adj(p), x))
    ensures r.z == p.z
  {
    hide Times, Apply4, Adj;
    TimesOne(r.z);
    TimesOne(p.z);
    if forall v :: Act(r, v) == Act(p, v) {
      assert Act(r, ONE2) == Act(p, ONE2) && Act(r, ZERO2) == Act(p, ZERO2);
    } else {
      var x := Twist(ONE2, 0.0, 0.0);
      AdjointForm(r, x);
      AdjointForm(p, x);
      TimesOne(r.t);
      TimesOne(p.t);
      assert Apply4(Adj(r), x) == Apply4(Adj(p), x);
    }
  }

  lemma ActTimes(a: Similarity, b: Similarity, p: Vec2)
    ensures Act(Multiply(a, b), p) == Act(a, Act(b, p))
  {
    hide Times;
    TimesAssoc(a.z, b.z, p);
    TimesAdd(a.z, Times(b.z, p), b.t);
  }

  lemma SameMatrix(r: Similarity, p: Similarity)
    ensures Matrix(r) == Matrix(p) ==> r.z == p.z
  {}

  /** The product is that of the group, its matrix the product of the matrices, its action the
      composed action and its adjoint the product of the adjoints, each if and only if the scale
      does not saturate. */
  lemma GroupLawsExactlyWhen(f: Elementary, a: Similarity, b: Similarity)
    requires Facts(f) && Valid(a) && Valid(b)
    ensures Product(f, a, b).Pass?
    ensures
      var r := Product(f, a, b).value;
      && (r == Multiply(a, b) <==> !Saturates(a, b))
      && (Matrix(r) == Mul(Matrix(a), Matrix(b)) <==> !Saturates(a, b))
      && ((forall p :: Act(r, p) == Act(a, Act(b, p))) <==> !Saturates(a, b))
      && ((forall x :: Apply4(Adj(r), x) == Apply4(Adj(a), Apply4(Adj(b), x))) <==> !Saturates(a, b))
  {
    hide Facts, Prod, Norm2, Times, Product, Apply4, Adj, Matrix, Mul, Act;
    ProductSucceeds(f, a, b);
    var r, p := Product(f, a, b).value, Multiply(a, b);
    NormTimes(a.z, b.z);
    RxSo2.PositiveProd(Norm2(a.z), Norm2(b.z));
    SaturationChanges(TrueSquare(a, b));
    MultiplyAssoc(a, b, b);
    SameMatrix(r, p);
    forall v
      ensures Act(p, v) == Act(a, Act(b, v))
    {
      ActTimes(a, b, v);
    }
    forall x
      ensures Apply4(Adj(p), x) == Apply4(Adj(a), Apply4(Adj(b), x))
    {
      AdjointOfProduct(a, b, x);
    }
    if (forall v :: Act(r, v) == Act(a, Act(b, v))) || (forall x :: Apply4(Adj(r), x) == Apply4(Adj(a), Apply4(Adj(b), x))) {
      SameAction(r, p);
    }
  }

  lemma SaturationChanges(n: real)
    requires n > 0.0
    ensures RxSo2.Saturated(n) == n <==> RxSo2.LOW <= n <= RxSo2.HIGH
  {}

  /** Where neither order saturates on the way, the product is associative. */
  lemma Associativity(f: Elementary, a: Similarity, b: Similarity, c: Similarity)
    requires Facts(f) && Valid(a) && Valid(b) && Valid(c)
    requires !Saturates(a, b) && !Saturates(b, c) && RxSo2.LOW <= Prod(TrueSquare(a, b), Norm2(c.z)) <= RxSo2.HIGH
    ensures Product(f, a, b).Pass? && Product(f, b, c).Pass?
    ensures Product(f, Product(f, a, b).value, c) == Product(f, a, Product(f, b, c).value) == Pass(Multiply(Multiply(a, b), c))
  {
    hide Facts, Prod, Norm2, Times, Product, Multiply;
    ProductSucceeds(f, a, b);
    ProductSucceeds(f, b, c);
    var ab, bc := Product(f, a, b).value, Product(f, b, c).value;
    PAssoc(Norm2(a.z), Norm2(b.z), Norm2(c.z));
    ProductSucceeds(f, ab, c);
    ProductSucceeds(f, a, bc);
    MultiplyAssoc(a, b, c);
  }

  // ----- the inverse -----

  function Inverse(a: Similarity): Checked<Similarity>
    requires Norm2(a.z) != 0.0
  {
    match RxSo2.Inverse(a.z)
    case Pass(z) => Pass(Similarity(z, Times(z, Scale2(-1.0, a.t))))
    case Abort => Abort
  }

  /** Every valid element has an inverse; the products with it pass and are the identity. */
  lemma InverseSucceeds(f: Elementary, a: Similarity)
    requires Facts(f) && Valid(a)
    ensures Inverse(a).Pass? && Valid(Inverse(a).value) && Inverse(a).value == Sim2.Inverse(a)
    ensures Product(f, a, Inverse(a).value) == Pass(Similarity(ONE2, ZERO2)) == Product(f, Inverse(a).value, a)
  {
    hide Facts, Prod, Quotient, Norm2, Times, Scale2, Product, Sim2.Inverse;
    RxSo2.InverseSucceeds(a.z);
    RxSo2.ConstructValid(a.z);
    InverseParts(a);
    InverseLaws(a);
    var i := Inverse(a).value;
    NormTimes(a.z, i.z);
    NormTimes(i.z, a.z);
    NormOfOne();
    BoundsAroundOne();
    ProductSucceeds(f, a, i);
    ProductSucceeds(f, i, a);
  }

  lemma InverseParts(a: Similarity)
    requires Norm2(a.z) != 0.0
    ensures Sim2.Inverse(a).z == Conjugate(Scale2(Quotient(1.0, Norm2(a.z)), a.z))
    ensures Sim2.Inverse(a).t == Times(Sim2.Inverse(a).z, Scale2(-1.0, a.t))
  {}

  lemma NormOfOne()
    ensures Norm2(ONE2) == 1.0
  {}

  lemma BoundsAroundOne()
    ensures RxSo2.LOW < 1.0 < RxSo2.HIGH
  {}
}
