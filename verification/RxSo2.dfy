/** Rotation and scaling of the plane: the saturating product, and the class invariant
    over every run of products, inverses and exponentials. */
module RxSo2 {
  import opened Linear
  import opened Constants
  import opened Planar
  import opened Checked

  const LOW := EPSILON * EPSILON
  const HIGH := 1.0 / (EPSILON * EPSILON)

  /** The check of the constructors, on the squared scale; both bounds are included. */
  predicate Valid(z: Vec2) {
    LOW <= Norm2(z) <= HIGH
  }

  function Construct(z: Vec2): Checked<Vec2> {
    if Valid(z) then Pass(z) else Abort
  }

  /** The squared scale that saturation leaves. */
  function Saturated(squaredScale: real): real {
    if squaredScale < LOW then EPSILON_PLUS * EPSILON_PLUS
    else if squaredScale > HIGH then 1.0 / EPSILON_PLUS * (1.0 / EPSILON_PLUS)
    else squaredScale
  }

  /** Group multiplication. `norm` is the norm of the product, by which normalising divides;
      a zero product is left alone by it. */
  method Multiply(a: Vec2, b: Vec2, norm: real) returns (r: Checked<Vec2>)
    requires norm >= 0.0 && Prod(norm, norm) == Norm2(Times(a, b))
    ensures var squaredScale := Prod(Norm2(a), Norm2(b));
            && (r.Pass? <==> squaredScale != 0.0)
            && (r.Pass? ==> Valid(r.value) && Norm2(r.value) == Saturated(squaredScale))
            && (r.Pass? ==> exists k :: k > 0.0 && r.value == Scale2(k, Times(a, b)))
            && (r.Pass? && LOW <= squaredScale <= HIGH ==> r.value == Times(a, b))
    ensures r == Saturating(a, b, norm)
  {
    hide Prod, Times, Norm2, Scale2;
    NormTimes(a, b);
    var product := Times(a, b);
    NormSign2(product);
    ScaleScale(1.0, 1.0, product);
    var z := product;
    var squaredScale := Norm2(z);
    if squaredScale != 0.0 {
      NonzeroNorm(norm);
    } else {
      ZeroProduct(norm, product);
    }
    ghost var k := 1.0;
    if squaredScale < LOW {
      if norm > 0.0 {
        Normalised(product, norm, EPSILON_PLUS);
        k := Prod(EPSILON_PLUS, Quotient(1.0, norm));
        z := Scale2(Quotient(1.0, norm), z);
      }
      z := Scale2(EPSILON_PLUS, z);
    }
    if squaredScale > HIGH {
      Normalised(product, norm, 1.0 / EPSILON_PLUS);
      k := Prod(1.0 / EPSILON_PLUS, Quotient(1.0, norm));
      z := Scale2(Quotient(1.0, norm), z);
      z := Scale2(1.0 / EPSILON_PLUS, z);
    }
    assert squaredScale != 0.0 ==> z == Scale2(k, product);
    r := Construct(z);
  }

  lemma NonzeroNorm(norm: real)
    requires norm >= 0.0 && Prod(norm, norm) > 0.0
    ensures norm > 0.0
  {}

  lemma ZeroProduct(norm: real, z: Vec2)
    requires Prod(norm, norm) == 0.0 == Norm2(z)
    ensures norm == 0.0 && Norm2(Scale2(EPSILON_PLUS, z)) == 0.0
  {
    SquareSign(norm, Prod(norm, norm));
    NormScale(EPSILON_PLUS, z);
    POnes(Prod(EPSILON_PLUS, EPSILON_PLUS));
  }

  lemma Normalised(z: Vec2, norm: real, target: real)
    requires norm > 0.0 && Prod(norm, norm) == Norm2(z) && target > 0.0
    ensures Norm2(z) > 0.0 && Prod(target, Quotient(1.0, norm)) > 0.0
    ensures Scale2(target, Scale2(Quotient(1.0, norm), z)) == Scale2(Prod(target, Quotient(1.0, norm)), z)
    ensures Norm2(Scale2(target, Scale2(Quotient(1.0, norm), z))) == target * target
  {
    hide Prod, Quotient, Norm2, Scale2;
    var i := Quotient(1.0, norm);
    PositiveInverse(norm, i);
    PositiveProd(norm, norm);
    PositiveProd(target, i);
    ScaleScale(target, i, z);
    NormScale(Prod(target, i), z);
    PNormalised(target, i, norm);
    POnes(Prod(target, target));
    POnes(1.0);
    ProdIs(target, target);
  }

  lemma PositiveProd(x: real, y: real)
    requires x > 0.0 && y > 0.0
    ensures Prod(x, y) > 0.0
  {}

  lemma PositiveInverse(x: real, i: real)
    requires x > 0.0 && Prod(i, x) == 1.0
    ensures i > 0.0
  {}

  lemma PNormalised(target: real, i: real, norm: real)
    ensures Prod(Prod(Prod(target, i), Prod(target, i)), Prod(norm, norm)) == Prod(Prod(target, target), Prod(Prod(i, norm), Prod(i, norm)))
  {}

  // ----- inverse and exponential -----

  function Inverse(z: Vec2): Checked<Vec2>
    requires Norm2(z) != 0.0
  {
    Construct(Conjugate(Scale2(Quotient(1.0, Norm2(z)), z)))
  }

  lemma InverseSucceeds(z: Vec2)
    requires Valid(z)
    ensures Inverse(z).Pass? && Times(z, Inverse(z).value) == ONE2 && Norm2(Inverse(z).value) == Quotient(1.0, Norm2(z))
  {
    hide Prod, Quotient, Norm2, Scale2, Times;
    var n := Norm2(z);
    var i := Quotient(1.0, n);
    var w := Scale2(i, z);
    ConjugateScale(i, z);
    ConjugateTimes(z);
    TimesScale(i, z, Conjugate(z));
    ScaleReal(i, n);
    NormScale(i, Conjugate(z));
    PInverseNorm(i, n);
    POnes(i);
    InverseBounds(n, i);
  }

  lemma ConjugateScale(i: real, z: Vec2)
    ensures Conjugate(Scale2(i, z)) == Scale2(i, Conjugate(z))
  {}

  lemma ScaleReal(i: real, n: real)
    ensures Scale2(i, Vec2(n, 0.0)) == Vec2(Prod(i, n), 0.0)
  {}

  lemma PInverseNorm(i: real, n: real)
    ensures Prod(Prod(i, i), n) == Prod(i, Prod(i, n))
  {}

  lemma InverseBounds(n: real, i: real)
    requires LOW <= n <= HIGH && Prod(i, n) == 1.0
    ensures LOW <= i <= HIGH
  {
    PositiveInverse(n, i);
    if i < LOW {
      Shrink(i, LOW, n);
    }
    if i > HIGH {
      Shrink(LOW, n, i);
    }
  }

  /** A product with a smaller and a bounded factor stays below LOW * HIGH = 1. */
  lemma Shrink(x: real, y: real, z: real)
    requires (0.0 < x < y == LOW && 0.0 < z <= HIGH) || (x == LOW && y >= LOW && z > HIGH)
    ensures Prod(x, z) != 1.0 && (x == LOW ==> Prod(y, z) > 1.0)
  {}

  /** The clamp that exp applies. */
  function ExpScale(scale: real): real {
    var raised := if scale < EPSILON_PLUS then EPSILON_PLUS else scale;
    if raised > 1.0 / EPSILON_PLUS then 1.0 / EPSILON_PLUS else raised
  }

  /** Exp from the unit complex number of the angle and the exponential of the scale part. */
  function Exp(unit: Vec2, scale: real): Checked<Vec2> {
    Construct(Scale2(ExpScale(scale), unit))
  }

  lemma ExpSucceeds(unit: Vec2, scale: real)
    requires Norm2(unit) == 1.0
    ensures Exp(unit, scale).Pass? && Exp(unit, scale).value == Scale2(ExpScale(scale), unit)
    ensures ExpScale(scale) == if scale < EPSILON_PLUS then EPSILON_PLUS else if scale > 1.0 / EPSILON_PLUS then 1.0 / EPSILON_PLUS else scale
  {
    var s := ExpScale(scale);
    NormScale(s, unit);
    POnes(Prod(s, s));
    ClampedSquare(s, Prod(s, s));
    hide Norm2, Scale2;
  }

  lemma ClampedSquare(s: real, n: real)
    requires EPSILON_PLUS <= s <= 1.0 / EPSILON_PLUS && n == s * s
    ensures LOW <= n <= HIGH
  {
    var low, high := s - EPSILON, 1.0 / EPSILON - s;
    PositiveProduct(low, s + EPSILON, low * (s + EPSILON));
    PositiveProduct(high, s + 1.0 / EPSILON, high * (s + 1.0 / EPSILON));
  }

  // ----- runs -----

  /** One step of a program over a growing pool of elements. */
  datatype Step =
    | Product(i: nat, j: nat, norm: real)
    | Inversion(i: nat)
    | Exponential(unit: Vec2, scale: real)

  predicate Enabled(pool: seq<Vec2>, step: Step) {
    match step
    case Product(i, j, norm) =>
      i < |pool| && j < |pool| && norm >= 0.0 && Prod(norm, norm) == Norm2(Times(pool[i], pool[j]))
    case Inversion(i) => i < |pool| && Norm2(pool[i]) != 0.0
    case Exponential(unit, scale) => Norm2(unit) == 1.0
  }

  /** What Multiply returns. */
  function Saturating(a: Vec2, b: Vec2, norm: real): Checked<Vec2>
    requires norm >= 0.0 && Prod(norm, norm) == Norm2(Times(a, b))
  {
    var product := Times(a, b);
    var squaredScale := Norm2(product);
    if squaredScale == 0.0 then Abort
    else
      NonzeroRoot(norm);
      var normalised := Scale2(Quotient(1.0, norm), product);
      Construct(if squaredScale < LOW then Scale2(EPSILON_PLUS, normalised)
                else if squaredScale > HIGH then Scale2(1.0 / EPSILON_PLUS, normalised)
                else product)
  }

  lemma NonzeroRoot(norm: real)
    requires Prod(norm, norm) != 0.0
    ensures norm != 0.0
  {}

  function Execute(pool: seq<Vec2>, step: Step): Checked<Vec2>
    requires Enabled(pool, step)
  {
    match step
    case Product(i, j, norm) => Saturating(pool[i], pool[j], norm)
    case Inversion(i) => Inverse(pool[i])
    case Exponential(unit, scale) => Exp(unit, scale)
  }

  /** The pool after a run; a step that is not enabled, or that aborts, ends it. */
  function Run(pool: seq<Vec2>, steps: seq<Step>): Checked<seq<Vec2>>
    decreases |steps|
  {
    if steps == [] then Pass(pool)
    else if !Enabled(pool, steps[0]) then Abort
    else match Execute(pool, steps[0])
      case Pass(z) => Run(pool + [z], steps[1..])
      case Abort => Abort
  }

  /** Whether every step of the run finds its operands. */
  predicate RunEnabled(pool: seq<Vec2>, steps: seq<Step>)
    decreases |steps|
  {
    steps != [] ==>
      && Enabled(pool, steps[0])
      && (Execute(pool, steps[0]).Pass? ==> RunEnabled(pool + [Execute(pool, steps[0]).value], steps[1..]))
  }

  predicate AllValid(pool: seq<Vec2>) {
    forall i :: 0 <= i < |pool| ==> Valid(pool[i])
  }

  lemma ProductSucceeds(a: Vec2, b: Vec2, norm: real)
    requires Valid(a) && Valid(b) && norm >= 0.0 && Prod(norm, norm) == Norm2(Times(a, b))
    ensures var r := Saturating(a, b, norm); r.Pass? && Valid(r.value) && Norm2(r.value) == Saturated(Prod(Norm2(a), Norm2(b)))
  {
    hide Prod, Quotient, Times, Norm2, Scale2;
    NormTimes(a, b);
    PositiveProd(Norm2(a), Norm2(b));
    NonzeroNorm(norm);
    Normalised(Times(a, b), norm, EPSILON_PLUS);
    Normalised(Times(a, b), norm, 1.0 / EPSILON_PLUS);
  }

  lemma StepKeepsInvariant(pool: seq<Vec2>, step: Step)
    requires AllValid(pool) && Enabled(pool, step)
    ensures Execute(pool, step).Pass? && Valid(Execute(pool, step).value)
  {
    hide Prod, Quotient, Times, Norm2, Scale2, Valid;
    match step
    case Product(i, j, norm) => ProductSucceeds(pool[i], pool[j], norm);
    case Inversion(i) => InverseSucceeds(pool[i]); ConstructValid(pool[i]);
    case Exponential(unit, scale) => ExpSucceeds(unit, scale);
  }

  lemma ConstructValid(z: Vec2)
    requires Norm2(z) != 0.0
    ensures Inverse(z).Pass? ==> Valid(Inverse(z).value)
  {}

  /** No run aborts, and every element it makes keeps its scale within the bounds. */
  lemma {:induction false} RunsKeepInvariant(pool: seq<Vec2>, steps: seq<Step>)
    requires AllValid(pool) && RunEnabled(pool, steps)
    ensures Run(pool, steps).Pass? && AllValid(Run(pool, steps).value)
    ensures |Run(pool, steps).value| == |pool| + |steps|
    decreases |steps|
  {
    if steps != [] {
      StepKeepsInvariant(pool, steps[0]);
      RunsKeepInvariant(pool + [Execute(pool, steps[0]).value], steps[1..]);
    }
  }
}
