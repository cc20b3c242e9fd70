/** Scaled rotations with the elementary functions in place, and the class invariant over runs. */
module RxSo3Runs {
  import opened Linear
  import opened Constants
  import opened Quaternions
  import opened Checked
  import opened Elementary
  import opened ExpLog
  import RxSo3
  import So3
  import TaylorBranches

  lemma Roots(f: Elementary, q: Quaternion)
    requires Facts(f)
    ensures var norm, rootPlus := f.sqrt(q.SquaredNorm()), f.sqrt(EPSILON_PLUS);
            norm >= 0.0 && norm * norm == q.SquaredNorm() && rootPlus > 0.0 && rootPlus * rootPlus == EPSILON_PLUS
  {
    hide Facts, Prod, Quaternion.SquaredNorm;
    RxSo3.NormSign(q);
    RootOf(f, q.SquaredNorm());
    RootOf(f, EPSILON_PLUS);
    ProdIs(f.sqrt(q.SquaredNorm()), f.sqrt(q.SquaredNorm()));
    ProdIs(f.sqrt(EPSILON_PLUS), f.sqrt(EPSILON_PLUS));
    SquareSign(f.sqrt(EPSILON_PLUS), EPSILON_PLUS);
  }

  ghost function Multiply(f: Elementary, a: Quaternion, b: Quaternion): Checked<Quaternion>
    requires Facts(f)
  {
    hide Facts, QuaternionProduct, Quaternion.SquaredNorm;
    Roots(f, QuaternionProduct(a, b));
    RxSo3.Saturating(a, b, f.sqrt(QuaternionProduct(a, b).SquaredNorm()), f.sqrt(EPSILON_PLUS))
  }

  ghost function Exp(f: Elementary, omega: Vec3, sigma: real): Checked<Quaternion>
    requires Facts(f)
  {
    RxSo3.Exp(So3Exp(f, omega), f.sqrt(RxSo3.ExpScale(f.exp(sigma))))
  }

  /** Exp passes for every tangent vector. Its rotation is that of SO3::exp; its scale is the
      clamped one if the rotation vector is zero or beyond the Taylor threshold, and slightly more
      otherwise. */
  lemma ExpPasses(f: Elementary, omega: Vec3, sigma: real)
    requires Facts(f)
    ensures So3Exp(f, omega).SquaredNorm() != 0.0
    ensures var r, clamped := Exp(f, omega, sigma), RxSo3.ExpScale(f.exp(sigma));
            && r.Pass? && RxSo3.Valid(r.value) && clamped <= r.value.SquaredNorm() < (1.0 + EPSILON) * clamped
            && (r.value.SquaredNorm() == clamped <==> omega == ZERO || So3.Regular(Length(f, omega)))
            && RxSo3.RotationMatrix(r.value) == RxSo3.RotationMatrix(So3Exp(f, omega))
  {
    hide Facts, Prod, So3Exp, Length, So3.Regular, RxSo3.RotationMatrix, Quaternion.Times, Quaternion.SquaredNorm;
    var clamped := RxSo3.ExpScale(f.exp(sigma));
    RootOf(f, clamped);
    ProdIs(f.sqrt(clamped), f.sqrt(clamped));
    TaylorBranches.UnitExactlyWhen(f, omega);
    RxSo3.ExpSucceeds(So3Exp(f, omega), f.exp(sigma), f.sqrt(clamped));
  }

  // ----- runs -----

  /** One step of a program over a growing pool of elements. */
  datatype Step = Product(i: nat, j: nat) | Inversion(i: nat) | Exponential(omega: Vec3, sigma: real)

  predicate Enabled(pool: seq<Quaternion>, step: Step) {
    match step
    case Product(i, j) => i < |pool| && j < |pool|
    case Inversion(i) => i < |pool| && pool[i].SquaredNorm() != 0.0
    case Exponential(_, _) => true
  }

  ghost function Execute(f: Elementary, pool: seq<Quaternion>, step: Step): Checked<Quaternion>
    requires Facts(f) && Enabled(pool, step)
  {
    hide Quaternion.SquaredNorm, Facts;
    match step
    case Product(i, j) => Multiply(f, pool[i], pool[j])
    case Inversion(i) => RxSo3.Inverse(pool[i])
    case Exponential(omega, sigma) => Exp(f, omega, sigma)
  }

  /** The two scales at which the strict check of the constructor bites. */
  predicate OnBoundary(pool: seq<Quaternion>, step: Step)
    requires Enabled(pool, step)
  {
    match step
    case Product(i, j) => Prod(pool[i].SquaredNorm(), pool[j].SquaredNorm()) == 1.0 / EPSILON
    case Inversion(i) => pool[i].SquaredNorm() == EPSILON
    case Exponential(_, _) => false
  }

  /** The pool after a run; a step that is not enabled, or that aborts, ends it. */
  ghost function Run(f: Elementary, pool: seq<Quaternion>, steps: seq<Step>): Checked<seq<Quaternion>>
    requires Facts(f)
    decreases |steps|
  {
    if steps == [] then Pass(pool)
    else if !Enabled(pool, steps[0]) then Abort
    else match Execute(f, pool, steps[0])
      case Pass(q) => Run(f, pool + [q], steps[1..])
      case Abort => Abort
  }

  /** Whether every step of the run finds its operands. */
  ghost predicate RunEnabled(f: Elementary, pool: seq<Quaternion>, steps: seq<Step>)
    requires Facts(f)
    decreases |steps|
  {
    steps != [] ==>
      && Enabled(pool, steps[0])
      && (Execute(f, pool, steps[0]).Pass? ==> RunEnabled(f, pool + [Execute(f, pool, steps[0]).value], steps[1..]))
  }

  /** Whether the run keeps off the two boundary scales. */
  ghost predicate OffBoundary(f: Elementary, pool: seq<Quaternion>, steps: seq<Step>)
    requires Facts(f) && RunEnabled(f, pool, steps)
    decreases |steps|
  {
    steps != [] ==>
      && !OnBoundary(pool, steps[0])
      && (Execute(f, pool, steps[0]).Pass? ==> OffBoundary(f, pool + [Execute(f, pool, steps[0]).value], steps[1..]))
  }

  predicate AllValid(pool: seq<Quaternion>) {
    forall i :: 0 <= i < |pool| ==> RxSo3.Valid(pool[i])
  }

  lemma StepAbortsExactlyWhen(f: Elementary, pool: seq<Quaternion>, step: Step)
    requires Facts(f) && AllValid(pool) && Enabled(pool, step)
    ensures Execute(f, pool, step).Pass? <==> !OnBoundary(pool, step)
    ensures Execute(f, pool, step).Pass? ==> RxSo3.Valid(Execute(f, pool, step).value)
  {
    hide Facts, Prod, QuaternionProduct, Exp, Quaternion.Times, Quaternion.SquaredNorm;
    match step
    case Product(i, j) =>
      Roots(f, QuaternionProduct(pool[i], pool[j]));
      RxSo3.SaturatingSucceeds(pool[i], pool[j], f.sqrt(QuaternionProduct(pool[i], pool[j]).SquaredNorm()), f.sqrt(EPSILON_PLUS));
    case Inversion(i) => RxSo3.InverseSucceeds(pool[i]);
    case Exponential(omega, sigma) => ExpPasses(f, omega, sigma);
  }

  /** A run aborts if and only if it comes to one of the two boundary scales; otherwise every
      element it makes passes the check of the constructor. */
  lemma {:induction false} RunsKeepInvariant(f: Elementary, pool: seq<Quaternion>, steps: seq<Step>)
    requires Facts(f) && AllValid(pool) && RunEnabled(f, pool, steps)
    ensures Run(f, pool, steps).Pass? <==> OffBoundary(f, pool, steps)
    ensures Run(f, pool, steps).Pass? ==> AllValid(Run(f, pool, steps).value) && |Run(f, pool, steps).value| == |pool| + |steps|
    decreases |steps|
  {
    hide Facts, Enabled, OnBoundary, Execute, RxSo3.Valid;
    if steps != [] {
      StepAbortsExactlyWhen(f, pool, steps[0]);
      if Execute(f, pool, steps[0]).Pass? {
        RunsKeepInvariant(f, pool + [Execute(f, pool, steps[0]).value], steps[1..]);
      }
    }
  }
}
