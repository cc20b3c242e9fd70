/** Rotations from plane normals, and lines from poses of the plane. */
module Geometry {
  import opened Linear
  import opened Constants
  import opened Skew
  import opened Checked
  import opened Planar
  import Se2

  // ----- the choice of the hint -----

  function Abs(x: real): real {
    if x < 0.0 then -x else x
  }

  /** The cross product that is normalised: with the hint less parallel to z. */
  function ChosenCross(z: Vec3, x: Vec3, y: Vec3): Vec3 {
    if Abs(Dot(z, x)) < Abs(Dot(z, y)) then Cross(z, x) else Cross(y, z)
  }

  /** For unit hints with inner product d the chosen cross product has squared norm
      at least (1 - |d|) / 2: one half for perpendicular hints. */
  lemma ChosenCrossIsLong(z: Vec3, x: Vec3, y: Vec3)
    requires SquaredNorm(z) == 1.0 && SquaredNorm(x) == 1.0 && SquaredNorm(y) == 1.0
    ensures 2.0 * SquaredNorm(ChosenCross(z, x, y)) >= 1.0 - Abs(Dot(x, y))
  {
    hide Prod, Dot, Cross, SquaredNorm;
    Cauchy(z, Add(x, y));
    Cauchy(z, Sub(x, y));
    DotSub(z, x, y);
    NormOfSum(x, y);
    Lagrange(z, x);
    Lagrange(y, z);
    DotSym(y, z);
    POnes(1.0);
    POnes(SquaredNorm(Add(x, y)));
    POnes(SquaredNorm(Sub(x, y)));
    PSwap(Dot(z, x), Dot(z, y));
    Smaller(Dot(z, x), Dot(z, y), Dot(x, y));
    Smaller(Dot(z, y), Dot(z, x), Dot(x, y));
  }

  lemma PSwap(p: real, q: real)
    ensures Prod(q - p, q - p) == Prod(p - q, p - q)
  {}

  /** The smaller of two inner products is at most half their sum or difference. */
  lemma Smaller(p: real, q: real, d: real)
    requires Prod(p + q, p + q) <= 2.0 + 2.0 * d && Prod(p - q, p - q) <= 2.0 - 2.0 * d
    ensures Abs(p) <= Abs(q) ==> 2.0 * Prod(p, p) <= 1.0 + Abs(d)
  {
    if Abs(p) <= Abs(q) {
      if (p >= 0.0) == (q >= 0.0) {
        HalfSquare(Abs(p), Abs(p + q));
        PAbs(p);
        PAbs(p + q);
      } else {
        HalfSquare(Abs(p), Abs(p - q));
        PAbs(p);
        PAbs(p - q);
      }
    }
  }

  lemma PAbs(p: real)
    ensures Prod(Abs(p), Abs(p)) == Prod(p, p)
  {}

  lemma HalfSquare(a: real, b: real)
    requires 0.0 <= 2.0 * a <= b
    ensures 4.0 * Prod(a, a) <= Prod(b, b)
  {}

  /** The chosen cross product vanishes only when both hints are parallel to the normal. */
  lemma ChosenCrossVanishes(z: Vec3, x: Vec3, y: Vec3)
    requires SquaredNorm(z) == 1.0 && SquaredNorm(x) == 1.0 && SquaredNorm(y) == 1.0
    ensures ChosenCross(z, x, y) == ZERO <==> (x == z || x == Neg(z)) && (y == z || y == Neg(z))
  {
    hide Prod, Dot, Cross, SquaredNorm;
    Lagrange(z, x);
    Lagrange(y, z);
    DotSym(y, z);
    POnes(1.0);
    NormDefinite(ChosenCross(z, x, y));
    Cauchy(z, x);
    Cauchy(z, y);
    Parallel(z, x);
    Parallel(z, y);
    UnitSquare(Dot(z, x));
    UnitSquare(Dot(z, y));
    LargerSquare(Dot(z, x), Dot(z, y));
  }

  lemma UnitSquare(p: real)
    ensures Prod(p, p) == 1.0 <==> p == 1.0 || p == -1.0
  {}

  lemma LargerSquare(p: real, q: real)
    ensures Abs(q) <= 1.0 && Abs(p) < Abs(q) ==> Prod(p, p) < 1.0
    ensures Prod(p, p) <= 1.0 && Abs(q) <= Abs(p) && Prod(q, q) == 1.0 ==> Prod(p, p) == 1.0
    ensures Prod(q, q) <= 1.0 ==> Abs(q) <= 1.0
  {
    PAbs(p);
    PAbs(q);
    OneBound(Abs(p));
    OneBound(Abs(q));
  }

  lemma OneBound(a: real)
    requires a >= 0.0
    ensures (a < 1.0 ==> Prod(a, a) < 1.0) && (a > 1.0 ==> Prod(a, a) > 1.0) && (a == 1.0 ==> Prod(a, a) == 1.0)
  {
    if a < 1.0 {
      PositiveProduct(1.0 - a, 1.0 + a, 1.0 - Prod(a, a));
    } else if a > 1.0 {
      PositiveProduct(a - 1.0, 1.0 + a, Prod(a, a) - 1.0);
    }
  }

  lemma Parallel(z: Vec3, x: Vec3)
    requires SquaredNorm(z) == 1.0 && SquaredNorm(x) == 1.0
    ensures (Dot(z, x) == 1.0 <==> x == z) && (Dot(z, x) == -1.0 <==> x == Neg(z))
  {
    NormOfSum(z, x);
    NormDefinite(Sub(z, x));
    NormDefinite(Add(z, x));
    hide Prod, Dot, SquaredNorm;
  }

  // ----- rotationFromNormal -----

  /** Eigen's normalisation: a zero vector stays as it is. */
  function Normalised(v: Vec3, norm: real): Vec3 {
    if norm > 0.0 then Scale(Quotient(1.0, norm), v) else v
  }

  /** A vector is normalised unless its squared norm is within epsilon of one. */
  function NearlyUnit(v: Vec3, norm: real): Vec3 {
    if Abs(SquaredNorm(v) - 1.0) > EPSILON then Normalised(v, norm) else v
  }

  predicate IsNorm(norm: real, v: Vec3) {
    norm >= 0.0 && Prod(norm, norm) == SquaredNorm(v)
  }

  /** The basis as its columns. */
  datatype Basis = Basis(c0: Vec3, c1: Vec3, c2: Vec3) {
    function Determinant(): real {
      Dot(Cross(c0, c1), c2)
    }
  }

  predicate Orthonormal(b: Basis) {
    && SquaredNorm(b.c0) == 1.0 && SquaredNorm(b.c1) == 1.0 && SquaredNorm(b.c2) == 1.0
    && Dot(b.c0, b.c1) == 0.0 && Dot(b.c1, b.c2) == 0.0 && Dot(b.c0, b.c2) == 0.0
  }

  /** The entry checks of the function. */
  predicate Accepted(normal: Vec3, xHint: Vec3, yHint: Vec3) {
    Dot(xHint, yHint) < EPSILON && SquaredNorm(xHint) > EPSILON && SquaredNorm(yHint) > EPSILON && SquaredNorm(normal) > EPSILON
  }

  /** The norms are the square roots the function takes: of its arguments, and of the
      cross product it chooses. The columns are filled in step by step. */
  method RotationFromNormal(normal: Vec3, xHint: Vec3, yHint: Vec3, normalNorm: real, xNorm: real, yNorm: real, crossNorm: real)
    returns (r: Checked<Basis>)
    requires IsNorm(normalNorm, normal) && IsNorm(xNorm, xHint) && IsNorm(yNorm, yHint)
    requires IsNorm(crossNorm, ChosenCross(NearlyUnit(normal, normalNorm), NearlyUnit(xHint, xNorm), NearlyUnit(yHint, yNorm)))
    ensures var z := NearlyUnit(normal, normalNorm);
            && (r.Pass? <==> Accepted(normal, xHint, yHint) && crossNorm != 0.0 && Abs(SquaredNorm(z) - 1.0) < EPSILON)
            && (r.Pass? ==> r.value.c2 == z && r.value.Determinant() == SquaredNorm(z))
            && (r.Pass? ==> (Orthonormal(r.value) <==> SquaredNorm(z) == 1.0))
            && (r.Pass? ==> var x, y := NearlyUnit(xHint, xNorm), NearlyUnit(yHint, yNorm);
                            if Abs(Dot(z, x)) < Abs(Dot(z, y)) then Scale(crossNorm, r.value.c1) == Cross(z, x)
                            else Scale(crossNorm, r.value.c0) == Cross(y, z))
            && (r.Pass? ==> Dot(r.value.c0, r.value.c1) == 0.0 && Dot(r.value.c1, z) == 0.0 && Dot(r.value.c0, z) == 0.0)
  {
    hide Prod, Quotient, Dot, Cross, Scale, SquaredNorm;
    if !(Dot(xHint, yHint) < EPSILON) {
      return Abort;
    }
    if !(SquaredNorm(xHint) > EPSILON && SquaredNorm(yHint) > EPSILON && SquaredNorm(normal) > EPSILON) {
      return Abort;
    }
    var x, y, c2 := xHint, yHint, normal;
    if Abs(SquaredNorm(xHint) - 1.0) > EPSILON {
      x := Normalised(x, xNorm);
    }
    if Abs(SquaredNorm(yHint) - 1.0) > EPSILON {
      y := Normalised(y, yNorm);
    }
    if Abs(SquaredNorm(normal) - 1.0) > EPSILON {
      c2 := Normalised(c2, normalNorm);
    }
    var c0, c1;
    DotSym(c2, x);
    DotSym(c2, y);
    if Abs(Dot(c2, x)) < Abs(Dot(c2, y)) {
      c1 := Normalised(Cross(c2, x), crossNorm);
      c0 := Cross(c1, c2);
      FirstBranch(c2, x, crossNorm, c1);
    } else {
      c0 := Normalised(Cross(y, c2), crossNorm);
      c1 := Cross(c2, c0);
      SecondBranch(c2, y, crossNorm, c0);
    }
    var basis := Basis(c0, c1, c2);
    if !(Abs(basis.Determinant() - 1.0) < EPSILON) {
      return Abort;
    }
    r := Pass(basis);
  }

  /** Normalising a nonzero vector makes it unit; what was perpendicular to it stays so. */
  lemma UnitCross(u: Vec3, z: Vec3, norm: real)
    requires IsNorm(norm, u) && Dot(u, z) == 0.0
    ensures norm != 0.0 ==> SquaredNorm(Normalised(u, norm)) == 1.0
    ensures norm == 0.0 ==> Normalised(u, norm) == ZERO
    ensures Dot(Normalised(u, norm), z) == 0.0 && Scale(norm, Normalised(u, norm)) == u
  {
    Unscaled(u, norm);
    hide Prod, Quotient, Dot, Scale, SquaredNorm;
    NormDefinite(u);
    POnes(0.0);
    if norm > 0.0 {
      var i := Quotient(1.0, norm);
      DotScaled(i, u, z);
      NormOfScale(i, u);
      PSquareProduct(i, norm);
      POnes(1.0);
      POnes(i);
    }
  }

  lemma Unscaled(u: Vec3, norm: real)
    requires IsNorm(norm, u)
    ensures Scale(norm, Normalised(u, norm)) == u
  {
    NormDefinite(u);
    POnes(u.x);
    POnes(u.y);
    POnes(u.z);
    if norm > 0.0 {
      ScaleTwice(norm, Quotient(1.0, norm), u);
      PSym(norm, Quotient(1.0, norm));
    }
    hide Prod, Quotient, SquaredNorm;
  }

  lemma NormOfScale(i: real, u: Vec3)
    ensures SquaredNorm(Scale(i, u)) == Prod(Prod(i, i), SquaredNorm(u))
  {}

  lemma PNestedSquare(i: real, n: real)
    ensures Prod(i, Prod(i, n)) == Prod(Prod(i, i), n)
  {}

  /** A unit or zero vector u perpendicular to z, with u x z: together a right-handed frame. */
  lemma Frame(u: Vec3, z: Vec3)
    requires Dot(u, z) == 0.0 && (SquaredNorm(u) == 1.0 || u == ZERO)
    ensures var w := Cross(u, z);
            && SquaredNorm(w) == Prod(SquaredNorm(u), SquaredNorm(z)) && Dot(w, u) == 0.0 && Dot(w, z) == 0.0
            && Dot(Cross(w, u), z) == Prod(SquaredNorm(u), SquaredNorm(z))
            && Dot(Cross(u, Cross(z, u)), z) == Prod(SquaredNorm(u), SquaredNorm(z))
            && Cross(z, u) == Neg(w)
  {
    hide Prod, Dot, Cross;
    var w := Cross(u, z);
    Lagrange(u, z);
    POnes(0.0);
    CrossPerpendicular(u, z);
    CrossAntisymmetric(w, u);
    CrossAntisymmetric(z, u);
    BacCab(u, u, z);
    BacCab(u, z, u);
    DotSub(z, Scale(Dot(u, z), u), Scale(Dot(u, u), z));
    DotSub(z, Scale(Dot(u, u), z), Scale(Dot(u, z), u));
    DotScaledRight(Dot(u, z), z, u);
    DotScaledRight(Dot(u, u), z, z);
    POnes(Dot(z, u));
    DotSym(z, Cross(u, Cross(z, u)));
    DotSym(z, Cross(u, w));
    DotNeg(Cross(u, w), z);
  }

  lemma DotNeg(a: Vec3, b: Vec3)
    ensures Dot(Neg(a), b) == -Dot(a, b) && SquaredNorm(Neg(a)) == SquaredNorm(a)
  {}

  lemma FirstBranch(z: Vec3, x: Vec3, norm: real, c1: Vec3)
    requires IsNorm(norm, Cross(z, x)) && c1 == Normalised(Cross(z, x), norm)
    ensures Facts(Basis(Cross(c1, z), c1, z), norm) && Scale(norm, c1) == Cross(z, x)
  {
    hide Prod, Quotient, Dot, Cross, Scale, SquaredNorm, Normalised;
    CrossPerpendicular(z, x);
    UnitCross(Cross(z, x), z, norm);
    NormZero();
    Frame(c1, z);
    POnes(SquaredNorm(z));
  }

  lemma SecondBranch(z: Vec3, y: Vec3, norm: real, c0: Vec3)
    requires IsNorm(norm, Cross(y, z)) && c0 == Normalised(Cross(y, z), norm)
    ensures Facts(Basis(c0, Cross(z, c0), z), norm) && Scale(norm, c0) == Cross(y, z)
  {
    hide Prod, Quotient, Dot, Cross, Scale, SquaredNorm, Normalised;
    CrossPerpendicular(y, z);
    UnitCross(Cross(y, z), z, norm);
    NormZero();
    Frame(c0, z);
    DotNeg(Cross(c0, z), z);
    DotNeg(Cross(c0, z), c0);
    DotSym(c0, Cross(z, c0));
    POnes(SquaredNorm(z));
  }

  lemma NormZero()
    ensures SquaredNorm(ZERO) == 0.0
  {}

  /** What either branch gives: perpendicular columns, one of them unit, one as long as the third. */
  predicate Facts(b: Basis, norm: real) {
    && Dot(b.c0, b.c1) == 0.0 && Dot(b.c1, b.c2) == 0.0 && Dot(b.c0, b.c2) == 0.0
    && (norm == 0.0 ==> b.Determinant() == 0.0)
    && (norm != 0.0 ==> b.Determinant() == SquaredNorm(b.c2))
    && (norm != 0.0 ==> {SquaredNorm(b.c0), SquaredNorm(b.c1)} == {1.0, SquaredNorm(b.c2)})
  }

  /** The third column is exactly unit if and only if the normal was, or was far enough
      from unit to be normalised. */
  lemma ThirdColumnUnit(normal: Vec3, normalNorm: real)
    requires IsNorm(normalNorm, normal) && SquaredNorm(normal) > EPSILON
    ensures SquaredNorm(NearlyUnit(normal, normalNorm)) == 1.0
       <==> SquaredNorm(normal) == 1.0 || Abs(SquaredNorm(normal) - 1.0) > EPSILON
  {
    hide Prod, Quotient, Dot, Scale, SquaredNorm;
    POnes(0.0);
    DotSym(normal, ZERO);
    ZeroDot(normal);
    UnitCross(normal, ZERO, normalNorm);
  }

  // ----- where the cross product vanishes -----

  /** One hint is parallel to the normal, and along the normal it is the shorter one. */
  predicate Blocked(normal: Vec3, x: Vec3, y: Vec3) {
    || (Cross(normal, x) == ZERO && Abs(Dot(normal, x)) < Abs(Dot(normal, y)))
    || (Cross(normal, y) == ZERO && Abs(Dot(normal, y)) <= Abs(Dot(normal, x)))
  }

  /** The factor by which a vector is longer than what normalising leaves of it. */
  lemma NearlyUnitFactor(v: Vec3, norm: real) returns (k: real)
    requires IsNorm(norm, v) && SquaredNorm(v) > EPSILON
    ensures var u := NearlyUnit(v, norm);
            && v == Scale(k, u) && 1.0 - EPSILON <= SquaredNorm(u) <= 1.0 + EPSILON
            && (k == 1.0 || (k > 0.00001 && SquaredNorm(u) == 1.0))
  {
    hide Prod, Quotient, Dot, Scale, SquaredNorm;
    ScaleUnit(v);
    k := if Abs(SquaredNorm(v) - 1.0) > EPSILON then norm else 1.0;
    if Abs(SquaredNorm(v) - 1.0) > EPSILON {
      POnes(0.0);
      ZeroDot(v);
      DotSym(v, ZERO);
      UnitCross(v, ZERO, norm);
      LargeRoot(norm);
    }
  }

  lemma LargeRoot(norm: real)
    requires norm >= 0.0 && Prod(norm, norm) > EPSILON
    ensures norm > 0.00001
  {
    PDifferenceOfSquares(0.00001, norm);
    if norm <= 0.00001 {
      ProductSign(0.00001 - norm, 0.00001 + norm);
    }
  }

  /** Rescaling the vectors does not change which are parallel, nor which is seen longer. */
  lemma BlockedScaled(k: real, z: Vec3, x: Vec3, y: Vec3)
    requires k > 0.0
    ensures Blocked(Scale(k, z), x, y) <==> Blocked(z, x, y)
  {
    hide Prod, Dot, Cross, Scale;
    DotScaled(k, z, x);
    DotScaled(k, z, y);
    AbsScaled(k, Dot(z, x), Dot(z, y));
    CrossScale(x, k, z);
    CrossScale(y, k, z);
    ScaledZero(k, Cross(z, x));
    ScaledZero(k, Cross(z, y));
  }

  lemma AbsScaled(k: real, p: real, q: real)
    requires k > 0.0
    ensures Abs(Prod(k, p)) < Abs(Prod(k, q)) <==> Abs(p) < Abs(q)
  {
    AbsTimes(k, p);
    AbsTimes(k, q);
    if Abs(p) < Abs(q) {
      PositiveProduct(k, Abs(q) - Abs(p), k * (Abs(q) - Abs(p)));
    } else {
      ProductSign(k, Abs(p) - Abs(q));
    }
  }

  lemma AbsTimes(k: real, p: real)
    requires k > 0.0
    ensures Abs(Prod(k, p)) == k * Abs(p)
  {
    if p < 0.0 {
      PositiveProduct(k, -p, k * -p);
    } else {
      ProductSign(k, p);
    }
  }

  lemma ScaledZero(k: real, v: Vec3)
    requires k > 0.0
    ensures Scale(k, v) == ZERO <==> v == ZERO
  {}

  /** The chosen cross product vanishes exactly if one hint blocks the normal. */
  lemma VanishesExactlyWhen(z: Vec3, x: Vec3, y: Vec3)
    requires SquaredNorm(z) != 0.0
    ensures ChosenCross(z, x, y) == ZERO <==> Blocked(z, x, y)
  {
    hide Prod, Dot, Cross, Abs;
    CrossAntisymmetric(y, z);
    NegZero(Cross(z, y));
    hide Neg;
    Larger(Dot(z, x), Dot(z, y));
  }

  lemma Larger(p: real, q: real)
    ensures Abs(q) <= Abs(p) <==> !(Abs(p) < Abs(q))
  {}

  lemma NegZero(v: Vec3)
    ensures Neg(v) == ZERO <==> v == ZERO
  {}

  /** A vector parallel to z: what it and z have to do with a third one. */
  lemma ParallelTo(z: Vec3, x: Vec3, y: Vec3)
    requires Cross(z, x) == ZERO
    ensures Prod(Dot(x, y), SquaredNorm(z)) == Prod(Dot(z, y), Dot(z, x)) && Prod(SquaredNorm(x), SquaredNorm(z)) == Prod(Dot(z, x), Dot(z, x))
  {
    hide Prod, Dot, Cross, Scale;
    CrossZero(y);
    BacCab(y, z, x);
    DotOfDifference(z, Dot(y, x), z, Dot(y, z), x);
    DotSym(x, y);
    DotSym(y, z);
    DotSym(z, ZERO);
    ZeroDot(z);
    Lagrange(z, x);
    PSym(SquaredNorm(x), SquaredNorm(z));
    ZeroDot(ZERO);
  }

  lemma DotOfDifference(u: Vec3, r: real, a: Vec3, s: real, b: Vec3)
    ensures Dot(u, Sub(Scale(r, a), Scale(s, b))) == Prod(r, Dot(u, a)) - Prod(s, Dot(u, b))
  {
    DotSub(u, Scale(r, a), Scale(s, b));
    DotScaledRight(r, u, a);
    DotScaledRight(s, u, b);
    hide Prod, Dot, Scale;
  }

  /** If the inner product of the hints were positive, it would be at least the square of the
      shorter one. */
  lemma NotOnOneSide(z: Vec3, x: Vec3, y: Vec3)
    requires SquaredNorm(z) > 0.0 && Cross(z, x) == ZERO && Abs(Dot(z, x)) <= Abs(Dot(z, y)) && Dot(x, y) >= 0.0
    ensures Dot(x, y) >= SquaredNorm(x)
  {
    hide Prod, Dot, Cross, SquaredNorm;
    ParallelTo(z, x, y);
    NormDefinite(x);
    SignsAgree(Dot(z, y), Dot(z, x), Dot(x, y), SquaredNorm(x), SquaredNorm(z));
  }

  lemma SignsAgree(q: real, p: real, d: real, n: real, zz: real)
    requires zz > 0.0 && d >= 0.0 && Prod(d, zz) == Prod(q, p) && Prod(n, zz) == Prod(p, p) && Abs(p) <= Abs(q)
    ensures d >= n
  {
    ProductSign(d, zz);
    LargerProduct(q, p);
    PSpread(n, d, zz);
    ProductSign(n - d, zz);
    hide Prod;
  }

  lemma LargerProduct(q: real, p: real)
    requires Abs(p) <= Abs(q) && Prod(q, p) >= 0.0
    ensures Prod(q, p) >= Prod(p, p)
  {
    if p > 0.0 {
      if q < 0.0 {
        PositiveProduct(-q, p, -q * p);
      } else {
        ProductSign(q - p, p);
      }
    } else if p < 0.0 {
      if q > 0.0 {
        PositiveProduct(q, -p, q * -p);
      } else {
        ProductSign(p - q, -p);
      }
    }
  }

  /** Two hints that pass the checks: were they on one side, their inner product would be too large. */
  lemma PassesOnlyOpposite(cx: real, cy: real, d: real, n: real)
    requires cx == 1.0 || cx > 0.00001
    requires cy == 1.0 || cy > 0.00001
    requires d >= n >= 1.0 - EPSILON && (cx == 1.0 || cy == 1.0 || n >= 1.0)
    ensures Prod(cx, Prod(cy, d)) >= EPSILON
  {
    if cx != 1.0 && cy != 1.0 {
      ProductSign(cx - 0.00001, cy);
      ProductSign(Prod(cx, cy), d - 1.0);
      PAssoc(cx, cy, d);
    } else if cx != 1.0 {
      ProductSign(cx - 0.00001, d);
    } else if cy != 1.0 {
      ProductSign(cy - 0.00001, d);
    }
  }

  /** For every triple that passes the entry checks, normalised or within epsilon of unit, the
      cross product vanishes if and only if one hint is parallel to the normal and along it the
      shorter one; the hints then lie on opposite sides, which the check on their inner product
      lets through. Where both hints end up unit this means that both are parallel to the normal. */
  lemma FailsExactlyWhen(normal: Vec3, xHint: Vec3, yHint: Vec3, normalNorm: real, xNorm: real, yNorm: real, crossNorm: real)
    requires IsNorm(normalNorm, normal) && IsNorm(xNorm, xHint) && IsNorm(yNorm, yHint) && Accepted(normal, xHint, yHint)
    requires IsNorm(crossNorm, ChosenCross(NearlyUnit(normal, normalNorm), NearlyUnit(xHint, xNorm), NearlyUnit(yHint, yNorm)))
    ensures var x, y := NearlyUnit(xHint, xNorm), NearlyUnit(yHint, yNorm);
            && (crossNorm == 0.0 <==> Blocked(normal, x, y))
            && (Blocked(normal, x, y) ==> Dot(xHint, yHint) < 0.0)
            && (SquaredNorm(x) == 1.0 && SquaredNorm(y) == 1.0
                ==> (Blocked(normal, x, y) <==> Cross(normal, xHint) == ZERO && Cross(normal, yHint) == ZERO))
  {
    hide Prod, Quotient, Dot, Cross, Scale, SquaredNorm, ChosenCross, NearlyUnit, Blocked;
    var z, x, y := NearlyUnit(normal, normalNorm), NearlyUnit(xHint, xNorm), NearlyUnit(yHint, yNorm);
    var k := NearlyUnitFactor(normal, normalNorm);
    var cx := NearlyUnitFactor(xHint, xNorm);
    var cy := NearlyUnitFactor(yHint, yNorm);
    NormDefinite(ChosenCross(z, x, y));
    SquareSign(crossNorm, Prod(crossNorm, crossNorm)) by { ProdIs(crossNorm, crossNorm); }
    VanishesExactlyWhen(z, x, y);
    BlockedScaled(k, z, x, y);
    OppositeSides(z, x, y, cx, cy);
    BothParallel(k, z, x, y, cx, cy);
  }

  lemma OppositeSides(z: Vec3, x: Vec3, y: Vec3, cx: real, cy: real)
    requires SquaredNorm(z) > 0.0 && SquaredNorm(x) >= 1.0 - EPSILON && SquaredNorm(y) >= 1.0 - EPSILON
    requires cx == 1.0 || (cx > 0.00001 && SquaredNorm(x) == 1.0)
    requires cy == 1.0 || (cy > 0.00001 && SquaredNorm(y) == 1.0)
    requires Dot(Scale(cx, x), Scale(cy, y)) < EPSILON
    ensures Blocked(z, x, y) ==> Dot(Scale(cx, x), Scale(cy, y)) < 0.0
  {
    hide Prod, Dot, Cross, Scale, SquaredNorm;
    var d := Dot(x, y);
    DotScaled(cx, x, Scale(cy, y));
    DotScaledRight(cy, x, y);
    DotSym(x, y);
    if Blocked(z, x, y) {
      if d >= 0.0 {
        if Cross(z, x) == ZERO && Abs(Dot(z, x)) < Abs(Dot(z, y)) {
          NotOnOneSide(z, x, y);
          PassesOnlyOpposite(cx, cy, d, SquaredNorm(x));
        } else {
          NotOnOneSide(z, y, x);
          PassesOnlyOpposite(cx, cy, d, SquaredNorm(y));
        }
      } else {
        PAssoc(cx, cy, d);
        NegativeProduct(cx, cy, d);
      }
    }
  }

  lemma NegativeProduct(cx: real, cy: real, d: real)
    requires cx > 0.0 && cy > 0.0 && d < 0.0
    ensures Prod(cx, Prod(cy, d)) < 0.0
  {
    PositiveProduct(cy, -d, cy * -d);
    PositiveProduct(cx, -Prod(cy, d), cx * -Prod(cy, d));
  }

  lemma BothParallel(k: real, z: Vec3, x: Vec3, y: Vec3, cx: real, cy: real)
    requires k > 0.0 && cx > 0.0 && cy > 0.0 && SquaredNorm(z) > 0.0
    ensures SquaredNorm(x) == 1.0 && SquaredNorm(y) == 1.0 ==>
              (Blocked(z, x, y) <==> Cross(Scale(k, z), Scale(cx, x)) == ZERO && Cross(Scale(k, z), Scale(cy, y)) == ZERO)
  {
    hide Prod, Dot, Cross, Scale, SquaredNorm;
    ParallelScaled(k, z, cx, x);
    ParallelScaled(k, z, cy, y);
    if SquaredNorm(x) == 1.0 && SquaredNorm(y) == 1.0 {
      Shadow(z, x);
      Shadow(z, y);
      Shorter(Dot(z, x), Dot(z, y), SquaredNorm(z));
      Shorter(Dot(z, y), Dot(z, x), SquaredNorm(z));
    }
  }

  lemma ParallelScaled(k: real, z: Vec3, c: real, x: Vec3)
    requires k > 0.0 && c > 0.0
    ensures Cross(Scale(k, z), Scale(c, x)) == ZERO <==> Cross(z, x) == ZERO
  {
    CrossScale(Scale(c, x), k, z);
    CrossScale(z, c, x);
    ScaledZero(k, Cross(z, Scale(c, x)));
    ScaledZero(c, Cross(z, x));
    hide Prod, Cross, Scale;
  }

  /** A unit vector seen along z: its square is at most |z|^2, and equal if parallel. */
  lemma Shadow(z: Vec3, x: Vec3)
    requires SquaredNorm(x) == 1.0
    ensures Prod(Dot(z, x), Dot(z, x)) <= SquaredNorm(z) && (Cross(z, x) == ZERO <==> Prod(Dot(z, x), Dot(z, x)) == SquaredNorm(z))
  {
    Lagrange(z, x);
    NormDefinite(Cross(z, x));
    POnes(SquaredNorm(z));
    hide Prod, Dot, Cross, SquaredNorm;
  }

  lemma Shorter(p: real, q: real, n: real)
    requires Prod(p, p) <= n && Prod(q, q) <= n
    ensures Prod(p, p) == n ==> Abs(q) <= Abs(p) && (Abs(p) <= Abs(q) ==> Prod(q, q) == n)
  {
    PAbs(p);
    PAbs(q);
    if Abs(q) > Abs(p) {
      ProductSign(Abs(q) - Abs(p), Abs(q) + Abs(p));
      PDifferenceOfSquares(Abs(q), Abs(p));
    }
    hide Prod;
  }

  lemma PDifferenceOfSquares(a: real, b: real)
    ensures Prod(a - b, a + b) == Prod(a, a) - Prod(b, b) && Prod(0.00001, 0.00001) == EPSILON
  {}

  /** For unit arguments that pass the entry checks: the hints are opposite and one of them is the
      normal. */
  lemma UnitFailsExactlyWhen(z: Vec3, x: Vec3, y: Vec3, crossNorm: real)
    requires SquaredNorm(z) == 1.0 && SquaredNorm(x) == 1.0 && SquaredNorm(y) == 1.0 && Accepted(z, x, y)
    requires IsNorm(crossNorm, ChosenCross(z, x, y))
    ensures crossNorm == 0.0 <==> x == Neg(y) && (x == z || y == z)
  {
    hide Prod, Dot, Cross, SquaredNorm, ChosenCross;
    NormDefinite(ChosenCross(z, x, y));
    ProdIs(crossNorm, crossNorm);
    SquareSign(crossNorm, Prod(crossNorm, crossNorm));
    POnes(crossNorm);
    ChosenCrossVanishes(z, x, y);
    Parallel(x, y);
    assert Neg(Neg(z)) == z && Neg(Neg(y)) == y;
  }

  /** Opposite hints, one of them the normal: accepted, and then rejected. */
  lemma OppositeHints(z: Vec3, crossNorm: real)
    requires SquaredNorm(z) == 1.0 && IsNorm(crossNorm, ChosenCross(z, z, Neg(z)))
    ensures SquaredNorm(Neg(z)) == 1.0 && Accepted(z, z, Neg(z)) && crossNorm == 0.0
  {
    hide Prod, Dot, Cross, SquaredNorm, ChosenCross, IsNorm;
    DotNeg(z, z);
    DotSym(z, Neg(z));
    NormIsDot(z);
    NegNeg(z);
    UnitFailsExactlyWhen(z, z, Neg(z), crossNorm);
  }

  lemma NormIsDot(z: Vec3)
    ensures SquaredNorm(z) == Dot(z, z)
  {}

  lemma NegNeg(z: Vec3)
    ensures Neg(Neg(z)) == z
  {}

  /** The normal and hint (1, 0, 0) with the hint (-1, 0, 0). */
  lemma RejectedInput(crossNorm: real)
    requires IsNorm(crossNorm, ChosenCross(E0, E0, Neg(E0)))
    ensures Accepted(E0, E0, Neg(E0)) && crossNorm == 0.0
  {
    hide Prod, Dot, Cross, SquaredNorm, ChosenCross, IsNorm, Accepted;
    FirstAxis();
    OppositeHints(E0, crossNorm);
  }

  /** Hints within epsilon of unit need not be opposite: one of them is the normal shortened, the
      other, slightly tilted, is seen longer. */
  lemma TiltedInput(crossNorm: real)
    requires IsNorm(crossNorm, ChosenCross(E0, Vec3(0.99999999996, 0.0, 0.0), Vec3(-1.0, 0.000001, 0.0)))
    ensures var x, y := Vec3(0.99999999996, 0.0, 0.0), Vec3(-1.0, 0.000001, 0.0);
            && Accepted(E0, x, y) && crossNorm == 0.0 && Cross(E0, y) != ZERO
            && Abs(SquaredNorm(x) - 1.0) <= EPSILON && Abs(SquaredNorm(y) - 1.0) <= EPSILON
  {
    hide Prod, Dot, Cross, SquaredNorm, ChosenCross, Blocked;
    var x, y := Vec3(0.99999999996, 0.0, 0.0), Vec3(-1.0, 0.000001, 0.0);
    FirstAxis();
    OnFirstAxis(x);
    OnFirstAxis(y);
    PTilted();
    VanishesExactlyWhen(E0, x, y);
    TiltedBlocks(x, y);
    NormDefinite(ChosenCross(E0, x, y));
    SquareSign(crossNorm, Prod(crossNorm, crossNorm)) by { ProdIs(crossNorm, crossNorm); }
  }

  lemma OnFirstAxis(v: Vec3)
    ensures Dot(E0, v) == v.x && Cross(E0, v) == Vec3(0.0, -v.z, v.y)
  {
    POnes(v.x);
    POnes(v.y);
    POnes(v.z);
    hide Prod;
  }

  lemma PTilted()
    ensures Dot(Vec3(0.99999999996, 0.0, 0.0), Vec3(-1.0, 0.000001, 0.0)) < 0.0
    ensures 1.0 - EPSILON <= SquaredNorm(Vec3(0.99999999996, 0.0, 0.0)) <= 1.0 <= SquaredNorm(Vec3(-1.0, 0.000001, 0.0)) <= 1.0 + EPSILON
  {}

  lemma TiltedBlocks(x: Vec3, y: Vec3)
    requires Cross(E0, x) == ZERO && 0.0 < Dot(E0, x) < -Dot(E0, y)
    ensures Blocked(E0, x, y)
  {
    hide Dot, Cross;
  }

  lemma FirstAxis()
    ensures SquaredNorm(E0) == 1.0
  {
    POnes(0.0);
    POnes(1.0);
    hide Prod;
  }

  // ----- lines of the plane -----

  /** The line n.x + d = 0. */
  datatype Line2 = Line2(normal: Vec2, offset: real)

  /** The second column of the rotation matrix. */
  function NormalFromSo2(z: Vec2): Vec2 {
    Vec2(-z.y, z.x)
  }

  function LineFromSe2(a: Se2.Pose): Line2 {
    var n := NormalFromSo2(a.z);
    Line2(n, -Dot2(n, a.t))
  }

  /** The rotation whose second column is the normal; `norm` is the norm of the normal. */
  function So2FromNormal(normal: Vec2, norm: real): Checked<Vec2>
    requires norm >= 0.0 && Prod(norm, norm) == Norm2(normal)
  {
    if Norm2(normal) <= EPSILON then Abort
    else
      PositiveRoot(norm);
      var n := Scale2(Quotient(1.0, norm), normal);
      Pass(Vec2(n.y, -n.x))
  }

  lemma PositiveRoot(norm: real)
    requires Prod(norm, norm) > EPSILON
    ensures norm != 0.0
  {}

  function Se2FromLine(l: Line2, norm: real): Checked<Se2.Pose>
    requires norm >= 0.0 && Prod(norm, norm) == Norm2(l.normal)
  {
    match So2FromNormal(l.normal, norm)
    case Pass(z) => Pass(Se2.Pose(z, Scale2(-l.offset, l.normal)))
    case Abort => Abort
  }

  /** The line of a pose is the image of the x axis: the image of (x, y) has the signed distance y. */
  lemma LineOfPose(a: Se2.Pose, p: Vec2)
    requires Norm2(a.z) == 1.0
    ensures var l, image := LineFromSe2(a), Add2(Planar.Times(a.z, p), a.t);
            Norm2(l.normal) == 1.0 && Dot2(l.normal, image) + l.offset == p.y
  {
    PNegatedSquare(a.z.y);
    PImageDistance(a.z.x, a.z.y, p.x, p.y);
    PDotSum(-a.z.y, Prod(a.z.x, p.x) - Prod(a.z.y, p.y), a.t.x);
    PDotSum(a.z.x, Prod(a.z.x, p.y) + Prod(a.z.y, p.x), a.t.y);
    POnes(p.y);
    hide Prod;
  }

  lemma PNegatedSquare(x: real)
    ensures Prod(-x, -x) == Prod(x, x)
  {}

  lemma PImageDistance(zx: real, zy: real, x: real, y: real)
    ensures Prod(-zy, Prod(zx, x) - Prod(zy, y)) + Prod(zx, Prod(zx, y) + Prod(zy, x)) == Prod(Prod(zx, zx) + Prod(zy, zy), y)
  {}

  lemma PDotSum(n: real, x: real, t: real)
    ensures Prod(n, x + t) == Prod(n, x) + Prod(n, t)
  {}

  /** The round trip normalises the normal and multiplies the offset by its norm. It gives the
      line back for unit normals; otherwise it stays the same line, with offset in proportion
      to normal, only through the origin. */
  lemma LineRoundTrip(l: Line2, norm: real)
    requires norm >= 0.0 && Prod(norm, norm) == Norm2(l.normal) > EPSILON
    ensures Se2FromLine(l, norm).Pass?
    ensures var back := LineFromSe2(Se2FromLine(l, norm).value);
            && norm > 0.0 && back == Line2(Scale2(Quotient(1.0, norm), l.normal), Prod(norm, l.offset))
            && (back == l <==> norm == 1.0)
            && (Prod(norm, back.offset) == l.offset <==> l.offset == 0.0 || norm == 1.0)
  {
    hide Prod, Quotient, Norm2, Scale2, Dot2;
    PositiveRoot(norm);
    var n, i := l.normal, Quotient(1.0, norm);
    DotScales(i, n, -l.offset, n);
    PLineOffset(i, norm, l.offset);
    ScaleScale(1.0, 1.0, n);
    UnitRoot(norm);
    UnitFactor(i, norm, n);
    OffsetKept(norm, l.offset);
    POnes(l.offset);
  }

  /** The line 2 x + 1 = 0 comes back as x + 2 = 0. */
  lemma MovedLine()
    ensures Prod(2.0, 2.0) == Norm2(Vec2(2.0, 0.0)) && Se2FromLine(Line2(Vec2(2.0, 0.0), 1.0), 2.0).Pass?
    ensures LineFromSe2(Se2FromLine(Line2(Vec2(2.0, 0.0), 1.0), 2.0).value) == Line2(Vec2(1.0, 0.0), 2.0)
  {
    LineRoundTrip(Line2(Vec2(2.0, 0.0), 1.0), 2.0);
  }

  lemma DotScales(i: real, a: Vec2, s: real, b: Vec2)
    ensures Dot2(Scale2(i, a), Scale2(s, b)) == Prod(Prod(i, s), Dot2(a, b)) && Dot2(a, a) == Norm2(a)
  {}

  lemma PLineOffset(i: real, norm: real, d: real)
    requires Prod(i, norm) == 1.0
    ensures Prod(Prod(i, -d), Prod(norm, norm)) == -Prod(norm, d)
  {}

  /** Scaling a nonzero vector by 1 / norm leaves it only if norm is one. */
  lemma UnitFactor(i: real, norm: real, n: Vec2)
    requires norm > 0.0 && Prod(i, norm) == 1.0 && Prod(norm, norm) == Norm2(n)
    ensures Scale2(i, n) == n <==> norm == 1.0
  {}

  /** norm^2 d = d only if d vanishes or norm is one. */
  lemma OffsetKept(norm: real, d: real)
    requires norm > 0.0
    ensures Prod(norm, Prod(norm, d)) == d <==> d == 0.0 || norm == 1.0
  {
    hide Prod;
    PNestedSquare(norm, d);
    UnitRoot(norm);
    POnes(d);
    POnes(norm);
    PSym(Prod(norm, norm), d);
    PSym(1.0, d);
    if d != 0.0 && Prod(Prod(norm, norm), d) == d {
      PCancel(d, Prod(norm, norm), 1.0);
    }
  }
}
