/** The algebra generated by a skew-symmetric matrix: hat, and the
    polynomials a W + b W^2 + c I in which all closed forms of the library live. */
module Skew {
  import opened Linear

  function Hat(omega: Vec3): Mat3 {
    Mat3(
      Vec3(0.0, -omega.z, omega.y),
      Vec3(omega.z, 0.0, -omega.x),
      Vec3(-omega.y, omega.x, 0.0))
  }

  /** Coefficients of c I + a W + b W^2. */
  datatype Poly = Poly(c: real, a: real, b: real)

  const ONE := Poly(1.0, 0.0, 0.0)

  function PolyMatrix(omega: Vec3, p: Poly): Mat3 {
    MatAdd(MatAdd(MatScale(p.a, Hat(omega)), MatScale(p.b, Mul(Hat(omega), Hat(omega)))), MatScale(p.c, IDENTITY))
  }

  /** The action of c I + a W + b W^2 on a vector. */
  function PolyAct(omega: Vec3, p: Poly, v: Vec3): Vec3 {
    Comb3(p.c, v, p.a, Cross(omega, v), p.b, Cross(omega, Cross(omega, v)))
  }

  /** The product of two polynomials when W^3 = -n W. */
  function PolyTimes(n: real, p: Poly, q: Poly): Poly {
    Poly(Prod(p.c, q.c),
         Prod(p.c, q.a) + Prod(p.a, q.c) - Prod(n, Prod(p.a, q.b) + Prod(p.b, q.a)),
         Prod(p.c, q.b) + Prod(p.b, q.c) + Prod(p.a, q.a) - Prod(n, Prod(p.b, q.b)))
  }

  lemma HatIsCross(omega: Vec3, v: Vec3)
    ensures Apply(Hat(omega), v) == Cross(omega, v)
  {
    PNegated(omega.x, v.y);
    PNegated(omega.x, v.z);
    PNegated(omega.y, v.x);
    PNegated(omega.y, v.z);
    PNegated(omega.z, v.x);
    PNegated(omega.z, v.y);
    hide Prod;
  }

  /** W^3 = -|w|^2 W. */
  lemma CubeRule(omega: Vec3, v: Vec3)
    ensures Cross(omega, Cross(omega, Cross(omega, v))) == Scale(-SquaredNorm(omega), Cross(omega, v))
  {
    var u := Cross(omega, v);
    BacCab(omega, omega, u);
    TripleProduct(omega, omega, v);
    SelfCross(omega);
    PNegated(SquaredNorm(omega), u.x);
    PNegated(SquaredNorm(omega), u.y);
    PNegated(SquaredNorm(omega), u.z);
    PNegated(0.0, omega.x);
    PNegated(0.0, omega.y);
    PNegated(0.0, omega.z);
    ZeroDot(v);
    hide Prod, Cross, Dot;
  }

  lemma SelfCross(v: Vec3)
    ensures Cross(v, v) == ZERO
  {}

  lemma ZeroDot(v: Vec3)
    ensures Dot(ZERO, v) == 0.0
  {}

  lemma ApplyPoly(omega: Vec3, p: Poly, v: Vec3)
    ensures Apply(PolyMatrix(omega, p), v) == PolyAct(omega, p, v)
  {
    var w := Hat(omega);
    ApplyMatAdd(MatAdd(MatScale(p.a, w), MatScale(p.b, Mul(w, w))), MatScale(p.c, IDENTITY), v);
    ApplyMatAdd(MatScale(p.a, w), MatScale(p.b, Mul(w, w)), v);
    ApplyMatScale(p.a, w, v);
    ApplyMatScale(p.b, Mul(w, w), v);
    ApplyMatScale(p.c, IDENTITY, v);
    ApplyMul(w, w, v);
    ApplyIdentity(v);
    HatIsCross(omega, v);
    HatIsCross(omega, Cross(omega, v));
    hide Prod, Apply, Mul, MatScale, MatAdd, Hat, Cross, Scale;
  }

  lemma PPolyRow(k: real, d: real, x: real, e: real, y: real, f: real, z: real)
    ensures Prod(k, Prod(d, x) + Prod(e, y) + Prod(f, z)) == k * d * x + k * e * y + k * f * z
  {}

  lemma PPolyTimes(c: real, a: real, b: real, d: real, e: real, f: real, n: real, x0: real, x1: real, x2: real,
                   y1: real, y2: real)
    requires y1 == Prod(-n, x1) && y2 == Prod(-n, x2)
    ensures Prod(c, Prod(d, x0) + Prod(e, x1) + Prod(f, x2))
         +  Prod(a, Prod(d, x1) + Prod(e, x2) + Prod(f, y1))
         +  Prod(b, Prod(d, x2) + Prod(e, y1) + Prod(f, y2))
         == Prod(Prod(c, d), x0) + Prod(Prod(c, e) + Prod(a, d) - Prod(n, Prod(a, f) + Prod(b, e)), x1)
         +  Prod(Prod(c, f) + Prod(b, d) + Prod(a, e) - Prod(n, Prod(b, f)), x2)
  {
    PPolyRow(c, d, x0, e, x1, f, x2);
    PPolyRow(a, d, x1, e, x2, f, y1);
    PPolyRow(b, d, x2, e, y1, f, y2);
    PPolyCarry(a, f, n, x1, y1);
    PPolyCarry(b, e, n, x1, y1);
    PPolyCarry(b, f, n, x2, y2);
    PPolyCoefficients(c, a, b, d, e, f, n, x0, x1, x2);
    hide Prod;
  }

  lemma PPolyCarry(a: real, f: real, n: real, x: real, y: real)
    requires y == Prod(-n, x)
    ensures a * f * y == -n * a * f * x
  {}

  lemma PPolyCoefficients(c: real, a: real, b: real, d: real, e: real, f: real, n: real, x0: real, x1: real, x2: real)
    ensures Prod(Prod(c, d), x0) == c * d * x0
    ensures Prod(Prod(c, e) + Prod(a, d) - Prod(n, Prod(a, f) + Prod(b, e)), x1)
         == c * e * x1 + a * d * x1 - n * a * f * x1 - n * b * e * x1
    ensures Prod(Prod(c, f) + Prod(b, d) + Prod(a, e) - Prod(n, Prod(b, f)), x2)
         == c * f * x2 + b * d * x2 + a * e * x2 - n * b * f * x2
  {}

  lemma PolyActTimes(omega: Vec3, p: Poly, q: Poly, v: Vec3)
    ensures PolyAct(omega, p, PolyAct(omega, q, v)) == PolyAct(omega, PolyTimes(SquaredNorm(omega), p, q), v)
  {
    var n, v1 := SquaredNorm(omega), Cross(omega, v);
    var v2 := Cross(omega, v1);
    CrossComb3(omega, q.c, v, q.a, v1, q.b, v2);
    CubeRule(omega, v);
    CubeRule(omega, v1);
    CrossComb3(omega, q.c, v1, q.a, v2, q.b, Scale(-n, v1));
    assert Cross(omega, Scale(-n, v1)) == Scale(-n, v2);
    PPolyTimes(p.c, p.a, p.b, q.c, q.a, q.b, n, v.x, v1.x, v2.x, Prod(-n, v1.x), Prod(-n, v2.x));
    PPolyTimes(p.c, p.a, p.b, q.c, q.a, q.b, n, v.y, v1.y, v2.y, Prod(-n, v1.y), Prod(-n, v2.y));
    PPolyTimes(p.c, p.a, p.b, q.c, q.a, q.b, n, v.z, v1.z, v2.z, Prod(-n, v1.z), Prod(-n, v2.z));
    hide Prod, Cross, SquaredNorm;
  }

  lemma PolyMatrixTimes(omega: Vec3, p: Poly, q: Poly)
    ensures Mul(PolyMatrix(omega, p), PolyMatrix(omega, q)) == PolyMatrix(omega, PolyTimes(SquaredNorm(omega), p, q))
  {
    var m, n, r := PolyMatrix(omega, p), PolyMatrix(omega, q), PolyTimes(SquaredNorm(omega), p, q);
    forall v
      ensures Apply(Mul(m, n), v) == Apply(PolyMatrix(omega, r), v)
    {
      ApplyMul(m, n, v);
      ApplyPoly(omega, q, v);
      ApplyPoly(omega, p, PolyAct(omega, q, v));
      PolyActTimes(omega, p, q, v);
      ApplyPoly(omega, r, v);
      hide *;
    }
    Extensional(Mul(m, n), PolyMatrix(omega, r));
  }

  lemma PolyMatrixOne(omega: Vec3)
    ensures PolyMatrix(omega, ONE) == IDENTITY
  {
    hide *;
    forall v
      ensures Apply(PolyMatrix(omega, ONE), v) == Apply(IDENTITY, v)
    {
      ApplyPoly(omega, ONE, v);
      ApplyIdentity(v);
      PolyActOne(omega, v);
    }
    Extensional(PolyMatrix(omega, ONE), IDENTITY);
  }

  lemma PolyActOne(omega: Vec3, v: Vec3)
    ensures PolyAct(omega, ONE, v) == v
  {}

  /** The matrix I + a W + b W^2, in the order the Jacobians add it up. */
  lemma SumIsPoly(omega: Vec3, a: real, b: real)
    ensures MatAdd(MatAdd(IDENTITY, MatScale(a, Hat(omega))), MatScale(b, Mul(Hat(omega), Hat(omega))))
         == PolyMatrix(omega, Poly(1.0, a, b))
  {
    ScaleIdentity();
    hide Prod, Hat, Mul, MatScale;
  }

  lemma ScaleIdentity()
    ensures MatScale(1.0, IDENTITY) == IDENTITY
  {}

  lemma DifferenceIsPoly(omega: Vec3, a: real, b: real)
    ensures MatAdd(MatSub(IDENTITY, MatScale(a, Hat(omega))), MatScale(b, Mul(Hat(omega), Hat(omega))))
         == PolyMatrix(omega, Poly(1.0, -a, b))
  {
    SumIsPoly(omega, -a, b);
    ScaleNegated(a, Hat(omega));
    hide Prod, Hat, Mul, MatScale, PolyMatrix;
  }

  lemma ScaleNegated(a: real, m: Mat3)
    ensures MatSub(IDENTITY, MatScale(a, m)) == MatAdd(IDENTITY, MatScale(-a, m))
  {}

  /** Scaling the axis scales the powers of its hat matrix. */
  lemma PolyActScaled(f: real, omega: Vec3, p: Poly, v: Vec3)
    ensures PolyAct(Scale(f, omega), p, v) == PolyAct(omega, Poly(p.c, Prod(p.a, f), Prod(p.b, Prod(f, f))), v)
  {
    var v1 := Cross(omega, v);
    var v2 := Cross(omega, v1);
    CrossScale(v, f, omega);
    CrossScale(Scale(f, v1), f, omega);
    CrossScale(omega, f, v1);
    PAssoc(p.a, f, v1.x);
    PAssoc(p.a, f, v1.y);
    PAssoc(p.a, f, v1.z);
    PNested2(p.b, f, v2.x);
    PNested2(p.b, f, v2.y);
    PNested2(p.b, f, v2.z);
    hide Prod, Cross;
  }

  lemma PNested2(b: real, f: real, x: real)
    ensures Prod(b, Prod(f, Prod(f, x))) == Prod(Prod(b, Prod(f, f)), x)
  {}

  // ----- products of two different skew matrices -----

  /** (a x b) x c = a x (b x c) - b x (a x c). */
  lemma CrossJacobi(a: Vec3, b: Vec3, c: Vec3)
    ensures Cross(Cross(a, b), c) == Sub(Cross(a, Cross(b, c)), Cross(b, Cross(a, c)))
  {
    CrossAntisymmetric(Cross(a, b), c);
    BacCab(c, a, b);
    BacCab(a, b, c);
    BacCab(b, a, c);
    DotSym(a, c);
    DotSym(b, c);
    DotSym(a, b);
    hide Prod, Cross, Dot;
  }

  /** W U W = -(w.u) W. */
  lemma SandwichRule(omega: Vec3, upsilon: Vec3, v: Vec3)
    ensures Cross(omega, Cross(upsilon, Cross(omega, v))) == Scale(-Dot(omega, upsilon), Cross(omega, v))
  {
    var u := Cross(omega, v);
    BacCab(omega, upsilon, u);
    TripleProduct(omega, omega, v);
    SelfCross(omega);
    ZeroDot(v);
    PNegated(Dot(omega, upsilon), u.x);
    PNegated(Dot(omega, upsilon), u.y);
    PNegated(Dot(omega, upsilon), u.z);
    PNegated(0.0, upsilon.x);
    PNegated(0.0, upsilon.y);
    PNegated(0.0, upsilon.z);
    hide Prod, Cross, Dot;
  }

  lemma SquareRule(o: Vec3, u: Vec3, p: Vec3)
    ensures Add(Cross(o, Cross(o, Cross(u, p))), Cross(u, Cross(o, Cross(o, p))))
         == Comb2(-SquaredNorm(o), Cross(u, p), -Dot(o, u), Cross(o, p))
  {
    var n := SquaredNorm(o);
    BacCab(o, u, p);
    CrossSub(o, Scale(Dot(o, p), u), Scale(Dot(o, u), p));
    CrossScale(o, Dot(o, p), u);
    CrossScale(o, Dot(o, u), p);
    BacCab(o, o, p);
    CrossSub(u, Scale(Dot(o, p), o), Scale(n, p));
    CrossScale(u, Dot(o, p), o);
    CrossScale(u, n, p);
    CrossAntisymmetric(u, o);
    hide Prod, Cross, Dot;
    ScaleOpposite(Dot(o, p), Cross(o, u));
    ScaleOpposite(n, Cross(u, p));
    ScaleOpposite(Dot(o, u), Cross(o, p));
  }

  lemma ScaleOpposite(s: real, v: Vec3)
    ensures Scale(-s, v) == Neg(Scale(s, v)) == Scale(s, Neg(v))
  {}

  lemma CrossSub(v: Vec3, a: Vec3, b: Vec3)
    ensures Cross(v, Sub(a, b)) == Sub(Cross(v, a), Cross(v, b))
  {
    hide Prod;
    PCrossSub(v.y, v.z, a.y, a.z, b.y, b.z);
    PCrossSub(v.z, v.x, a.z, a.x, b.z, b.x);
    PCrossSub(v.x, v.y, a.x, a.y, b.x, b.y);
  }

  lemma PCrossSub(vy: real, vz: real, ay: real, az: real, b1: real, bz: real)
    ensures Prod(vy, az - bz) - Prod(vz, ay - b1) == Prod(vy, az) - Prod(vz, ay) - (Prod(vy, bz) - Prod(vz, b1))
  {}

  lemma CrossPerpendicular(a: Vec3, b: Vec3)
    ensures Dot(Cross(a, b), a) == 0.0 && Dot(Cross(a, b), b) == 0.0
  {
    TripleProduct(a, a, b);
    SelfCross(a);
    ZeroDot(b);
    DotSym(a, Cross(a, b));
    TripleProduct(a, b, b);
    SelfCross(b);
    ZeroDot(a);
    DotSym(a, ZERO);
    hide Prod, Dot, Cross;
  }

  // ----- only ONE is the identity -----

  /** A vector that is not parallel to a nonzero axis. */
  lemma Perpendicular(omega: Vec3) returns (u: Vec3)
    requires omega != ZERO
    ensures Cross(omega, u) != ZERO
  {
    if omega.x != 0.0 || omega.y != 0.0 {
      u := E2;
    } else {
      u := E0;
    }
  }

  /** Around a nonzero axis I, W and W^2 are independent. */
  lemma PolyMatrixOnly(omega: Vec3, p: Poly)
    requires omega != ZERO && PolyMatrix(omega, p) == IDENTITY
    ensures p == ONE
  {
    hide Prod, Dot, Cross, SquaredNorm, Scale, PolyMatrix;
    var n := SquaredNorm(omega);
    var u := Perpendicular(omega);
    var x := Cross(omega, u);
    var y := Cross(omega, x);
    NormDefinite(omega);
    NormDefinite(x);
    AxisComponent(omega, p);
    PlaneComponents(omega, u, p);
    PCancel(SquaredNorm(omega), p.c, 1.0);
    NormDefinite(y);
    Lagrange(omega, x);
    CrossPerpendicular(omega, u);
    DotSym(omega, x);
    POnes(0.0);
    NonzeroProd(n, SquaredNorm(x));
    POnes(SquaredNorm(y));
    PCancel(SquaredNorm(y), p.a, 0.0);
    POnes(SquaredNorm(x));
    PCancel(SquaredNorm(x), p.c - Prod(n, p.b), 1.0);
    POnes(n);
    PCancel(n, p.b, 0.0);
  }

  lemma AxisComponent(omega: Vec3, p: Poly)
    requires PolyMatrix(omega, p) == IDENTITY
    ensures Prod(SquaredNorm(omega), p.c) == Prod(SquaredNorm(omega), 1.0)
  {
    ApplyPoly(omega, p, omega);
    ApplyIdentity(omega);
    SelfCross(omega);
    CrossZero(omega);
    DotOfSum(omega, p, omega, ZERO, ZERO);
    ZeroDot(omega);
    DotSym(omega, ZERO);
    PSym(p.c, SquaredNorm(omega));
    POnes(p.a);
    POnes(p.b);
    POnes(SquaredNorm(omega));
    hide Prod, Dot, Cross, PolyMatrix, Apply;
  }

  lemma CrossZero(v: Vec3)
    ensures Cross(v, ZERO) == ZERO
  {}

  lemma DotOfSum(u: Vec3, p: Poly, v: Vec3, v1: Vec3, v2: Vec3)
    ensures Dot(u, Comb3(p.c, v, p.a, v1, p.b, v2)) == Prod(p.c, Dot(u, v)) + Prod(p.a, Dot(u, v1)) + Prod(p.b, Dot(u, v2))
  {
    DotSub(u, Scale(p.c, v), Scale(p.a, v1));
    DotSub(u, Comb2(p.c, v, p.a, v1), Scale(p.b, v2));
    DotScaledRight(p.c, u, v);
    DotScaledRight(p.a, u, v1);
    DotScaledRight(p.b, u, v2);
    hide Prod, Dot, Scale;
  }

  /** The image of x = w x u, along x and along w x x. */
  lemma PlaneComponents(omega: Vec3, u: Vec3, p: Poly)
    requires PolyMatrix(omega, p) == IDENTITY
    ensures var x := Cross(omega, u);
            var y := Cross(omega, x);
            && Prod(SquaredNorm(x), p.c - Prod(SquaredNorm(omega), p.b)) == Prod(SquaredNorm(x), 1.0)
            && Prod(SquaredNorm(y), p.a) == Prod(SquaredNorm(y), 0.0)
  {
    var n, x := SquaredNorm(omega), Cross(omega, u);
    var y := Cross(omega, x);
    ApplyPoly(omega, p, x);
    ApplyIdentity(x);
    CubeRule(omega, u);
    CrossPerpendicular(omega, x);
    DotSym(x, y);
    DotScaledRight(-n, x, x);
    DotScaledRight(-n, y, x);
    DotOfSum(x, p, x, y, Scale(-n, x));
    DotOfSum(y, p, x, y, Scale(-n, x));
    PComponents(p.a, p.b, p.c, n, SquaredNorm(x), SquaredNorm(y));
    hide Prod, Dot, Cross, Scale, PolyMatrix, Apply;
  }

  lemma PComponents(a: real, b: real, c: real, n: real, xx: real, yy: real)
    ensures Prod(xx, c - Prod(n, b)) == Prod(c, xx) + Prod(b, Prod(-n, xx)) && Prod(xx, 1.0) == xx
    ensures Prod(yy, a) == Prod(a, yy) && Prod(yy, 0.0) == 0.0
    ensures Prod(-n, 0.0) == 0.0 == Prod(b, 0.0) == Prod(a, 0.0) == Prod(c, 0.0)
  {}
}
