/** Vectors of the plane, which are also complex numbers: SO2 and RxSO2 store their
    elements so, and the matrix action on a point is complex multiplication. */
module Planar {
  import opened Linear
  import opened Constants
  import opened Skew

  datatype Vec2 = Vec2(x: real, y: real)

  const ONE2 := Vec2(1.0, 0.0)
  const ZERO2 := Vec2(0.0, 0.0)

  function Add2(a: Vec2, b: Vec2): Vec2 {
    Vec2(a.x + b.x, a.y + b.y)
  }

  function Sub2(a: Vec2, b: Vec2): Vec2 {
    Vec2(a.x - b.x, a.y - b.y)
  }

  function Scale2(s: real, a: Vec2): Vec2 {
    Vec2(Prod(s, a.x), Prod(s, a.y))
  }

  /** Complex multiplication, and the action of the matrix [x -y; y x] on a point. */
  function Times(z: Vec2, p: Vec2): Vec2 {
    Vec2(Prod(z.x, p.x) - Prod(z.y, p.y), Prod(z.x, p.y) + Prod(z.y, p.x))
  }

  function Conjugate(z: Vec2): Vec2 {
    Vec2(z.x, -z.y)
  }

  function Norm2(z: Vec2): real {
    Prod(z.x, z.x) + Prod(z.y, z.y)
  }

  function Dot2(a: Vec2, b: Vec2): real {
    Prod(a.x, b.x) + Prod(a.y, b.y)
  }

  lemma TimesAssoc(a: Vec2, b: Vec2, c: Vec2)
    ensures Times(Times(a, b), c) == Times(a, Times(b, c))
  {
    PAssocComplex(a.x, a.y, b.x, b.y, c.x, c.y);
    hide Prod;
  }

  lemma PAssocComplex(a: real, b: real, c: real, d: real, e: real, f: real)
    ensures Prod(Prod(a, c) - Prod(b, d), e) - Prod(Prod(a, d) + Prod(b, c), f)
         == Prod(a, Prod(c, e) - Prod(d, f)) - Prod(b, Prod(c, f) + Prod(d, e))
    ensures Prod(Prod(a, c) - Prod(b, d), f) + Prod(Prod(a, d) + Prod(b, c), e)
         == Prod(a, Prod(c, f) + Prod(d, e)) + Prod(b, Prod(c, e) - Prod(d, f))
  {}

  lemma TimesSym(a: Vec2, b: Vec2)
    ensures Times(a, b) == Times(b, a)
  {}

  lemma TimesAdd(a: Vec2, b: Vec2, c: Vec2)
    ensures Times(a, Add2(b, c)) == Add2(Times(a, b), Times(a, c))
    ensures Times(a, Sub2(b, c)) == Sub2(Times(a, b), Times(a, c))
  {
    PSplit(a.x, b.x, c.x);
    PSplit(a.x, b.y, c.y);
    PSplit(a.y, b.x, c.x);
    PSplit(a.y, b.y, c.y);
    hide Prod;
  }

  lemma PSplit(a: real, b: real, c: real)
    ensures Prod(a, b + c) == Prod(a, b) + Prod(a, c) && Prod(a, b - c) == Prod(a, b) - Prod(a, c)
  {}

  lemma TimesScale(s: real, a: Vec2, b: Vec2)
    ensures Times(a, Scale2(s, b)) == Scale2(s, Times(a, b)) == Times(Scale2(s, a), b)
  {
    PScaleComplex(s, a.x, a.y, b.x, b.y);
    hide Prod;
  }

  lemma PScaleComplex(s: real, a: real, b: real, c: real, d: real)
    ensures Prod(a, Prod(s, c)) - Prod(b, Prod(s, d)) == Prod(s, Prod(a, c) - Prod(b, d)) == Prod(Prod(s, a), c) - Prod(Prod(s, b), d)
    ensures Prod(a, Prod(s, d)) + Prod(b, Prod(s, c)) == Prod(s, Prod(a, d) + Prod(b, c)) == Prod(Prod(s, a), d) + Prod(Prod(s, b), c)
  {}

  lemma TimesOne(z: Vec2)
    ensures Times(ONE2, z) == z == Times(z, ONE2) && Times(z, ZERO2) == ZERO2 == Times(ZERO2, z)
  {}

  lemma NormTimes(a: Vec2, b: Vec2)
    ensures Norm2(Times(a, b)) == Prod(Norm2(a), Norm2(b))
  {}

  lemma NormScale(s: real, z: Vec2)
    ensures Norm2(Scale2(s, z)) == Prod(Prod(s, s), Norm2(z))
  {}

  lemma NormSign2(z: Vec2)
    ensures Norm2(z) >= 0.0 && (Norm2(z) == 0.0 <==> z == ZERO2)
  {
    SquareSign(z.x, Prod(z.x, z.x));
    SquareSign(z.y, Prod(z.y, z.y));
  }

  lemma ConjugateTimes(z: Vec2)
    ensures Times(z, Conjugate(z)) == Vec2(Norm2(z), 0.0) && Norm2(Conjugate(z)) == Norm2(z)
  {}

  lemma ScaleScale(s: real, t: real, z: Vec2)
    ensures Scale2(s, Scale2(t, z)) == Scale2(Prod(s, t), z) && Scale2(1.0, z) == z
  {}

  /** The homogeneous matrix of z p + t, and the hat matrix of rotation, scale and translation. */
  function Homogeneous(z: Vec2, t: Vec2): Mat3 {
    Mat3(Vec3(z.x, -z.y, t.x), Vec3(z.y, z.x, t.y), E2)
  }

  function Hat3(w: Vec2, upsilon: Vec2): Mat3 {
    Mat3(Vec3(w.x, -w.y, upsilon.x), Vec3(w.y, w.x, upsilon.y), ZERO)
  }

  /** Matrix products in terms of the complex numbers. */
  lemma MatrixProducts(a: Vec2, s: Vec2, b: Vec2, t: Vec2)
    ensures Mul(Homogeneous(a, s), Homogeneous(b, t)) == Homogeneous(Times(a, b), Add2(Times(a, t), s))
    ensures Mul(Hat3(a, s), Homogeneous(b, t)) == Hat3(Times(a, b), Add2(Times(a, t), s))
    ensures Mul(Homogeneous(a, s), Hat3(b, t)) == Hat3(Times(a, b), Times(a, t))
    ensures Mul(Hat3(a, s), Hat3(b, t)) == Hat3(Times(a, b), Times(a, t))
  {
    PEntry(a.x, a.y, b.x, b.y, s.x);
    PEntry(a.x, a.y, b.x, b.y, s.y);
    PEntry(a.x, a.y, t.x, t.y, s.x);
    PEntry(a.x, a.y, t.x, t.y, s.y);
    POnes(b.x);
    POnes(b.y);
    POnes(-b.y);
    POnes(t.x);
    POnes(t.y);
    POnes(1.0);
    POnes(0.0);
    hide Prod;
  }

  lemma PEntry(a: real, b: real, c: real, d: real, s: real)
    ensures Prod(-b, d) == -Prod(b, d) && Prod(-b, c) == -Prod(b, c) && Prod(a, -d) == -Prod(a, d) && Prod(b, -d) == -Prod(b, d)
    ensures Prod(s, 0.0) == 0.0 && Prod(s, 1.0) == s && Prod(a, 0.0) == 0.0 && Prod(b, 0.0) == 0.0 && Prod(-b, 0.0) == 0.0
  {}

  // ----- polynomials in the planar hat matrix are complex numbers -----

  function ToComplex(theta: real, p: Poly): Vec2 {
    Vec2(p.c - Prod(Prod(theta, theta), p.b), Prod(theta, p.a))
  }

  lemma ToComplexTimes(theta: real, p: Poly, q: Poly)
    ensures Times(ToComplex(theta, p), ToComplex(theta, q)) == ToComplex(theta, PolyTimes(Prod(theta, theta), p, q))
  {
    hide Prod;
    PComplexReal(theta, Prod(theta, theta), p.c, p.a, p.b, q.c, q.a, q.b);
    PComplexImag(theta, Prod(theta, theta), p.c, p.a, p.b, q.c, q.a, q.b);
  }

  lemma PComplexReal(theta: real, n: real, c: real, a: real, b: real, f: real, d: real, e: real)
    requires n == Prod(theta, theta)
    ensures Prod(c - Prod(n, b), f - Prod(n, e)) - Prod(Prod(theta, a), Prod(theta, d))
         == Prod(c, f) - Prod(n, Prod(c, e) + Prod(b, f) + Prod(a, d) - Prod(n, Prod(b, e)))
  {}

  lemma PComplexImag(theta: real, n: real, c: real, a: real, b: real, f: real, d: real, e: real)
    ensures Prod(c - Prod(n, b), Prod(theta, d)) + Prod(Prod(theta, a), f - Prod(n, e))
         == Prod(theta, Prod(c, d) + Prod(a, f) - Prod(n, Prod(a, e) + Prod(b, d)))
  {}
}
