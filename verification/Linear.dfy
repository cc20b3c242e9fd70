/** Three-dimensional vectors and matrices over exact reals. */
module Linear {
  import opened Constants

  datatype Vec3 = Vec3(x: real, y: real, z: real)

  /** A 3x3 matrix, given by its rows. */
  datatype Mat3 = Mat3(r0: Vec3, r1: Vec3, r2: Vec3)

  const ZERO := Vec3(0.0, 0.0, 0.0)
  const E0 := Vec3(1.0, 0.0, 0.0)
  const E1 := Vec3(0.0, 1.0, 0.0)
  const E2 := Vec3(0.0, 0.0, 1.0)
  const IDENTITY := Mat3(E0, E1, E2)
  const ZERO_MATRIX := Mat3(ZERO, ZERO, ZERO)

  /** The product of two scalars. It has a name so that a proof can hide it
      and treat products as atoms of linear arithmetic. */
  function Prod(x: real, y: real): real {
    x * y
  }

  /** A named quotient, for the same reason. */
  function Quotient(x: real, y: real): (q: real)
    requires y != 0.0
    ensures Prod(q, y) == x
  {
    x / y
  }

  function Add(a: Vec3, b: Vec3): Vec3 {
    Vec3(a.x + b.x, a.y + b.y, a.z + b.z)
  }

  function Sub(a: Vec3, b: Vec3): Vec3 {
    Vec3(a.x - b.x, a.y - b.y, a.z - b.z)
  }

  function Neg(a: Vec3): Vec3 {
    Vec3(-a.x, -a.y, -a.z)
  }

  function Scale(s: real, a: Vec3): Vec3 {
    Vec3(Prod(s, a.x), Prod(s, a.y), Prod(s, a.z))
  }

  function Dot(a: Vec3, b: Vec3): real {
    Prod(a.x, b.x) + Prod(a.y, b.y) + Prod(a.z, b.z)
  }

  function SquaredNorm(a: Vec3): real {
    Dot(a, a)
  }

  function Cross(a: Vec3, b: Vec3): Vec3 {
    Vec3(Prod(a.y, b.z) - Prod(a.z, b.y),
         Prod(a.z, b.x) - Prod(a.x, b.z),
         Prod(a.x, b.y) - Prod(a.y, b.x))
  }

  /** Linear combinations of two and of three vectors. */
  function Comb2(r: real, a: Vec3, s: real, b: Vec3): Vec3 {
    Add(Scale(r, a), Scale(s, b))
  }

  function Comb3(r: real, a: Vec3, s: real, b: Vec3, t: real, c: Vec3): Vec3 {
    Add(Comb2(r, a, s, b), Scale(t, c))
  }

  function Col0(m: Mat3): Vec3 {
    Vec3(m.r0.x, m.r1.x, m.r2.x)
  }

  function Col1(m: Mat3): Vec3 {
    Vec3(m.r0.y, m.r1.y, m.r2.y)
  }

  function Col2(m: Mat3): Vec3 {
    Vec3(m.r0.z, m.r1.z, m.r2.z)
  }

  function Transpose(m: Mat3): Mat3 {
    Mat3(Col0(m), Col1(m), Col2(m))
  }

  function MatAdd(m: Mat3, n: Mat3): Mat3 {
    Mat3(Add(m.r0, n.r0), Add(m.r1, n.r1), Add(m.r2, n.r2))
  }

  function MatSub(m: Mat3, n: Mat3): Mat3 {
    Mat3(Sub(m.r0, n.r0), Sub(m.r1, n.r1), Sub(m.r2, n.r2))
  }

  function MatScale(s: real, m: Mat3): Mat3 {
    Mat3(Scale(s, m.r0), Scale(s, m.r1), Scale(s, m.r2))
  }

  function Apply(m: Mat3, v: Vec3): Vec3 {
    Vec3(Dot(m.r0, v), Dot(m.r1, v), Dot(m.r2, v))
  }

  function RowMul(v: Vec3, m: Mat3): Vec3 {
    Vec3(Dot(v, Col0(m)), Dot(v, Col1(m)), Dot(v, Col2(m)))
  }

  function Mul(m: Mat3, n: Mat3): Mat3 {
    Mat3(RowMul(m.r0, n), RowMul(m.r1, n), RowMul(m.r2, n))
  }

  function Det(m: Mat3): real {
    Dot(Cross(Col0(m), Col1(m)), Col2(m))
  }

  // ----- scalar identities; `P` marks the ones stated on named products -----

  lemma PSym(x: real, y: real)
    ensures Prod(x, y) == Prod(y, x)
  {}

  lemma ProdIs(x: real, y: real)
    ensures Prod(x, y) == x * y
  {}

  lemma POnes(x: real)
    ensures Prod(1.0, x) == x == Prod(x, 1.0)
    ensures Prod(0.0, x) == 0.0 == Prod(x, 0.0)
  {}

  lemma SameRoot(a: real, b: real)
    requires a >= 0.0 && b >= 0.0 && Prod(a, a) == Prod(b, b)
    ensures a == b
  {
    if a > b {
      PositiveProduct(a - b, a + b, Prod(a, a) - Prod(b, b));
    } else if b > a {
      PositiveProduct(b - a, b + a, Prod(b, b) - Prod(a, a));
    }
  }

  lemma ProductSign(x: real, y: real)
    ensures x >= 0.0 && y >= 0.0 ==> Prod(x, y) >= 0.0
    ensures x > 0.0 && y > 0.0 ==> Prod(x, y) > 0.0
  {
    if x > 0.0 && y > 0.0 {
      PositiveProduct(x, y, Prod(x, y));
    }
  }

  lemma PAssoc(x: real, y: real, z: real)
    ensures Prod(x, Prod(y, z)) == Prod(Prod(x, y), z) == Prod(y, Prod(x, z))
  {}

  lemma PNegated(x: real, y: real)
    ensures Prod(-x, y) == -Prod(x, y) == Prod(x, -y)
    ensures Prod(0.0, y) == 0.0
  {}

  lemma PSquareProduct(x: real, y: real)
    ensures Prod(Prod(x, x), Prod(y, y)) == Prod(Prod(x, y), Prod(x, y))
  {}

  lemma NonzeroProd(x: real, y: real)
    requires x != 0.0 && y != 0.0
    ensures Prod(x, y) != 0.0
  {}

  lemma PCancel(k: real, x: real, y: real)
    requires k != 0.0 && Prod(k, x) == Prod(k, y)
    ensures x == y
  {}

  lemma UnitRoot(length: real)
    requires length >= 0.0
    ensures Prod(length, length) == 1.0 ==> length == 1.0 && Quotient(1.0, length) == 1.0
  {
    if length > 1.0 {
      PositiveProduct(length - 1.0, length + 1.0, Prod(length, length) - 1.0);
    } else if length < 1.0 {
      PositiveProduct(1.0 - length, 1.0 + length, 1.0 - Prod(length, length));
    }
  }

  lemma PDot3(v0: real, v1: real, v2: real, m00: real, m01: real, m02: real,
              m10: real, m11: real, m12: real, m20: real, m21: real, m22: real,
              u0: real, u1: real, u2: real)
    ensures Prod(Prod(v0, m00) + Prod(v1, m10) + Prod(v2, m20), u0)
         +  Prod(Prod(v0, m01) + Prod(v1, m11) + Prod(v2, m21), u1)
         +  Prod(Prod(v0, m02) + Prod(v1, m12) + Prod(v2, m22), u2)
         == Prod(v0, Prod(m00, u0) + Prod(m01, u1) + Prod(m02, u2))
         +  Prod(v1, Prod(m10, u0) + Prod(m11, u1) + Prod(m12, u2))
         +  Prod(v2, Prod(m20, u0) + Prod(m21, u1) + Prod(m22, u2))
  {}

  lemma PBacCab(ax: real, ay: real, az: real, bx: real, b1: real, bz: real, cx: real, cy: real, cz: real)
    ensures Prod(ay, Prod(bx, cy) - Prod(b1, cx)) - Prod(az, Prod(bz, cx) - Prod(bx, cz))
         == Prod(Prod(ax, cx) + Prod(ay, cy) + Prod(az, cz), bx)
         -  Prod(Prod(ax, bx) + Prod(ay, b1) + Prod(az, bz), cx)
  {}

  // ----- vectors -----

  lemma DotSym(a: Vec3, b: Vec3)
    ensures Dot(a, b) == Dot(b, a)
  {}

  lemma CrossComb3(v: Vec3, r: real, a: Vec3, s: real, b: Vec3, t: real, c: Vec3)
    ensures Cross(v, Comb3(r, a, s, b, t, c)) == Comb3(r, Cross(v, a), s, Cross(v, b), t, Cross(v, c))
  {
    hide Prod;
    PCrossComb(v.y, v.z, r, a.y, a.z, s, b.y, b.z, t, c.y, c.z);
    PCrossComb(v.z, v.x, r, a.z, a.x, s, b.z, b.x, t, c.z, c.x);
    PCrossComb(v.x, v.y, r, a.x, a.y, s, b.x, b.y, t, c.x, c.y);
  }

  lemma CrossComb3Left(r: real, a: Vec3, s: real, b: Vec3, t: real, c: Vec3, v: Vec3)
    ensures Cross(Comb3(r, a, s, b, t, c), v) == Comb3(r, Cross(a, v), s, Cross(b, v), t, Cross(c, v))
  {
    hide Prod;
    PCrossCombLeft(v.y, v.z, r, a.y, a.z, s, b.y, b.z, t, c.y, c.z);
    PCrossCombLeft(v.z, v.x, r, a.z, a.x, s, b.z, b.x, t, c.z, c.x);
    PCrossCombLeft(v.x, v.y, r, a.x, a.y, s, b.x, b.y, t, c.x, c.y);
  }

  lemma PCrossCombLeft(vy: real, vz: real, r: real, ay: real, az: real, s: real, b1: real, bz: real, t: real, cy: real, cz: real)
    ensures Prod(Prod(r, ay) + Prod(s, b1) + Prod(t, cy), vz) - Prod(Prod(r, az) + Prod(s, bz) + Prod(t, cz), vy)
         == Prod(r, Prod(ay, vz) - Prod(az, vy)) + Prod(s, Prod(b1, vz) - Prod(bz, vy)) + Prod(t, Prod(cy, vz) - Prod(cz, vy))
  {}

  lemma CrossAdd(v: Vec3, a: Vec3, b: Vec3)
    ensures Cross(v, Add(a, b)) == Add(Cross(v, a), Cross(v, b))
  {
    hide Prod;
    PCrossAdd(v.y, v.z, a.y, a.z, b.y, b.z);
    PCrossAdd(v.z, v.x, a.z, a.x, b.z, b.x);
    PCrossAdd(v.x, v.y, a.x, a.y, b.x, b.y);
  }

  lemma PCrossAdd(vy: real, vz: real, ay: real, az: real, b1: real, bz: real)
    ensures Prod(vy, az + bz) - Prod(vz, ay + b1) == Prod(vy, az) - Prod(vz, ay) + (Prod(vy, bz) - Prod(vz, b1))
  {}

  lemma CrossScale(v: Vec3, s: real, a: Vec3)
    ensures Cross(v, Scale(s, a)) == Scale(s, Cross(v, a))
    ensures Cross(Scale(s, a), v) == Scale(s, Cross(a, v))
  {
    hide Prod;
    PCrossScale(v.y, v.z, s, a.y, a.z);
    PCrossScale(v.z, v.x, s, a.z, a.x);
    PCrossScale(v.x, v.y, s, a.x, a.y);
  }

  lemma PCrossScale(vy: real, vz: real, s: real, ay: real, az: real)
    ensures Prod(vy, Prod(s, az)) - Prod(vz, Prod(s, ay)) == Prod(s, Prod(vy, az) - Prod(vz, ay))
    ensures Prod(Prod(s, ay), vz) - Prod(Prod(s, az), vy) == Prod(s, Prod(ay, vz) - Prod(az, vy))
  {}

  lemma CrossAntisymmetric(a: Vec3, b: Vec3)
    ensures Cross(a, b) == Neg(Cross(b, a))
  {}

  /** The double cross product: a x (b x c) = (a.c) b - (a.b) c. */
  lemma BacCab(a: Vec3, b: Vec3, c: Vec3)
    ensures Cross(a, Cross(b, c)) == Sub(Scale(Dot(a, c), b), Scale(Dot(a, b), c))
  {
    hide Prod;
    PBacCab(a.x, a.y, a.z, b.x, b.y, b.z, c.x, c.y, c.z);
    PBacCab(a.y, a.z, a.x, b.y, b.z, b.x, c.y, c.z, c.x);
    PBacCab(a.z, a.x, a.y, b.z, b.x, b.y, c.z, c.x, c.y);
  }

  /** The triple product is invariant under rotating its factors. */
  lemma TripleProduct(a: Vec3, b: Vec3, c: Vec3)
    ensures Dot(a, Cross(b, c)) == Dot(Cross(a, b), c)
  {}

  // ----- matrices -----

  lemma DotRowMul(v: Vec3, m: Mat3, u: Vec3)
    ensures Dot(RowMul(v, m), u) == Dot(v, Apply(m, u))
  {
    hide Prod;
    PDot3(v.x, v.y, v.z, m.r0.x, m.r0.y, m.r0.z, m.r1.x, m.r1.y, m.r1.z, m.r2.x, m.r2.y, m.r2.z, u.x, u.y, u.z);
  }

  lemma ApplyMul(m: Mat3, n: Mat3, v: Vec3)
    ensures Apply(Mul(m, n), v) == Apply(m, Apply(n, v))
  {
    hide Prod;
    DotRowMul(m.r0, n, v);
    DotRowMul(m.r1, n, v);
    DotRowMul(m.r2, n, v);
  }

  /** A matrix is determined by its action. */
  lemma Extensional(m: Mat3, n: Mat3)
    requires forall v :: Apply(m, v) == Apply(n, v)
    ensures m == n
  {
    assert Apply(m, E0) == Apply(n, E0);
    assert Apply(m, E1) == Apply(n, E1);
    assert Apply(m, E2) == Apply(n, E2);
    Columns(m);
    Columns(n);
    hide Apply;
  }

  lemma Columns(m: Mat3)
    ensures Apply(m, E0) == Col0(m) && Apply(m, E1) == Col1(m) && Apply(m, E2) == Col2(m)
  {}

  lemma MulAssoc(l: Mat3, m: Mat3, n: Mat3)
    ensures Mul(Mul(l, m), n) == Mul(l, Mul(m, n))
  {
    forall v
      ensures Apply(Mul(Mul(l, m), n), v) == Apply(Mul(l, Mul(m, n)), v)
    {
      hide *;
      ApplyMul(Mul(l, m), n, v);
      ApplyMul(l, m, Apply(n, v));
      ApplyMul(l, Mul(m, n), v);
      ApplyMul(m, n, v);
    }
    Extensional(Mul(Mul(l, m), n), Mul(l, Mul(m, n)));
  }

  lemma ApplyIdentity(v: Vec3)
    ensures Apply(IDENTITY, v) == v
  {}

  lemma ApplyScaled(m: Mat3, s: real, v: Vec3)
    ensures Apply(m, Scale(s, v)) == Scale(s, Apply(m, v))
  {
    hide Prod;
    PDotScaled(s, m.r0.x, m.r0.y, m.r0.z, v.x, v.y, v.z);
    PDotScaled(s, m.r1.x, m.r1.y, m.r1.z, v.x, v.y, v.z);
    PDotScaled(s, m.r2.x, m.r2.y, m.r2.z, v.x, v.y, v.z);
  }

  lemma PDotScaled(s: real, mx: real, my: real, mz: real, vx: real, vy: real, vz: real)
    ensures Prod(mx, Prod(s, vx)) + Prod(my, Prod(s, vy)) + Prod(mz, Prod(s, vz))
         == Prod(s, Prod(mx, vx) + Prod(my, vy) + Prod(mz, vz))
  {}

  lemma ApplyAdd(m: Mat3, u: Vec3, v: Vec3)
    ensures Apply(m, Add(u, v)) == Add(Apply(m, u), Apply(m, v))
  {}

  lemma ApplySub(m: Mat3, u: Vec3, v: Vec3)
    ensures Apply(m, Sub(u, v)) == Sub(Apply(m, u), Apply(m, v))
  {}

  lemma MulIdentity(m: Mat3)
    ensures Mul(m, IDENTITY) == m == Mul(IDENTITY, m)
  {}

  lemma ApplyZeroVector(m: Mat3)
    ensures Apply(m, ZERO) == ZERO
  {}

  lemma ApplyZero(v: Vec3)
    ensures Apply(ZERO_MATRIX, v) == ZERO
  {}

  lemma ZeroProducts(m: Mat3)
    ensures Mul(m, ZERO_MATRIX) == ZERO_MATRIX == Mul(ZERO_MATRIX, m)
    ensures MatAdd(m, ZERO_MATRIX) == m == MatAdd(ZERO_MATRIX, m)
  {}

  lemma ApplyMatAdd(m: Mat3, n: Mat3, v: Vec3)
    ensures Apply(MatAdd(m, n), v) == Add(Apply(m, v), Apply(n, v))
  {
    hide Prod;
    PDotAdd(m.r0.x, m.r0.y, m.r0.z, n.r0.x, n.r0.y, n.r0.z, v.x, v.y, v.z);
    PDotAdd(m.r1.x, m.r1.y, m.r1.z, n.r1.x, n.r1.y, n.r1.z, v.x, v.y, v.z);
    PDotAdd(m.r2.x, m.r2.y, m.r2.z, n.r2.x, n.r2.y, n.r2.z, v.x, v.y, v.z);
  }

  lemma ApplyMatSub(m: Mat3, n: Mat3, v: Vec3)
    ensures Apply(MatSub(m, n), v) == Sub(Apply(m, v), Apply(n, v))
  {}

  lemma ApplyMatScale(s: real, m: Mat3, v: Vec3)
    ensures Apply(MatScale(s, m), v) == Scale(s, Apply(m, v))
  {
    hide Prod;
    PDotScale(s, m.r0.x, m.r0.y, m.r0.z, v.x, v.y, v.z);
    PDotScale(s, m.r1.x, m.r1.y, m.r1.z, v.x, v.y, v.z);
    PDotScale(s, m.r2.x, m.r2.y, m.r2.z, v.x, v.y, v.z);
  }

  lemma PCrossComb(vy: real, vz: real, r: real, ay: real, az: real, s: real, b1: real, bz: real, t: real, cy: real, cz: real)
    ensures Prod(vy, Prod(r, az) + Prod(s, bz) + Prod(t, cz)) - Prod(vz, Prod(r, ay) + Prod(s, b1) + Prod(t, cy))
         == Prod(r, Prod(vy, az) - Prod(vz, ay)) + Prod(s, Prod(vy, bz) - Prod(vz, b1)) + Prod(t, Prod(vy, cz) - Prod(vz, cy))
  {}

  lemma PDotAdd(mx: real, my: real, mz: real, nx: real, ny: real, nz: real, vx: real, vy: real, vz: real)
    ensures Prod(mx + nx, vx) + Prod(my + ny, vy) + Prod(mz + nz, vz)
         == Prod(mx, vx) + Prod(my, vy) + Prod(mz, vz) + (Prod(nx, vx) + Prod(ny, vy) + Prod(nz, vz))
  {}

  lemma PDotScale(s: real, mx: real, my: real, mz: real, vx: real, vy: real, vz: real)
    ensures Prod(Prod(s, mx), vx) + Prod(Prod(s, my), vy) + Prod(Prod(s, mz), vz)
         == Prod(s, Prod(mx, vx) + Prod(my, vy) + Prod(mz, vz))
  {}

  // ----- norms -----

  lemma DotSub(v: Vec3, a: Vec3, b: Vec3)
    ensures Dot(v, Sub(a, b)) == Dot(v, a) - Dot(v, b) && Dot(v, Add(a, b)) == Dot(v, a) + Dot(v, b)
  {}

  lemma NormDefinite(v: Vec3)
    ensures SquaredNorm(v) >= 0.0 && (SquaredNorm(v) == 0.0 <==> v == ZERO)
  {
    SquareSign(v.x, Prod(v.x, v.x));
    SquareSign(v.y, Prod(v.y, v.y));
    SquareSign(v.z, Prod(v.z, v.z));
  }

  lemma NormOfSum(a: Vec3, b: Vec3)
    ensures SquaredNorm(Add(a, b)) == SquaredNorm(a) + 2.0 * Dot(a, b) + SquaredNorm(b)
    ensures SquaredNorm(Sub(a, b)) == SquaredNorm(a) - 2.0 * Dot(a, b) + SquaredNorm(b)
  {
    PNormOfSum(a.x, b.x);
    PNormOfSum(a.y, b.y);
    PNormOfSum(a.z, b.z);
    hide Prod;
  }

  lemma PNormOfSum(a: real, b: real)
    ensures Prod(a + b, a + b) == Prod(a, a) + 2.0 * Prod(a, b) + Prod(b, b)
    ensures Prod(a - b, a - b) == Prod(a, a) - 2.0 * Prod(a, b) + Prod(b, b)
  {}

  // ----- scaling -----

  lemma DotScaled(i: real, u: Vec3, v: Vec3)
    ensures Dot(Scale(i, u), v) == Prod(i, Dot(u, v))
  {}

  lemma DotScaledRight(i: real, u: Vec3, v: Vec3)
    ensures Dot(u, Scale(i, v)) == Prod(i, Dot(u, v))
  {}

  lemma ScaleTwice(i: real, k: real, v: Vec3)
    ensures Scale(i, Scale(k, v)) == Scale(Prod(i, k), v)
  {}

  lemma MatScaleTwice(i: real, k: real, m: Mat3)
    ensures MatScale(i, MatScale(k, m)) == MatScale(Prod(i, k), m)
  {
    ScaleTwice(i, k, m.r0);
    ScaleTwice(i, k, m.r1);
    ScaleTwice(i, k, m.r2);
    hide Scale;
  }

  lemma MulScaled(i: real, m: Mat3, j: real, n: Mat3)
    ensures Mul(MatScale(i, m), MatScale(j, n)) == MatScale(Prod(i, j), Mul(m, n))
  {
    forall v
      ensures Apply(Mul(MatScale(i, m), MatScale(j, n)), v) == Apply(MatScale(Prod(i, j), Mul(m, n)), v)
    {
      hide *;
      ApplyMul(MatScale(i, m), MatScale(j, n), v);
      ApplyMatScale(j, n, v);
      ApplyMatScale(i, m, Scale(j, Apply(n, v)));
      ApplyScaled(m, j, Apply(n, v));
      ScaleTwice(i, j, Apply(m, Apply(n, v)));
      ApplyMatScale(Prod(i, j), Mul(m, n), v);
      ApplyMul(m, n, v);
    }
    Extensional(Mul(MatScale(i, m), MatScale(j, n)), MatScale(Prod(i, j), Mul(m, n)));
  }

  lemma UnitScale(m: Mat3)
    ensures MatScale(1.0, m) == m
  {}

  lemma ScaleAdd(s: real, u: Vec3, v: Vec3)
    ensures Scale(s, Add(u, v)) == Add(Scale(s, u), Scale(s, v))
    ensures Scale(s, Sub(u, v)) == Sub(Scale(s, u), Scale(s, v))
  {}

  lemma AddScale(s: real, t: real, v: Vec3)
    ensures Scale(s + t, v) == Add(Scale(s, v), Scale(t, v))
    ensures Scale(s - t, v) == Sub(Scale(s, v), Scale(t, v))
  {}

  lemma AddAssoc(a: Vec3, b: Vec3, c: Vec3)
    ensures Add(Add(a, b), c) == Add(a, Add(b, c))
  {}

  lemma ScaleUnit(v: Vec3)
    ensures Scale(1.0, v) == v && Scale(0.0, v) == ZERO
  {}

  lemma ScaleZeroVector(s: real)
    ensures Scale(s, ZERO) == ZERO
  {}

  lemma MulSub(l: Mat3, m: Mat3, n: Mat3)
    ensures Mul(l, MatSub(m, n)) == MatSub(Mul(l, m), Mul(l, n))
    ensures Mul(MatSub(m, n), l) == MatSub(Mul(m, l), Mul(n, l))
  {
    forall v
      ensures Apply(Mul(l, MatSub(m, n)), v) == Apply(MatSub(Mul(l, m), Mul(l, n)), v)
      ensures Apply(Mul(MatSub(m, n), l), v) == Apply(MatSub(Mul(m, l), Mul(n, l)), v)
    {
      hide *;
      ApplyMul(l, MatSub(m, n), v);
      ApplyMatSub(m, n, v);
      ApplySub(l, Apply(m, v), Apply(n, v));
      ApplyMatSub(Mul(l, m), Mul(l, n), v);
      ApplyMul(l, m, v);
      ApplyMul(l, n, v);
      ApplyMul(MatSub(m, n), l, v);
      ApplyMatSub(m, n, Apply(l, v));
      ApplyMatSub(Mul(m, l), Mul(n, l), v);
      ApplyMul(m, l, v);
      ApplyMul(n, l, v);
    }
    Extensional(Mul(l, MatSub(m, n)), MatSub(Mul(l, m), Mul(l, n)));
    Extensional(Mul(MatSub(m, n), l), MatSub(Mul(m, l), Mul(n, l)));
  }

  lemma PSpread(s: real, u: real, v: real)
    ensures Prod(s, u + v) == Prod(s, u) + Prod(s, v)
    ensures Prod(s, u - v) == Prod(s, u) - Prod(s, v)
    ensures Prod(s + u, v) == Prod(s, v) + Prod(u, v)
    ensures Prod(s - u, v) == Prod(s, v) - Prod(u, v)
  {}

  lemma MulAdd(l: Mat3, m: Mat3, n: Mat3)
    ensures Mul(l, MatAdd(m, n)) == MatAdd(Mul(l, m), Mul(l, n))
    ensures Mul(MatAdd(m, n), l) == MatAdd(Mul(m, l), Mul(n, l))
  {
    forall v
      ensures Apply(Mul(l, MatAdd(m, n)), v) == Apply(MatAdd(Mul(l, m), Mul(l, n)), v)
      ensures Apply(Mul(MatAdd(m, n), l), v) == Apply(MatAdd(Mul(m, l), Mul(n, l)), v)
    {
      hide *;
      ApplyMul(l, MatAdd(m, n), v);
      ApplyMatAdd(m, n, v);
      ApplyAdd(l, Apply(m, v), Apply(n, v));
      ApplyMatAdd(Mul(l, m), Mul(l, n), v);
      ApplyMul(l, m, v);
      ApplyMul(l, n, v);
      ApplyMul(MatAdd(m, n), l, v);
      ApplyMatAdd(m, n, Apply(l, v));
      ApplyMatAdd(Mul(m, l), Mul(n, l), v);
      ApplyMul(m, l, v);
      ApplyMul(n, l, v);
    }
    Extensional(Mul(l, MatAdd(m, n)), MatAdd(Mul(l, m), Mul(l, n)));
    Extensional(Mul(MatAdd(m, n), l), MatAdd(Mul(m, l), Mul(n, l)));
  }

  lemma Lagrange(a: Vec3, b: Vec3)
    ensures SquaredNorm(Cross(a, b)) == Prod(SquaredNorm(a), SquaredNorm(b)) - Prod(Dot(a, b), Dot(a, b))
  {
    var c := Cross(a, b);
    TripleProduct(a, b, c);
    BacCab(b, a, b);
    DotSub(a, Scale(Dot(b, b), a), Scale(Dot(b, a), b));
    DotScaledRight(Dot(b, b), a, a);
    DotScaledRight(Dot(b, a), a, b);
    DotSym(a, b);
    PSym(SquaredNorm(a), SquaredNorm(b));
    hide Prod, Dot, Cross, Scale;
  }

  lemma Cauchy(a: Vec3, b: Vec3)
    ensures Prod(Dot(a, b), Dot(a, b)) <= Prod(SquaredNorm(a), SquaredNorm(b))
  {
    Lagrange(a, b);
    NormDefinite(Cross(a, b));
    hide Prod, Dot, Cross, SquaredNorm;
  }

  // ----- lines and planes -----

  /** A parametrised line, and the hyperplane n.x + d = 0. */
  datatype Line = Line(origin: Vec3, direction: Vec3)

  datatype Plane = Plane(normal: Vec3, offset: real)

  function PointAt(l: Line, t: real): Vec3 {
    Add(l.origin, Scale(t, l.direction))
  }

  function SignedDistance(p: Plane, x: Vec3): real {
    Dot(p.normal, x) + p.offset
  }
}
