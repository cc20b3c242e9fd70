/** Quaternions as SO3 and RxSO3 use them: product, matrix and point action. */
module Quaternions {
  import opened Linear

  datatype Quaternion = Quaternion(w: real, x: real, y: real, z: real) {
    function Vec(): Vec3 {
      Vec3(x, y, z)
    }

    function SquaredNorm(): real {
      w * w + x * x + y * y + z * z
    }

    function Conjugate(): Quaternion {
      Quaternion(w, -x, -y, -z)
    }

    function Times(s: real): Quaternion {
      Quaternion(Prod(s, w), Prod(s, x), Prod(s, y), Prod(s, z))
    }
  }

  function QuaternionProduct(a: Quaternion, b: Quaternion): Quaternion {
    Quaternion(
      a.w * b.w - a.x * b.x - a.y * b.y - a.z * b.z,
      a.w * b.x + a.x * b.w + a.y * b.z - a.z * b.y,
      a.w * b.y + a.y * b.w + a.z * b.x - a.x * b.z,
      a.w * b.z + a.z * b.w + a.x * b.y - a.y * b.x)
  }

  /** The scaled rotation matrix of a quaternion; its rotation matrix at unit norm. */
  function Matrix(q: Quaternion): Mat3 {
    var vxSq, vySq, vzSq, wSq := Prod(q.x, q.x), Prod(q.y, q.y), Prod(q.z, q.z), Prod(q.w, q.w);
    var twoVx, twoVy, twoVz := 2.0 * q.x, 2.0 * q.y, 2.0 * q.z;
    var twoVxVy, twoVxVz, twoVxW := Prod(twoVx, q.y), Prod(twoVx, q.z), Prod(twoVx, q.w);
    var twoVyVz, twoVyW, twoVzW := Prod(twoVy, q.z), Prod(twoVy, q.w), Prod(twoVz, q.w);
    Mat3(
      Vec3(vxSq - vySq - vzSq + wSq, twoVxVy - twoVzW, twoVxVz + twoVyW),
      Vec3(twoVxVy + twoVzW, -vxSq + vySq - vzSq + wSq, -twoVxW + twoVyVz),
      Vec3(twoVxVz - twoVyW, twoVxW + twoVyVz, -vxSq - vySq + vzSq + wSq))
  }

  /** RxSO3's action on a point, by two cross products. */
  function ScaledAction(q: Quaternion, p: Vec3): Vec3 {
    var c := Cross(q.Vec(), p);
    var twoVecCrossP := Add(c, c);
    Add(Scale(q.SquaredNorm(), p), Add(Scale(q.w, twoVecCrossP), Cross(q.Vec(), twoVecCrossP)))
  }

  /** SO3's action on a point, by two cross products. */
  function UnitAction(q: Quaternion, p: Vec3): Vec3 {
    var c := Cross(q.Vec(), p);
    var uv := Add(c, c);
    Add(p, Add(Scale(q.w, uv), Cross(q.Vec(), uv)))
  }

  // ----- the same formulas on named products -----

  lemma MatrixEntries(q: Quaternion)
    ensures Matrix(q).r0.x == Prod(q.x, q.x) - Prod(q.y, q.y) - Prod(q.z, q.z) + Prod(q.w, q.w)
    ensures Matrix(q).r1.y == Prod(q.y, q.y) - Prod(q.z, q.z) - Prod(q.x, q.x) + Prod(q.w, q.w)
    ensures Matrix(q).r2.z == Prod(q.z, q.z) - Prod(q.x, q.x) - Prod(q.y, q.y) + Prod(q.w, q.w)
    ensures Matrix(q).r0.y == 2.0 * Prod(q.x, q.y) - 2.0 * Prod(q.z, q.w)
    ensures Matrix(q).r1.z == 2.0 * Prod(q.y, q.z) - 2.0 * Prod(q.x, q.w)
    ensures Matrix(q).r2.x == 2.0 * Prod(q.z, q.x) - 2.0 * Prod(q.y, q.w)
    ensures Matrix(q).r1.x == 2.0 * Prod(q.x, q.y) + 2.0 * Prod(q.z, q.w)
    ensures Matrix(q).r2.y == 2.0 * Prod(q.y, q.z) + 2.0 * Prod(q.x, q.w)
    ensures Matrix(q).r0.z == 2.0 * Prod(q.z, q.x) + 2.0 * Prod(q.y, q.w)
  {
    PDoubles(q.x, q.y, q.w);
    PDoubles(q.y, q.z, q.w);
    PDoubles(q.z, q.x, q.w);
    hide Prod;
  }

  lemma PDoubles(x: real, y: real, w: real)
    ensures Prod(2.0 * x, y) == 2.0 * Prod(x, y) == Prod(2.0 * y, x) && Prod(2.0 * x, w) == 2.0 * Prod(x, w)
  {}

  lemma ProductEntries(a: Quaternion, b: Quaternion)
    ensures QuaternionProduct(a, b) == Quaternion(
              Prod(a.w, b.w) - Prod(a.x, b.x) - Prod(a.y, b.y) - Prod(a.z, b.z),
              Prod(a.w, b.x) + Prod(a.x, b.w) + Prod(a.y, b.z) - Prod(a.z, b.y),
              Prod(a.w, b.y) + Prod(a.y, b.w) + Prod(a.z, b.x) - Prod(a.x, b.z),
              Prod(a.w, b.z) + Prod(a.z, b.w) + Prod(a.x, b.y) - Prod(a.y, b.x))
  {}

  lemma NormEntries(q: Quaternion)
    ensures q.SquaredNorm() == Prod(q.w, q.w) + Prod(q.x, q.x) + Prod(q.y, q.y) + Prod(q.z, q.z)
  {}

  // ----- action and matrix -----

  lemma PAction(w: real, x: real, y: real, z: real, p: real, q: real, r: real)
    ensures Prod(Prod(w, w) + Prod(x, x) + Prod(y, y) + Prod(z, z), p)
         +  (Prod(w, Prod(y, r) - Prod(z, q) + (Prod(y, r) - Prod(z, q)))
         +   (Prod(y, Prod(x, q) - Prod(y, p) + (Prod(x, q) - Prod(y, p))) - Prod(z, Prod(z, p) - Prod(x, r) + (Prod(z, p) - Prod(x, r)))))
         == Prod(Prod(x, x) - Prod(y, y) - Prod(z, z) + Prod(w, w), p)
         +  Prod(2.0 * Prod(x, y) - 2.0 * Prod(z, w), q) + Prod(2.0 * Prod(z, x) + 2.0 * Prod(y, w), r)
  {}

  /** The cross-product action is multiplication by the matrix. */
  lemma ActionIsMatrix(q: Quaternion, p: Vec3)
    ensures ScaledAction(q, p) == Apply(Matrix(q), p)
  {
    MatrixEntries(q);
    NormEntries(q);
    PAction(q.w, q.x, q.y, q.z, p.x, p.y, p.z);
    PAction(q.w, q.y, q.z, q.x, p.y, p.z, p.x);
    PAction(q.w, q.z, q.x, q.y, p.z, p.x, p.y);
    hide Prod, Matrix, Quaternion.SquaredNorm;
  }

  lemma UnitActionIsMatrix(q: Quaternion, p: Vec3)
    requires q.SquaredNorm() == 1.0
    ensures UnitAction(q, p) == Apply(Matrix(q), p)
  {
    ActionIsMatrix(q, p);
    ScaleOne(p);
    hide Prod, Matrix, Scale, Cross, Apply, Quaternion.SquaredNorm;
  }

  lemma ScaleOne(p: Vec3)
    ensures Scale(1.0, p) == p
  {}

  // ----- the algebra of quaternions -----

  function Pure(p: Vec3): Quaternion {
    Quaternion(0.0, p.x, p.y, p.z)
  }

  function Real(s: real): Quaternion {
    Quaternion(s, 0.0, 0.0, 0.0)
  }

  /** Expansion of a component of a product, times a further factor. */
  lemma PExpandReal(a0: real, b0: real, a1: real, b1: real, a2: real, b2: real, a3: real, b3: real, k: real)
    ensures Prod(Prod(a0, b0) - Prod(a1, b1) - Prod(a2, b2) - Prod(a3, b3), k)
         == a0 * b0 * k - a1 * b1 * k - a2 * b2 * k - a3 * b3 * k
    ensures Prod(k, Prod(a0, b0) - Prod(a1, b1) - Prod(a2, b2) - Prod(a3, b3))
         == a0 * b0 * k - a1 * b1 * k - a2 * b2 * k - a3 * b3 * k
  {}

  lemma PExpandVec(a0: real, b0: real, a1: real, b1: real, a2: real, b2: real, a3: real, b3: real, k: real)
    ensures Prod(Prod(a0, b0) + Prod(a1, b1) + Prod(a2, b2) - Prod(a3, b3), k)
         == a0 * b0 * k + a1 * b1 * k + a2 * b2 * k - a3 * b3 * k
    ensures Prod(k, Prod(a0, b0) + Prod(a1, b1) + Prod(a2, b2) - Prod(a3, b3))
         == a0 * b0 * k + a1 * b1 * k + a2 * b2 * k - a3 * b3 * k
  {}

  lemma PAssocReal(aw: real, ax: real, ay: real, az: real, bw: real, bx: real, b1: real, bz: real, cw: real, cx: real, cy: real, cz: real)
    ensures Prod(Prod(aw, bw) - Prod(ax, bx) - Prod(ay, b1) - Prod(az, bz), cw)
         -  Prod(Prod(aw, bx) + Prod(ax, bw) + Prod(ay, bz) - Prod(az, b1), cx)
         -  Prod(Prod(aw, b1) + Prod(ay, bw) + Prod(az, bx) - Prod(ax, bz), cy)
         -  Prod(Prod(aw, bz) + Prod(az, bw) + Prod(ax, b1) - Prod(ay, bx), cz)
         == Prod(aw, Prod(bw, cw) - Prod(bx, cx) - Prod(b1, cy) - Prod(bz, cz))
         -  Prod(ax, Prod(bw, cx) + Prod(bx, cw) + Prod(b1, cz) - Prod(bz, cy))
         -  Prod(ay, Prod(bw, cy) + Prod(b1, cw) + Prod(bz, cx) - Prod(bx, cz))
         -  Prod(az, Prod(bw, cz) + Prod(bz, cw) + Prod(bx, cy) - Prod(b1, cx))
  {
    hide Prod;
    PExpandReal(aw, bw, ax, bx, ay, b1, az, bz, cw);
    PExpandVec(aw, bx, ax, bw, ay, bz, az, b1, cx);
    PExpandVec(aw, b1, ay, bw, az, bx, ax, bz, cy);
    PExpandVec(aw, bz, az, bw, ax, b1, ay, bx, cz);
    PExpandReal(bw, cw, bx, cx, b1, cy, bz, cz, aw);
    PExpandVec(bw, cx, bx, cw, b1, cz, bz, cy, ax);
    PExpandVec(bw, cy, b1, cw, bz, cx, bx, cz, ay);
    PExpandVec(bw, cz, bz, cw, bx, cy, b1, cx, az);
  }

  lemma PAssocVec(aw: real, ax: real, ay: real, az: real, bw: real, bx: real, b1: real, bz: real, cw: real, cx: real, cy: real, cz: real)
    ensures Prod(Prod(aw, bw) - Prod(ax, bx) - Prod(ay, b1) - Prod(az, bz), cx)
         +  Prod(Prod(aw, bx) + Prod(ax, bw) + Prod(ay, bz) - Prod(az, b1), cw)
         +  Prod(Prod(aw, b1) + Prod(ay, bw) + Prod(az, bx) - Prod(ax, bz), cz)
         -  Prod(Prod(aw, bz) + Prod(az, bw) + Prod(ax, b1) - Prod(ay, bx), cy)
         == Prod(aw, Prod(bw, cx) + Prod(bx, cw) + Prod(b1, cz) - Prod(bz, cy))
         +  Prod(ax, Prod(bw, cw) - Prod(bx, cx) - Prod(b1, cy) - Prod(bz, cz))
         +  Prod(ay, Prod(bw, cz) + Prod(bz, cw) + Prod(bx, cy) - Prod(b1, cx))
         -  Prod(az, Prod(bw, cy) + Prod(b1, cw) + Prod(bz, cx) - Prod(bx, cz))
  {
    hide Prod;
    PExpandReal(aw, bw, ax, bx, ay, b1, az, bz, cx);
    PExpandVec(aw, bx, ax, bw, ay, bz, az, b1, cw);
    PExpandVec(aw, b1, ay, bw, az, bx, ax, bz, cz);
    PExpandVec(aw, bz, az, bw, ax, b1, ay, bx, cy);
    PExpandVec(bw, cx, bx, cw, b1, cz, bz, cy, aw);
    PExpandReal(bw, cw, bx, cx, b1, cy, bz, cz, ax);
    PExpandVec(bw, cz, bz, cw, bx, cy, b1, cx, ay);
    PExpandVec(bw, cy, b1, cw, bz, cx, bx, cz, az);
  }

  lemma ProductAssoc(a: Quaternion, b: Quaternion, c: Quaternion)
    ensures QuaternionProduct(QuaternionProduct(a, b), c) == QuaternionProduct(a, QuaternionProduct(b, c))
  {
    hide *;
    ProductEntries(a, b);
    ProductEntries(QuaternionProduct(a, b), c);
    ProductEntries(b, c);
    ProductEntries(a, QuaternionProduct(b, c));
    PAssocReal(a.w, a.x, a.y, a.z, b.w, b.x, b.y, b.z, c.w, c.x, c.y, c.z);
    PAssocVec(a.w, a.x, a.y, a.z, b.w, b.x, b.y, b.z, c.w, c.x, c.y, c.z);
    PAssocVec(a.w, a.y, a.z, a.x, b.w, b.y, b.z, b.x, c.w, c.y, c.z, c.x);
    PAssocVec(a.w, a.z, a.x, a.y, b.w, b.z, b.x, b.y, c.w, c.z, c.x, c.y);
  }

  lemma ConjugateProduct(a: Quaternion, b: Quaternion)
    ensures QuaternionProduct(a, b).Conjugate() == QuaternionProduct(b.Conjugate(), a.Conjugate())
  {
    hide Prod, QuaternionProduct;
    ProductEntries(a, b);
    ConjugateEntries(b, a);
  }

  lemma ConjugateEntries(a: Quaternion, b: Quaternion)
    ensures QuaternionProduct(a.Conjugate(), b.Conjugate()) == Quaternion(
              Prod(b.w, a.w) - Prod(b.x, a.x) - Prod(b.y, a.y) - Prod(b.z, a.z),
              -Prod(b.w, a.x) - Prod(b.x, a.w) - Prod(b.y, a.z) + Prod(b.z, a.y),
              -Prod(b.w, a.y) - Prod(b.y, a.w) - Prod(b.z, a.x) + Prod(b.x, a.z),
              -Prod(b.w, a.z) - Prod(b.z, a.w) - Prod(b.x, a.y) + Prod(b.y, a.x))
  {}

  lemma ProductConjugate(q: Quaternion)
    ensures QuaternionProduct(q, q.Conjugate()) == Real(q.SquaredNorm()) == QuaternionProduct(q.Conjugate(), q)
  {}

  lemma ProductReal(s: real, q: Quaternion)
    ensures QuaternionProduct(Real(s), q) == q.Times(s) == QuaternionProduct(q, Real(s))
  {}

  lemma PureProduct(u: Vec3, v: Vec3)
    ensures QuaternionProduct(Pure(u), Pure(v)) == Quaternion(-Dot(u, v), Cross(u, v).x, Cross(u, v).y, Cross(u, v).z)
  {}

  lemma PSandwichReal(w: real, x: real, y: real, z: real, px: real, py: real, pz: real)
    ensures Prod(-Prod(x, px) - Prod(y, py) - Prod(z, pz), w) + Prod(Prod(w, px) + Prod(y, pz) - Prod(z, py), x)
          + Prod(Prod(w, py) + Prod(z, px) - Prod(x, pz), y) + Prod(Prod(w, pz) + Prod(x, py) - Prod(y, px), z) == 0.0
  {}

  lemma PSandwichVec(w: real, x: real, y: real, z: real, px: real, py: real, pz: real)
    ensures Prod(Prod(x, px) + Prod(y, py) + Prod(z, pz), x) + Prod(Prod(w, px) + Prod(y, pz) - Prod(z, py), w)
          - Prod(Prod(w, py) + Prod(z, px) - Prod(x, pz), z) + Prod(Prod(w, pz) + Prod(x, py) - Prod(y, px), y)
         == Prod(Prod(x, x) - Prod(y, y) - Prod(z, z) + Prod(w, w), px)
         +  Prod(2.0 * Prod(x, y) - 2.0 * Prod(z, w), py) + Prod(2.0 * Prod(z, x) + 2.0 * Prod(y, w), pz)
  {
    hide Prod;
    PExpand3(x, px, y, py, z, pz, x);
    PExpand3Minus(w, px, y, pz, z, py, w);
    PExpand3Minus(w, py, z, px, x, pz, z);
    PExpand3Minus(w, pz, x, py, y, px, y);
    PExpandRow(x, y, z, w, px, py, pz);
  }

  lemma PExpand3(a0: real, b0: real, a1: real, b1: real, a2: real, b2: real, k: real)
    ensures Prod(Prod(a0, b0) + Prod(a1, b1) + Prod(a2, b2), k) == a0 * b0 * k + a1 * b1 * k + a2 * b2 * k
  {}

  lemma PExpand3Minus(a0: real, b0: real, a1: real, b1: real, a2: real, b2: real, k: real)
    ensures Prod(Prod(a0, b0) + Prod(a1, b1) - Prod(a2, b2), k) == a0 * b0 * k + a1 * b1 * k - a2 * b2 * k
  {}

  lemma PExpandRow(x: real, y: real, z: real, w: real, px: real, py: real, pz: real)
    ensures Prod(Prod(x, x) - Prod(y, y) - Prod(z, z) + Prod(w, w), px) == x * x * px - y * y * px - z * z * px + w * w * px
    ensures Prod(2.0 * Prod(x, y) - 2.0 * Prod(z, w), py) == 2.0 * x * y * py - 2.0 * z * w * py
    ensures Prod(2.0 * Prod(z, x) + 2.0 * Prod(y, w), pz) == 2.0 * z * x * pz + 2.0 * y * w * pz
  {}

  lemma PNegFirst(a0: real, b0: real, a1: real, b1: real, a2: real, b2: real, k: real)
    ensures Prod(-Prod(a0, b0) - Prod(a1, b1) - Prod(a2, b2), k) == -Prod(Prod(a0, b0) + Prod(a1, b1) + Prod(a2, b2), k)
    ensures Prod(a0, b0) + Prod(a1, b1) + Prod(a2, b2) == Prod(a1, b1) + Prod(a2, b2) + Prod(a0, b0)
  {}

  lemma LeftFactor(q: Quaternion, p: Vec3)
    ensures QuaternionProduct(q, Pure(p)) == Quaternion(
              -Prod(q.x, p.x) - Prod(q.y, p.y) - Prod(q.z, p.z),
              Prod(q.w, p.x) + Prod(q.y, p.z) - Prod(q.z, p.y),
              Prod(q.w, p.y) + Prod(q.z, p.x) - Prod(q.x, p.z),
              Prod(q.w, p.z) + Prod(q.x, p.y) - Prod(q.y, p.x))
  {}

  lemma RightFactor(t: Quaternion, q: Quaternion)
    ensures QuaternionProduct(t, q.Conjugate()) == Quaternion(
              Prod(t.w, q.w) + Prod(t.x, q.x) + Prod(t.y, q.y) + Prod(t.z, q.z),
              -Prod(t.w, q.x) + Prod(t.x, q.w) - Prod(t.y, q.z) + Prod(t.z, q.y),
              -Prod(t.w, q.y) + Prod(t.y, q.w) - Prod(t.z, q.x) + Prod(t.x, q.z),
              -Prod(t.w, q.z) + Prod(t.z, q.w) - Prod(t.x, q.y) + Prod(t.y, q.x))
  {}

  /** Conjugating a vector by a quaternion applies its matrix. */
  lemma Sandwich(q: Quaternion, p: Vec3)
    ensures QuaternionProduct(QuaternionProduct(q, Pure(p)), q.Conjugate()) == Pure(Apply(Matrix(q), p))
  {
    LeftFactor(q, p);
    RightFactor(QuaternionProduct(q, Pure(p)), q);
    MatrixEntries(q);
    hide Prod, QuaternionProduct, Matrix;
    PNegFirst(q.x, p.x, q.y, p.y, q.z, p.z, q.x);
    PNegFirst(q.x, p.x, q.y, p.y, q.z, p.z, q.y);
    PNegFirst(q.x, p.x, q.y, p.y, q.z, p.z, q.z);
    PSandwichReal(q.w, q.x, q.y, q.z, p.x, p.y, p.z);
    PSandwichVec(q.w, q.x, q.y, q.z, p.x, p.y, p.z);
    PSandwichVec(q.w, q.y, q.z, q.x, p.y, p.z, p.x);
    PSandwichVec(q.w, q.z, q.x, q.y, p.z, p.x, p.y);
  }

  lemma NormProduct(a: Quaternion, b: Quaternion)
    ensures QuaternionProduct(a, b).SquaredNorm() == a.SquaredNorm() * b.SquaredNorm()
  {
    var ab := QuaternionProduct(a, b);
    ProductConjugate(ab);
    ConjugateProduct(a, b);
    ProductAssoc(a, b, QuaternionProduct(b.Conjugate(), a.Conjugate()));
    ProductAssoc(b, b.Conjugate(), a.Conjugate());
    ProductConjugate(b);
    ProductReal(b.SquaredNorm(), a.Conjugate());
    ProductAssoc(a, a.Conjugate(), Real(b.SquaredNorm()));
    ProductConjugate(a);
    ProductReal(b.SquaredNorm(), Real(a.SquaredNorm()));
    hide QuaternionProduct, Quaternion.SquaredNorm, Quaternion.Conjugate;
    ProductReal(b.SquaredNorm(), a.Conjugate());
  }

  /** The matrix of a product is the product of the matrices. */
  lemma MatrixProduct(a: Quaternion, b: Quaternion)
    ensures Matrix(QuaternionProduct(a, b)) == Mul(Matrix(a), Matrix(b))
  {
    forall p
      ensures Apply(Matrix(QuaternionProduct(a, b)), p) == Apply(Mul(Matrix(a), Matrix(b)), p)
    {
      ActionProduct(a, b, p);
      ApplyMul(Matrix(a), Matrix(b), p);
    }
    Extensional(Matrix(QuaternionProduct(a, b)), Mul(Matrix(a), Matrix(b)));
  }

  lemma ActionProduct(a: Quaternion, b: Quaternion, p: Vec3)
    ensures Apply(Matrix(QuaternionProduct(a, b)), p) == Apply(Matrix(a), Apply(Matrix(b), p))
  {
    var x, y, u, v := a.Conjugate(), b.Conjugate(), Pure(p), Pure(Apply(Matrix(b), p));
    Sandwich(QuaternionProduct(a, b), p);
    ConjugateProduct(a, b);
    ProductAssoc(a, b, u);
    ProductAssoc(QuaternionProduct(a, QuaternionProduct(b, u)), y, x);
    ProductAssoc(a, QuaternionProduct(b, u), y);
    Sandwich(b, p);
    Sandwich(a, Apply(Matrix(b), p));
    hide QuaternionProduct, Matrix, Apply;
  }

  /** Conjugation turns a product of vectors into the product of their images. */
  lemma ConjugatedProduct(q: Quaternion, u: Vec3, v: Vec3)
    ensures QuaternionProduct(Pure(Apply(Matrix(q), u)), Pure(Apply(Matrix(q), v)))
         == QuaternionProduct(QuaternionProduct(q, QuaternionProduct(Pure(u), Pure(v))), q.Conjugate()).Times(q.SquaredNorm())
  {
    var c, s := q.Conjugate(), q.SquaredNorm();
    var qu, qv := QuaternionProduct(q, Pure(u)), QuaternionProduct(q, Pure(v));
    Sandwich(q, u);
    Sandwich(q, v);
    ProductAssoc(qu, c, QuaternionProduct(qv, c));
    ProductAssoc(c, qv, c);
    ProductAssoc(c, q, Pure(v));
    ProductConjugate(q);
    ProductReal(s, Pure(v));
    ProductAssoc(Pure(v), Real(s), c);
    ProductReal(s, c);
    ProductAssoc(Pure(v), c, Real(s));
    ProductAssoc(qu, QuaternionProduct(Pure(v), c), Real(s));
    ProductAssoc(qu, Pure(v), c);
    ProductAssoc(q, Pure(u), Pure(v));
    ProductReal(s, QuaternionProduct(QuaternionProduct(qu, Pure(v)), c));
    hide *;
  }

  function Sum(a: Quaternion, b: Quaternion): Quaternion {
    Quaternion(a.w + b.w, a.x + b.x, a.y + b.y, a.z + b.z)
  }

  lemma PDistribute(a: real, b: real, c: real)
    ensures Prod(a, b + c) == Prod(a, b) + Prod(a, c)
    ensures Prod(b + c, a) == Prod(b, a) + Prod(c, a)
  {}

  lemma ProductSum(a: Quaternion, b: Quaternion, c: Quaternion)
    ensures QuaternionProduct(a, Sum(b, c)) == Sum(QuaternionProduct(a, b), QuaternionProduct(a, c))
    ensures QuaternionProduct(Sum(b, c), a) == Sum(QuaternionProduct(b, a), QuaternionProduct(c, a))
  {
    ProductEntries(a, b);
    ProductEntries(a, c);
    ProductEntries(b, a);
    ProductEntries(c, a);
    ProductEntries(a, Sum(b, c));
    ProductEntries(Sum(b, c), a);
    hide Prod, QuaternionProduct;
    PDistribute(a.w, b.w, c.w);
    PDistribute(a.w, b.x, c.x);
    PDistribute(a.w, b.y, c.y);
    PDistribute(a.w, b.z, c.z);
    PDistribute(a.x, b.w, c.w);
    PDistribute(a.x, b.x, c.x);
    PDistribute(a.x, b.y, c.y);
    PDistribute(a.x, b.z, c.z);
    PDistribute(a.y, b.w, c.w);
    PDistribute(a.y, b.x, c.x);
    PDistribute(a.y, b.y, c.y);
    PDistribute(a.y, b.z, c.z);
    PDistribute(a.z, b.w, c.w);
    PDistribute(a.z, b.x, c.x);
    PDistribute(a.z, b.y, c.y);
    PDistribute(a.z, b.z, c.z);
  }

  /** Conjugation keeps the real part, scaled, and rotates the vector part. */
  lemma SandwichSum(q: Quaternion, r: real, p: Vec3)
    ensures var m := Apply(Matrix(q), p);
            QuaternionProduct(QuaternionProduct(q, Sum(Real(r), Pure(p))), q.Conjugate())
            == Quaternion(Prod(r, q.SquaredNorm()), m.x, m.y, m.z)
  {
    var c := q.Conjugate();
    Sandwich(q, p);
    ProductSum(q, Real(r), Pure(p));
    ProductSum(c, QuaternionProduct(q, Real(r)), QuaternionProduct(q, Pure(p)));
    ProductReal(r, q);
    ProductAssoc(Real(r), q, c);
    ProductConjugate(q);
    ProductReal(r, Real(q.SquaredNorm()));
    hide QuaternionProduct, Matrix, Apply, Quaternion.SquaredNorm;
  }

  lemma ScaleTimes(s: real, p: Vec3)
    ensures Scale(s, p) == Vec3(s * p.x, s * p.y, s * p.z)
  {}

  lemma ScaleProducts(s: real, p: Vec3)
    ensures Scale(s, p) == Vec3(Prod(s, p.x), Prod(s, p.y), Prod(s, p.z))
  {}

  /** A quaternion's matrix scales inner products by the squared scale and
      commutes with the cross product up to the scale. */
  lemma Conformal(q: Quaternion, u: Vec3, v: Vec3)
    ensures Dot(Apply(Matrix(q), u), Apply(Matrix(q), v)) == Prod(Prod(q.SquaredNorm(), q.SquaredNorm()), Dot(u, v))
    ensures Cross(Apply(Matrix(q), u), Apply(Matrix(q), v)) == Scale(q.SquaredNorm(), Apply(Matrix(q), Cross(u, v)))
  {
    ConjugatedProduct(q, u, v);
    PureProduct(u, v);
    PureProduct(Apply(Matrix(q), u), Apply(Matrix(q), v));
    SandwichSum(q, -Dot(u, v), Cross(u, v));
    ScaleProducts(q.SquaredNorm(), Apply(Matrix(q), Cross(u, v)));
    PScaledReal(q.SquaredNorm(), Dot(u, v));
    hide Prod, Dot, Cross, Scale, Matrix, Apply, QuaternionProduct, Quaternion.SquaredNorm;
    assert Sum(Real(-Dot(u, v)), Pure(Cross(u, v))) == Quaternion(-Dot(u, v), Cross(u, v).x, Cross(u, v).y, Cross(u, v).z);
  }

  lemma PScaledReal(s: real, d: real)
    ensures Prod(s, Prod(-d, s)) == -Prod(Prod(s, s), d)
  {}

  /** M Mt = s^2 I and Mt M = s^2 I. */
  lemma ScaledOrthogonal(q: Quaternion)
    ensures Mul(Transpose(Matrix(q)), Matrix(q)) == MatScale(q.SquaredNorm() * q.SquaredNorm(), IDENTITY)
    ensures Mul(Matrix(q), Transpose(Matrix(q))) == MatScale(q.SquaredNorm() * q.SquaredNorm(), IDENTITY)
  {
    TransposeConjugate(q);
    TransposeConjugate(q.Conjugate());
    OrthogonalLeft(q);
    OrthogonalLeft(q.Conjugate());
    hide Matrix, Mul, MatScale, Quaternion.SquaredNorm;
    assert Prod(q.SquaredNorm(), q.SquaredNorm()) == q.SquaredNorm() * q.SquaredNorm();
  }

  lemma TransposeConjugate(q: Quaternion)
    ensures Transpose(Matrix(q)) == Matrix(q.Conjugate())
    ensures q.Conjugate().SquaredNorm() == q.SquaredNorm()
    ensures q.Conjugate().Conjugate() == q
  {
    MatrixEntries(q);
    MatrixEntries(q.Conjugate());
    NormEntries(q);
    NormEntries(q.Conjugate());
    hide Prod, Matrix, Quaternion.SquaredNorm;
    PNegation(q.x, q.y);
    PNegation(q.y, q.z);
    PNegation(q.z, q.x);
    PNegation(q.x, q.x);
    PNegation(q.y, q.y);
    PNegation(q.z, q.z);
    PNegation(q.x, q.w);
    PNegation(q.y, q.w);
    PNegation(q.z, q.w);
  }

  lemma PNegation(a: real, b: real)
    ensures Prod(-a, b) == -Prod(a, b) && Prod(-a, -b) == Prod(a, b)
  {}

  lemma PUnits(a: real)
    ensures Prod(a, 0.0) == 0.0 && Prod(0.0, a) == 0.0 && Prod(a, 1.0) == a && Prod(1.0, a) == a
  {}

  lemma OrthogonalLeft(q: Quaternion)
    ensures Mul(Matrix(q.Conjugate()), Matrix(q)) == MatScale(Prod(q.SquaredNorm(), q.SquaredNorm()), IDENTITY)
  {
    ProductConjugate(q);
    MatrixProduct(q.Conjugate(), q);
    MatrixReal(q.SquaredNorm());
    hide Prod, Matrix, Mul, MatScale, Quaternion.SquaredNorm, QuaternionProduct, Quaternion.Conjugate;
  }

  lemma MatrixReal(s: real)
    ensures Matrix(Real(s)) == MatScale(Prod(s, s), IDENTITY)
  {}

  /** The determinant of the matrix is the cube of the scale. */
  lemma DetMatrix(q: Quaternion)
    ensures Det(Matrix(q)) == q.SquaredNorm() * q.SquaredNorm() * q.SquaredNorm()
  {
    Columns(Matrix(q));
    Conformal(q, E0, E1);
    Conformal(q, E2, E2);
    BasisProducts();
    DotScale(q.SquaredNorm(), Col2(Matrix(q)), Col2(Matrix(q)));
    hide Dot, Cross, Scale, Matrix, Apply, Quaternion.SquaredNorm;
  }

  lemma BasisProducts()
    ensures Cross(E0, E1) == E2 && Dot(E2, E2) == 1.0
  {
    PUnits(0.0);
    PUnits(1.0);
    hide Prod;
  }

  lemma DotScale(s: real, u: Vec3, v: Vec3)
    ensures Dot(Scale(s, u), v) == s * Dot(u, v)
  {}
}
