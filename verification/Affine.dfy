/** Homogeneous 4x4 matrices, and what follows for any matrix group of them from
    one intertwining relation between the group and its tangent space. */
module Affine {
  import opened Linear

  /** The matrix [linear offset; 0 corner]. */
  datatype Mat4 = Mat4(linear: Mat3, offset: Vec3, corner: real)

  const IDENTITY4 := Mat4(IDENTITY, ZERO, 1.0)

  function Mul4(m: Mat4, n: Mat4): Mat4 {
    Mat4(Mul(m.linear, n.linear), Add(Apply(m.linear, n.offset), Scale(n.corner, m.offset)), Prod(m.corner, n.corner))
  }

  function Sub4(m: Mat4, n: Mat4): Mat4 {
    Mat4(MatSub(m.linear, n.linear), Sub(m.offset, n.offset), m.corner - n.corner)
  }

  function Commutator(m: Mat4, n: Mat4): Mat4 {
    Sub4(Mul4(m, n), Mul4(n, m))
  }

  lemma Mul4Assoc(l: Mat4, m: Mat4, n: Mat4)
    ensures Mul4(Mul4(l, m), n) == Mul4(l, Mul4(m, n))
  {
    hide Prod, Mul, Apply, Add, Scale;
    MulAssoc(l.linear, m.linear, n.linear);
    ApplyMul(l.linear, m.linear, n.offset);
    var a, b, c := Apply(l.linear, Apply(m.linear, n.offset)), Apply(l.linear, m.offset), l.offset;
    ScaleAdd(n.corner, b, Scale(m.corner, c));
    ScaleTwice(n.corner, m.corner, c);
    ApplyAdd(l.linear, Apply(m.linear, n.offset), Scale(n.corner, m.offset));
    ApplyScaled(l.linear, n.corner, m.offset);
    PSym(m.corner, n.corner);
    PAssoc(l.corner, m.corner, n.corner);
    AddAssoc(a, Scale(n.corner, b), Scale(Prod(n.corner, m.corner), c));
  }

  lemma Mul4Identity(m: Mat4)
    ensures Mul4(m, IDENTITY4) == m == Mul4(IDENTITY4, m)
  {
    MulIdentity(m.linear);
    ApplyZeroVector(m.linear);
    ApplyIdentity(m.offset);
    ScaleUnit(m.offset);
    ScaleZeroVector(m.corner);
    POnes(m.corner);
    hide Mul, Apply, Scale, Prod;
  }

  lemma Mul4Sub(l: Mat4, m: Mat4, n: Mat4)
    ensures Mul4(l, Sub4(m, n)) == Sub4(Mul4(l, m), Mul4(l, n))
    ensures Mul4(Sub4(m, n), l) == Sub4(Mul4(m, l), Mul4(n, l))
  {
    hide Prod, Mul, Apply, Scale, MatSub;
    MulSub(l.linear, m.linear, n.linear);
    ApplySub(l.linear, m.offset, n.offset);
    AddScale(m.corner, n.corner, l.offset);
    PSpread(l.corner, m.corner, n.corner);
    ApplyMatSub(m.linear, n.linear, l.offset);
    ScaleAdd(l.corner, m.offset, n.offset);
    PSpread(m.corner, n.corner, l.corner);
  }

  // ----- conjugation by an invertible matrix -----

  /** y t = t x: y is what conjugating x by t gives. */
  predicate Intertwines(t: Mat4, x: Mat4, y: Mat4) {
    Mul4(y, t) == Mul4(t, x)
  }

  lemma ConjugateIs(t: Mat4, inv: Mat4, x: Mat4, y: Mat4)
    requires Mul4(t, inv) == IDENTITY4 && Intertwines(t, x, y)
    ensures y == Mul4(Mul4(t, x), inv)
  {
    hide Mul4;
    Mul4Assoc(y, t, inv);
    Mul4Identity(y);
  }

  lemma IntertwinesUnique(t: Mat4, inv: Mat4, x: Mat4, y: Mat4, z: Mat4)
    requires Mul4(t, inv) == IDENTITY4 && Intertwines(t, x, y) && Intertwines(t, x, z)
    ensures y == z
  {
    ConjugateIs(t, inv, x, y);
    ConjugateIs(t, inv, x, z);
  }

  lemma IntertwinesCompose(s: Mat4, t: Mat4, x: Mat4, y: Mat4, z: Mat4)
    requires Intertwines(t, x, y) && Intertwines(s, y, z)
    ensures Intertwines(Mul4(s, t), x, z)
  {
    hide Mul4;
    Mul4Assoc(z, s, t);
    Mul4Assoc(s, y, t);
    Mul4Assoc(s, t, x);
  }

  lemma IntertwinesProduct(t: Mat4, x: Mat4, y: Mat4, x': Mat4, y': Mat4)
    requires Intertwines(t, x, y) && Intertwines(t, x', y')
    ensures Intertwines(t, Mul4(x, x'), Mul4(y, y'))
  {
    hide Mul4;
    Mul4Assoc(y, y', t);
    Mul4Assoc(y, t, x');
    Mul4Assoc(t, x, x');
  }

  lemma IntertwinesCommutator(t: Mat4, x: Mat4, y: Mat4, x': Mat4, y': Mat4)
    requires Intertwines(t, x, y) && Intertwines(t, x', y')
    ensures Intertwines(t, Commutator(x, x'), Commutator(y, y'))
  {
    IntertwinesProduct(t, x, y, x', y');
    IntertwinesProduct(t, x', y', x, y);
    Mul4Sub(t, Mul4(y, y'), Mul4(y', y));
    Mul4Sub(t, Mul4(x, x'), Mul4(x', x));
    hide Mul4, Sub4;
  }

  /** [x,[y,z]] = [[x,y],z] + [y,[x,z]], with the last term moved to the left. */
  lemma CommutatorJacobi(x: Mat4, y: Mat4, z: Mat4)
    ensures Sub4(Commutator(x, Commutator(y, z)), Commutator(y, Commutator(x, z))) == Commutator(Commutator(x, y), z)
  {
    Mul4Sub(x, Mul4(y, z), Mul4(z, y));
    Mul4Sub(y, Mul4(x, z), Mul4(z, x));
    Mul4Sub(z, Mul4(x, y), Mul4(y, x));
    Mul4Assoc(x, y, z);
    Mul4Assoc(x, z, y);
    Mul4Assoc(y, x, z);
    Mul4Assoc(y, z, x);
    Mul4Assoc(z, x, y);
    Mul4Assoc(z, y, x);
    var xyz, xzy, yxz, yzx, zxy, zyx := Mul4(x, Mul4(y, z)), Mul4(x, Mul4(z, y)), Mul4(y, Mul4(x, z)), Mul4(y, Mul4(z, x)), Mul4(z, Mul4(x, y)), Mul4(z, Mul4(y, x));
    hide Mul4, Prod, Mul;
    SixTerms(xyz, xzy, yxz, yzx, zxy, zyx);
    hide Sub4;
  }

  lemma SixTerms(xyz: Mat4, xzy: Mat4, yxz: Mat4, yzx: Mat4, zxy: Mat4, zyx: Mat4)
    ensures Sub4(Sub4(Sub4(xyz, xzy), Sub4(yzx, zyx)), Sub4(Sub4(yxz, yzx), Sub4(xzy, zxy)))
         == Sub4(Sub4(xyz, yxz), Sub4(zxy, zyx))
  {}
}
