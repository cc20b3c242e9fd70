/** Expansions to second order with an explicit bound on the rest, for numbers and for the 4x4
    matrices whose products make a spline. */
module Expansions {
  import opened Linear
  import opened Affine
  import opened Spline

  predicate AtMost(x: real, c: real) {
    -c <= x <= c
  }

  /** The absolute value of t^3. */
  function Third(t: real): real {
    if t >= 0.0 then Prod(t, Prod(t, t)) else -Prod(t, Prod(t, t))
  }

  function SecondOrder(j: Jet<real>, t: real): real {
    j.v + Prod(t, j.d) + 0.5 * Prod(Prod(t, t), j.dd)
  }

  /** x is value, first and second derivative, up to c |t|^3. */
  predicate Near(x: real, j: Jet<real>, t: real, c: real) {
    AtMost(x - SecondOrder(j, t), Prod(c, Third(t)))
  }

  predicate Bounded(j: Jet<real>, b: real) {
    AtMost(j.v, b) && AtMost(j.d, b) && AtMost(j.dd, b)
  }

  // ----- numbers -----

  lemma AtMostProduct(x: real, y: real, a: real, b: real)
    requires AtMost(x, a) && AtMost(y, b)
    ensures AtMost(Prod(x, y), Prod(a, b))
  {
    ProductSign(a - x, b + y);
    ProductSign(a + x, b - y);
    ProductSign(a - x, b - y);
    ProductSign(a + x, b + y);
    PCorners(x, y, a, b);
    hide Prod;
  }

  lemma PCorners(x: real, y: real, a: real, b: real)
    ensures Prod(a - x, b + y) + Prod(a + x, b - y) == 2.0 * Prod(a, b) - 2.0 * Prod(x, y)
    ensures Prod(a - x, b - y) + Prod(a + x, b + y) == 2.0 * Prod(a, b) + 2.0 * Prod(x, y)
  {}

  /** Powers of a step of at most one. */
  lemma StepPowers(t: real)
    requires AtMost(t, 1.0)
    ensures 0.0 <= Third(t) <= Prod(t, t) <= 1.0
    ensures AtMost(Prod(t, Prod(t, t)), Third(t)) && 0.0 <= Prod(Prod(t, t), Prod(t, t)) <= Third(t)
  {
    var a := if t >= 0.0 then t else -t;
    ProductSign(a, a);
    ProductSign(a, 1.0 - a);
    ProductSign(Prod(a, a), 1.0 - a);
    ProductSign(Prod(a, a), a);
    ProductSign(Prod(a, Prod(a, a)), 1.0 - a);
    ProductSign(Prod(a, a), Prod(a, a));
    PStep(a);
    PNegatedStep(t);
    hide Prod;
  }

  lemma PStep(a: real)
    ensures Prod(a, 1.0 - a) == a - Prod(a, a)
    ensures Prod(Prod(a, a), 1.0 - a) == Prod(a, a) - Prod(a, Prod(a, a)) && Prod(Prod(a, a), a) == Prod(a, Prod(a, a))
    ensures Prod(Prod(a, Prod(a, a)), 1.0 - a) == Prod(a, Prod(a, a)) - Prod(Prod(a, a), Prod(a, a))
  {}

  lemma PNegatedStep(t: real)
    ensures Prod(-t, -t) == Prod(t, t) && Prod(-t, Prod(-t, -t)) == -Prod(t, Prod(t, t))
  {}

  function RealMul(j: Jet<real>, k: Jet<real>): Jet<real> {
    Jet(Prod(j.v, k.v), Prod(j.d, k.v) + Prod(j.v, k.d), Prod(j.dd, k.v) + 2.0 * Prod(j.d, k.d) + Prod(j.v, k.dd))
  }

  function RealAdd(j: Jet<real>, k: Jet<real>): Jet<real> {
    Jet(j.v + k.v, j.d + k.d, j.dd + k.dd)
  }

  /** The bound for a product, where both factors have bound c and jets of at most b. */
  function ProductBound(c: real, b: real): real {
    2.0 * Prod(c + 2.0 * b, c + 2.0 * b)
  }

  /** The square of a bound, for the entries of a product's jet. */
  function JetBound(b: real): real {
    4.0 * Prod(b, b)
  }

  lemma BoundedMul(j: Jet<real>, k: Jet<real>, b: real)
    requires Bounded(j, b) && Bounded(k, b)
    ensures Bounded(RealMul(j, k), JetBound(b))
  {
    AtMostProduct(j.v, k.v, b, b);
    AtMostProduct(j.d, k.v, b, b);
    AtMostProduct(j.v, k.d, b, b);
    AtMostProduct(j.dd, k.v, b, b);
    AtMostProduct(j.d, k.d, b, b);
    AtMostProduct(j.v, k.dd, b, b);
    ProductSign(b, b);
    hide Prod;
  }

  lemma SecondOrderBound(j: Jet<real>, t: real, b: real)
    requires AtMost(t, 1.0) && Bounded(j, b)
    ensures AtMost(SecondOrder(j, t), 2.5 * b)
  {
    StepPowers(t);
    AtMostProduct(t, j.d, 1.0, b);
    AtMostProduct(Prod(t, t), j.dd, 1.0, b);
    POnes(b);
    hide Prod, Third;
  }

  /** The product of two expansions, apart from the rest. */
  lemma PProductRest(t: real, j: Jet<real>, k: Jet<real>)
    ensures Prod(SecondOrder(j, t), SecondOrder(k, t)) - SecondOrder(RealMul(j, k), t)
         == 0.5 * Prod(Prod(t, Prod(t, t)), Prod(j.d, k.dd) + Prod(j.dd, k.d)) + 0.25 * Prod(Prod(Prod(t, t), Prod(t, t)), Prod(j.dd, k.dd))
  {
    PRestExpand(t, j.v, j.d, j.dd, k.v, k.d, k.dd);
  }

  lemma PRestExpand(t: real, v: real, d: real, dd: real, v': real, d': real, dd': real)
    ensures Prod(v + Prod(t, d) + 0.5 * Prod(Prod(t, t), dd), v' + Prod(t, d') + 0.5 * Prod(Prod(t, t), dd'))
         == Prod(v, v') + Prod(t, Prod(d, v') + Prod(v, d')) + 0.5 * Prod(Prod(t, t), Prod(dd, v') + 2.0 * Prod(d, d') + Prod(v, dd'))
          + 0.5 * Prod(Prod(t, Prod(t, t)), Prod(d, dd') + Prod(dd, d')) + 0.25 * Prod(Prod(Prod(t, t), Prod(t, t)), Prod(dd, dd'))
  {
    var n := Prod(t, t);
    PNineTerms(v, Prod(t, d), Prod(n, dd), v', Prod(t, d'), Prod(n, dd'));
    PLift(t, v, d', v', d);
    PLift(n, v, dd', v', dd);
    PBoth(t, t, d, d');
    PBoth(t, n, d, dd');
    PBoth(n, t, dd, d');
    PBoth(n, n, dd, dd');
    PSym(n, t);
    PSpread(t, Prod(d, v'), Prod(v, d'));
    PSpread(n, Prod(dd, v') + 2.0 * Prod(d, d'), Prod(v, dd'));
    PSpread(n, Prod(dd, v'), 2.0 * Prod(d, d'));
    PTwiceSym(n, Prod(d, d'));
    PSym(Prod(d, d'), n);
    PSpread(Prod(t, n), Prod(d, dd'), Prod(dd, d'));
    hide Prod;
  }

  lemma PNineTerms(v: real, p: real, r: real, v': real, p': real, r': real)
    ensures Prod(v + p + 0.5 * r, v' + p' + 0.5 * r')
         == Prod(v, v') + Prod(v, p') + 0.5 * Prod(v, r') + Prod(p, v') + Prod(p, p') + 0.5 * Prod(p, r')
          + 0.5 * Prod(r, v') + 0.5 * Prod(r, p') + 0.25 * Prod(r, r')
  {}

  lemma PLift(t: real, v: real, d': real, v': real, d: real)
    ensures Prod(v, Prod(t, d')) == Prod(t, Prod(v, d')) && Prod(Prod(t, d), v') == Prod(t, Prod(d, v'))
  {}

  lemma PBoth(s: real, t: real, d: real, d': real)
    ensures Prod(Prod(s, d), Prod(t, d')) == Prod(Prod(s, t), Prod(d, d'))
  {}

  lemma NearProduct(x: real, j: Jet<real>, y: real, k: Jet<real>, t: real, c: real, b: real)
    requires AtMost(t, 1.0) && c >= 0.0 && b >= 0.0
    requires Bounded(j, b) && Bounded(k, b) && Near(x, j, t, c) && Near(y, k, t, c)
    ensures Near(Prod(x, y), RealMul(j, k), t, ProductBound(c, b))
  {
    var p, q, m := SecondOrder(j, t), SecondOrder(k, t), Third(t);
    StepPowers(t);
    SecondOrderBound(j, t, b);
    SecondOrderBound(k, t, b);
    ProductSign(c, 1.0 - m);
    PSpread(c, 1.0, m);
    POnes(c);
    AtMostProduct(x - p, y, Prod(c, m), 2.5 * b + c);
    AtMostProduct(p, y - q, 2.5 * b, Prod(c, m));
    PProductRest(t, j, k);
    RestBound(t, j, k, b);
    PProductSplit(x, y, p, q);
    ProductSign(c, b);
    ProductSign(c, c);
    ProductSign(b, b);
    PSumOfBounds(c, b, m);
    ProductSign(ProductBound(c, b) - Prod(c, c) - 5.0 * Prod(c, b) - 1.25 * Prod(b, b), m);
    PBoundsOrder(c, b);
    PSpreadFour(ProductBound(c, b), Prod(c, c), 5.0 * Prod(c, b), 1.25 * Prod(b, b), m);
    hide Prod, SecondOrder, RealMul, Third, ProductBound;
    assert Prod(x, y) - SecondOrder(RealMul(j, k), t) == Prod(x - p, y) + Prod(p, y - q) + (Prod(p, q) - SecondOrder(RealMul(j, k), t));
  }

  lemma RestBound(t: real, j: Jet<real>, k: Jet<real>, b: real)
    requires AtMost(t, 1.0) && b >= 0.0 && Bounded(j, b) && Bounded(k, b)
    ensures AtMost(0.5 * Prod(Prod(t, Prod(t, t)), Prod(j.d, k.dd) + Prod(j.dd, k.d)) + 0.25 * Prod(Prod(Prod(t, t), Prod(t, t)), Prod(j.dd, k.dd)),
                   Prod(1.25 * Prod(b, b), Third(t)))
  {
    var m, bb := Third(t), Prod(b, b);
    StepPowers(t);
    AtMostProduct(j.d, k.dd, b, b);
    AtMostProduct(j.dd, k.d, b, b);
    AtMostProduct(j.dd, k.dd, b, b);
    AtMostProduct(Prod(t, Prod(t, t)), Prod(j.d, k.dd) + Prod(j.dd, k.d), m, 2.0 * bb);
    AtMostProduct(Prod(Prod(t, t), Prod(t, t)), Prod(j.dd, k.dd), m, bb);
    PTwiceSym(m, bb);
    hide Prod, Third;
  }

  lemma PTwiceSym(m: real, x: real)
    ensures Prod(m, 2.0 * x) == 2.0 * Prod(x, m) && Prod(m, x) == Prod(x, m) && Prod(1.25 * x, m) == 1.25 * Prod(x, m)
  {}

  lemma PProductSplit(x: real, y: real, p: real, q: real)
    ensures Prod(x, y) == Prod(x - p, y) + Prod(p, y - q) + Prod(p, q)
  {}

  lemma PSumOfBounds(c: real, b: real, m: real)
    ensures Prod(Prod(c, m), 2.5 * b + c) + Prod(2.5 * b, Prod(c, m)) + Prod(1.25 * Prod(b, b), m)
         == Prod(Prod(c, c), m) + Prod(5.0 * Prod(c, b), m) + Prod(1.25 * Prod(b, b), m)
  {}

  lemma PBoundsOrder(c: real, b: real)
    ensures ProductBound(c, b) == 2.0 * Prod(c, c) + 8.0 * Prod(c, b) + 8.0 * Prod(b, b)
  {}

  lemma PSpreadFour(x: real, y: real, z: real, w: real, m: real)
    ensures Prod(x - y - z - w, m) == Prod(x, m) - Prod(y, m) - Prod(z, m) - Prod(w, m)
  {}

  lemma NearSum(x: real, j: Jet<real>, y: real, k: Jet<real>, t: real, c: real, e: real)
    requires Near(x, j, t, c) && Near(y, k, t, e)
    ensures Near(x + y, RealAdd(j, k), t, c + e)
  {
    PSpread(t, j.d, k.d);
    PSpread(Prod(t, t), j.dd, k.dd);
    PSpread(t, j.d, k.d);
    PSpread(c, e, Third(t));
    hide Prod, Third;
  }

  // ----- vectors -----

  function EntryX(j: Jet<Vec3>): Jet<real> {
    Jet(j.v.x, j.d.x, j.dd.x)
  }

  function EntryY(j: Jet<Vec3>): Jet<real> {
    Jet(j.v.y, j.d.y, j.dd.y)
  }

  function EntryZ(j: Jet<Vec3>): Jet<real> {
    Jet(j.v.z, j.d.z, j.dd.z)
  }

  predicate NearVec(x: Vec3, j: Jet<Vec3>, t: real, c: real) {
    Near(x.x, EntryX(j), t, c) && Near(x.y, EntryY(j), t, c) && Near(x.z, EntryZ(j), t, c)
  }

  predicate BoundedVec(j: Jet<Vec3>, b: real) {
    Bounded(EntryX(j), b) && Bounded(EntryY(j), b) && Bounded(EntryZ(j), b)
  }

  function DotJet(j: Jet<Vec3>, k: Jet<Vec3>): Jet<real> {
    Jet(Dot(j.v, k.v), Dot(j.d, k.v) + Dot(j.v, k.d), Dot(j.dd, k.v) + 2.0 * Dot(j.d, k.d) + Dot(j.v, k.dd))
  }

  lemma NearDot(x: Vec3, j: Jet<Vec3>, y: Vec3, k: Jet<Vec3>, t: real, c: real, b: real)
    requires AtMost(t, 1.0) && c >= 0.0 && b >= 0.0
    requires BoundedVec(j, b) && BoundedVec(k, b) && NearVec(x, j, t, c) && NearVec(y, k, t, c)
    ensures Near(Dot(x, y), DotJet(j, k), t, 3.0 * ProductBound(c, b)) && Bounded(DotJet(j, k), 3.0 * JetBound(b))
  {
    hide Prod, Near, ProductBound, JetBound;
    var jx, jy, jz := RealMul(EntryX(j), EntryX(k)), RealMul(EntryY(j), EntryY(k)), RealMul(EntryZ(j), EntryZ(k));
    NearProduct(x.x, EntryX(j), y.x, EntryX(k), t, c, b);
    NearProduct(x.y, EntryY(j), y.y, EntryY(k), t, c, b);
    NearProduct(x.z, EntryZ(j), y.z, EntryZ(k), t, c, b);
    BoundedMul(EntryX(j), EntryX(k), b);
    BoundedMul(EntryY(j), EntryY(k), b);
    BoundedMul(EntryZ(j), EntryZ(k), b);
    NearSum(Prod(x.x, y.x), jx, Prod(x.y, y.y), jy, t, ProductBound(c, b), ProductBound(c, b));
    NearSum(Prod(x.x, y.x) + Prod(x.y, y.y), RealAdd(jx, jy), Prod(x.z, y.z), jz, t, 2.0 * ProductBound(c, b), ProductBound(c, b));
    assert RealAdd(RealAdd(jx, jy), jz) == DotJet(j, k);
  }

  // ----- matrices -----

  function Row0(j: Jet<Mat4>): Jet<Vec3> {
    Jet(j.v.linear.r0, j.d.linear.r0, j.dd.linear.r0)
  }

  function Row1(j: Jet<Mat4>): Jet<Vec3> {
    Jet(j.v.linear.r1, j.d.linear.r1, j.dd.linear.r1)
  }

  function Row2(j: Jet<Mat4>): Jet<Vec3> {
    Jet(j.v.linear.r2, j.d.linear.r2, j.dd.linear.r2)
  }

  function OffsetOf(j: Jet<Mat4>): Jet<Vec3> {
    Jet(j.v.offset, j.d.offset, j.dd.offset)
  }

  function CornerOf(j: Jet<Mat4>): Jet<real> {
    Jet(j.v.corner, j.d.corner, j.dd.corner)
  }

  /** Every entry of x is that of the jet's expansion, up to c |t|^3. */
  predicate NearMat(x: Mat4, j: Jet<Mat4>, t: real, c: real) {
    && NearVec(x.linear.r0, Row0(j), t, c) && NearVec(x.linear.r1, Row1(j), t, c) && NearVec(x.linear.r2, Row2(j), t, c)
    && NearVec(x.offset, OffsetOf(j), t, c) && Near(x.corner, CornerOf(j), t, c)
  }

  predicate BoundedMat(j: Jet<Mat4>, b: real) {
    BoundedVec(Row0(j), b) && BoundedVec(Row1(j), b) && BoundedVec(Row2(j), b) && BoundedVec(OffsetOf(j), b) && Bounded(CornerOf(j), b)
  }

  function MatJet(j: Jet<Mat4>, k: Jet<Mat4>): Jet<Mat4> {
    JetMul(Matrices(), j, k)
  }

  function Column0(j: Jet<Mat4>): Jet<Vec3> {
    Jet(Col0(j.v.linear), Col0(j.d.linear), Col0(j.dd.linear))
  }

  function Column1(j: Jet<Mat4>): Jet<Vec3> {
    Jet(Col1(j.v.linear), Col1(j.d.linear), Col1(j.dd.linear))
  }

  function Column2(j: Jet<Mat4>): Jet<Vec3> {
    Jet(Col2(j.v.linear), Col2(j.d.linear), Col2(j.dd.linear))
  }

  lemma NearColumns(x: Mat4, j: Jet<Mat4>, t: real, c: real, b: real)
    requires NearMat(x, j, t, c) && BoundedMat(j, b)
    ensures NearVec(Col0(x.linear), Column0(j), t, c) && NearVec(Col1(x.linear), Column1(j), t, c) && NearVec(Col2(x.linear), Column2(j), t, c)
    ensures BoundedVec(Column0(j), b) && BoundedVec(Column1(j), b) && BoundedVec(Column2(j), b)
  {
    hide Near, Bounded;
  }

  /** The jet of a product, entry by entry. */
  lemma ProductEntries(j: Jet<Mat4>, k: Jet<Mat4>)
    ensures var m := MatJet(j, k);
            && EntryX(Row0(m)) == DotJet(Row0(j), Column0(k)) && EntryY(Row0(m)) == DotJet(Row0(j), Column1(k)) && EntryZ(Row0(m)) == DotJet(Row0(j), Column2(k))
            && EntryX(Row1(m)) == DotJet(Row1(j), Column0(k)) && EntryY(Row1(m)) == DotJet(Row1(j), Column1(k)) && EntryZ(Row1(m)) == DotJet(Row1(j), Column2(k))
            && EntryX(Row2(m)) == DotJet(Row2(j), Column0(k)) && EntryY(Row2(m)) == DotJet(Row2(j), Column1(k)) && EntryZ(Row2(m)) == DotJet(Row2(j), Column2(k))
  {
    hide Dot;
    PTwice();
  }

  lemma PTwice()
    ensures forall x :: Prod(2.0, x) == 2.0 * x
  {}

  lemma OffsetEntries(j: Jet<Mat4>, k: Jet<Mat4>)
    ensures var m := MatJet(j, k);
            && EntryX(OffsetOf(m)) == RealAdd(DotJet(Row0(j), OffsetOf(k)), RealMul(CornerOf(k), EntryX(OffsetOf(j))))
            && EntryY(OffsetOf(m)) == RealAdd(DotJet(Row1(j), OffsetOf(k)), RealMul(CornerOf(k), EntryY(OffsetOf(j))))
            && EntryZ(OffsetOf(m)) == RealAdd(DotJet(Row2(j), OffsetOf(k)), RealMul(CornerOf(k), EntryZ(OffsetOf(j))))
            && CornerOf(m) == RealMul(CornerOf(j), CornerOf(k))
  {
    hide Dot;
    PTwice();
    hide Prod;
  }

  lemma NearRow(x: Vec3, j: Jet<Vec3>, y: Mat4, k: Jet<Mat4>, t: real, c: real, b: real)
    requires AtMost(t, 1.0) && c >= 0.0 && b >= 0.0
    requires BoundedVec(j, b) && BoundedMat(k, b) && NearVec(x, j, t, c) && NearMat(y, k, t, c)
    ensures Near(Dot(x, Col0(y.linear)), DotJet(j, Column0(k)), t, 3.0 * ProductBound(c, b)) && Bounded(DotJet(j, Column0(k)), 3.0 * JetBound(b))
    ensures Near(Dot(x, Col1(y.linear)), DotJet(j, Column1(k)), t, 3.0 * ProductBound(c, b)) && Bounded(DotJet(j, Column1(k)), 3.0 * JetBound(b))
    ensures Near(Dot(x, Col2(y.linear)), DotJet(j, Column2(k)), t, 3.0 * ProductBound(c, b)) && Bounded(DotJet(j, Column2(k)), 3.0 * JetBound(b))
  {
    NearColumns(y, k, t, c, b);
    hide *;
    NearDot(x, j, Col0(y.linear), Column0(k), t, c, b);
    NearDot(x, j, Col1(y.linear), Column1(k), t, c, b);
    NearDot(x, j, Col2(y.linear), Column2(k), t, c, b);
  }

  lemma NearLooser(x: real, j: Jet<real>, t: real, c: real, e: real, b: real, d: real)
    requires AtMost(t, 1.0) && Near(x, j, t, c) && Bounded(j, b) && c <= e && b <= d
    ensures Near(x, j, t, e) && Bounded(j, d)
  {
    StepPowers(t);
    ProductSign(e - c, Third(t));
    PSpread(e, c, Third(t));
    hide Prod, Third;
  }

  lemma BoundSigns(c: real, b: real)
    requires c >= 0.0 && b >= 0.0
    ensures ProductBound(c, b) >= 0.0 && JetBound(b) >= 0.0
  {
    ProductSign(c + 2.0 * b, c + 2.0 * b);
    ProductSign(b, b);
    hide Prod;
  }

  lemma NearOffset(x: Vec3, j: Jet<Vec3>, o: real, k: Jet<real>, y: Vec3, l: Jet<Vec3>, corner: real, m: Jet<real>, t: real, c: real, b: real)
    requires AtMost(t, 1.0) && c >= 0.0 && b >= 0.0
    requires BoundedVec(j, b) && Bounded(k, b) && BoundedVec(l, b) && Bounded(m, b)
    requires NearVec(x, j, t, c) && Near(o, k, t, c) && NearVec(y, l, t, c) && Near(corner, m, t, c)
    ensures Near(Dot(x, y) + Prod(corner, o), RealAdd(DotJet(j, l), RealMul(m, k)), t, 4.0 * ProductBound(c, b))
    ensures Bounded(RealAdd(DotJet(j, l), RealMul(m, k)), 4.0 * JetBound(b))
  {
    NearDot(x, j, y, l, t, c, b);
    NearProduct(corner, m, o, k, t, c, b);
    BoundedMul(m, k, b);
    NearSum(Dot(x, y), DotJet(j, l), Prod(corner, o), RealMul(m, k), t, 3.0 * ProductBound(c, b), ProductBound(c, b));
    hide Prod, Dot, DotJet, RealMul, Near, NearVec, BoundedVec, ProductBound, JetBound;
  }

  /** The product of two expansions is that of the product of the jets. */
  lemma NearMul4(x: Mat4, j: Jet<Mat4>, y: Mat4, k: Jet<Mat4>, t: real, c: real, b: real)
    requires AtMost(t, 1.0) && c >= 0.0 && b >= 0.0
    requires BoundedMat(j, b) && BoundedMat(k, b) && NearMat(x, j, t, c) && NearMat(y, k, t, c)
    ensures NearMat(Mul4(x, y), MatJet(j, k), t, 4.0 * ProductBound(c, b)) && BoundedMat(MatJet(j, k), 4.0 * JetBound(b))
  {
    NearRows(x, j, y, k, t, c, b);
    NearOffsets(x, j, y, k, t, c, b);
    hide MatJet, NearVec, BoundedVec, Near, Bounded, Mul4, ProductBound, JetBound;
  }

  lemma NearRows(x: Mat4, j: Jet<Mat4>, y: Mat4, k: Jet<Mat4>, t: real, c: real, b: real)
    requires AtMost(t, 1.0) && c >= 0.0 && b >= 0.0
    requires BoundedMat(j, b) && BoundedMat(k, b) && NearMat(x, j, t, c) && NearMat(y, k, t, c)
    ensures var p, m, e, d := Mul4(x, y).linear, MatJet(j, k), 4.0 * ProductBound(c, b), 4.0 * JetBound(b);
            && NearVec(p.r0, Row0(m), t, e) && NearVec(p.r1, Row1(m), t, e) && NearVec(p.r2, Row2(m), t, e)
            && BoundedVec(Row0(m), d) && BoundedVec(Row1(m), d) && BoundedVec(Row2(m), d)
  {
    hide Near, Bounded, MatJet, Dot, DotJet, ProductBound, JetBound;
    BoundSigns(c, b);
    ProductEntries(j, k);
    NearProductRow(x.linear.r0, Row0(j), y, k, t, c, b);
    NearProductRow(x.linear.r1, Row1(j), y, k, t, c, b);
    NearProductRow(x.linear.r2, Row2(j), y, k, t, c, b);
  }

  lemma NearProductRow(x: Vec3, j: Jet<Vec3>, y: Mat4, k: Jet<Mat4>, t: real, c: real, b: real)
    requires AtMost(t, 1.0) && c >= 0.0 && b >= 0.0
    requires BoundedVec(j, b) && BoundedMat(k, b) && NearVec(x, j, t, c) && NearMat(y, k, t, c)
    ensures var p, e, d := RowMul(x, y.linear), 4.0 * ProductBound(c, b), 4.0 * JetBound(b);
            && Near(p.x, DotJet(j, Column0(k)), t, e) && Near(p.y, DotJet(j, Column1(k)), t, e) && Near(p.z, DotJet(j, Column2(k)), t, e)
            && Bounded(DotJet(j, Column0(k)), d) && Bounded(DotJet(j, Column1(k)), d) && Bounded(DotJet(j, Column2(k)), d)
  {
    hide Near, Bounded, BoundedVec, BoundedMat, NearVec, NearMat, Dot, DotJet, ProductBound, JetBound, Col0, Col1, Col2, Column0, Column1, Column2;
    BoundSigns(c, b);
    NearRow(x, j, y, k, t, c, b);
    var e, d := 3.0 * ProductBound(c, b), 3.0 * JetBound(b);
    NearLooser(Dot(x, Col0(y.linear)), DotJet(j, Column0(k)), t, e, 4.0 * ProductBound(c, b), d, 4.0 * JetBound(b));
    NearLooser(Dot(x, Col1(y.linear)), DotJet(j, Column1(k)), t, e, 4.0 * ProductBound(c, b), d, 4.0 * JetBound(b));
    NearLooser(Dot(x, Col2(y.linear)), DotJet(j, Column2(k)), t, e, 4.0 * ProductBound(c, b), d, 4.0 * JetBound(b));
  }

  lemma NearOffsets(x: Mat4, j: Jet<Mat4>, y: Mat4, k: Jet<Mat4>, t: real, c: real, b: real)
    requires AtMost(t, 1.0) && c >= 0.0 && b >= 0.0
    requires BoundedMat(j, b) && BoundedMat(k, b) && NearMat(x, j, t, c) && NearMat(y, k, t, c)
    ensures var p, m, e, d := Mul4(x, y), MatJet(j, k), 4.0 * ProductBound(c, b), 4.0 * JetBound(b);
            NearVec(p.offset, OffsetOf(m), t, e) && Near(p.corner, CornerOf(m), t, e) && BoundedVec(OffsetOf(m), d) && Bounded(CornerOf(m), d)
  {
    hide Prod, Near, Bounded, MatJet, Dot, DotJet, RealAdd, RealMul, ProductBound, JetBound;
    BoundSigns(c, b);
    OffsetEntries(j, k);
    NearOffset(x.linear.r0, Row0(j), x.offset.x, EntryX(OffsetOf(j)), y.offset, OffsetOf(k), y.corner, CornerOf(k), t, c, b);
    NearOffset(x.linear.r1, Row1(j), x.offset.y, EntryY(OffsetOf(j)), y.offset, OffsetOf(k), y.corner, CornerOf(k), t, c, b);
    NearOffset(x.linear.r2, Row2(j), x.offset.z, EntryZ(OffsetOf(j)), y.offset, OffsetOf(k), y.corner, CornerOf(k), t, c, b);
    NearProduct(x.corner, CornerOf(j), y.corner, CornerOf(k), t, c, b);
    BoundedMul(CornerOf(j), CornerOf(k), b);
    NearLooser(Prod(x.corner, y.corner), RealMul(CornerOf(j), CornerOf(k)), t, ProductBound(c, b), 4.0 * ProductBound(c, b), JetBound(b), 4.0 * JetBound(b));
  }
}
