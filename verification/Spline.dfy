/** Cumulative cubic B-spline on a Lie group: smoothness at the knots, the end cases
    of the segments, and the derivatives as product rules. */
module Spline {
  import opened Linear
  import opened Checked
  import opened Affine

  // ----- the group, its tangent space and its matrices -----

  datatype Ring<!M> = Ring(mul: (M, M) -> M, add: (M, M) -> M, scale: (real, M) -> M, zero: M, one: M)

  /** The laws of a ring, one instance at a time. */
  ghost predicate Associates<M>(r: Ring<M>, x: M, y: M, z: M) {
    && r.mul(r.mul(x, y), z) == r.mul(x, r.mul(y, z))
    && r.add(r.add(x, y), z) == r.add(x, r.add(y, z)) && r.add(x, y) == r.add(y, x)
  }

  ghost predicate Distributes<M>(r: Ring<M>, x: M, y: M, z: M) {
    r.mul(x, r.add(y, z)) == r.add(r.mul(x, y), r.mul(x, z)) && r.mul(r.add(x, y), z) == r.add(r.mul(x, z), r.mul(y, z))
  }

  ghost predicate HasUnits<M>(r: Ring<M>, x: M) {
    && r.mul(r.zero, x) == r.zero && r.mul(x, r.zero) == r.zero
    && r.mul(r.one, x) == x && r.mul(x, r.one) == x
    && r.add(r.zero, x) == x && r.add(x, r.zero) == x
    && r.scale(0.0, x) == r.zero && r.scale(2.0, x) == r.add(x, x)
  }

  ghost predicate RingLaws<M(!new)>(r: Ring<M>) {
    && (forall x, y, z :: Associates(r, x, y, z))
    && (forall x, y, z :: Distributes(r, x, y, z))
    && (forall x :: HasUnits(r, x))
  }

  /** `valid` is the class invariant of the group's elements. */
  datatype Lie<!G, !V, !M> = Lie(
    valid: G -> bool, mul: (G, G) -> G, inverse: G -> G,
    exp: V -> G, log: G -> V, times: (real, V) -> V,
    matrix: G -> M, hat: V -> M, ring: Ring<M>)

  /** The laws of the group, one instance at a time. */
  ghost predicate StartsAtOne<G, V, M>(l: Lie<G, V, M>, v: V) {
    l.valid(l.exp(l.times(0.0, v))) && l.matrix(l.exp(l.times(0.0, v))) == l.ring.one && l.times(1.0, v) == v
  }

  /** Elements are compared by their matrices: two quaternions are one rotation. */
  ghost predicate Multiplies<G, V, M>(l: Lie<G, V, M>, a: G, b: G) {
    l.valid(a) && l.valid(b) ==> l.valid(l.mul(a, b)) && l.matrix(l.mul(a, b)) == l.ring.mul(l.matrix(a), l.matrix(b))
  }

  ghost predicate Inverts<G, V, M>(l: Lie<G, V, M>, a: G) {
    l.valid(a) ==> l.valid(l.inverse(a)) && l.ring.mul(l.matrix(a), l.matrix(l.inverse(a))) == l.ring.one
  }

  /** An exponential on the right keeps the invariant, valid or not, and makes elements with the
      same matrix of such elements. */
  ghost predicate Carries<G, V, M>(l: Lie<G, V, M>, a: G, b: G, v: V) {
    l.valid(a) && l.valid(b) && l.matrix(a) == l.matrix(b) ==>
      l.valid(l.mul(a, l.exp(v))) && l.matrix(l.mul(a, l.exp(v))) == l.matrix(l.mul(b, l.exp(v)))
  }

  ghost predicate GroupLaws<G(!new), V(!new), M>(l: Lie<G, V, M>) {
    && (forall v :: StartsAtOne(l, v))
    && (forall a, b :: Multiplies(l, a, b))
    && (forall a :: Inverts(l, a))
    && (forall a, b, v :: Carries(l, a, b, v))
  }

  ghost predicate LieLaws<G(!new), V(!new), M(!new)>(l: Lie<G, V, M>) {
    RingLaws(l.ring) && GroupLaws(l)
  }

  /** What log and exp have to do for the step from one control point to the next: exp undoes
      log as far as the matrix goes, and makes a valid element. */
  ghost predicate Step<G, V, M>(l: Lie<G, V, M>, p: G, q: G) {
    var v := l.log(l.mul(l.inverse(p), q));
    l.valid(l.exp(v)) && l.matrix(l.exp(v)) == l.matrix(l.mul(l.inverse(p), q))
  }

  // ----- the basis -----

  /** A polynomial of degree three. */
  function Cubic(c0: real, c1: real, c2: real, c3: real, u: real): real {
    c0 + c1 * u + c2 * (u * u) + c3 * (u * (u * u))
  }

  function B(u: real): Vec3 {
    Vec3(Cubic(5.0 / 6.0, 3.0 / 6.0, -3.0 / 6.0, 1.0 / 6.0, u),
         Cubic(1.0 / 6.0, 3.0 / 6.0, 3.0 / 6.0, -2.0 / 6.0, u),
         Cubic(0.0, 0.0, 0.0, 1.0 / 6.0, u))
  }

  function DtCubic(c1: real, c2: real, c3: real, u: real, deltaT: real): real
    requires deltaT != 0.0
  {
    Prod(Quotient(1.0, deltaT), c1 + c2 * (2.0 * u) + c3 * (3.0 * u * u))
  }

  function DtB(u: real, deltaT: real): Vec3
    requires deltaT != 0.0
  {
    Vec3(DtCubic(3.0 / 6.0, -3.0 / 6.0, 1.0 / 6.0, u, deltaT),
         DtCubic(3.0 / 6.0, 3.0 / 6.0, -2.0 / 6.0, u, deltaT),
         DtCubic(0.0, 0.0, 1.0 / 6.0, u, deltaT))
  }

  function Dt2Cubic(c2: real, c3: real, u: real, deltaT: real): real
    requires deltaT != 0.0
  {
    NonzeroProd(deltaT, deltaT);
    Prod(Quotient(1.0, Prod(deltaT, deltaT)), c2 * 2.0 + c3 * (6.0 * u))
  }

  function Dt2B(u: real, deltaT: real): Vec3
    requires deltaT != 0.0
  {
    Vec3(Dt2Cubic(-3.0 / 6.0, 1.0 / 6.0, u, deltaT), Dt2Cubic(3.0 / 6.0, -2.0 / 6.0, u, deltaT), Dt2Cubic(0.0, 1.0 / 6.0, u, deltaT))
  }

  /** DtCubic and Dt2Cubic are the derivatives of Cubic with respect to time: the exact
      expansion of the cubic around u, where h is a step in u, that is h deltaT in time. */
  lemma CubicTaylor(c0: real, c1: real, c2: real, c3: real, u: real, h: real, deltaT: real)
    requires deltaT != 0.0
    ensures var step := Prod(h, deltaT);
            Cubic(c0, c1, c2, c3, u + h)
            == Cubic(c0, c1, c2, c3, u) + Prod(step, DtCubic(c1, c2, c3, u, deltaT))
             + 0.5 * Prod(Prod(step, step), Dt2Cubic(c2, c3, u, deltaT)) + c3 * (h * h * h)
  {
    NonzeroProd(deltaT, deltaT);
    PCubic(c0, c1, c2, c3, u, h);
    hide Prod, Quotient, Cubic;
    PClearOnce(h, deltaT, Quotient(1.0, deltaT), c1 + c2 * (2.0 * u) + c3 * (3.0 * u * u));
    PClearTwice(h, deltaT, Quotient(1.0, Prod(deltaT, deltaT)), c2 * 2.0 + c3 * (6.0 * u));
  }

  lemma PClearOnce(h: real, d: real, i: real, x: real)
    requires Prod(i, d) == 1.0
    ensures Prod(Prod(h, d), Prod(i, x)) == Prod(h, x)
  {}

  lemma PClearTwice(h: real, d: real, j: real, y: real)
    requires Prod(j, Prod(d, d)) == 1.0
    ensures Prod(Prod(Prod(h, d), Prod(h, d)), Prod(j, y)) == Prod(Prod(h, h), y)
  {}

  lemma PCubic(c0: real, c1: real, c2: real, c3: real, u: real, h: real)
    ensures Cubic(c0, c1, c2, c3, u + h)
         == Cubic(c0, c1, c2, c3, u) + Prod(h, c1 + c2 * (2.0 * u) + c3 * (3.0 * u * u)) + 0.5 * Prod(Prod(h, h), c2 * 2.0 + c3 * (6.0 * u)) + c3 * (h * h * h)
  {}

  /** The cumulative basis at the two ends of a segment: what leaves at u = 1 enters,
      shifted by one place, at u = 0. */
  lemma BasisAtKnot(deltaT: real)
    requires deltaT != 0.0
    ensures B(1.0) == Vec3(1.0, 5.0 / 6.0, 1.0 / 6.0) && B(0.0) == Vec3(5.0 / 6.0, 1.0 / 6.0, 0.0)
    ensures DtB(1.0, deltaT).x == 0.0 && DtB(1.0, deltaT).y == DtB(0.0, deltaT).x && DtB(1.0, deltaT).z == DtB(0.0, deltaT).y && DtB(0.0, deltaT).z == 0.0
    ensures Dt2B(1.0, deltaT).x == 0.0 && Dt2B(1.0, deltaT).y == Dt2B(0.0, deltaT).x && Dt2B(1.0, deltaT).z == Dt2B(0.0, deltaT).y && Dt2B(0.0, deltaT).z == 0.0
  {
    NonzeroProd(deltaT, deltaT);
    POnes(Quotient(1.0, deltaT));
    POnes(Quotient(1.0, Prod(deltaT, deltaT)));
    hide Prod, Quotient;
  }

  // ----- the spline function -----

  datatype Triple<T> = Triple(x0: T, x1: T, x2: T)

  function A<G, V, M>(l: Lie<G, V, M>, v: Triple<V>, u: real): Triple<G> {
    var b := B(u);
    Triple(l.exp(l.times(b.x, v.x0)), l.exp(l.times(b.y, v.x1)), l.exp(l.times(b.z, v.x2)))
  }

  function DtA<G, V, M>(l: Lie<G, V, M>, aa: Triple<G>, v: Triple<V>, u: real, deltaT: real): Triple<M>
    requires deltaT != 0.0
  {
    var r, d := l.ring, DtB(u, deltaT);
    Triple(r.mul(r.scale(d.x, l.matrix(aa.x0)), l.hat(v.x0)),
           r.mul(r.scale(d.y, l.matrix(aa.x1)), l.hat(v.x1)),
           r.mul(r.scale(d.z, l.matrix(aa.x2)), l.hat(v.x2)))
  }

  function Dt2A<G, V, M>(l: Lie<G, V, M>, aa: Triple<G>, da: Triple<M>, v: Triple<V>, u: real, deltaT: real): Triple<M>
    requires deltaT != 0.0
  {
    var r, d, dd := l.ring, DtB(u, deltaT), Dt2B(u, deltaT);
    Triple(r.mul(r.add(r.scale(d.x, da.x0), r.scale(dd.x, l.matrix(aa.x0))), l.hat(v.x0)),
           r.mul(r.add(r.scale(d.y, da.x1), r.scale(dd.y, l.matrix(aa.x1))), l.hat(v.x1)),
           r.mul(r.add(r.scale(d.z, da.x2), r.scale(dd.z, l.matrix(aa.x2))), l.hat(v.x2)))
  }

  function ParentTSpline<G, V, M>(l: Lie<G, V, M>, point: G, v: Triple<V>, u: real): G {
    var aa := A(l, v, u);
    l.mul(l.mul(l.mul(point, aa.x0), aa.x1), aa.x2)
  }

  function Mul3<M>(r: Ring<M>, x: M, y: M, z: M): M {
    r.mul(r.mul(x, y), z)
  }

  function DtParentTSpline<G, V, M>(l: Lie<G, V, M>, point: G, v: Triple<V>, u: real, deltaT: real): M
    requires deltaT != 0.0
  {
    var r, aa := l.ring, A(l, v, u);
    var da := DtA(l, aa, v, u, deltaT);
    var m0, m1, m2 := l.matrix(aa.x0), l.matrix(aa.x1), l.matrix(aa.x2);
    r.mul(l.matrix(point), r.add(r.add(Mul3(r, da.x0, m1, m2), Mul3(r, m0, da.x1, m2)), Mul3(r, m0, m1, da.x2)))
  }

  function Dt2ParentTSpline<G, V, M>(l: Lie<G, V, M>, point: G, v: Triple<V>, u: real, deltaT: real): M
    requires deltaT != 0.0
  {
    var r, aa := l.ring, A(l, v, u);
    var da := DtA(l, aa, v, u, deltaT);
    var dda := Dt2A(l, aa, da, v, u, deltaT);
    var m0, m1, m2 := l.matrix(aa.x0), l.matrix(aa.x1), l.matrix(aa.x2);
    var pure := r.add(r.add(Mul3(r, dda.x0, m1, m2), Mul3(r, m0, dda.x1, m2)), Mul3(r, m0, m1, dda.x2));
    var mixed := r.add(r.add(Mul3(r, da.x0, da.x1, m2), Mul3(r, da.x0, m1, da.x2)), Mul3(r, m0, da.x1, da.x2));
    r.mul(l.matrix(point), r.add(pure, r.scale(2.0, mixed)))
  }

  // ----- segments -----

  datatype SegmentCase = First | Normal | Last

  /** The first pose and the three tangent vectors that a segment case selects. */
  function Control<G, V, M>(l: Lie<G, V, M>, c: SegmentCase, prev: G, p0: G, p1: G, p2: G): (G, Triple<V>) {
    match c
    case First => (p0, Triple(l.log(l.mul(l.inverse(p0), p0)), l.log(l.mul(l.inverse(p0), p1)), l.log(l.mul(l.inverse(p1), p2))))
    case Normal => (prev, Triple(l.log(l.mul(l.inverse(prev), p0)), l.log(l.mul(l.inverse(p0), p1)), l.log(l.mul(l.inverse(p1), p2))))
    case Last => (prev, Triple(l.log(l.mul(l.inverse(prev), p0)), l.log(l.mul(l.inverse(p0), p1)), l.log(l.mul(l.inverse(p1), p1))))
  }

  function CaseOf(i: int, numSegments: int): SegmentCase {
    if i == 0 then First else if i == numSegments - 1 then Last else Normal
  }

  function Max(a: int, b: int): int {
    if a < b then b else a
  }

  function Min(a: int, b: int): int {
    if b < a then b else a
  }

  /** The control data of segment i. That the four indices are in range is part of its
      being well formed; a spline has at least two control points. */
  function SegmentControl<G, V, M>(l: Lie<G, V, M>, points: seq<G>, i: int): (G, Triple<V>)
    requires |points| >= 2 && 0 <= i < |points| - 1
  {
    var prev := points[Max(0, i - 1)];
    Control(l, CaseOf(i, |points| - 1), prev, points[i], points[i + 1], points[Min(i + 2, |points| - 1)])
  }

  function Evaluate<G, V, M>(l: Lie<G, V, M>, points: seq<G>, i: int, u: real): Checked<G>
    requires |points| >= 2
  {
    if 0 <= i < |points| - 1 then
      var c := SegmentControl(l, points, i);
      Pass(ParentTSpline(l, c.0, c.1, u))
    else Abort
  }

  function EvaluateDt<G, V, M>(l: Lie<G, V, M>, points: seq<G>, i: int, u: real, deltaT: real): Checked<M>
    requires |points| >= 2 && deltaT != 0.0
  {
    if 0 <= i < |points| - 1 then
      var c := SegmentControl(l, points, i);
      Pass(DtParentTSpline(l, c.0, c.1, u, deltaT))
    else Abort
  }

  function EvaluateDt2<G, V, M>(l: Lie<G, V, M>, points: seq<G>, i: int, u: real, deltaT: real): Checked<M>
    requires |points| >= 2 && deltaT != 0.0
  {
    if 0 <= i < |points| - 1 then
      var c := SegmentControl(l, points, i);
      Pass(Dt2ParentTSpline(l, c.0, c.1, u, deltaT))
    else Abort
  }

  /** The control point at any index when both end points are repeated for ever. */
  function Clamped<G>(points: seq<G>, k: int): G
    requires |points| >= 1
  {
    points[if k < 0 then 0 else if k >= |points| then |points| - 1 else k]
  }

  /** Every segment case is the normal case on end-replicated control points; with two
      control points the only segment replicates both ends. */
  lemma SegmentsAreNormal<G, V, M>(l: Lie<G, V, M>, points: seq<G>, i: int)
    requires |points| >= 2 && 0 <= i < |points| - 1
    ensures SegmentControl(l, points, i)
         == Control(l, Normal, Clamped(points, i - 1), Clamped(points, i), Clamped(points, i + 1), Clamped(points, i + 2))
  {}

  // ----- smoothness -----

  /** The three factors of a segment as matrices with their derivatives. */
  datatype Jet<M> = Jet(v: M, d: M, dd: M)

  /** Product rule to second order. */
  function JetMul<M>(r: Ring<M>, x: Jet<M>, y: Jet<M>): Jet<M> {
    Jet(r.mul(x.v, y.v), r.add(r.mul(x.d, y.v), r.mul(x.v, y.d)),
        r.add(r.add(r.mul(x.dd, y.v), r.scale(2.0, r.mul(x.d, y.d))), r.mul(x.v, y.dd)))
  }

  /** exp(b(t) v) and its derivatives, for b with derivatives d and dd. */
  function ExpJet<G, V, M>(l: Lie<G, V, M>, v: V, b: real, d: real, dd: real): Jet<M> {
    var r, m, h := l.ring, l.matrix(l.exp(l.times(b, v))), l.hat(v);
    var first := r.mul(r.scale(d, m), h);
    Jet(m, first, r.mul(r.add(r.scale(d, first), r.scale(dd, m)), h))
  }

  function SplineJet<G, V, M>(l: Lie<G, V, M>, point: G, v: Triple<V>, u: real, deltaT: real): Jet<M>
    requires deltaT != 0.0
  {
    var r, b, d, dd := l.ring, B(u), DtB(u, deltaT), Dt2B(u, deltaT);
    var j0, j1, j2 := ExpJet(l, v.x0, b.x, d.x, dd.x), ExpJet(l, v.x1, b.y, d.y, dd.y), ExpJet(l, v.x2, b.z, d.z, dd.z);
    JetMul(r, Jet(l.matrix(point), r.zero, r.zero), JetMul(r, JetMul(r, j0, j1), j2))
  }

  // ----- instances of the laws -----

  lemma MulAssociative<M(!new)>(r: Ring<M>, x: M, y: M, z: M)
    requires RingLaws(r)
    ensures r.mul(r.mul(x, y), z) == r.mul(x, r.mul(y, z))
  {
    assert Associates(r, x, y, z);
  }

  lemma Distributive<M(!new)>(r: Ring<M>, x: M, y: M, z: M)
    requires RingLaws(r)
    ensures r.mul(x, r.add(y, z)) == r.add(r.mul(x, y), r.mul(x, z))
    ensures r.mul(r.add(y, z), x) == r.add(r.mul(y, x), r.mul(z, x))
  {
    assert Distributes(r, x, y, z) && Distributes(r, y, z, x);
  }

  lemma Twice<M(!new)>(r: Ring<M>, x: M, y: M)
    requires RingLaws(r)
    ensures r.scale(2.0, x) == r.add(x, x)
    ensures r.mul(y, r.scale(2.0, x)) == r.scale(2.0, r.mul(y, x)) && r.mul(r.scale(2.0, x), y) == r.scale(2.0, r.mul(x, y))
  {
    assert HasUnits(r, x) && HasUnits(r, r.mul(y, x)) && HasUnits(r, r.mul(x, y));
    Distributive(r, y, x, x);
  }

  lemma Zero<M(!new)>(r: Ring<M>, x: M)
    requires RingLaws(r)
    ensures r.mul(r.zero, x) == r.zero == r.mul(x, r.zero)
    ensures r.add(r.zero, x) == x == r.add(x, r.zero)
    ensures r.scale(0.0, x) == r.zero == r.scale(2.0, r.zero)
    ensures r.mul(r.one, x) == x == r.mul(x, r.one)
  {
    assert HasUnits(r, x) && HasUnits(r, r.zero);
  }

  lemma AddFour<M(!new)>(r: Ring<M>, a: M, b: M, c: M, d: M)
    requires RingLaws(r)
    ensures r.add(r.add(a, b), r.add(c, d)) == r.add(r.add(a, c), r.add(b, d))
    ensures r.add(r.add(a, b), c) == r.add(r.add(a, c), b)
  {
    Reassociate(r, a, b, c);
    Reassociate(r, a, c, b);
    Reassociate(r, r.add(a, b), c, d);
    Reassociate(r, r.add(a, c), b, d);
    assert Associates(r, b, c, d);
  }

  /** The second derivative of a product of three, collected as the source collects it. */
  lemma SixSummands<M(!new)>(r: Ring<M>, a: M, b: M, c: M, d: M, e: M, f: M)
    requires RingLaws(r)
    ensures r.add(r.add(r.add(r.add(a, r.scale(2.0, d)), b), r.scale(2.0, r.add(e, f))), c)
         == r.add(r.add(r.add(a, b), c), r.scale(2.0, r.add(r.add(d, e), f)))
  {
    var d2, ef2 := r.scale(2.0, d), r.scale(2.0, r.add(e, f));
    AddFour(r, a, d2, b, b);
    AddFour(r, r.add(a, b), d2, ef2, ef2);
    Twice(r, d, d);
    Twice(r, r.add(e, f), d);
    Twice(r, r.add(r.add(d, e), f), d);
    AddFour(r, d, d, r.add(e, f), r.add(e, f));
    Reassociate(r, d, e, f);
    Reassociate(r, r.add(a, b), d2, ef2);
    AddFour(r, r.add(a, b), r.add(d2, ef2), c, c);
    hide RingLaws;
  }

  lemma Reassociate<M(!new)>(r: Ring<M>, d: M, e: M, f: M)
    requires RingLaws(r)
    ensures r.add(r.add(d, e), f) == r.add(d, r.add(e, f))
  {
    assert Associates(r, d, e, f);
  }

  // ----- the derivatives are the product rule -----

  lemma ConstantFactor<M(!new)>(r: Ring<M>, m: M, j: Jet<M>)
    requires RingLaws(r)
    ensures JetMul(r, Jet(m, r.zero, r.zero), j) == Jet(r.mul(m, j.v), r.mul(m, j.d), r.mul(m, j.dd))
    ensures JetMul(r, j, Jet(r.one, r.zero, r.zero)) == j
  {
    hide RingLaws;
    Zero(r, j.v);
    Zero(r, j.d);
    Zero(r, j.dd);
    Zero(r, r.zero);
    Zero(r, r.mul(m, j.d));
    Zero(r, r.mul(m, j.dd));
  }

  lemma ConstantAssociative<M(!new)>(r: Ring<M>, m: M, x: Jet<M>, y: Jet<M>)
    requires RingLaws(r)
    ensures JetMul(r, JetMul(r, Jet(m, r.zero, r.zero), x), y) == JetMul(r, Jet(m, r.zero, r.zero), JetMul(r, x, y))
  {
    hide RingLaws;
    ConstantFactor(r, m, x);
    ConstantFactor(r, m, JetMul(r, x, y));
    MulAssociative(r, m, x.v, y.v);
    MulAssociative(r, m, x.d, y.v);
    MulAssociative(r, m, x.v, y.d);
    MulAssociative(r, m, x.dd, y.v);
    MulAssociative(r, m, x.d, y.d);
    MulAssociative(r, m, x.v, y.dd);
    Distributive(r, m, r.mul(x.d, y.v), r.mul(x.v, y.d));
    Twice(r, r.mul(x.d, y.d), m);
    Distributive(r, m, r.add(r.mul(x.dd, y.v), r.scale(2.0, r.mul(x.d, y.d))), r.mul(x.v, y.dd));
    Distributive(r, m, r.mul(x.dd, y.v), r.scale(2.0, r.mul(x.d, y.d)));
  }

  lemma ProductOfThree<M(!new)>(r: Ring<M>, x: Jet<M>, y: Jet<M>, z: Jet<M>)
    requires RingLaws(r)
    ensures var j := JetMul(r, JetMul(r, x, y), z);
            && j.d == r.add(r.add(Mul3(r, x.d, y.v, z.v), Mul3(r, x.v, y.d, z.v)), Mul3(r, x.v, y.v, z.d))
            && j.dd == r.add(r.add(r.add(Mul3(r, x.dd, y.v, z.v), Mul3(r, x.v, y.dd, z.v)), Mul3(r, x.v, y.v, z.dd)),
                             r.scale(2.0, r.add(r.add(Mul3(r, x.d, y.d, z.v), Mul3(r, x.d, y.v, z.d)), Mul3(r, x.v, y.d, z.d))))
  {
    hide RingLaws;
    Distributive(r, z.v, r.mul(x.d, y.v), r.mul(x.v, y.d));
    Distributive(r, z.d, r.mul(x.d, y.v), r.mul(x.v, y.d));
    Distributive(r, z.v, r.add(r.mul(x.dd, y.v), r.scale(2.0, r.mul(x.d, y.d))), r.mul(x.v, y.dd));
    Distributive(r, z.v, r.mul(x.dd, y.v), r.scale(2.0, r.mul(x.d, y.d)));
    Twice(r, r.mul(x.d, y.d), z.v);
    SixSummands(r, Mul3(r, x.dd, y.v, z.v), Mul3(r, x.v, y.dd, z.v), Mul3(r, x.v, y.v, z.dd),
                Mul3(r, x.d, y.d, z.v), Mul3(r, x.d, y.v, z.d), Mul3(r, x.v, y.d, z.d));
  }

  /** First and second derivative are those of the jet, whether or not the factors are valid. */
  lemma DerivativesOfJet<G(!new), V(!new), M(!new)>(l: Lie<G, V, M>, point: G, v: Triple<V>, u: real, deltaT: real)
    requires LieLaws(l) && deltaT != 0.0
    ensures SplineJet(l, point, v, u, deltaT).d == DtParentTSpline(l, point, v, u, deltaT)
    ensures SplineJet(l, point, v, u, deltaT).dd == Dt2ParentTSpline(l, point, v, u, deltaT)
  {
    hide B, DtB, Dt2B, RingLaws;
    var r, b, d, dd := l.ring, B(u), DtB(u, deltaT), Dt2B(u, deltaT);
    var j0, j1, j2 := ExpJet(l, v.x0, b.x, d.x, dd.x), ExpJet(l, v.x1, b.y, d.y, dd.y), ExpJet(l, v.x2, b.z, d.z, dd.z);
    LawsOfRing(l);
    hide LieLaws;
    ProductOfThree(r, j0, j1, j2);
    ConstantFactor(r, l.matrix(point), JetMul(r, JetMul(r, j0, j1), j2));
    hide JetMul, Mul3;
  }

  /** With valid factors the spline, its first and its second derivative are one jet: the product
      rule applied to the three exponential factors. */
  lemma DerivativesAreProductRule<G(!new), V(!new), M(!new)>(l: Lie<G, V, M>, point: G, v: Triple<V>, u: real, deltaT: real)
    requires LieLaws(l) && deltaT != 0.0 && l.valid(point)
    requires l.valid(A(l, v, u).x0) && l.valid(A(l, v, u).x1) && l.valid(A(l, v, u).x2)
    ensures SplineJet(l, point, v, u, deltaT)
         == Jet(l.matrix(ParentTSpline(l, point, v, u)), DtParentTSpline(l, point, v, u, deltaT), Dt2ParentTSpline(l, point, v, u, deltaT))
  {
    hide B, DtB, Dt2B, RingLaws, DtParentTSpline, Dt2ParentTSpline;
    var r, aa, b, d, dd := l.ring, A(l, v, u), B(u), DtB(u, deltaT), Dt2B(u, deltaT);
    var j0, j1, j2 := ExpJet(l, v.x0, b.x, d.x, dd.x), ExpJet(l, v.x1, b.y, d.y, dd.y), ExpJet(l, v.x2, b.z, d.z, dd.z);
    MatrixOfSpline(l, point, aa);
    LawsOfRing(l);
    DerivativesOfJet(l, point, v, u, deltaT);
    hide LieLaws;
    ConstantFactor(r, l.matrix(point), JetMul(r, JetMul(r, j0, j1), j2));
    hide Mul3;
  }

  lemma LawsOfRing<G(!new), V(!new), M(!new)>(l: Lie<G, V, M>)
    requires LieLaws(l)
    ensures RingLaws(l.ring)
  {}

  lemma MatrixOfSpline<G(!new), V(!new), M(!new)>(l: Lie<G, V, M>, point: G, aa: Triple<G>)
    requires LieLaws(l) && l.valid(point) && l.valid(aa.x0) && l.valid(aa.x1) && l.valid(aa.x2)
    ensures l.matrix(l.mul(l.mul(l.mul(point, aa.x0), aa.x1), aa.x2))
         == l.ring.mul(l.matrix(point), l.ring.mul(l.ring.mul(l.matrix(aa.x0), l.matrix(aa.x1)), l.matrix(aa.x2)))
  {
    hide LieLaws, RingLaws;
    LawsOfRing(l);
    var p1 := l.mul(point, aa.x0);
    var p2 := l.mul(p1, aa.x1);
    Homomorphism(l, point, aa.x0);
    Homomorphism(l, p1, aa.x1);
    Homomorphism(l, p2, aa.x2);
    MulAssociative(l.ring, l.matrix(point), l.matrix(aa.x0), l.matrix(aa.x1));
    MulAssociative(l.ring, l.matrix(point), l.ring.mul(l.matrix(aa.x0), l.matrix(aa.x1)), l.matrix(aa.x2));
  }

  // ----- C2 at the knots -----

  /** One segment at u = 1 and the next at u = 0 have the same jet. */
  lemma JetAtKnot<G(!new), V(!new), M(!new)>(l: Lie<G, V, M>, p0: G, p1: G, v0: V, v1: V, v2: V, v3: V, deltaT: real)
    requires LieLaws(l) && deltaT != 0.0 && l.matrix(p1) == l.ring.mul(l.matrix(p0), l.matrix(l.exp(v0)))
    ensures SplineJet(l, p0, Triple(v0, v1, v2), 1.0, deltaT) == SplineJet(l, p1, Triple(v1, v2, v3), 0.0, deltaT)
  {
    BasisAtKnot(deltaT);
    hide B, DtB, Dt2B, RingLaws;
    var r, b, d, dd := l.ring, B(0.0), DtB(0.0, deltaT), Dt2B(0.0, deltaT);
    var m0 := l.matrix(l.exp(v0));
    var j1, j2 := ExpJet(l, v1, b.x, d.x, dd.x), ExpJet(l, v2, b.y, d.y, dd.y);
    EndJets(l, v0, v3);
    LawsOfRing(l);
    hide LieLaws, ExpJet;
    ConstantAssociative(r, m0, j1, j2);
    ConstantFactor(r, m0, JetMul(r, j1, j2));
    ConstantFactor(r, l.matrix(p0), JetMul(r, j1, j2));
    ConstantAssociative(r, l.matrix(p0), Jet(m0, r.zero, r.zero), JetMul(r, j1, j2));
    ConstantFactor(r, l.matrix(p0), Jet(m0, r.zero, r.zero));
    Zero(r, l.matrix(p0));
    hide JetMul;
  }

  /** A factor that has arrived, and one that has not yet set out, do not move. */
  lemma EndJets<G(!new), V(!new), M(!new)>(l: Lie<G, V, M>, v0: V, v3: V)
    requires LieLaws(l)
    ensures ExpJet(l, v0, 1.0, 0.0, 0.0) == Jet(l.matrix(l.exp(v0)), l.ring.zero, l.ring.zero)
    ensures ExpJet(l, v3, 0.0, 0.0, 0.0) == Jet(l.ring.one, l.ring.zero, l.ring.zero)
  {
    hide RingLaws;
    ExpEnds(l, v0, v3);
    LawsOfRing(l);
    hide LieLaws;
    var r := l.ring;
    Zero(r, l.matrix(l.exp(v0)));
    Zero(r, l.hat(v0));
    Zero(r, r.one);
    Zero(r, l.hat(v3));
    Zero(r, r.zero);
  }

  lemma ExpEnds<G(!new), V(!new), M(!new)>(l: Lie<G, V, M>, v0: V, v3: V)
    requires LieLaws(l)
    ensures l.times(1.0, v0) == v0 && l.matrix(l.exp(l.times(0.0, v3))) == l.ring.one
  {
    hide RingLaws;
    assert StartsAtOne(l, v0) && StartsAtOne(l, v3);
  }

  lemma LogStep<G(!new), V(!new), M(!new)>(l: Lie<G, V, M>, a: G, b: G)
    requires LieLaws(l) && l.valid(a) && l.valid(b) && Step(l, a, b)
    ensures l.ring.mul(l.matrix(a), l.matrix(l.exp(l.log(l.mul(l.inverse(a), b))))) == l.matrix(b)
  {
    hide RingLaws;
    LawsOfRing(l);
    assert Inverts(l, a) && Multiplies(l, l.inverse(a), b);
    MulAssociative(l.ring, l.matrix(a), l.matrix(l.inverse(a)), l.matrix(b));
    Zero(l.ring, l.matrix(b));
  }

  lemma Keeps<G(!new), V(!new), M(!new)>(l: Lie<G, V, M>, a: G, b: G, v: V)
    requires LieLaws(l) && l.valid(a) && l.valid(b) && l.matrix(a) == l.matrix(b)
    ensures l.valid(l.mul(a, l.exp(v))) && l.valid(l.mul(b, l.exp(v))) && l.matrix(l.mul(a, l.exp(v))) == l.matrix(l.mul(b, l.exp(v)))
  {
    hide RingLaws;
    assert Carries(l, a, b, v) && Carries(l, b, a, v);
  }

  lemma KeepsValid<G(!new), V(!new), M(!new)>(l: Lie<G, V, M>, a: G, v: V)
    requires LieLaws(l) && l.valid(a)
    ensures l.valid(l.mul(a, l.exp(v)))
  {
    hide RingLaws;
    assert Carries(l, a, a, v);
  }

  /** A factor that has not yet set out does not move anything. */
  lemma NothingYet<G(!new), V(!new), M(!new)>(l: Lie<G, V, M>, a: G, v: V)
    requires LieLaws(l) && l.valid(a)
    ensures l.valid(l.mul(a, l.exp(l.times(0.0, v)))) && l.matrix(l.mul(a, l.exp(l.times(0.0, v)))) == l.matrix(a)
  {
    hide LieLaws, RingLaws;
    var e := l.exp(l.times(0.0, v));
    ExpOfNothing(l, v);
    Homomorphism(l, a, e);
    LawsOfRing(l);
    Zero(l.ring, l.matrix(a));
  }

  lemma Homomorphism<G(!new), V(!new), M(!new)>(l: Lie<G, V, M>, a: G, b: G)
    requires LieLaws(l) && l.valid(a) && l.valid(b)
    ensures l.valid(l.mul(a, b)) && l.matrix(l.mul(a, b)) == l.ring.mul(l.matrix(a), l.matrix(b))
  {
    hide RingLaws;
    assert Multiplies(l, a, b);
  }

  lemma ExpOfNothing<G(!new), V(!new), M(!new)>(l: Lie<G, V, M>, v: V)
    requires LieLaws(l)
    ensures l.valid(l.exp(l.times(0.0, v))) && l.matrix(l.exp(l.times(0.0, v))) == l.ring.one
  {
    hide RingLaws;
    assert StartsAtOne(l, v);
  }

  lemma FactorsAtEnds<G, V, M>(l: Lie<G, V, M>, v: Triple<V>)
    ensures A(l, v, 1.0) == Triple(l.exp(l.times(1.0, v.x0)), l.exp(l.times(5.0 / 6.0, v.x1)), l.exp(l.times(1.0 / 6.0, v.x2)))
    ensures A(l, v, 0.0) == Triple(l.exp(l.times(5.0 / 6.0, v.x0)), l.exp(l.times(1.0 / 6.0, v.x1)), l.exp(l.times(0.0, v.x2)))
  {
    hide DtB, Dt2B;
    BasisAtKnot(1.0);
    hide B;
  }

  /** The value of a segment at its end: the first factor has arrived. */
  lemma ValueAtEnd<G(!new), V(!new), M(!new)>(l: Lie<G, V, M>, p: G, v: Triple<V>)
    requires LieLaws(l)
    ensures ParentTSpline(l, p, v, 1.0) == l.mul(l.mul(l.mul(p, l.exp(v.x0)), l.exp(l.times(5.0 / 6.0, v.x1))), l.exp(l.times(1.0 / 6.0, v.x2)))
  {
    hide LieLaws, A;
    FactorsAtEnds(l, v);
    ExpEnds(l, v.x0, v.x0);
  }

  /** The value of a segment at its start: the last factor has not yet set out. */
  lemma ValueAtStart<G, V, M>(l: Lie<G, V, M>, p: G, v: Triple<V>)
    ensures ParentTSpline(l, p, v, 0.0)
         == l.mul(l.mul(l.mul(p, l.exp(l.times(5.0 / 6.0, v.x0))), l.exp(l.times(1.0 / 6.0, v.x1))), l.exp(l.times(0.0, v.x2)))
  {
    hide A;
    FactorsAtEnds(l, v);
  }

  lemma Unmoved<G(!new), V(!new), M(!new)>(l: Lie<G, V, M>, p: G, v0: V, v1: V, v2: V)
    requires LieLaws(l) && l.valid(p)
    ensures l.matrix(l.mul(l.mul(l.mul(p, l.exp(v0)), l.exp(v1)), l.exp(l.times(0.0, v2)))) == l.matrix(l.mul(l.mul(p, l.exp(v0)), l.exp(v1)))
  {
    hide LieLaws;
    KeepsValid(l, p, v0);
    KeepsValid(l, l.mul(p, l.exp(v0)), v1);
    NothingYet(l, l.mul(l.mul(p, l.exp(v0)), l.exp(v1)), v2);
  }

  /** The two segments at an interior knot, as normal ones on end-replicated control points. */
  lemma Knot<G, V, M>(l: Lie<G, V, M>, points: seq<G>, i: int) returns (v0: V, v1: V, v2: V, v3: V)
    requires |points| >= 2 && 0 <= i < |points| - 2
    ensures v0 == l.log(l.mul(l.inverse(Clamped(points, i - 1)), Clamped(points, i)))
    ensures SegmentControl(l, points, i) == (Clamped(points, i - 1), Triple(v0, v1, v2))
    ensures SegmentControl(l, points, i + 1) == (Clamped(points, i), Triple(v1, v2, v3))
  {
    SegmentsAreNormal(l, points, i);
    SegmentsAreNormal(l, points, i + 1);
    v0, v1, v2 := SegmentControl(l, points, i).1.x0, SegmentControl(l, points, i).1.x1, SegmentControl(l, points, i).1.x2;
    v3 := SegmentControl(l, points, i + 1).1.x2;
    hide SegmentControl;
  }

  /** The spline is C2 across an interior knot if exp undoes log on the one step that ends there:
      the matrix of its value and its first and second derivative are the same from either side. */
  lemma SmoothAtKnots<G(!new), V(!new), M(!new)>(l: Lie<G, V, M>, points: seq<G>, i: int, deltaT: real)
    requires LieLaws(l) && |points| >= 2 && 0 <= i < |points| - 2 && deltaT != 0.0
    requires l.valid(Clamped(points, i - 1)) && l.valid(Clamped(points, i)) && Step(l, Clamped(points, i - 1), Clamped(points, i))
    ensures Evaluate(l, points, i, 1.0).Pass? && Evaluate(l, points, i + 1, 0.0).Pass?
    ensures l.matrix(Evaluate(l, points, i, 1.0).value) == l.matrix(Evaluate(l, points, i + 1, 0.0).value)
    ensures EvaluateDt(l, points, i, 1.0, deltaT) == EvaluateDt(l, points, i + 1, 0.0, deltaT)
    ensures EvaluateDt2(l, points, i, 1.0, deltaT) == EvaluateDt2(l, points, i + 1, 0.0, deltaT)
  {
    hide LieLaws, Clamped, SegmentControl, ParentTSpline, DtParentTSpline, Dt2ParentTSpline, SplineJet, A;
    var p0, p1 := Clamped(points, i - 1), Clamped(points, i);
    var v0, v1, v2, v3 := Knot(l, points, i);
    LogStep(l, p0, p1);
    SameStart(l, p0, p1, v0);
    Keeps(l, l.mul(p0, l.exp(v0)), p1, l.times(5.0 / 6.0, v1));
    Keeps(l, l.mul(l.mul(p0, l.exp(v0)), l.exp(l.times(5.0 / 6.0, v1))), l.mul(p1, l.exp(l.times(5.0 / 6.0, v1))), l.times(1.0 / 6.0, v2));
    ValueAtEnd(l, p0, Triple(v0, v1, v2));
    ValueAtStart(l, p1, Triple(v1, v2, v3));
    Unmoved(l, p1, l.times(5.0 / 6.0, v1), l.times(1.0 / 6.0, v2), v3);
    JetAtKnot(l, p0, p1, v0, v1, v2, v3, deltaT);
    DerivativesOfJet(l, p0, Triple(v0, v1, v2), 1.0, deltaT);
    DerivativesOfJet(l, p1, Triple(v1, v2, v3), 0.0, deltaT);
  }

  lemma SameStart<G(!new), V(!new), M(!new)>(l: Lie<G, V, M>, p0: G, p1: G, v0: V)
    requires LieLaws(l) && l.valid(p0) && l.valid(l.exp(v0)) && l.matrix(p1) == l.ring.mul(l.matrix(p0), l.matrix(l.exp(v0)))
    ensures l.valid(l.mul(p0, l.exp(v0))) && l.matrix(l.mul(p0, l.exp(v0))) == l.matrix(p1)
  {
    hide LieLaws;
    Homomorphism(l, p0, l.exp(v0));
  }

  // ----- the translations of space satisfy the laws -----

  function Add4(m: Mat4, n: Mat4): Mat4 {
    Mat4(MatAdd(m.linear, n.linear), Add(m.offset, n.offset), m.corner + n.corner)
  }

  function Scale4(s: real, m: Mat4): Mat4 {
    Mat4(MatScale(s, m.linear), Scale(s, m.offset), Prod(s, m.corner))
  }

  const ZERO4 := Mat4(ZERO_MATRIX, ZERO, 0.0)

  function Matrices(): Ring<Mat4> {
    Ring((m: Mat4, n: Mat4) => Mul4(m, n), (m: Mat4, n: Mat4) => Add4(m, n), (s: real, m: Mat4) => Scale4(s, m), ZERO4, IDENTITY4)
  }

  /** The translation group: composition adds, and exp and log are the identity. */
  function Cartesian(): Lie<Vec3, Vec3, Mat4> {
    Lie((a: Vec3) => true, (a: Vec3, b: Vec3) => Add(a, b), (a: Vec3) => Neg(a), (v: Vec3) => v, (a: Vec3) => a,
        (s: real, v: Vec3) => Scale(s, v), (a: Vec3) => Mat4(IDENTITY, a, 1.0), (v: Vec3) => Mat4(ZERO_MATRIX, v, 0.0), Matrices())
  }

  lemma Mul4Distributive(l: Mat4, m: Mat4, n: Mat4)
    ensures Mul4(l, Add4(m, n)) == Add4(Mul4(l, m), Mul4(l, n))
    ensures Mul4(Add4(m, n), l) == Add4(Mul4(m, l), Mul4(n, l))
  {
    hide Prod, Mul, Apply, Scale, MatAdd;
    MulAdd(l.linear, m.linear, n.linear);
    ApplyAdd(l.linear, m.offset, n.offset);
    AddScale(m.corner, n.corner, l.offset);
    PSpread(l.corner, m.corner, n.corner);
    ApplyMatAdd(m.linear, n.linear, l.offset);
    ScaleAdd(l.corner, m.offset, n.offset);
    PSpread(m.corner, n.corner, l.corner);
  }

  lemma Units4(m: Mat4)
    ensures Mul4(ZERO4, m) == ZERO4 == Mul4(m, ZERO4)
    ensures Add4(ZERO4, m) == m == Add4(m, ZERO4) && Scale4(0.0, m) == ZERO4 && Scale4(2.0, m) == Add4(m, m)
  {}

  lemma MatricesAreRing()
    ensures RingLaws(Matrices())
  {
    forall x, y, z
      ensures Associates(Matrices(), x, y, z) && Distributes(Matrices(), x, y, z)
    {
      MatricesAt(x, y, z);
    }
    forall x
      ensures HasUnits(Matrices(), x)
    {
      Units4(x);
      Mul4Identity(x);
    }
    hide Associates, Distributes, HasUnits, Mul4, Add4, Scale4;
  }

  lemma MatricesAt(x: Mat4, y: Mat4, z: Mat4)
    ensures Associates(Matrices(), x, y, z) && Distributes(Matrices(), x, y, z)
  {
    Mul4Assoc(x, y, z);
    Mul4Distributive(x, y, z);
    Mul4Distributive(z, x, y);
    AddsUp(x, y, z);
    hide Mul4, Add4, Scale4;
  }

  lemma AddsUp(x: Mat4, y: Mat4, z: Mat4)
    ensures Add4(Add4(x, y), z) == Add4(x, Add4(y, z)) && Add4(x, y) == Add4(y, x)
  {}

  lemma TranslationMatrix(a: Vec3, b: Vec3)
    ensures Mat4(IDENTITY, Add(a, b), 1.0) == Mul4(Mat4(IDENTITY, a, 1.0), Mat4(IDENTITY, b, 1.0))
  {
    MulIdentity(IDENTITY);
    ApplyIdentity(b);
    ScaleUnit(a);
    POnes(1.0);
    hide Prod, Mul, Apply, Scale;
  }

  lemma CartesianGroup()
    ensures GroupLaws(Cartesian())
  {
    hide Mul4, Add;
    var l := Cartesian();
    forall a: Vec3
      ensures Inverts(l, a) && StartsAtOne(l, a)
    {
      TranslationMatrix(a, Neg(a));
      Opposite(a);
      ScaleUnit(a);
    }
    forall a, b
      ensures Multiplies(l, a, b)
    {
      TranslationMatrix(a, b);
    }
    forall a, b, v
      ensures Carries(l, a, b, v)
    {}
  }

  lemma Opposite(a: Vec3)
    ensures Add(a, Neg(a)) == ZERO
  {}

  /** The translations satisfy the laws, and every step between them is as required. */
  lemma CartesianIsLie(p: Vec3, q: Vec3)
    ensures LieLaws(Cartesian()) && Step(Cartesian(), p, q)
  {
    MatricesAreRing();
    CartesianGroup();
    hide RingLaws, GroupLaws;
  }
}
