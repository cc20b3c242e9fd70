/** The spline as a function of time: finding the segment, then evaluating it. */
module SplineTime {
  import opened Linear
  import opened Constants
  import opened Checked
  import opened Spline
  import opened SplineIndex

  /** The value at a time. A spline of n control points has n - 1 segments. */
  function ValueAt<G, V, M>(l: Lie<G, V, M>, points: seq<G>, t0: real, deltaT: real, t: real): Checked<G>
    requires |points| >= 2 && deltaT != 0.0
  {
    match Locate(t0, deltaT, |points| - 1, t)
    case Pass(r) => Evaluate(l, points, r.i, r.u)
    case Abort => Abort
  }

  /** The value passes at all times of the spline if and only if the start time lies in the window
      of IndexInRange, whatever the group and the control points. */
  lemma PassesExactlyWhen<G, V, M>(l: Lie<G, V, M>, points: seq<G>, t0: real, deltaT: real)
    requires |points| >= 2 && deltaT > 0.0
    ensures var n := (|points| - 1) as real;
            (forall t :: t0 <= t <= TMax(t0, deltaT, |points| - 1) ==> ValueAt(l, points, t0, deltaT, t).Pass?)
            <==> -Prod(deltaT, n) <= t0 < Prod(deltaT, n - 2.0 * EPSILON)
  {
    hide Prod, Locate, ParentTSpline, SegmentControl, TMax, ValueAt, InRange;
    var n := |points| - 1;
    IndexInRange(t0, deltaT, n);
    if forall t :: t0 <= t <= TMax(t0, deltaT, n) ==> ValueAt(l, points, t0, deltaT, t).Pass? {
      forall t | t0 <= t <= TMax(t0, deltaT, n)
        ensures InRange(t0, deltaT, n, t)
      {
        PassesInRange(l, points, t0, deltaT, t);
      }
    }
    if forall t :: t0 <= t <= TMax(t0, deltaT, n) ==> InRange(t0, deltaT, n, t) {
      forall t | t0 <= t <= TMax(t0, deltaT, n)
        ensures ValueAt(l, points, t0, deltaT, t).Pass?
      {
        PassesInRange(l, points, t0, deltaT, t);
      }
    }
  }

  lemma PassesInRange<G, V, M>(l: Lie<G, V, M>, points: seq<G>, t0: real, deltaT: real, t: real)
    requires |points| >= 2 && deltaT != 0.0
    ensures ValueAt(l, points, t0, deltaT, t).Pass? <==> InRange(t0, deltaT, |points| - 1, t)
  {
    hide Locate, ParentTSpline, SegmentControl;
  }

  /** The position of a time within its segment. */
  function Past(t0: real, deltaT: real, t: real): real
    requires deltaT != 0.0
  {
    Quotient(t - t0, deltaT) - Quotient(t - t0, deltaT).Floor as real
  }

  /** A segment is evaluated beyond its end exactly at the times of the second half that lie within
      epsilon after a knot; at the knots of the second half it is evaluated at its end. At all
      other times the segment is the one that contains the time. */
  lemma BeyondExactlyWhen(t0: real, deltaT: real, numSegments: int, t: real)
    requires deltaT > 0.0 && t0 <= t <= TMax(t0, deltaT, numSegments)
    ensures Locate(t0, deltaT, numSegments, t).Pass?
    ensures var r, past, k := Locate(t0, deltaT, numSegments, t).value, Past(t0, deltaT, t), Quotient(t - t0, deltaT).Floor;
            var late := t >= 0.5 * TMax(t0, deltaT, numSegments);
            && (r.u > 1.0 <==> late && 0.0 < past <= EPSILON)
            && (r.u == 1.0 <==> late && past == 0.0)
            && (late && past <= EPSILON ==> r == IndexAndU(k - 1, 1.0 + past))
            && (!(late && past <= EPSILON) ==> r == IndexAndU(k, past))
  {
    Positions(t0, deltaT, numSegments, t);
    hide Prod, Quotient, TMax;
  }

  // ----- what a segment beyond its end gives -----

  /** The basis beyond the knot, against the basis of the next segment: it lacks the jumps of the
      third derivatives. */
  lemma BasisBeyondKnot(h: real)
    ensures var c, b := h * (h * h) / 6.0, B(h);
            B(1.0 + h) == Vec3(1.0 + c, b.x - 3.0 * c, b.y + 3.0 * c) && b.z == c
  {
    PBeyond(h);
  }

  lemma PBeyond(h: real)
    ensures Cubic(5.0 / 6.0, 3.0 / 6.0, -3.0 / 6.0, 1.0 / 6.0, 1.0 + h) == 1.0 + h * (h * h) / 6.0
    ensures Cubic(1.0 / 6.0, 3.0 / 6.0, 3.0 / 6.0, -2.0 / 6.0, 1.0 + h) == Cubic(5.0 / 6.0, 3.0 / 6.0, -3.0 / 6.0, 1.0 / 6.0, h) - 3.0 * (h * (h * h) / 6.0)
    ensures Cubic(0.0, 0.0, 0.0, 1.0 / 6.0, 1.0 + h) == Cubic(1.0 / 6.0, 3.0 / 6.0, 3.0 / 6.0, -2.0 / 6.0, h) + 3.0 * (h * (h * h) / 6.0)
    ensures Cubic(0.0, 0.0, 0.0, 1.0 / 6.0, h) == h * (h * h) / 6.0
  {}

  /** The fourth difference of the control points around index k. */
  function FourthDifference(points: seq<Vec3>, k: int): Vec3
    requires |points| >= 1
  {
    Add(Sub(Clamped(points, k + 2), Scale(4.0, Clamped(points, k + 1))),
        Add(Scale(6.0, Clamped(points, k)), Sub(Clamped(points, k - 2), Scale(4.0, Clamped(points, k - 1)))))
  }

  /** For translations: the segment before knot k, evaluated by h beyond its end, misses the value
      of the segment after it by h^3 / 6 times the fourth difference. */
  lemma BeyondKnot(points: seq<Vec3>, k: int, h: real)
    requires |points| >= 2 && 1 <= k < |points| - 1
    ensures Evaluate(Cartesian(), points, k - 1, 1.0 + h).Pass? && Evaluate(Cartesian(), points, k, h).Pass?
    ensures Evaluate(Cartesian(), points, k, h).value
         == Add(Evaluate(Cartesian(), points, k - 1, 1.0 + h).value, Scale(h * (h * h) / 6.0, FourthDifference(points, k)))
  {
    BasisBeyondKnot(h);
    hide Prod, B, Clamped, SegmentControl;
    var l := Cartesian();
    var v0, v1, v2, v3 := Knot(l, points, k - 1);
    KnotVectors(points, k, v1, v2, v3);
    var c, b := h * (h * h) / 6.0, B(h);
    var p, q, r, s, t := Clamped(points, k - 2), Clamped(points, k - 1), Clamped(points, k), Clamped(points, k + 1), Clamped(points, k + 2);
    PBeyondRow(c, b.x, b.y, p.x, q.x, r.x, s.x, t.x);
    PBeyondRow(c, b.x, b.y, p.y, q.y, r.y, s.y, t.y);
    PBeyondRow(c, b.x, b.y, p.z, q.z, r.z, s.z, t.z);
  }

  lemma KnotVectors(points: seq<Vec3>, k: int, v1: Vec3, v2: Vec3, v3: Vec3)
    requires |points| >= 2 && 1 <= k < |points| - 1
    requires SegmentControl(Cartesian(), points, k).1 == Triple(v1, v2, v3)
    ensures v1 == Add(Neg(Clamped(points, k - 1)), Clamped(points, k))
    ensures v2 == Add(Neg(Clamped(points, k)), Clamped(points, k + 1)) && v3 == Add(Neg(Clamped(points, k + 1)), Clamped(points, k + 2))
  {
    SegmentsAreNormal(Cartesian(), points, k);
    hide Clamped, SegmentControl;
  }

  lemma PBeyondRow(c: real, bx: real, b1: real, p: real, q: real, r: real, s: real, t: real)
    ensures q + Prod(bx, -q + r) + Prod(b1, -r + s) + Prod(c, -s + t)
         == p + Prod(1.0 + c, -p + q) + Prod(bx - 3.0 * c, -q + r) + Prod(b1 + 3.0 * c, -r + s)
          + Prod(c, t - Prod(4.0, s) + (Prod(6.0, r) + (p - Prod(4.0, q))))
  {}

  /** So at a time within epsilon after an interior knot of the second half the spline has the
      value of the segment that contains the time if and only if the fourth difference vanishes. */
  lemma RightExactlyWhen(points: seq<Vec3>, t0: real, deltaT: real, t: real)
    requires |points| >= 2 && deltaT > 0.0 && t0 <= t <= TMax(t0, deltaT, |points| - 1)
    requires t >= 0.5 * TMax(t0, deltaT, |points| - 1) && 0.0 < Past(t0, deltaT, t) <= EPSILON
    requires 1 <= Quotient(t - t0, deltaT).Floor < |points| - 1
    ensures var k := Quotient(t - t0, deltaT).Floor;
            && ValueAt(Cartesian(), points, t0, deltaT, t).Pass?
            && (ValueAt(Cartesian(), points, t0, deltaT, t) == Evaluate(Cartesian(), points, k, Past(t0, deltaT, t)) <==> FourthDifference(points, k) == ZERO)
  {
    hide Prod, Quotient, TMax, Locate, Evaluate, FourthDifference, Cartesian;
    var k, h := Quotient(t - t0, deltaT).Floor, Past(t0, deltaT, t);
    BeyondExactlyWhen(t0, deltaT, |points| - 1, t);
    BeyondKnot(points, k, h);
    PositiveProduct(h, h, h * h);
    PositiveProduct(h, h * h, h * (h * h));
    NotMoved(Evaluate(Cartesian(), points, k - 1, 1.0 + h).value, h * (h * h) / 6.0, FourthDifference(points, k));
  }

  lemma NotMoved(p: Vec3, c: real, d: Vec3)
    requires c > 0.0
    ensures Add(p, Scale(c, d)) == p <==> d == ZERO
  {}
}
