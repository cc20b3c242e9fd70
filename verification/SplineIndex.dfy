/** From a time to a segment and a position within it. */
module SplineIndex {
  import opened Linear
  import opened Constants
  import opened Checked

  datatype IndexAndU = IndexAndU(i: int, u: real)

  /** modf: the integral part is rounded towards zero. */
  function Truncate(s: real): int {
    if s >= 0.0 then s.Floor else -((-s).Floor)
  }

  function TMax(t0: real, deltaT: real, numSegments: int): real {
    t0 + Prod(deltaT, numSegments as real)
  }

  function Locate(t0: real, deltaT: real, numSegments: int, t: real): Checked<IndexAndU>
    requires deltaT != 0.0
  {
    var tMax := TMax(t0, deltaT, numSegments);
    if t < t0 || t > tMax then Abort
    else
      var s := Quotient(t - t0, deltaT);
      var i := Truncate(s);
      var u := s - i as real;
      if u > EPSILON then Pass(IndexAndU(i, u))
      else if t < 0.5 * tMax then Pass(IndexAndU(i, u))
      else Pass(IndexAndU(i - 1, u + 1.0))
  }

  lemma PScaleOrder(s: real, r: real, d: real)
    requires d > 0.0
    ensures s < r <==> Prod(s, d) < Prod(r, d)
    ensures s == r <==> Prod(s, d) == Prod(r, d)
  {}

  /** Times within the spline are exactly the positions from 0 to the number of segments. */
  lemma Positions(t0: real, deltaT: real, numSegments: int, t: real)
    requires deltaT > 0.0
    ensures var s := Quotient(t - t0, deltaT);
            && (t0 <= t <= TMax(t0, deltaT, numSegments) <==> 0.0 <= s <= numSegments as real)
            && t == t0 + Prod(s, deltaT)
  {}

  /** Whatever branch is taken, index and offset add up to the position. */
  lemma IndexPlusU(t0: real, deltaT: real, numSegments: int, t: real)
    requires deltaT > 0.0 && t0 <= t <= TMax(t0, deltaT, numSegments)
    ensures var r := Locate(t0, deltaT, numSegments, t);
            r.Pass? && r.value.i as real + r.value.u == Quotient(t - t0, deltaT) && 0.0 <= r.value.u <= 1.0 + EPSILON
  {
    Positions(t0, deltaT, numSegments, t);
    hide Prod, Quotient;
  }

  predicate InRange(t0: real, deltaT: real, numSegments: int, t: real)
    requires deltaT != 0.0
  {
    var r := Locate(t0, deltaT, numSegments, t);
    r.Pass? && 0 <= r.value.i < numSegments
  }

  /** The segment index is valid at every time of the spline if and only if the start time
      lies in a window about zero: the code compares t with half of tmax wherever t0 is. */
  lemma IndexInRange(t0: real, deltaT: real, numSegments: int)
    requires deltaT > 0.0 && numSegments >= 1
    ensures (forall t :: t0 <= t <= TMax(t0, deltaT, numSegments) ==> InRange(t0, deltaT, numSegments, t))
       <==> -Prod(deltaT, numSegments as real) <= t0 < Prod(deltaT, numSegments as real - 2.0 * EPSILON)
  {
    hide Prod, Quotient;
    var tMax := TMax(t0, deltaT, numSegments);
    PWindow(deltaT, numSegments as real);
    if -Prod(deltaT, numSegments as real) <= t0 < Prod(deltaT, numSegments as real - 2.0 * EPSILON) {
      forall t | t0 <= t <= tMax
        ensures InRange(t0, deltaT, numSegments, t)
      {
        EveryTime(t0, deltaT, numSegments, t);
      }
    } else if t0 < -Prod(deltaT, numSegments as real) {
      LastTime(t0, deltaT, numSegments);
      assert t0 <= tMax <= tMax && !InRange(t0, deltaT, numSegments, tMax);
    } else {
      var t := t0 + Prod(EPSILON, deltaT);
      EarlyTime(t0, deltaT, numSegments, t);
      assert t0 <= t <= tMax && !InRange(t0, deltaT, numSegments, t);
    }
  }

  lemma PWindow(d: real, n: real)
    ensures Prod(d, n - 2.0 * EPSILON) == Prod(d, n) - 2.0 * Prod(EPSILON, d)
  {}

  lemma EveryTime(t0: real, deltaT: real, numSegments: int, t: real)
    requires deltaT > 0.0 && numSegments >= 1 && t0 <= t <= TMax(t0, deltaT, numSegments)
    requires -Prod(deltaT, numSegments as real) <= t0 < Prod(deltaT, numSegments as real) - 2.0 * Prod(EPSILON, deltaT)
    ensures InRange(t0, deltaT, numSegments, t)
  {
    hide Prod, Quotient;
    Positions(t0, deltaT, numSegments, t);
    var s := Quotient(t - t0, deltaT);
    PScaleOrder(s, numSegments as real, deltaT);
    PScaleOrder(EPSILON, s, deltaT);
    PSym(deltaT, numSegments as real);
  }

  /** With tmax negative the end of the spline is in the first half, and falls past the last segment. */
  lemma LastTime(t0: real, deltaT: real, numSegments: int)
    requires deltaT > 0.0 && numSegments >= 1 && t0 < -Prod(deltaT, numSegments as real)
    ensures t0 <= TMax(t0, deltaT, numSegments) && !InRange(t0, deltaT, numSegments, TMax(t0, deltaT, numSegments))
  {
    hide Prod, Quotient;
    var tMax := TMax(t0, deltaT, numSegments);
    var s := Quotient(tMax - t0, deltaT);
    PSym(deltaT, numSegments as real);
    PScaleOrder(s, numSegments as real, deltaT);
    PScaleOrder(0.0, numSegments as real, deltaT);
    POnes(deltaT);
  }

  /** With t0 late the first times are in the second half, and fall before the first segment. */
  lemma EarlyTime(t0: real, deltaT: real, numSegments: int, t: real)
    requires deltaT > 0.0 && numSegments >= 1 && t == t0 + Prod(EPSILON, deltaT)
    requires t0 >= Prod(deltaT, numSegments as real) - 2.0 * Prod(EPSILON, deltaT)
    ensures t0 <= t <= TMax(t0, deltaT, numSegments) && !InRange(t0, deltaT, numSegments, t)
  {
    hide Prod, Quotient;
    var s := Quotient(t - t0, deltaT);
    PSym(deltaT, numSegments as real);
    PScaleOrder(s, EPSILON, deltaT);
    PScaleOrder(0.0, EPSILON, deltaT);
    PScaleOrder(EPSILON, numSegments as real, deltaT);
    POnes(deltaT);
  }
}
