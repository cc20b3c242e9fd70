/** Which translation survives calcW followed by calcWInv, for every angle and every scale. */
module TranslationBands {
  import opened Linear
  import opened Skew
  import opened SimDetails
  import opened Elementary
  import opened SimBands
  import PlanarBands
  import So3
  import Sim3Exp

  /** Along the axis the logarithm of the scale has to be exact or the translation without a
      component there; across the axis the two complex numbers have to cancel or the translation
      to be without a component there. Without an axis every direction is along it. */
  predicate Kept(omega: Vec3, theta: real, sigma: real, sine: real, cosine: real, u: Vec3) {
    && (Exact(sigma) || if omega == ZERO then u == ZERO else Dot(omega, u) == 0.0)
    && ((Exact(theta) && Exact(sigma)) || PlanarBands.Cancelling(theta, sigma, sine, cosine) || Cross(omega, u) == ZERO)
  }

  // ----- the vectors that a polynomial in a hat matrix leaves alone -----

  predicate Fixed(omega: Vec3, p: Poly, u: Vec3) {
    if omega == ZERO then p.c == 1.0 || u == ZERO
    else (p.c == 1.0 || Dot(omega, u) == 0.0) && (PlanarOne(SquaredNorm(omega), p) || Cross(omega, u) == ZERO)
  }

  lemma FixedExactlyWhen(omega: Vec3, p: Poly, u: Vec3)
    ensures PolyAct(omega, p, u) == u <==> Fixed(omega, p, u)
  {
    hide Prod, Dot, Cross, SquaredNorm, PolyAct, PlanarOne, Scale;
    if omega == ZERO {
      NoAxis(p, u);
    } else if Fixed(omega, p, u) {
      FixedBack(omega, p, u);
    } else if PolyAct(omega, p, u) == u {
      FixedAlong(omega, p, u);
      FixedAcross(omega, p, u);
    }
  }

  lemma NoAxis(p: Poly, u: Vec3)
    ensures PolyAct(ZERO, p, u) == u <==> p.c == 1.0 || u == ZERO
  {
    hide Prod, Cross;
    ZeroCross(u);
    ZeroCross(ZERO);
    POnes(p.a);
    POnes(p.b);
    POnes(p.c);
    POnes(u.x);
    POnes(u.y);
    POnes(u.z);
    PFixedEntry(p.c, u.x);
    PFixedEntry(p.c, u.y);
    PFixedEntry(p.c, u.z);
  }

  lemma PFixedEntry(c: real, x: real)
    ensures Prod(c, x) == x <==> c == 1.0 || x == 0.0
  {
    if Prod(c, x) == x && x != 0.0 {
      PSym(c, x);
      POnes(x);
      PCancel(x, c, 1.0);
    }
  }

  lemma FixedAlong(omega: Vec3, p: Poly, u: Vec3)
    requires PolyAct(omega, p, u) == u
    ensures p.c == 1.0 || Dot(omega, u) == 0.0
  {
    var v := Cross(omega, u);
    DotOfSum(omega, p, u, v, Cross(omega, v));
    CrossPerpendicular(omega, u);
    CrossPerpendicular(omega, v);
    DotSym(omega, v);
    DotSym(omega, Cross(omega, v));
    POnes(p.a);
    POnes(p.b);
    PFixedEntry(p.c, Dot(omega, u));
    hide Prod, Dot, Cross;
  }

  lemma FixedAcross(omega: Vec3, p: Poly, u: Vec3)
    requires PolyAct(omega, p, u) == u && omega != ZERO
    ensures PlanarOne(SquaredNorm(omega), p) || Cross(omega, u) == ZERO
  {
    hide Prod, Dot, Cross, Scale;
    var n, v := SquaredNorm(omega), Cross(omega, u);
    var w := Cross(omega, v);
    CrossComb3(omega, p.c, u, p.a, v, p.b, w);
    CubeRule(omega, u);
    CrossPerpendicular(omega, v);
    DotSym(v, w);
    DotScaledRight(-n, v, v);
    DotScaledRight(-n, w, v);
    DotOfSum(v, p, v, w, Scale(-n, v));
    DotOfSum(w, p, v, w, Scale(-n, v));
    PComponents(p.a, p.b, p.c, n, SquaredNorm(v), SquaredNorm(w));
    NormDefinite(v);
    NormDefinite(omega);
    if v != ZERO {
      Lagrange(omega, v);
      CrossPerpendicular(omega, u);
      DotSym(omega, v);
      POnes(0.0);
      NonzeroProd(n, SquaredNorm(v));
      PCancel(SquaredNorm(w), p.a, 0.0);
      POnes(SquaredNorm(v));
      PCancel(SquaredNorm(v), p.c - Prod(n, p.b), 1.0);
    }
  }

  lemma FixedBack(omega: Vec3, p: Poly, u: Vec3)
    requires omega != ZERO && Fixed(omega, p, u)
    ensures PolyAct(omega, p, u) == u
  {
    hide Prod, Dot, Cross;
    var n, d, v := SquaredNorm(omega), Dot(omega, u), Cross(omega, u);
    var w := Cross(omega, v);
    NormDefinite(omega);
    BacCab(omega, omega, u);
    CrossZero(omega);
    AlongVanishes(p.c, d);
    PFixedRow(n, p.c, p.a, p.b, d, omega.x, u.x, v.x, w.x);
    PFixedRow(n, p.c, p.a, p.b, d, omega.y, u.y, v.y, w.y);
    PFixedRow(n, p.c, p.a, p.b, d, omega.z, u.z, v.z, w.z);
  }

  lemma AlongVanishes(c: real, d: real)
    requires c == 1.0 || d == 0.0
    ensures Prod(c - 1.0, d) == 0.0
  {}

  /** One coordinate: x is n times smaller than d o - z. */
  lemma PFixedRow(n: real, c: real, a: real, b: real, d: real, o: real, x: real, y: real, z: real)
    requires n != 0.0 && z == Prod(d, o) - Prod(n, x) && Prod(c - 1.0, d) == 0.0
    requires (a == 0.0 && c - Prod(n, b) == 1.0) || (y == 0.0 && z == 0.0)
    ensures Prod(c, x) + Prod(a, y) + Prod(b, z) == x
  {
    PFixedTimes(n, c, a, b, d, o, x, y, z);
    PCancel(n, Prod(c, x) + Prod(a, y) + Prod(b, z) - x, 0.0) by { POnes(n); }
    hide Prod;
  }

  lemma PFixedTimes(n: real, c: real, a: real, b: real, d: real, o: real, x: real, y: real, z: real)
    requires z == Prod(d, o) - Prod(n, x) && Prod(c - 1.0, d) == 0.0
    requires (a == 0.0 && c - Prod(n, b) == 1.0) || (y == 0.0 && z == 0.0)
    ensures Prod(n, Prod(c, x) + Prod(a, y) + Prod(b, z) - x) == 0.0
  {
    assert Prod(n, Prod(c, x) + Prod(a, y) + Prod(b, z) - x) == (c - 1.0) * (n * x) + a * (n * y) + (n * b) * z;
    assert (c - 1.0) * (n * x) == (c - 1.0) * d * o - (c - 1.0) * z;
  }

  // ----- W and its inverse -----

  lemma AxisExactlyWhen(theta: real, sigma: real, scale: real, sine: real, cosine: real)
    requires Values(theta, sigma, scale, sine, cosine)
    ensures Composed(theta, sigma, scale, sine, cosine).c == 1.0 <==> Exact(sigma)
  {
    hide Prod, Values, Composed;
    if !Exact(sigma) {
      ScaleBand(theta, sigma, scale, sine, cosine);
    } else {
      AxisIsOne(theta, sigma, scale, sine, cosine);
    }
  }

  lemma AxisIsOne(theta: real, sigma: real, scale: real, sine: real, cosine: real)
    requires Values(theta, sigma, scale, sine, cosine) && Exact(sigma)
    ensures Composed(theta, sigma, scale, sine, cosine).c == 1.0
  {
    ValuesParts(theta, sigma, scale, sine, cosine);
    POnes(1.0);
    POnes(0.0);
    if sigma != 0.0 {
      LargeIsNotSmall(sigma);
      PInverseQuotients(scale - 1.0, sigma);
    }
    hide Prod, Quotient;
  }

  lemma PInverseQuotients(x: real, y: real)
    requires x != 0.0 && y != 0.0
    ensures Prod(Quotient(x, y), Quotient(y, x)) == 1.0
  {
    hide Prod, Quotient;
    var q, r := Quotient(x, y), Quotient(y, x);
    PAssoc(q, r, x);
    PSym(x, Prod(q, r));
    POnes(x);
    PCancel(x, Prod(q, r), 1.0);
  }

  /** Log's inverse of W brings one translation back, and W brings back what the inverse makes of
      it, if and only if it is kept. */
  lemma ActionExactlyWhen(omega: Vec3, theta: real, sigma: real, scale: real, sine: real, cosine: real, u: Vec3)
    requires Values(theta, sigma, scale, sine, cosine) && Prod(theta, theta) == SquaredNorm(omega) && (theta != 0.0 ==> cosine != 1.0)
    ensures Transcendental(sigma, scale, sine, cosine)
    ensures var w, x := Sim3Exp.W(omega, theta, sigma, scale, sine, cosine), Sim3Exp.WInv(omega, theta, sigma, scale, sine, cosine);
            && (Apply(x, Apply(w, u)) == u <==> Kept(omega, theta, sigma, sine, cosine, u))
            && (Apply(w, Apply(x, u)) == u <==> Kept(omega, theta, sigma, sine, cosine, u))
  {
    hide CalcW, CalcWInv, PolyTimes, PolyMatrix, PolyAct, Values, PlanarOne, AngleBounds, ScaleBounds, Apply, Dot, Cross, SquaredNorm, Prod;
    ValuesParts(theta, sigma, scale, sine, cosine);
    var w, x, n := CalcW(theta, sigma, scale, sine, cosine), CalcWInv(theta, sigma, scale, sine, cosine), SquaredNorm(omega);
    ApplyPoly(omega, w, u);
    ApplyPoly(omega, x, u);
    ApplyPoly(omega, x, PolyAct(omega, w, u));
    ApplyPoly(omega, w, PolyAct(omega, x, u));
    PolyActTimes(omega, x, w, u);
    PolyActTimes(omega, w, x, u);
    So3.PolyTimesSym(n, w, x);
    FixedExactlyWhen(omega, PolyTimes(n, w, x), u);
    KeptIsFixed(omega, theta, sigma, scale, sine, cosine, u);
  }

  lemma KeptIsFixed(omega: Vec3, theta: real, sigma: real, scale: real, sine: real, cosine: real, u: Vec3)
    requires Values(theta, sigma, scale, sine, cosine) && Prod(theta, theta) == SquaredNorm(omega) && (theta != 0.0 ==> cosine != 1.0)
    ensures Fixed(omega, Composed(theta, sigma, scale, sine, cosine), u) <==> Kept(omega, theta, sigma, sine, cosine, u)
  {
    hide Values, Composed, Exact, PlanarOne, PlanarBands.Cancelling, Dot, Cross, SquaredNorm, Prod;
    AxisExactlyWhen(theta, sigma, scale, sine, cosine);
    AngleOfAxis(omega, theta);
    if omega == ZERO {
      ZeroCross(u);
    } else {
      PlanarBands.ProductExactlyWhen(theta, sigma, scale, sine, cosine);
      PlanarBands.ComplexOne(theta, Composed(theta, sigma, scale, sine, cosine));
    }
  }

  /** All translations are kept if and only if angle and logarithm of the scale are both exact. */
  lemma KeptAllExactlyWhen(omega: Vec3, theta: real, sigma: real, sine: real, cosine: real)
    requires Prod(theta, theta) == SquaredNorm(omega) && AngleBounds(theta, sine, cosine)
    ensures (forall u :: Kept(omega, theta, sigma, sine, cosine, u)) <==> Exact(theta) && Exact(sigma)
  {
    hide Dot, Cross, SquaredNorm, Prod, AngleBounds, Exact, PlanarBands.Cancelling;
    AngleOfAxis(omega, theta);
    ZeroIsExact(theta);
    if forall u :: Kept(omega, theta, sigma, sine, cosine, u) {
      if omega == ZERO {
        assert Kept(omega, theta, sigma, sine, cosine, E0);
      } else {
        NormDefinite(omega);
        DotIsNorm(omega);
        assert Kept(omega, theta, sigma, sine, cosine, omega);
        var u := Perpendicular(omega);
        assert Kept(omega, theta, sigma, sine, cosine, u);
        if PlanarBands.Cancelling(theta, sigma, sine, cosine) {
          Compensated(theta, sigma, sine, cosine);
        }
      }
    }
  }

  lemma Compensated(theta: real, sigma: real, sine: real, cosine: real)
    requires AngleBounds(theta, sine, cosine) && PlanarBands.Cancelling(theta, sigma, sine, cosine)
    ensures !Exact(sigma)
  {
    PlanarBands.CompensationIsTiny(theta, sine, cosine);
    hide Prod, AngleBounds, Exact;
  }

  lemma DotIsNorm(omega: Vec3)
    ensures Dot(omega, omega) == SquaredNorm(omega)
  {}
}
