/** The partial derivatives of the coefficients of calcW: the closed forms against
    the formulas of calcW evaluated on dual numbers. */
module SimDerivatives {
  import opened Linear
  import opened Skew
  import opened Constants
  import opened SimDetails
  import Elementary

  /** A value with its derivative along one variable. */
  datatype Dual = Dual(v: real, d: real)

  function Const(x: real): Dual {
    Dual(x, 0.0)
  }

  function DAdd(x: Dual, y: Dual): Dual {
    Dual(x.v + y.v, x.d + y.d)
  }

  function DSub(x: Dual, y: Dual): Dual {
    Dual(x.v - y.v, x.d - y.d)
  }

  /** Product rule. */
  function DMul(x: Dual, y: Dual): Dual {
    Dual(Prod(x.v, y.v), Prod(x.d, y.v) + Prod(x.v, y.d))
  }

  /** Quotient rule. */
  function DDiv(x: Dual, y: Dual): Dual
    requires y.v != 0.0
  {
    NonzeroProd(y.v, y.v);
    Dual(Quotient(x.v, y.v), Quotient(Prod(x.d, y.v) - Prod(x.v, y.d), Prod(y.v, y.v)))
  }

  datatype Coefficients = Coefficients(c: Dual, a: Dual, b: Dual)

  /** calcW on dual numbers: the branch is chosen by the values. */
  function CalcWDual(theta: Dual, sigma: Dual, scale: Dual, sine: Dual, cosine: Dual): Coefficients {
    var one, half := Const(1.0), Const(0.5);
    if Small(sigma.v) then
      if Small(theta.v) then
        Coefficients(one, half, Const(1.0 / 6.0))
      else
        Powers(theta.v);
        var thetaSq := DMul(theta, theta);
        Coefficients(one, DDiv(DSub(one, cosine), thetaSq), DDiv(DSub(theta, sine), DMul(thetaSq, theta)))
    else
      var cc := DDiv(DSub(scale, one), sigma);
      if Small(theta.v) then
        Powers(sigma.v);
        var sigmaSq := DMul(sigma, sigma);
        Coefficients(cc, DDiv(DAdd(DMul(DSub(sigma, one), scale), one), sigmaSq),
          DDiv(DSub(DSub(DAdd(DMul(DMul(scale, half), sigmaSq), scale), one), DMul(sigma, scale)), DMul(sigmaSq, sigma)))
      else
        Denominators(theta.v, sigma.v);
        var thetaSq := DMul(theta, theta);
        var a := DMul(scale, sine);
        var b := DMul(scale, cosine);
        var c := DAdd(thetaSq, DMul(sigma, sigma));
        Coefficients(cc, DDiv(DAdd(DMul(a, sigma), DMul(DSub(one, b), theta)), DMul(theta, c)),
          DDiv(DMul(DSub(cc, DDiv(DAdd(DMul(DSub(b, one), sigma), DMul(a, theta)), c)), one), thetaSq))
  }

  /** The values of the dual evaluation are the coefficients of calcW. */
  lemma DualValues(theta: Dual, sigma: Dual, scale: Dual, sine: Dual, cosine: Dual)
    ensures var k := CalcWDual(theta, sigma, scale, sine, cosine);
            Poly(k.c.v, k.a.v, k.b.v) == CalcW(theta.v, sigma.v, scale.v, sine.v, cosine.v)
  {
    PHalf(scale.v);
    if !Small(sigma.v) && !Small(theta.v) {
      Denominators(theta.v, sigma.v);
      var a, b := Prod(scale.v, sine.v), Prod(scale.v, cosine.v);
      var c := Prod(theta.v, theta.v) + Prod(sigma.v, sigma.v);
      POnes(Quotient(scale.v - 1.0, sigma.v) - Quotient(Prod(b - 1.0, sigma.v) + Prod(a, theta.v), c));
    }
    hide Prod, Quotient;
  }

  lemma PHalf(x: real)
    ensures Prod(x, 0.5) == x * 0.5
  {}

  /** The output of calcW_derivatives. */
  datatype Derivatives = Derivatives(aSigma: real, bSigma: real, cSigma: real, aTheta: real, bTheta: real)

  function CalcWDerivatives(theta: real, sigma: real, scale: real, sine: real, cosine: real): Derivatives {
    var thetaSq, sigmaSq := Prod(theta, theta), Prod(sigma, sigma);
    var thetaC, sigmaC := Prod(theta, thetaSq), Prod(sigma, sigmaSq);
    if Small(sigma) then
      if Small(theta) then
        Derivatives(0.0, 0.0, 0.5, 0.0, 0.0)
      else
        PowersTo4(theta);
        Derivatives(
          Quotient(sine - Prod(theta, cosine), thetaC),
          Quotient(0.5 - Quotient(cosine + Prod(theta, sine) - 1.0, thetaSq), thetaSq),
          0.5,
          Quotient(Prod(theta, sine) + 2.0 * cosine - 2.0, thetaC),
          Quotient(-(2.0 * theta - 3.0 * sine + Prod(theta, cosine)), Prod(thetaC, theta)))
    else
      PowersTo4(sigma);
      var cSigma := Quotient(Prod(scale, sigma - 1.0) + 1.0, sigmaSq);
      if Small(theta) then
        Derivatives(
          Quotient(Prod(scale, sigmaSq - 2.0 * sigma + 2.0) - 2.0, sigmaC),
          Quotient(Prod(scale, 0.5 * sigmaC - 1.5 * sigmaSq + 3.0 * sigma - 3.0) + 3.0, Prod(sigmaC, sigma)),
          cSigma, 0.0, 0.0)
      else
        PowersTo4(theta);
        var a, b := Prod(scale, sine), Prod(scale, cosine);
        var bOne := b - 1.0;
        var thetaBOne := Prod(theta, bOne);
        var c := thetaSq + sigmaSq;
        GeneralDenominators(theta, sigma, c);
        var cSq := Prod(c, c);
        var thetaSqC := Prod(thetaSq, c);
        var aTheta, bTheta, cTheta := Prod(theta, a), Prod(theta, b), Prod(theta, c);
        var aSigma, bSigma := Prod(sigma, a), Prod(sigma, b);
        var sigmaBOne := Prod(sigma, bOne);
        Derivatives(
          Quotient(a - bTheta + aSigma, cTheta) - Quotient(Prod(2.0 * sigma, theta - bTheta + aSigma), Prod(theta, cSq)),
          Quotient(-(Quotient(bSigma + aTheta + bOne, c) + Quotient(scale - 1.0, sigmaSq)
                     - Quotient(Prod(2.0 * sigma, sigmaBOne + aTheta), cSq) - Quotient(scale, sigma)), thetaSq),
          cSigma,
          Quotient(2.0 * (thetaBOne - aSigma), cSq) + Quotient(bSigma - b + aTheta + 1.0, cTheta) + Quotient(thetaBOne - aSigma, thetaSqC),
          Quotient(Quotient(Prod(2.0 * theta, bSigma - sigma + aTheta), cSq) - Quotient(a + bTheta - aSigma, c), thetaSq)
          - Quotient(2.0 * (Quotient(scale - 1.0, sigma) - Quotient(bSigma - sigma + aTheta, c)), thetaC))
  }

  lemma PowersTo4(x: real)
    requires x != 0.0
    ensures Prod(x, x) > 0.0 && Prod(x, Prod(x, x)) != 0.0 && Prod(Prod(x, Prod(x, x)), x) != 0.0
  {
    Powers(x);
    NonzeroProd(x, Prod(x, x));
    NonzeroProd(Prod(x, Prod(x, x)), x);
  }

  lemma GeneralDenominators(theta: real, sigma: real, c: real)
    requires theta != 0.0 && sigma != 0.0 && c == Prod(theta, theta) + Prod(sigma, sigma)
    ensures c > 0.0 && Prod(c, c) != 0.0 && Prod(theta, c) != 0.0 && Prod(Prod(theta, theta), c) != 0.0 && Prod(theta, Prod(c, c)) != 0.0
  {
    hide Prod;
    Denominators(theta, sigma);
    NonzeroProd(c, c);
    NonzeroProd(theta, c);
    NonzeroProd(Prod(theta, theta), c);
    NonzeroProd(theta, Prod(c, c));
  }

  /** Clearing one denominator. */
  lemma Clear(k: real, x: real, d: real, e: real)
    requires d != 0.0 && k == Prod(d, e)
    ensures Prod(k, Quotient(x, d)) == Prod(e, x)
  {}

  // ----- both coefficients large -----

  /** A along theta: n = N is the numerator of A, m its derivative. */
  lemma GeneralATheta(theta: real, c: real, n: real, m: real)
    requires c > 0.0 && theta != 0.0
    requires Prod(c, c) != 0.0 && Prod(theta, c) != 0.0 && Prod(Prod(theta, theta), c) != 0.0 && Prod(Prod(theta, c), Prod(theta, c)) != 0.0
    ensures Quotient(Prod(m, Prod(theta, c)) - Prod(n, Prod(1.0, c) + Prod(theta, Prod(1.0, theta) + Prod(theta, 1.0))), Prod(Prod(theta, c), Prod(theta, c)))
         == Quotient(2.0 * (-n), Prod(c, c)) + Quotient(m, Prod(theta, c)) + Quotient(-n, Prod(Prod(theta, theta), c))
  {
    hide Prod, Quotient;
    var d := Prod(theta, c);
    var k := Prod(d, d);
    var u := Prod(m, d) - Prod(n, Prod(1.0, c) + Prod(theta, Prod(1.0, theta) + Prod(theta, 1.0)));
    var left := Quotient(u, k);
    PSym(left, k);
    PSquares(theta, c);
    Clear(k, 2.0 * (-n), Prod(c, c), Prod(theta, theta));
    Clear(k, m, d, d);
    Clear(k, -n, Prod(Prod(theta, theta), c), c);
    PThree(k, Quotient(2.0 * (-n), Prod(c, c)), Quotient(m, d), Quotient(-n, Prod(Prod(theta, theta), c)));
    PATheta(theta, c, n, m);
    PCancel(k, left, Quotient(2.0 * (-n), Prod(c, c)) + Quotient(m, d) + Quotient(-n, Prod(Prod(theta, theta), c)));
  }

  lemma PThree(k: real, x: real, y: real, z: real)
    ensures Prod(k, x + y + z) == Prod(k, x) + Prod(k, y) + Prod(k, z)
    ensures Prod(k, x - y) == Prod(k, x) - Prod(k, y)
    ensures Prod(k, -x) == -Prod(k, x)
  {}

  lemma PSquares(theta: real, c: real)
    ensures Prod(Prod(theta, c), Prod(theta, c)) == Prod(Prod(c, c), Prod(theta, theta)) == Prod(Prod(Prod(theta, theta), c), c)
         == Prod(Prod(theta, Prod(c, c)), theta)
  {}

  lemma PATheta(theta: real, c: real, n: real, m: real)
    ensures Prod(m, Prod(theta, c)) - Prod(n, Prod(1.0, c) + Prod(theta, Prod(1.0, theta) + Prod(theta, 1.0)))
         == Prod(Prod(theta, theta), 2.0 * (-n)) + Prod(Prod(theta, c), m) + Prod(c, -n)
  {}

  /** A along sigma. */
  lemma GeneralASigma(theta: real, sigma: real, c: real, n: real, m: real)
    requires c > 0.0 && theta != 0.0
    requires Prod(theta, c) != 0.0 && Prod(theta, Prod(c, c)) != 0.0 && Prod(Prod(theta, c), Prod(theta, c)) != 0.0
    ensures Quotient(Prod(m, Prod(theta, c)) - Prod(n, Prod(0.0, c) + Prod(theta, Prod(1.0, sigma) + Prod(sigma, 1.0))), Prod(Prod(theta, c), Prod(theta, c)))
         == Quotient(m, Prod(theta, c)) - Quotient(Prod(2.0 * sigma, n), Prod(theta, Prod(c, c)))
  {
    hide Prod, Quotient;
    var d := Prod(theta, c);
    var k := Prod(d, d);
    var left := Quotient(Prod(m, d) - Prod(n, Prod(0.0, c) + Prod(theta, Prod(1.0, sigma) + Prod(sigma, 1.0))), k);
    PSym(left, k);
    PSquares(theta, c);
    var x, y := Quotient(m, d), Quotient(Prod(2.0 * sigma, n), Prod(theta, Prod(c, c)));
    Clear(k, m, d, d);
    Clear(k, Prod(2.0 * sigma, n), Prod(theta, Prod(c, c)), theta);
    PThree(k, x, y, 0.0);
    PASigma(theta, sigma, c, n, m);
    PCancel(k, left, x - y);
  }

  lemma PASigma(theta: real, sigma: real, c: real, n: real, m: real)
    ensures Prod(m, Prod(theta, c)) - Prod(n, Prod(0.0, c) + Prod(theta, Prod(1.0, sigma) + Prod(sigma, 1.0)))
         == Prod(Prod(theta, c), m) - Prod(theta, Prod(2.0 * sigma, n))
  {}

  /** The inner quotient of B, whose denominator c has derivative 2 x. */
  lemma InnerQuotient(x: real, c: real, n: real, m: real)
    requires c != 0.0 && Prod(c, c) != 0.0
    ensures Quotient(Prod(m, c) - Prod(n, 2.0 * x), Prod(c, c)) == Quotient(m, c) - Quotient(Prod(2.0 * x, n), Prod(c, c))
  {}

  /** The derivative of C. */
  lemma OuterScalar(sigma: real, scale: real)
    requires sigma != 0.0 && Prod(sigma, sigma) != 0.0
    ensures Quotient(Prod(scale, sigma) - Prod(scale - 1.0, 1.0), Prod(sigma, sigma)) == Quotient(Prod(scale, sigma - 1.0) + 1.0, Prod(sigma, sigma))
    ensures Quotient(Prod(scale, sigma) - Prod(scale - 1.0, 1.0), Prod(sigma, sigma)) == Quotient(scale, sigma) - Quotient(scale - 1.0, Prod(sigma, sigma))
  {}

  /** B along theta, from its inner part f = C - h and the derivative -e of h. */
  lemma GeneralBTheta(theta: real, f: real, e: real)
    requires theta != 0.0 && Prod(theta, theta) != 0.0 && Prod(theta, Prod(theta, theta)) != 0.0
    requires Prod(Prod(theta, theta), Prod(theta, theta)) != 0.0
    ensures Quotient(Prod(e, Prod(theta, theta)) - Prod(f, Prod(1.0, theta) + Prod(theta, 1.0)), Prod(Prod(theta, theta), Prod(theta, theta)))
         == Quotient(e, Prod(theta, theta)) - Quotient(2.0 * f, Prod(theta, Prod(theta, theta)))
  {
    hide Prod, Quotient;
    var n := Prod(theta, theta);
    var k := Prod(n, n);
    var left, y, z := Quotient(Prod(e, n) - Prod(f, Prod(1.0, theta) + Prod(theta, 1.0)), k), Quotient(e, n), Quotient(2.0 * f, Prod(theta, n));
    PSym(left, k);
    PFourth(theta);
    Clear(k, e, n, n);
    Clear(k, 2.0 * f, Prod(theta, n), theta);
    PThree(k, y, z, 0.0);
    PSym(e, n);
    PTwiceTheta(theta, f);
    PCancel(k, left, y - z);
  }

  lemma PFourth(theta: real)
    ensures Prod(Prod(theta, theta), Prod(theta, theta)) == Prod(Prod(theta, Prod(theta, theta)), theta)
    ensures Prod(Prod(theta, theta), theta) == Prod(theta, Prod(theta, theta))
  {}

  lemma PTwiceTheta(theta: real, f: real)
    ensures Prod(f, Prod(1.0, theta) + Prod(theta, 1.0)) == Prod(theta, 2.0 * f)
  {}

  /** B along sigma: a constant denominator. */
  lemma GeneralBSigma(n: real, f: real, e: real)
    requires n != 0.0 && Prod(n, n) != 0.0
    ensures Quotient(Prod(e, n) - Prod(f, 0.0), Prod(n, n)) == Quotient(e, n)
  {}

  /** General branch: the theta derivatives are those of the formulas of calcW. */
  lemma GeneralThetaDerivatives(theta: real, sigma: real, scale: real, sine: real, cosine: real)
    requires !Small(theta) && !Small(sigma)
    ensures var k := CalcWDual(Dual(theta, 1.0), Const(sigma), Const(scale), Dual(sine, cosine), Dual(cosine, -sine));
            var d := CalcWDerivatives(theta, sigma, scale, sine, cosine);
            k.a.d == d.aTheta && k.b.d == d.bTheta && k.c.d == 0.0
  {
    hide Prod, Quotient;
    var a, b, c := Prod(scale, sine), Prod(scale, cosine), Prod(theta, theta) + Prod(sigma, sigma);
    GeneralDenominators(theta, sigma, c);
    PowersTo4(theta);
    PowersTo4(sigma);
    NonzeroProd(Prod(theta, c), Prod(theta, c));
    NonzeroProd(Prod(theta, theta), Prod(theta, theta));
    PThetaParts(theta, sigma, scale, sine, cosine, a, b);
    GeneralATheta(theta, c, Prod(a, sigma) + Prod(1.0 - b, theta), Prod(sigma, b) - b + Prod(theta, a) + 1.0);
    var m := Prod(b - 1.0, sigma) + Prod(a, theta);
    InnerQuotient(theta, c, m, a + Prod(theta, b) - Prod(sigma, a));
    var cc, h := Quotient(scale - 1.0, sigma), Quotient(m, c);
    ConstantQuotient(scale - 1.0, sigma);
    var e := Quotient(Prod(2.0 * theta, m), Prod(c, c)) - Quotient(a + Prod(theta, b) - Prod(sigma, a), c);
    POnes(e);
    POnes(cc - h);
    POnes(theta);
    POnes(sigma);
    GeneralBTheta(theta, cc - h, e);
  }

  lemma ConstantQuotient(x: real, y: real)
    requires y != 0.0
    ensures Prod(y, y) != 0.0 && Quotient(Prod(0.0, y) - Prod(x, 0.0), Prod(y, y)) == 0.0
  {
    NonzeroProd(y, y);
    POnes(x);
    POnes(y);
    hide Prod, Quotient;
    var q := Quotient(0.0, Prod(y, y));
    PSym(q, Prod(y, y));
    POnes(Prod(y, y));
    PCancel(Prod(y, y), q, 0.0);
  }

  lemma PThetaParts(theta: real, sigma: real, scale: real, sine: real, cosine: real, a: real, b: real)
    requires a == Prod(scale, sine) && b == Prod(scale, cosine)
    ensures Prod(0.0, sine) + Prod(scale, cosine) == b && Prod(0.0, cosine) + Prod(scale, -sine) == -a
    ensures Prod(b, sigma) + Prod(a, 0.0) + (Prod(0.0 - -a, theta) + Prod(1.0 - b, 1.0)) == Prod(sigma, b) - b + Prod(theta, a) + 1.0
    ensures Prod(-a - 0.0, sigma) + Prod(b - 1.0, 0.0) + (Prod(b, theta) + Prod(a, 1.0)) == a + Prod(theta, b) - Prod(sigma, a)
    ensures Prod(theta, b - 1.0) - Prod(sigma, a) == -(Prod(a, sigma) + Prod(1.0 - b, theta))
    ensures Prod(sigma, b) - sigma + Prod(theta, a) == Prod(b - 1.0, sigma) + Prod(a, theta)
    ensures Prod(1.0, theta) + Prod(theta, 1.0) + (Prod(0.0, sigma) + Prod(sigma, 0.0)) == 2.0 * theta
    ensures Prod(1.0, theta) + Prod(theta, 1.0) == 2.0 * theta
  {}

  /** General branch: the sigma derivatives. */
  lemma GeneralSigmaDerivatives(theta: real, sigma: real, scale: real, sine: real, cosine: real)
    requires !Small(theta) && !Small(sigma)
    ensures var k := CalcWDual(Const(theta), Dual(sigma, 1.0), Dual(scale, scale), Const(sine), Const(cosine));
            var d := CalcWDerivatives(theta, sigma, scale, sine, cosine);
            k.a.d == d.aSigma && k.b.d == d.bSigma && k.c.d == d.cSigma
  {
    hide Prod, Quotient;
    var a, b, c := Prod(scale, sine), Prod(scale, cosine), Prod(theta, theta) + Prod(sigma, sigma);
    GeneralDenominators(theta, sigma, c);
    PowersTo4(theta);
    PowersTo4(sigma);
    NonzeroProd(Prod(theta, c), Prod(theta, c));
    NonzeroProd(Prod(theta, theta), Prod(theta, theta));
    PSigmaParts(theta, sigma, scale, sine, cosine, a, b);
    GeneralASigma(theta, sigma, c, Prod(a, sigma) + Prod(1.0 - b, theta), a - Prod(theta, b) + Prod(sigma, a));
    var m := Prod(b - 1.0, sigma) + Prod(a, theta);
    var m' := Prod(sigma, b) + Prod(theta, a) + (b - 1.0);
    InnerQuotient(sigma, c, m, m');
    OuterScalar(sigma, scale);
    var cc, h := Quotient(scale - 1.0, sigma), Quotient(m, c);
    var e := Quotient(scale, sigma) - Quotient(scale - 1.0, Prod(sigma, sigma)) - (Quotient(m', c) - Quotient(Prod(2.0 * sigma, m), Prod(c, c)));
    POnes(e);
    POnes(cc - h);
    POnes(theta);
    POnes(c);
    POnes(sigma);
    GeneralBSigma(Prod(theta, theta), cc - h, e);
  }

  lemma PSigmaParts(theta: real, sigma: real, scale: real, sine: real, cosine: real, a: real, b: real)
    requires a == Prod(scale, sine) && b == Prod(scale, cosine)
    ensures Prod(scale, sine) + Prod(scale, 0.0) == a && Prod(scale, cosine) + Prod(scale, 0.0) == b
    ensures Prod(a, sigma) + Prod(a, 1.0) + (Prod(0.0 - b, theta) + Prod(1.0 - b, 0.0)) == a - Prod(theta, b) + Prod(sigma, a)
    ensures Prod(b - 0.0, sigma) + Prod(b - 1.0, 1.0) + (Prod(a, theta) + Prod(a, 0.0)) == Prod(sigma, b) + Prod(theta, a) + (b - 1.0)
    ensures theta - Prod(theta, b) + Prod(sigma, a) == Prod(a, sigma) + Prod(1.0 - b, theta)
    ensures Prod(sigma, b - 1.0) + Prod(theta, a) == Prod(b - 1.0, sigma) + Prod(a, theta)
    ensures Prod(0.0, theta) + Prod(theta, 0.0) == 0.0
    ensures Prod(0.0, theta) + Prod(theta, 0.0) + (Prod(1.0, sigma) + Prod(sigma, 1.0)) == 2.0 * sigma
  {}

  // ----- no scale, and no rotation -----

  /** A quotient by x^2 along x. */
  lemma SquareQuotient(x: real, f: real, e: real, z: real)
    requires x != 0.0 && Prod(x, x) != 0.0 && Prod(x, Prod(x, x)) != 0.0 && Prod(Prod(x, x), Prod(x, x)) != 0.0
    requires z == Prod(x, e) - 2.0 * f
    ensures Quotient(Prod(e, Prod(x, x)) - Prod(f, Prod(1.0, x) + Prod(x, 1.0)), Prod(Prod(x, x), Prod(x, x))) == Quotient(z, Prod(x, Prod(x, x)))
  {}

  /** A quotient by x^3 along x. */
  lemma CubeQuotient(x: real, f: real, e: real, z: real)
    requires var n := Prod(x, x); n != 0.0 && Prod(n, x) != 0.0 && Prod(Prod(n, x), Prod(n, x)) != 0.0 && Prod(Prod(x, n), x) != 0.0
    requires z == Prod(x, e) - 3.0 * f
    ensures var n := Prod(x, x);
            Quotient(Prod(e, Prod(n, x)) - Prod(f, Prod(Prod(1.0, x) + Prod(x, 1.0), x) + Prod(n, 1.0)), Prod(Prod(n, x), Prod(n, x)))
            == Quotient(z, Prod(Prod(x, n), x))
  {
    hide Prod, Quotient;
    var n := Prod(x, x);
    var k := Prod(Prod(n, x), Prod(n, x));
    var left := Quotient(Prod(e, Prod(n, x)) - Prod(f, Prod(Prod(1.0, x) + Prod(x, 1.0), x) + Prod(n, 1.0)), k);
    var right := Quotient(z, Prod(Prod(x, n), x));
    PSym(left, k);
    PSixth(x);
    Clear(k, z, Prod(Prod(x, n), x), n);
    PCubeQuotient(x, f, e);
    PCancel(k, left, right);
  }

  lemma PSixth(x: real)
    ensures var n := Prod(x, x); Prod(Prod(n, x), Prod(n, x)) == Prod(Prod(Prod(x, n), x), n)
  {}

  lemma PCubeQuotient(x: real, f: real, e: real)
    ensures var n := Prod(x, x);
            Prod(e, Prod(n, x)) - Prod(f, Prod(Prod(1.0, x) + Prod(x, 1.0), x) + Prod(n, 1.0)) == Prod(n, Prod(x, e) - 3.0 * f)
  {}

  lemma DenominatorsTo6(x: real)
    requires x != 0.0
    ensures var n := Prod(x, x);
            n > 0.0 && Prod(x, n) != 0.0 && Prod(n, x) != 0.0 && Prod(n, n) != 0.0 && Prod(Prod(n, x), Prod(n, x)) != 0.0 && Prod(Prod(x, n), x) != 0.0
  {
    hide Prod;
    var n := Prod(x, x);
    PowersTo4(x);
    NonzeroProd(n, x);
    NonzeroProd(n, n);
    NonzeroProd(Prod(n, x), Prod(n, x));
  }

  /** Below the threshold in sigma: the theta derivatives. */
  lemma FlatThetaDerivatives(theta: real, sigma: real, scale: real, sine: real, cosine: real)
    requires !Small(theta) && Small(sigma)
    ensures var k := CalcWDual(Dual(theta, 1.0), Const(sigma), Const(scale), Dual(sine, cosine), Dual(cosine, -sine));
            var d := CalcWDerivatives(theta, sigma, scale, sine, cosine);
            k.a.d == d.aTheta && k.b.d == d.bTheta && k.c.d == 0.0
  {
    hide Prod, Quotient;
    DenominatorsTo6(theta);
    SquareQuotient(theta, 1.0 - cosine, sine, Prod(theta, sine) + 2.0 * cosine - 2.0);
    PFlatTheta(theta, cosine);
    CubeQuotient(theta, theta - sine, 1.0 - cosine, -(2.0 * theta - 3.0 * sine + Prod(theta, cosine)));
  }

  lemma PFlatTheta(theta: real, cosine: real)
    ensures Prod(theta, 1.0 - cosine) == theta - Prod(theta, cosine)
  {}

  /** Below the threshold in theta: the sigma derivatives. */
  lemma StraightSigmaDerivatives(theta: real, sigma: real, scale: real, sine: real, cosine: real)
    requires Small(theta) && !Small(sigma)
    ensures var k := CalcWDual(Const(theta), Dual(sigma, 1.0), Dual(scale, scale), Const(sine), Const(cosine));
            var d := CalcWDerivatives(theta, sigma, scale, sine, cosine);
            k.a.d == d.aSigma && k.b.d == d.bSigma && k.c.d == d.cSigma
  {
    hide Prod, Quotient;
    DenominatorsTo6(sigma);
    OuterScalar(sigma, scale);
    PStraightSigma(sigma, scale, Prod(sigma, sigma));
    SquareQuotient(sigma, Prod(sigma - 1.0, scale) + 1.0, Prod(sigma, scale), Prod(scale, Prod(sigma, sigma) - 2.0 * sigma + 2.0) - 2.0);
    CubeQuotient(sigma, Prod(Prod(scale, 0.5), Prod(sigma, sigma)) + scale - 1.0 - Prod(sigma, scale),
                 Prod(Prod(scale, 0.5), Prod(sigma, sigma)),
                 Prod(scale, 0.5 * Prod(sigma, Prod(sigma, sigma)) - 1.5 * Prod(sigma, sigma) + 3.0 * sigma - 3.0) + 3.0);
  }

  lemma PStraightSigma(sigma: real, scale: real, n: real)
    requires n == Prod(sigma, sigma)
    ensures Prod(1.0 - 0.0, scale) + Prod(sigma - 1.0, scale) + 0.0 == Prod(sigma, scale)
    ensures Prod(scale, n - 2.0 * sigma + 2.0) - 2.0 == Prod(sigma, Prod(sigma, scale)) - 2.0 * (Prod(sigma - 1.0, scale) + 1.0)
    ensures Prod(Prod(scale, 0.5) + Prod(scale, 0.0), n) + Prod(Prod(scale, 0.5), Prod(1.0, sigma) + Prod(sigma, 1.0)) + scale - 0.0
            - (Prod(1.0, scale) + Prod(sigma, scale)) == Prod(Prod(scale, 0.5), n)
    ensures Prod(scale, 0.5 * Prod(sigma, n) - 1.5 * n + 3.0 * sigma - 3.0) + 3.0
         == Prod(sigma, Prod(Prod(scale, 0.5), n)) - 3.0 * (Prod(Prod(scale, 0.5), n) + scale - 1.0 - Prod(sigma, scale))
  {}

  /** At sigma = 0 calcW has lost sigma, and the sigma derivatives are instead those that
      differentiating (sigma I + Omega) W = scale R - I leaves: Omega W' = R - W. */
  lemma FlatSigmaDerivatives(theta: real, sine: real, cosine: real)
    requires !Small(theta)
    ensures var w, d, n := CalcW(theta, 0.0, 1.0, sine, cosine), CalcWDerivatives(theta, 0.0, 1.0, sine, cosine), Prod(theta, theta);
            var p := PolyTimes(n, Poly(0.0, 1.0, 0.0), Poly(d.cSigma, d.aSigma, d.bSigma));
            && p.c == 1.0 - w.c && Prod(p.a, theta) == sine - Prod(w.a, theta) && Prod(p.b, n) == 1.0 - cosine - Prod(w.b, n)
  {
    hide Prod, Quotient, PolyTimes;
    PowersTo4(theta);
    var w, d, n := CalcW(theta, 0.0, 1.0, sine, cosine), CalcWDerivatives(theta, 0.0, 1.0, sine, cosine), Prod(theta, theta);
    FlatFacts(theta, 1.0, sine, cosine, w);
    assert d.cSigma == 0.5 && d.aSigma == Quotient(sine - Prod(theta, cosine), Prod(theta, n));
    assert d.bSigma == Quotient(0.5 - Quotient(cosine + Prod(theta, sine) - 1.0, n), n);
    hide CalcW, CalcWDerivatives;
    PShift(n, 0.0, d.cSigma, d.aSigma, d.bSigma);
    POnes(d.cSigma);
    POnes(d.aSigma);
    POnes(d.bSigma);
    PSym(d.bSigma, n);
    var z := Quotient(cosine + Prod(theta, sine) - 1.0, n);
    PFlatFirst(theta, n, z, w.a);
    PCancel(theta, Prod(z + w.a, theta), sine);
    PFlatSecond(theta, n, d.aSigma, w.b, cosine);
    PCancel(theta, Prod(d.aSigma, n) + Prod(w.b, n), 1.0 - cosine);
  }

  lemma PFlatFirst(theta: real, n: real, z: real, a: real)
    requires n == Prod(theta, theta)
    ensures Prod(theta, Prod(z + a, theta)) == Prod(z, n) + Prod(a, n) && Prod(z + a, theta) == Prod(z, theta) + Prod(a, theta)
  {}

  lemma PFlatSecond(theta: real, n: real, a: real, b: real, cosine: real)
    ensures Prod(theta, Prod(a, n) + Prod(b, n)) == Prod(a, Prod(theta, n)) + Prod(b, Prod(n, theta))
    ensures Prod(theta, 1.0 - cosine) == theta - Prod(theta, cosine)
  {}

  /** For small theta the coefficients do not depend on theta, and the reported theta derivatives vanish. */
  lemma StraightThetaDerivatives(theta: real, sigma: real, scale: real, sine: real, cosine: real)
    requires Small(theta) && !Small(sigma)
    ensures var k := CalcWDual(Dual(theta, 1.0), Const(sigma), Const(scale), Dual(sine, cosine), Dual(cosine, -sine));
            var d := CalcWDerivatives(theta, sigma, scale, sine, cosine);
            k.a.d == d.aTheta && k.b.d == d.bTheta && k.c.d == 0.0
  {
    hide Prod, Quotient;
    Powers(sigma);
    NonzeroProd(Prod(sigma, sigma), Prod(sigma, sigma));
    NonzeroProd(Prod(Prod(sigma, sigma), sigma), Prod(Prod(sigma, sigma), sigma));
    PConstant(sigma);
    PConstant(scale);
    PConstant(sigma - 1.0);
    PConstant(Prod(sigma, sigma));
    PConstant(Prod(scale, 0.5));
    PConstant(Prod(Prod(sigma, sigma), sigma));
    PConstant(0.5);
    PConstant(scale - 1.0);
    PConstant(Prod(sigma - 1.0, scale) + 1.0);
    PConstant(Prod(Prod(scale, 0.5), Prod(sigma, sigma)) + scale - 1.0 - Prod(sigma, scale));
    NoQuotient(Prod(sigma, sigma));
    NoQuotient(Prod(Prod(sigma, sigma), Prod(sigma, sigma)));
    NoQuotient(Prod(Prod(Prod(sigma, sigma), sigma), Prod(Prod(sigma, sigma), sigma)));
  }

  lemma PConstant(x: real)
    ensures Prod(0.0, x) == 0.0 == Prod(x, 0.0)
  {}

  lemma NoQuotient(x: real)
    requires x != 0.0
    ensures Quotient(0.0, x) == 0.0
  {}

  /** For small theta and sigma the reported derivatives of A and B are those of the constants that calcW
      then takes. */
  lemma TinyDerivatives(theta: real, sigma: real, scale: real, sine: real, cosine: real, x: Dual, y: Dual)
    requires Small(theta) && Small(sigma) && x.v == theta && y.v == sigma
    ensures var k := CalcWDual(x, y, Const(scale), Const(sine), Const(cosine));
            var d := CalcWDerivatives(theta, sigma, scale, sine, cosine);
            d.aTheta == d.aSigma == k.a.d && d.bTheta == d.bSigma == k.b.d
  {
    hide Prod, Quotient;
  }

  /** At zero the equation Omega W' = R - W, where R is I + Omega + Omega^2 / 2, is met in the coefficient of
      Omega and missed in that of Omega^2. */
  lemma TinyMiss(scale: real, sine: real, cosine: real, w: Poly, d: Derivatives)
    requires w == CalcW(0.0, 0.0, scale, sine, cosine) && d == CalcWDerivatives(0.0, 0.0, scale, sine, cosine)
    ensures var p := PolyTimes(0.0, Poly(0.0, 1.0, 0.0), Poly(d.cSigma, d.aSigma, d.bSigma));
            p.c == 1.0 - w.c && p.a == 1.0 - w.a && p.b == 0.5 - w.b - 1.0 / 3.0
  {
    hide Prod, Quotient;
    POnes(0.0);
    POnes(0.5);
  }

  /** So the derivative of A along sigma jumps at the threshold of theta. */
  lemma SigmaDerivativeJumps(f: Elementary.Elementary, theta: real)
    requires Elementary.Facts(f) && -1.0 <= theta <= 1.0
    ensures var d := CalcWDerivatives(theta, 0.0, 1.0, f.sin(theta), f.cos(theta));
            if Small(theta) then d.aSigma == 0.0 else d.aSigma > 0.25
  {
    hide Elementary.Facts, Prod, Quotient, HalfAngle;
    var n := Prod(theta, theta);
    if !Small(theta) {
      PowersTo4(theta);
      Elementary.AngleOf(f, theta);
      var a := Quotient(f.sin(theta) - Prod(theta, f.cos(theta)), Prod(theta, n));
      PProductGap(theta, a, f.sin(theta), f.cos(theta));
      ProductGap(n, f.cos(theta), Prod(theta, f.sin(theta)), a) by {
        UnitSquare(theta);
      }
    }
  }

  lemma UnitSquare(theta: real)
    requires -1.0 <= theta <= 1.0
    ensures Prod(theta, theta) <= 1.0
  {
    ProductSign(1.0 - theta, 1.0 + theta);
  }

  lemma PProductGap(theta: real, a: real, sine: real, cosine: real)
    requires Prod(a, Prod(theta, Prod(theta, theta))) == sine - Prod(theta, cosine)
    ensures var n := Prod(theta, theta); Prod(a, Prod(n, n)) == Prod(theta, sine) - Prod(n, cosine)
  {}

  lemma ProductGap(n: real, cosine: real, product: real, a: real)
    requires 0.0 < n <= 1.0 && Prod(a, Prod(n, n)) == product - Prod(n, cosine)
    requires n - Prod(n, n) / 6.0 <= product
    requires cosine <= 1.0 - n / 2.0 + Prod(n, n) / 24.0 - Prod(n, Prod(n, n)) / 720.0 + Prod(Prod(n, n), Prod(n, n)) / 40320.0
    ensures a > 0.25
  {
    var square, cube, fourth := Prod(n, n), Prod(n, Prod(n, n)), Prod(Prod(n, n), Prod(n, n));
    PositiveProduct(n, n, square);
    PositiveProduct(n, square, cube);
    PositiveProduct(square, square, fourth);
    ProductSign(n, 1.0 - n);
    ProductSign(square, 1.0 - n);
    ProductSign(cube, 1.0 - n);
    ProductSign(fourth, 1.0 - n);
    ProductSign(n, 1.0 - n / 2.0 + square / 24.0 - cube / 720.0 + fourth / 40320.0 - cosine);
    PGapPowers(n, cosine);
    if a <= 0.25 {
      ProductSign(0.25 - a, square);
      PSpread(0.25, a, square);
      PQuarter(square);
    }
    hide Prod;
  }

  lemma PGapPowers(n: real, cosine: real)
    ensures var square, cube, fourth := Prod(n, n), Prod(n, Prod(n, n)), Prod(Prod(n, n), Prod(n, n));
            && Prod(n, 1.0 - n) == n - square && Prod(square, 1.0 - n) == square - cube && Prod(cube, 1.0 - n) == cube - fourth
            && Prod(n, 1.0 - n / 2.0 + square / 24.0 - cube / 720.0 + fourth / 40320.0 - cosine)
               == n - square / 2.0 + cube / 24.0 - fourth / 720.0 + Prod(fourth, n) / 40320.0 - Prod(n, cosine)
            && Prod(fourth, 1.0 - n) == fourth - Prod(fourth, n)
  {}

  lemma PQuarter(x: real)
    ensures Prod(0.25, x) == x / 4.0
  {}
}
