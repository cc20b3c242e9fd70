/** Rigid body transformations: adjoint, exponential and the 6x6 left Jacobian. */
module Se3 {
  import opened Linear
  import opened Constants
  import opened Skew
  import opened Quaternions
  import So3

  /** A tangent vector: translational part, then rotation vector. */
  datatype Twist = Twist(upsilon: Vec3, omega: Vec3)

  /** A 6x6 matrix in 3x3 blocks. */
  datatype Mat6 = Mat6(topLeft: Mat3, topRight: Mat3, bottomLeft: Mat3, bottomRight: Mat3)

  const IDENTITY6 := Mat6(IDENTITY, ZERO_MATRIX, ZERO_MATRIX, IDENTITY)

  function Mul6(m: Mat6, n: Mat6): Mat6 {
    Mat6(MatAdd(Mul(m.topLeft, n.topLeft), Mul(m.topRight, n.bottomLeft)),
         MatAdd(Mul(m.topLeft, n.topRight), Mul(m.topRight, n.bottomRight)),
         MatAdd(Mul(m.bottomLeft, n.topLeft), Mul(m.bottomRight, n.bottomLeft)),
         MatAdd(Mul(m.bottomLeft, n.topRight), Mul(m.bottomRight, n.bottomRight)))
  }

  function Add6(m: Mat6, n: Mat6): Mat6 {
    Mat6(MatAdd(m.topLeft, n.topLeft), MatAdd(m.topRight, n.topRight),
         MatAdd(m.bottomLeft, n.bottomLeft), MatAdd(m.bottomRight, n.bottomRight))
  }

  function Apply6(m: Mat6, a: Twist): Twist {
    Twist(Add(Apply(m.topLeft, a.upsilon), Apply(m.topRight, a.omega)),
          Add(Apply(m.bottomLeft, a.upsilon), Apply(m.bottomRight, a.omega)))
  }

  /** A pose: unit quaternion and translation. */
  datatype Pose = Pose(q: Quaternion, t: Vec3)

  function Adj(a: Pose): Mat6 {
    var r := Matrix(a.q);
    Mat6(r, Mul(Hat(a.t), r), ZERO_MATRIX, r)
  }

  function LieBracket(a: Twist, b: Twist): Twist {
    Twist(Add(Cross(a.omega, b.upsilon), Cross(a.upsilon, b.omega)), Cross(a.omega, b.omega))
  }

  /** The matrix of the Lie bracket with a fixed first argument. */
  function Ad(a: Twist): Mat6 {
    Mat6(Hat(a.omega), Hat(a.upsilon), ZERO_MATRIX, Hat(a.omega))
  }

  function Exp(a: Twist, theta: real, sinHalf: real, cosHalf: real, sine: real, cosine: real): Pose
    requires theta * theta == SquaredNorm(a.omega)
  {
    var (q, angle) := So3.ExpAndTheta(a.omega, theta, sinHalf, cosHalf);
    var v := So3.LeftJacobian(a.omega, angle, sine, cosine);
    Pose(q, Apply(v, a.upsilon))
  }

  function UpperRightBlock(upsilon: Vec3, omega: Vec3, theta: real, st: real, ct: real): Mat3
    requires theta * theta == SquaredNorm(omega)
  {
    var thetaSq := SquaredNorm(omega);
    var u := Hat(upsilon);
    if thetaSq < EPSILON * EPSILON then
      MatScale(0.5, u)
    else
      NonzeroSquare(theta);
      var iTheta := 1.0 / theta;
      var iThetaSq := iTheta * iTheta;
      var iThetaPo4 := iThetaSq * iThetaSq;
      var c1 := iThetaSq - st * iThetaSq * iTheta;
      var c2 := 0.5 * iThetaSq + ct * iThetaPo4 - iThetaPo4;
      var c3 := iThetaPo4 + 0.5 * ct * iThetaPo4 - 1.5 * st * iTheta * iThetaPo4;
      BlockSum(upsilon, omega, thetaSq, c1, c2, c3)
  }

  /** The closed form of the block, given its three coefficients. */
  function BlockSum(upsilon: Vec3, omega: Vec3, thetaSq: real, c1: real, c2: real, c3: real): Mat3 {
    var u, w := Hat(upsilon), Hat(omega);
    var wu := Mul(w, u);
    var wuw := Mul(wu, w);
    MatAdd(
      MatSub(
        MatAdd(MatScale(0.5, u), MatScale(c1, MatAdd(MatAdd(wu, Mul(u, w)), wuw))),
        MatScale(c2, MatAdd(MatScale(thetaSq, u), MatScale(2.0, wuw)))),
      MatScale(c3, MatAdd(Mul(wuw, w), Mul(w, wuw))))
  }

  function LeftJacobian(a: Twist, theta: real, sine: real, cosine: real): Mat6
    requires theta * theta == SquaredNorm(a.omega)
  {
    var j := So3.LeftJacobian(a.omega, theta, sine, cosine);
    Mat6(j, UpperRightBlock(a.upsilon, a.omega, theta, sine, cosine), ZERO_MATRIX, j)
  }

  function LeftJacobianInverse(a: Twist, theta: real, sinHalf: real, cosHalf: real, sine: real, cosine: real): Mat6
    requires theta * theta == SquaredNorm(a.omega)
    requires So3.Regular(theta) ==> sinHalf != 0.0
  {
    var jInv := So3.LeftJacobianInverse(a.omega, theta, sinHalf, cosHalf);
    var q := UpperRightBlock(a.upsilon, a.omega, theta, sine, cosine);
    Mat6(jInv, MatScale(-1.0, Mul(Mul(jInv, q), jInv)), ZERO_MATRIX, jInv)
  }

  // ----- the upper right block against the translation of exp -----

  /** The relations between the coefficients of exp, J and the block. */
  predicate Coefficients(n: real, alpha: real, beta: real, gamma: real, c1: real, c2: real, c3: real) {
    && gamma == 1.0 - beta * n
    && gamma * gamma + alpha * alpha * n == 2.0 * alpha
    && c1 == beta
    && c2 * n == 0.5 - alpha
    && 2.0 * c3 * n == 3.0 * beta - alpha
    && 2.0 * c2 - beta == beta * gamma - alpha * alpha
  }

  lemma CrossTranslation(omega: Vec3, upsilon: Vec3, alpha: real, beta: real, x: Vec3)
    ensures Cross(PolyAct(omega, Poly(1.0, alpha, beta), upsilon), x)
         == Comb3(1.0 - Prod(beta, SquaredNorm(omega)), Cross(upsilon, x),
                  alpha, Sub(Cross(omega, Cross(upsilon, x)), Cross(upsilon, Cross(omega, x))),
                  Prod(beta, Dot(omega, upsilon)), Cross(omega, x))
  {
    var n, k := SquaredNorm(omega), Dot(omega, upsilon);
    var a, b := Cross(upsilon, x), Cross(omega, x);
    CrossComb3Left(1.0, upsilon, alpha, Cross(omega, upsilon), beta, Cross(omega, Cross(omega, upsilon)), x);
    CrossJacobi(omega, upsilon, x);
    BacCab(omega, omega, upsilon);
    CrossSubLeft(Scale(k, omega), Scale(n, upsilon), x);
    CrossScale(x, k, omega);
    CrossScale(x, n, upsilon);
    PTranslation(beta, k, n, a.x, b.x);
    PTranslation(beta, k, n, a.y, b.y);
    PTranslation(beta, k, n, a.z, b.z);
    hide Prod, Cross, Dot;
  }

  lemma CrossSubLeft(a: Vec3, b: Vec3, v: Vec3)
    ensures Cross(Sub(a, b), v) == Sub(Cross(a, v), Cross(b, v))
  {
    CrossAntisymmetric(Sub(a, b), v);
    CrossAntisymmetric(a, v);
    CrossAntisymmetric(b, v);
    CrossSub(v, a, b);
    hide Cross;
  }

  lemma PTranslation(beta: real, k: real, n: real, a: real, b: real)
    ensures Prod(1.0, a) + Prod(beta, Prod(k, b) - Prod(n, a)) == Prod(1.0 - Prod(beta, n), a) + Prod(Prod(beta, k), b)
  {}

  /** The products with x = R p that the translation of exp meets. */
  lemma RotatedTerms(omega: Vec3, upsilon: Vec3, gamma: real, alpha: real, p: Vec3)
    ensures
      var n, k := SquaredNorm(omega), Dot(omega, upsilon);
      var p1 := Cross(omega, p);
      var p2 := Cross(omega, p1);
      var a, b, c, d := Cross(upsilon, p), Cross(upsilon, p1), Cross(upsilon, p2), Cross(omega, Cross(upsilon, p));
      var x := PolyAct(omega, Poly(1.0, gamma, alpha), p);
      && Cross(upsilon, x) == Comb3(1.0, a, gamma, b, alpha, c)
      && Cross(omega, x) == Comb3(1.0, p1, gamma, p2, alpha, Scale(-n, p1))
      && Cross(upsilon, Cross(omega, x)) == Comb3(1.0, b, gamma, c, alpha, Scale(-n, b))
      && Cross(omega, Cross(upsilon, x)) == Comb3(1.0, d, gamma, Scale(-k, p1), alpha, Scale(-k, p2))
  {
    var n := SquaredNorm(omega);
    var p1 := Cross(omega, p);
    var p2 := Cross(omega, p1);
    CrossComb3(upsilon, 1.0, p, gamma, p1, alpha, p2);
    CrossComb3(omega, 1.0, p, gamma, p1, alpha, p2);
    CubeRule(omega, p);
    CrossComb3(upsilon, 1.0, p1, gamma, p2, alpha, Scale(-n, p1));
    CrossScale(upsilon, -n, p1);
    CrossComb3(omega, 1.0, Cross(upsilon, p), gamma, Cross(upsilon, p1), alpha, Cross(upsilon, p2));
    SandwichRule(omega, upsilon, p);
    SandwichRule(omega, upsilon, p1);
    hide Prod, Cross, Dot, Comb3, SquaredNorm;
  }

  /** The action of the block on a vector, by cross products. */
  lemma ApplyBlock(upsilon: Vec3, omega: Vec3, n: real, c1: real, c2: real, c3: real, p: Vec3)
    ensures
      var k := Dot(omega, upsilon);
      var p1 := Cross(omega, p);
      var p2 := Cross(omega, p1);
      var a, b, d := Cross(upsilon, p), Cross(upsilon, p1), Cross(omega, Cross(upsilon, p));
      Apply(BlockSum(upsilon, omega, n, c1, c2, c3), p)
      == Add(Sub(Add(Scale(0.5, a), Scale(c1, Add(Add(d, b), Scale(-k, p1)))),
                 Scale(c2, Add(Scale(n, a), Scale(2.0, Scale(-k, p1))))),
             Scale(c3, Add(Scale(-k, p2), Scale(-k, p2))))
  {
    hide *;
    var u, w := Hat(upsilon), Hat(omega);
    BlockDefinition(upsilon, omega, n, c1, c2, c3);
    var wu, uw := Mul(w, u), Mul(u, w);
    var wuw := Mul(wu, w);
    var k := Dot(omega, upsilon);
    var p1 := Cross(omega, p);
    var p2 := Cross(omega, p1);
    var a := Cross(upsilon, p);
    HatIsCross(upsilon, p);
    HatIsCross(omega, p);
    HatIsCross(omega, p1);
    HatIsCross(omega, a);
    HatIsCross(upsilon, p1);
    HatIsCross(omega, Cross(upsilon, p1));
    HatIsCross(upsilon, p2);
    HatIsCross(omega, Cross(upsilon, p2));
    HatIsCross(omega, Scale(-k, p1));
    ApplyMul(w, u, p);
    ApplyMul(w, u, p1);
    ApplyMul(w, u, p2);
    ApplyMul(u, w, p);
    ApplyMul(wu, w, p);
    ApplyMul(wu, w, p1);
    ApplyMul(wuw, w, p);
    ApplyMul(w, wuw, p);
    SandwichRule(omega, upsilon, p);
    SandwichRule(omega, upsilon, p1);
    CrossScale(omega, -k, p1);
    var first := MatAdd(MatAdd(wu, uw), wuw);
    var second := MatAdd(MatScale(n, u), MatScale(2.0, wuw));
    var third := MatAdd(Mul(wuw, w), Mul(w, wuw));
    ApplyMatAdd(MatAdd(wu, uw), wuw, p);
    ApplyMatAdd(wu, uw, p);
    ApplyMatAdd(MatScale(n, u), MatScale(2.0, wuw), p);
    ApplyMatScale(n, u, p);
    ApplyMatScale(2.0, wuw, p);
    ApplyMatAdd(Mul(wuw, w), Mul(w, wuw), p);
    ApplyMatScale(0.5, u, p);
    ApplyMatScale(c1, first, p);
    ApplyMatScale(c2, second, p);
    ApplyMatScale(c3, third, p);
    ApplyMatAdd(MatScale(0.5, u), MatScale(c1, first), p);
    ApplyMatSub(MatAdd(MatScale(0.5, u), MatScale(c1, first)), MatScale(c2, second), p);
    ApplyMatAdd(MatSub(MatAdd(MatScale(0.5, u), MatScale(c1, first)), MatScale(c2, second)), MatScale(c3, third), p);
  }

  lemma BlockDefinition(upsilon: Vec3, omega: Vec3, n: real, c1: real, c2: real, c3: real)
    ensures
      var u, w := Hat(upsilon), Hat(omega);
      var wuw := Mul(Mul(w, u), w);
      BlockSum(upsilon, omega, n, c1, c2, c3)
      == MatAdd(
           MatSub(
             MatAdd(MatScale(0.5, u), MatScale(c1, MatAdd(MatAdd(Mul(w, u), Mul(u, w)), wuw))),
             MatScale(c2, MatAdd(MatScale(n, u), MatScale(2.0, wuw)))),
           MatScale(c3, MatAdd(Mul(wuw, w), Mul(w, wuw))))
  {}

  /** One component of: t x (R p) = w x (Q p) + u x (J p). */
  lemma BlockComponent(n: real, k: real, alpha: real, beta: real, gamma: real, c1: real, c2: real, c3: real,
                       a: real, b: real, c: real, d: real, e: real, p1: real, p2: real,
                       x1: real, x2: real, x3: real, x4: real, y: real)
    requires Coefficients(n, alpha, beta, gamma, c1, c2, c3)
    requires x1 == a + gamma * b + alpha * c
    requires x2 == d - gamma * k * p1 - alpha * k * p2
    requires x3 == b + gamma * c - alpha * n * b
    requires x4 == p1 + gamma * p2 - alpha * n * p1
    requires e == -n * a - k * p1 - c
    requires y == 0.5 * d + c1 * (e - k * p1 - k * p2) - c2 * (n * d - 2.0 * k * p2) + 2.0 * c3 * k * n * p1
    ensures gamma * x1 + alpha * (x2 - x3) + beta * k * x4 == y + (a + alpha * b + beta * c)
  {
    assert gamma * x1 == gamma * a + gamma * gamma * b + gamma * alpha * c;
    assert alpha * x2 == alpha * d - alpha * gamma * k * p1 - alpha * alpha * k * p2;
    assert alpha * x3 == alpha * b + alpha * gamma * c - alpha * alpha * n * b;
    BlockScrew(n, k, alpha, beta, gamma, c1, c2, c3, p1, p2, x4);
    BlockCross(n, k, alpha, beta, c1, c2, c3, a, c, d, e, p1, p2, y);
    BlockMiddle(n, alpha, gamma, b);
    assert gamma * a == a - beta * n * a;
  }

  lemma BlockMiddle(n: real, alpha: real, gamma: real, b: real)
    requires gamma * gamma + alpha * alpha * n == 2.0 * alpha
    ensures gamma * gamma * b + alpha * alpha * n * b == 2.0 * alpha * b
  {}

  lemma BlockScrew(n: real, k: real, alpha: real, beta: real, gamma: real, c1: real, c2: real, c3: real,
                   p1: real, p2: real, x4: real)
    requires Coefficients(n, alpha, beta, gamma, c1, c2, c3)
    requires x4 == p1 + gamma * p2 - alpha * n * p1
    ensures beta * k * x4 - alpha * gamma * k * p1 - alpha * alpha * k * p2
         == beta * k * p1 - alpha * k * p1 + 2.0 * c2 * k * p2 - beta * k * p2
  {
    hide Coefficients;
    ScrewExpand(n, k, alpha, beta, gamma, p1, p2, x4);
    ScrewFirst(n, k, alpha, beta, gamma, c1, c2, c3, p1);
    ScrewSecond(n, k, alpha, beta, gamma, c1, c2, c3, p2);
    ScrewSum(beta * k * x4, beta * k * p1, beta * gamma * k * p2, alpha * beta * n * k * p1, alpha * gamma * k * p1,
             alpha * k * p1, alpha * alpha * k * p2, 2.0 * c2 * k * p2 - beta * k * p2);
  }

  lemma ScrewSum(x: real, u: real, v: real, w: real, s: real, t: real, z: real, y: real)
    requires x == u + v - w && s + w == t && v - z == y
    ensures x - s - z == u - t + y
  {}

  lemma ScrewExpand(n: real, k: real, alpha: real, beta: real, gamma: real, p1: real, p2: real, x4: real)
    requires x4 == p1 + gamma * p2 - alpha * n * p1
    ensures beta * k * x4 == beta * k * p1 + beta * gamma * k * p2 - alpha * beta * n * k * p1
  {}

  lemma ScrewFirst(n: real, k: real, alpha: real, beta: real, gamma: real, c1: real, c2: real, c3: real, p1: real)
    requires Coefficients(n, alpha, beta, gamma, c1, c2, c3)
    ensures alpha * gamma * k * p1 + alpha * beta * n * k * p1 == alpha * k * p1
  {}

  lemma ScrewSecond(n: real, k: real, alpha: real, beta: real, gamma: real, c1: real, c2: real, c3: real, p2: real)
    requires Coefficients(n, alpha, beta, gamma, c1, c2, c3)
    ensures beta * gamma * k * p2 - alpha * alpha * k * p2 == 2.0 * c2 * k * p2 - beta * k * p2
  {}

  lemma BlockCross(n: real, k: real, alpha: real, beta: real, c1: real, c2: real, c3: real,
                   a: real, c: real, d: real, e: real, p1: real, p2: real, y: real)
    requires c1 == beta && c2 * n == 0.5 - alpha && 2.0 * c3 * n == 3.0 * beta - alpha
    requires e == -n * a - k * p1 - c
    requires y == 0.5 * d + c1 * (e - k * p1 - k * p2) - c2 * (n * d - 2.0 * k * p2) + 2.0 * c3 * k * n * p1
    ensures y == alpha * d - beta * n * a - beta * c + beta * k * p1 - alpha * k * p1 - beta * k * p2 + 2.0 * c2 * k * p2
  {}

  /** The closed-form coefficients satisfy the relations; i is 1 / theta. */
  lemma CoefficientFacts(theta: real, i: real, st: real, ct: real, n: real,
                         alpha: real, beta: real, gamma: real, c1: real, c2: real, c3: real)
    requires i * theta == 1.0 && n == theta * theta && st * st + ct * ct == 1.0
    requires alpha * n == 1.0 - ct && theta * (1.0 - beta * n) == st && gamma == 1.0 - beta * n
    requires c1 == i * i - st * (i * i) * i
    requires c2 == 0.5 * (i * i) + ct * (i * i * (i * i)) - i * i * (i * i)
    requires c3 == i * i * (i * i) + 0.5 * ct * (i * i * (i * i)) - 1.5 * st * i * (i * i * (i * i))
    ensures Coefficients(n, alpha, beta, gamma, c1, c2, c3)
  {
    var j := i * i;
    InverseSquares(theta, i, n, j);
    assert alpha == (1.0 - ct) * j by {
      assert alpha * (n * j) == (alpha * n) * j;
    }
    assert gamma == st * i by {
      assert i * (theta * gamma) == gamma * (i * theta);
    }
    assert beta == (1.0 - gamma) * j by {
      assert beta * (n * j) == (beta * n) * j;
    }
    assert c1 == beta by {
      assert gamma * j == st * j * i;
    }
    CoefficientC2(n, j, ct, alpha, c2);
    CoefficientC3(n, i, j, st, ct, alpha, beta, gamma, c3);
    CoefficientSquares(n, i, j, st, ct, alpha, gamma);
    CoefficientMixed(n, j, ct, alpha, beta, gamma, c2);
  }

  lemma InverseSquares(theta: real, i: real, n: real, j: real)
    requires i * theta == 1.0 && n == theta * theta && j == i * i
    ensures n * j == 1.0
  {}

  lemma CoefficientC2(n: real, j: real, ct: real, alpha: real, c2: real)
    requires n * j == 1.0 && alpha == (1.0 - ct) * j && c2 == 0.5 * j + ct * (j * j) - j * j
    ensures c2 * n == 0.5 - alpha
  {}

  lemma CoefficientC3(n: real, i: real, j: real, st: real, ct: real, alpha: real, beta: real, gamma: real, c3: real)
    requires n * j == 1.0 && alpha == (1.0 - ct) * j && gamma == st * i && beta == (1.0 - gamma) * j
    requires c3 == j * j + 0.5 * ct * (j * j) - 1.5 * st * i * (j * j)
    ensures 2.0 * c3 * n == 3.0 * beta - alpha
  {}

  lemma CoefficientSquares(n: real, i: real, j: real, st: real, ct: real, alpha: real, gamma: real)
    requires n * j == 1.0 && j == i * i && st * st + ct * ct == 1.0
    requires alpha == (1.0 - ct) * j && gamma == st * i
    ensures gamma * gamma + alpha * alpha * n == 2.0 * alpha
  {}

  lemma CoefficientMixed(n: real, j: real, ct: real, alpha: real, beta: real, gamma: real, c2: real)
    requires n * j == 1.0 && c2 * n == 0.5 - alpha && beta == (1.0 - gamma) * j
    requires gamma * gamma + alpha * alpha * n == 2.0 * alpha
    ensures 2.0 * c2 - beta == beta * gamma - alpha * alpha
  {}

  lemma PBlockComponent(n: real, k: real, alpha: real, beta: real, gamma: real, c1: real, c2: real, c3: real,
                        a: real, b: real, c: real, d: real, e: real, p1: real, p2: real,
                        x1: real, x2: real, x3: real, x4: real, y: real)
    requires Coefficients(n, alpha, beta, gamma, c1, c2, c3)
    requires x1 == Prod(1.0, a) + Prod(gamma, b) + Prod(alpha, c)
    requires x2 == Prod(1.0, d) + Prod(gamma, Prod(-k, p1)) + Prod(alpha, Prod(-k, p2))
    requires x3 == Prod(1.0, b) + Prod(gamma, c) + Prod(alpha, Prod(-n, b))
    requires x4 == Prod(1.0, p1) + Prod(gamma, p2) + Prod(alpha, Prod(-n, p1))
    requires e == Prod(-n, a) + Prod(-k, p1) - c
    requires y == Prod(0.5, d) + Prod(c1, e + Prod(-k, p1) + Prod(-k, p2)) - Prod(c2, Prod(n, d) + Prod(2.0, Prod(-k, p2)))
                + Prod(c3, Prod(-k, Prod(-n, p1)) + Prod(-k, Prod(-n, p1)))
    ensures Prod(1.0 - Prod(beta, n), x1) + Prod(alpha, x2 - x3) + Prod(Prod(beta, k), x4)
         == y + (Prod(1.0, a) + Prod(alpha, b) + Prod(beta, c))
  {
    PBlockTerms(n, k, alpha, gamma, c1, c2, c3, d, e, p1, p2, b, x2, x3, x4, y);
    BlockComponent(n, k, alpha, beta, gamma, c1, c2, c3, a, b, c, d, e, p1, p2, x1, x2, x3, x4, y);
  }

  lemma PBlockTerms(n: real, k: real, alpha: real, gamma: real, c1: real, c2: real, c3: real,
                    d: real, e: real, p1: real, p2: real, b: real, x2: real, x3: real, x4: real, y: real)
    ensures Prod(gamma, Prod(-k, p1)) == -gamma * k * p1 && Prod(alpha, Prod(-k, p2)) == -alpha * k * p2
    ensures Prod(alpha, Prod(-n, b)) == -alpha * n * b && Prod(alpha, Prod(-n, p1)) == -alpha * n * p1
    ensures Prod(c1, e + Prod(-k, p1) + Prod(-k, p2)) == c1 * (e - k * p1 - k * p2)
    ensures Prod(c2, Prod(n, d) + Prod(2.0, Prod(-k, p2))) == c2 * (n * d - 2.0 * k * p2)
    ensures Prod(c3, Prod(-k, Prod(-n, p1)) + Prod(-k, Prod(-n, p1))) == 2.0 * c3 * k * n * p1
  {}

  /** W applied to the action of the block. */
  lemma CrossBlock(upsilon: Vec3, omega: Vec3, n: real, c1: real, c2: real, c3: real, p: Vec3)
    requires n == SquaredNorm(omega)
    ensures
      var k := Dot(omega, upsilon);
      var p1 := Cross(omega, p);
      var p2 := Cross(omega, p1);
      var d := Cross(omega, Cross(upsilon, p));
      Cross(omega, Apply(BlockSum(upsilon, omega, n, c1, c2, c3), p))
      == Add(Sub(Add(Scale(0.5, d), Scale(c1, Add(Add(Cross(omega, d), Scale(-k, p1)), Scale(-k, p2)))),
                 Scale(c2, Add(Scale(n, d), Scale(2.0, Scale(-k, p2))))),
             Scale(c3, Add(Scale(-k, Scale(-n, p1)), Scale(-k, Scale(-n, p1)))))
  {
    hide *;
    var k := Dot(omega, upsilon);
    var p1 := Cross(omega, p);
    var p2 := Cross(omega, p1);
    var a, b, d := Cross(upsilon, p), Cross(upsilon, p1), Cross(omega, Cross(upsilon, p));
    ApplyBlock(upsilon, omega, n, c1, c2, c3, p);
    SandwichRule(omega, upsilon, p);
    CubeRule(omega, p);
    var first, second, third := Add(Add(d, b), Scale(-k, p1)), Add(Scale(n, a), Scale(2.0, Scale(-k, p1))), Add(Scale(-k, p2), Scale(-k, p2));
    CrossAdd(omega, Sub(Add(Scale(0.5, a), Scale(c1, first)), Scale(c2, second)), Scale(c3, third));
    CrossSub(omega, Add(Scale(0.5, a), Scale(c1, first)), Scale(c2, second));
    CrossAdd(omega, Scale(0.5, a), Scale(c1, first));
    CrossScale(omega, 0.5, a);
    CrossScale(omega, c1, first);
    CrossScale(omega, c2, second);
    CrossScale(omega, c3, third);
    CrossAdd(omega, Add(d, b), Scale(-k, p1));
    CrossAdd(omega, d, b);
    CrossScale(omega, -k, p1);
    CrossAdd(omega, Scale(n, a), Scale(2.0, Scale(-k, p1)));
    CrossScale(omega, n, a);
    CrossScale(omega, 2.0, Scale(-k, p1));
    CrossAdd(omega, Scale(-k, p2), Scale(-k, p2));
    CrossScale(omega, -k, p2);
  }

  lemma BlockAction(omega: Vec3, upsilon: Vec3, p: Vec3, n: real,
                    alpha: real, beta: real, gamma: real, c1: real, c2: real, c3: real)
    requires n == SquaredNorm(omega) && Coefficients(n, alpha, beta, gamma, c1, c2, c3)
    ensures Cross(PolyAct(omega, Poly(1.0, alpha, beta), upsilon), PolyAct(omega, Poly(1.0, gamma, alpha), p))
         == Add(Cross(omega, Apply(BlockSum(upsilon, omega, n, c1, c2, c3), p)),
                Cross(upsilon, PolyAct(omega, Poly(1.0, alpha, beta), p)))
  {
    var x := PolyAct(omega, Poly(1.0, gamma, alpha), p);
    var k := Dot(omega, upsilon);
    var p1 := Cross(omega, p);
    var p2 := Cross(omega, p1);
    var a, b, c, d := Cross(upsilon, p), Cross(upsilon, p1), Cross(upsilon, p2), Cross(omega, Cross(upsilon, p));
    var e := Cross(omega, d);
    CrossTranslation(omega, upsilon, alpha, beta, x);
    RotatedTerms(omega, upsilon, gamma, alpha, p);
    CrossBlock(upsilon, omega, n, c1, c2, c3, p);
    SquareRule(omega, upsilon, p);
    CrossComb3(upsilon, 1.0, p, alpha, p1, beta, p2);
    var x1, x2, x3, x4 := Cross(upsilon, x), Cross(omega, Cross(upsilon, x)), Cross(upsilon, Cross(omega, x)), Cross(omega, x);
    var y := Cross(omega, Apply(BlockSum(upsilon, omega, n, c1, c2, c3), p));
    hide Prod, Cross, Dot, SquaredNorm, Apply, BlockSum, PolyAct, Coefficients;
    assert PolyAct(omega, Poly(1.0, alpha, beta), p) == Comb3(1.0, p, alpha, p1, beta, p2) by { PolyActDefinition(omega, Poly(1.0, alpha, beta), p); }
    PBlockComponent(n, k, alpha, beta, gamma, c1, c2, c3, a.x, b.x, c.x, d.x, e.x, p1.x, p2.x, x1.x, x2.x, x3.x, x4.x, y.x);
    PBlockComponent(n, k, alpha, beta, gamma, c1, c2, c3, a.y, b.y, c.y, d.y, e.y, p1.y, p2.y, x1.y, x2.y, x3.y, x4.y, y.y);
    PBlockComponent(n, k, alpha, beta, gamma, c1, c2, c3, a.z, b.z, c.z, d.z, e.z, p1.z, p2.z, x1.z, x2.z, x3.z, x4.z, y.z);
  }

  lemma PolyActDefinition(omega: Vec3, p: Poly, v: Vec3)
    ensures PolyAct(omega, p, v) == Comb3(p.c, v, p.a, Cross(omega, v), p.b, Cross(omega, Cross(omega, v)))
  {}

  // ----- the adjoint of exp -----

  /** The matrix of the bracket computes the bracket. */
  lemma AdIsBracket(a: Twist, b: Twist)
    ensures Apply6(Ad(a), b) == LieBracket(a, b)
  {
    HatIsCross(a.omega, b.upsilon);
    HatIsCross(a.upsilon, b.omega);
    HatIsCross(a.omega, b.omega);
    ApplyZero(b.upsilon);
    hide Apply, Cross, Hat;
  }

  /** The coefficients that exp, J and the block use are related as required. */
  lemma RegularCoefficients(theta: real, sine: real, cosine: real, n: real, c1: real, c2: real, c3: real)
    requires So3.Regular(theta) && n == theta * theta && sine * sine + cosine * cosine == 1.0 && theta != 0.0
    requires var i := 1.0 / theta;
             && c1 == i * i - sine * (i * i) * i
             && c2 == 0.5 * (i * i) + cosine * (i * i * (i * i)) - i * i * (i * i)
             && c3 == i * i * (i * i) + 0.5 * cosine * (i * i * (i * i)) - 1.5 * sine * i * (i * i * (i * i))
    ensures Coefficients(n, So3.JacobianPoly(theta, sine, cosine).a, So3.JacobianPoly(theta, sine, cosine).b,
                         So3.ExpPoly(theta, sine, cosine).a, c1, c2, c3)
    ensures So3.ExpPoly(theta, sine, cosine) == Poly(1.0, So3.ExpPoly(theta, sine, cosine).a, So3.JacobianPoly(theta, sine, cosine).a)
  {
    var j, e := So3.JacobianPoly(theta, sine, cosine), So3.ExpPoly(theta, sine, cosine);
    var i := 1.0 / theta;
    DivMul(1.0, theta, i);
    So3.JacobianFacts(theta, sine, cosine, n, j.a, j.b, e.a);
    CoefficientFacts(theta, i, sine, cosine, n, j.a, j.b, e.a, c1, c2, c3);
  }

  /** The translation of exp turned by its rotation: hat(t) R = W Q + U J. */
  lemma TranslationBlock(a: Twist, theta: real, sine: real, cosine: real)
    requires So3.Regular(theta) && theta * theta == SquaredNorm(a.omega) && sine * sine + cosine * cosine == 1.0
    ensures Mul(Hat(Apply(So3.LeftJacobian(a.omega, theta, sine, cosine), a.upsilon)), PolyMatrix(a.omega, So3.ExpPoly(theta, sine, cosine)))
         == MatAdd(Mul(Hat(a.omega), UpperRightBlock(a.upsilon, a.omega, theta, sine, cosine)),
                   Mul(Hat(a.upsilon), So3.LeftJacobian(a.omega, theta, sine, cosine)))
  {
    hide *;
    var c1, c2, c3 := BlockCoefficients(a.upsilon, a.omega, theta, sine, cosine);
    NonzeroSquare(theta) by { assert So3.Regular(theta); RegularMeans(theta); }
    RegularCoefficients(theta, sine, cosine, SquaredNorm(a.omega), c1, c2, c3);
    var j, e := So3.JacobianPoly(theta, sine, cosine), So3.ExpPoly(theta, sine, cosine);
    var jm, q := So3.LeftJacobian(a.omega, theta, sine, cosine), UpperRightBlock(a.upsilon, a.omega, theta, sine, cosine);
    var t := Apply(jm, a.upsilon);
    var left, right := Mul(Hat(t), PolyMatrix(a.omega, e)), MatAdd(Mul(Hat(a.omega), q), Mul(Hat(a.upsilon), jm));
    So3.JacobianMatrix(a.omega, theta, sine, cosine);
    ApplyPoly(a.omega, j, a.upsilon);
    So3.JacobianUnit(theta, sine, cosine);
    forall p
      ensures Apply(left, p) == Apply(right, p)
    {
      hide *;
      ApplyMul(Hat(t), PolyMatrix(a.omega, e), p);
      ApplyPoly(a.omega, e, p);
      HatIsCross(t, PolyAct(a.omega, e, p));
      ApplyMatAdd(Mul(Hat(a.omega), q), Mul(Hat(a.upsilon), jm), p);
      ApplyMul(Hat(a.omega), q, p);
      HatIsCross(a.omega, Apply(q, p));
      ApplyMul(Hat(a.upsilon), jm, p);
      HatIsCross(a.upsilon, Apply(jm, p));
      ApplyPoly(a.omega, j, p);
      BlockAction(a.omega, a.upsilon, p, SquaredNorm(a.omega), j.a, j.b, e.a, c1, c2, c3);
    }
    Extensional(left, right);
  }

  lemma RegularMeans(theta: real)
    ensures So3.Regular(theta) <==> theta * theta >= EPSILON * EPSILON
  {}

  lemma BlockCoefficients(upsilon: Vec3, omega: Vec3, theta: real, sine: real, cosine: real) returns (c1: real, c2: real, c3: real)
    requires So3.Regular(theta) && theta * theta == SquaredNorm(omega)
    ensures theta != 0.0
    ensures var i := 1.0 / theta;
            && c1 == i * i - sine * (i * i) * i
            && c2 == 0.5 * (i * i) + cosine * (i * i * (i * i)) - i * i * (i * i)
            && c3 == i * i * (i * i) + 0.5 * cosine * (i * i * (i * i)) - 1.5 * sine * i * (i * i * (i * i))
    ensures UpperRightBlock(upsilon, omega, theta, sine, cosine) == BlockSum(upsilon, omega, SquaredNorm(omega), c1, c2, c3)
  {
    hide Hat, Mul, BlockSum, SquaredNorm;
    NonzeroSquare(theta);
    var i := 1.0 / theta;
    c1 := i * i - sine * (i * i) * i;
    c2 := 0.5 * (i * i) + cosine * (i * i * (i * i)) - i * i * (i * i);
    c3 := i * i * (i * i) + 0.5 * cosine * (i * i * (i * i)) - 1.5 * sine * i * (i * i * (i * i));
  }

  /** Adj(exp a) = I + ad_a J(a): the 6x6 left Jacobian integrates the adjoint. */
  lemma AdjointOfExp(a: Twist, theta: real, s: real, c: real, sine: real, cosine: real)
    requires HalfAngle(s, c, sine, cosine) && So3.Regular(theta) && theta * theta == SquaredNorm(a.omega)
    ensures Adj(Exp(a, theta, s, c, sine, cosine)) == Add6(IDENTITY6, Mul6(Ad(a), LeftJacobian(a, theta, sine, cosine)))
  {
    Pythagoras(s, c, sine, cosine);
    var j, q := So3.LeftJacobian(a.omega, theta, sine, cosine), UpperRightBlock(a.upsilon, a.omega, theta, sine, cosine);
    So3.ExpIsIntegral(a.omega, theta, s, c, sine, cosine);
    So3.ExpMatrix(a.omega, theta, s, c, sine, cosine);
    TranslationBlock(a, theta, sine, cosine);
    ZeroProducts(Hat(a.upsilon));
    ZeroProducts(Hat(a.omega));
    ZeroProducts(j);
    ZeroProducts(q);
    ZeroProducts(Mul(Hat(a.omega), j));
    ZeroProducts(MatAdd(Mul(Hat(a.omega), q), Mul(Hat(a.upsilon), j)));
    ZeroProducts(ZERO_MATRIX);
    ExpParts(a, theta, s, c, sine, cosine);
    hide Hat, Mul, MatAdd, Matrix, Apply, PolyMatrix, UpperRightBlock, So3.LeftJacobian, So3.ExpAndTheta, Exp;
  }

  lemma ExpParts(a: Twist, theta: real, s: real, c: real, sine: real, cosine: real)
    requires So3.Regular(theta) && theta * theta == SquaredNorm(a.omega)
    ensures Exp(a, theta, s, c, sine, cosine).q == So3.ExpAndTheta(a.omega, theta, s, c).0
    ensures Exp(a, theta, s, c, sine, cosine).t == Apply(So3.LeftJacobian(a.omega, theta, sine, cosine), a.upsilon)
  {}

  // ----- the inverse Jacobian, and the translation through exp and log -----

  /** The 6x6 Jacobian times its closed-form inverse is the identity. */
  lemma JacobianInverse6(a: Twist, theta: real, s: real, c: real, sine: real, cosine: real)
    requires HalfAngle(s, c, sine, cosine) && So3.Regular(theta) && s != 0.0 && theta * theta == SquaredNorm(a.omega)
    ensures Mul6(LeftJacobian(a, theta, sine, cosine), LeftJacobianInverse(a, theta, s, c, sine, cosine)) == IDENTITY6
    ensures Mul6(LeftJacobianInverse(a, theta, s, c, sine, cosine), LeftJacobian(a, theta, sine, cosine)) == IDENTITY6
  {
    var j, k := So3.LeftJacobian(a.omega, theta, sine, cosine), So3.LeftJacobianInverse(a.omega, theta, s, c);
    var q := UpperRightBlock(a.upsilon, a.omega, theta, sine, cosine);
    So3.JacobianInverse(a.omega, theta, s, c, sine, cosine);
    hide UpperRightBlock, So3.LeftJacobian, So3.LeftJacobianInverse, Mul, MatAdd, MatScale;
    BlockInverse(j, k, q);
  }

  lemma BlockInverse(j: Mat3, k: Mat3, q: Mat3)
    requires Mul(j, k) == IDENTITY && Mul(k, j) == IDENTITY
    ensures Mul6(Mat6(j, q, ZERO_MATRIX, j), Mat6(k, MatScale(-1.0, Mul(Mul(k, q), k)), ZERO_MATRIX, k)) == IDENTITY6
    ensures Mul6(Mat6(k, MatScale(-1.0, Mul(Mul(k, q), k)), ZERO_MATRIX, k), Mat6(j, q, ZERO_MATRIX, j)) == IDENTITY6
  {
    hide Mul, MatAdd, MatScale, Prod;
    var m := Mul(Mul(k, q), k);
    ZeroProducts(j);
    ZeroProducts(k);
    ZeroProducts(q);
    ZeroProducts(MatScale(-1.0, m));
    ZeroProducts(IDENTITY);
    ZeroProducts(ZERO_MATRIX);
    MulNegated(j, m);
    MulNegated(m, j);
    MulAssoc(j, Mul(k, q), k);
    MulAssoc(j, k, q);
    MulIdentity(q);
    MulAssoc(Mul(k, q), k, j);
    MulIdentity(Mul(q, k));
    MulIdentity(Mul(k, q));
    Opposite(Mul(q, k));
    Opposite(Mul(k, q));
  }

  lemma Opposite(m: Mat3)
    ensures MatAdd(m, MatScale(-1.0, m)) == ZERO_MATRIX == MatAdd(MatScale(-1.0, m), m)
  {}

  lemma MulNegated(m: Mat3, n: Mat3)
    ensures Mul(m, MatScale(-1.0, n)) == MatScale(-1.0, Mul(m, n)) == Mul(MatScale(-1.0, m), n)
  {
    forall v
      ensures Apply(Mul(m, MatScale(-1.0, n)), v) == Apply(MatScale(-1.0, Mul(m, n)), v) == Apply(Mul(MatScale(-1.0, m), n), v)
    {
      hide *;
      ApplyMul(m, MatScale(-1.0, n), v);
      ApplyMatScale(-1.0, n, v);
      ApplyScaled(m, -1.0, Apply(n, v));
      ApplyMatScale(-1.0, Mul(m, n), v);
      ApplyMul(m, n, v);
      ApplyMul(MatScale(-1.0, m), n, v);
      ApplyMatScale(-1.0, m, Apply(n, v));
    }
    Extensional(Mul(m, MatScale(-1.0, n)), MatScale(-1.0, Mul(m, n)));
    Extensional(Mul(MatScale(-1.0, m), n), MatScale(-1.0, Mul(m, n)));
  }

  /** Log's inverse Jacobian recovers the translational part that exp used. */
  lemma TranslationRoundTrip(a: Twist, theta: real, s: real, c: real, sine: real, cosine: real)
    requires HalfAngle(s, c, sine, cosine) && So3.Regular(theta) && s != 0.0 && theta * theta == SquaredNorm(a.omega)
    ensures Apply(So3.LeftJacobianInverse(a.omega, theta, s, c), Exp(a, theta, s, c, sine, cosine).t) == a.upsilon
  {
    So3.JacobianInverse(a.omega, theta, s, c, sine, cosine);
    ExpParts(a, theta, s, c, sine, cosine);
    ApplyMul(So3.LeftJacobianInverse(a.omega, theta, s, c), So3.LeftJacobian(a.omega, theta, sine, cosine), a.upsilon);
    ApplyIdentity(a.upsilon);
    hide *;
  }
}
