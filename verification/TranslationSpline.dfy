/** Between poses that do not turn, the spline over SE3 is the spline over the translations. */
module TranslationSpline {
  import opened Linear
  import opened Quaternions
  import opened Checked
  import opened Affine
  import opened Elementary
  import opened ExpLog
  import opened TaylorBranches
  import opened Se3Spline
  import RxSo3
  import Se3
  import Se3Group
  import Spline

  function Still(t: Vec3): Se3.Pose {
    Se3.Pose(Real(1.0), t)
  }

  function Push(u: Vec3): Se3.Twist {
    Se3.Twist(u, ZERO)
  }

  function AllStill(points: seq<Vec3>): seq<Se3.Pose> {
    seq(|points|, k requires 0 <= k < |points| => Still(points[k]))
  }

  lemma ActionOfOne(p: Vec3)
    ensures UnitAction(Real(1.0), p) == p
  {}

  lemma OneOnly()
    ensures Real(1.0).Conjugate() == Real(1.0) && QuaternionProduct(Real(1.0), Real(1.0)) == Real(1.0)
  {
    ProductReal(1.0, Real(1.0));
    RxSo3.TimesOne(Real(1.0));
    hide QuaternionProduct, Quaternion.Times;
  }

  lemma Opposite(t: Vec3)
    ensures Scale(-1.0, t) == Neg(t) && Add(ZERO, t) == t
  {}

  lemma StillGroup(f: Elementary, s: Vec3, t: Vec3)
    requires Facts(f)
    ensures Composed(f, Still(s), Still(t)) == Still(Add(s, t)) && Se3Group.Inverse(Still(s)) == Still(Neg(s))
  {
    hide Facts, Composed, UnitAction, QuaternionProduct, Scale, Neg, Add, Se3Group.Valid, Quaternion.Conjugate;
    StillIsValid(s);
    StillIsValid(t);
    ComposedIs(f, Still(s), Still(t));
    OneOnly();
    ActionOfOne(t);
    ActionOfOne(Neg(s));
    Opposite(s);
  }

  lemma StillLog(f: Elementary, s: Vec3)
    requires Facts(f)
    ensures Logged(f, Still(s)) == Push(s) && MatrixOf(Still(s)) == Mat4(IDENTITY, s, 1.0)
  {
    hide Facts, Logged, Se3Log, So3Log, Matrix, MatrixOf, Se3Group.Valid, Quaternion.SquaredNorm, Quaternion.Vec;
    StillIsValid(s);
    MatrixOfValid(Still(s));
    NoTurn();
    NoRotation(f, Still(s));
    LoggedIs(f, Still(s));
  }

  lemma StillIsValid(s: Vec3)
    ensures Se3Group.Valid(Still(s)) && Still(s).q.SquaredNorm() == 1.0
  {}

  lemma NoTurn()
    ensures Real(1.0).Vec() == ZERO
  {}

  /** The pieces of the two splines correspond. */
  lemma StillSpline(f: Elementary, s: Vec3, t: Vec3, b: real)
    requires Facts(f)
    ensures var l, c := Poses(f), Spline.Cartesian();
            && l.mul(Still(s), Still(t)) == Still(c.mul(s, t)) && l.inverse(Still(s)) == Still(c.inverse(s)) && l.log(Still(s)) == Push(c.log(s))
            && l.exp(l.times(b, Push(s))) == Still(c.exp(c.times(b, s)))
            && l.matrix(Still(s)) == c.matrix(s) && l.hat(Push(s)) == c.hat(s) && l.ring == c.ring
  {
    hide Facts, Composed, Logged, MatrixOf, Scale, Add, Neg, Se3Exp, Se3Group.Inverse, Mul4;
    StillGroup(f, s, t);
    StillLog(f, s);
    ScaleZeroVector(b);
    ExpOfNoRotation(f, Scale(b, s));
    HatOfZero();
  }

  lemma StillControl(f: Elementary, points: seq<Vec3>, i: int)
    requires Facts(f) && |points| >= 2 && 0 <= i < |points| - 1
    ensures var d, c := Spline.SegmentControl(Spline.Cartesian(), points, i), Spline.SegmentControl(Poses(f), AllStill(points), i);
            c == (Still(d.0), Spline.Triple(Push(d.1.x0), Push(d.1.x1), Push(d.1.x2)))
  {
    hide Facts, Poses, Spline.Cartesian;
    var c := Spline.Cartesian();
    forall s, t
      ensures var l := Poses(f); l.log(l.mul(l.inverse(Still(s)), Still(t))) == Push(c.log(c.mul(c.inverse(s), t)))
    {
      StillSpline(f, s, t, 0.0);
      StillSpline(f, c.inverse(s), t, 0.0);
      StillSpline(f, c.mul(c.inverse(s), t), t, 0.0);
    }
    hide Still, Push;
  }

  /** Value, first and second derivative are those of the spline over the translations, without rotation. */
  lemma TranslationsOnly(f: Elementary, points: seq<Vec3>, i: int, u: real, deltaT: real)
    requires Facts(f) && |points| >= 2 && 0 <= i < |points| - 1 && deltaT != 0.0
    ensures var l, c, poses := Poses(f), Spline.Cartesian(), AllStill(points);
            && Spline.Evaluate(c, points, i, u).Pass?
            && Spline.Evaluate(l, poses, i, u) == Pass(Still(Spline.Evaluate(c, points, i, u).value))
            && Spline.EvaluateDt(l, poses, i, u, deltaT) == Spline.EvaluateDt(c, points, i, u, deltaT)
            && Spline.EvaluateDt2(l, poses, i, u, deltaT) == Spline.EvaluateDt2(c, points, i, u, deltaT)
  {
    hide Facts, Poses, Spline.Cartesian, Spline.SegmentControl, Spline.B, Spline.DtB, Spline.Dt2B, Spline.Mul3, Still, Push;
    StillControl(f, points, i);
    var d := Spline.SegmentControl(Spline.Cartesian(), points, i);
    StillFactors(f, d.0, d.1, u);
    StillSpline(f, d.0, d.0, 0.0);
    StillSpline(f, d.1.x0, d.0, 0.0);
    StillSpline(f, d.1.x1, d.0, 0.0);
    StillSpline(f, d.1.x2, d.0, 0.0);
  }

  lemma StillFactors(f: Elementary, p: Vec3, v: Spline.Triple<Vec3>, u: real)
    requires Facts(f)
    ensures var l, c, w := Poses(f), Spline.Cartesian(), Spline.Triple(Push(v.x0), Push(v.x1), Push(v.x2));
            var a := Spline.A(c, v, u);
            && Spline.A(l, w, u) == Spline.Triple(Still(a.x0), Still(a.x1), Still(a.x2))
            && l.matrix(Still(a.x0)) == c.matrix(a.x0) && l.matrix(Still(a.x1)) == c.matrix(a.x1) && l.matrix(Still(a.x2)) == c.matrix(a.x2)
            && Spline.ParentTSpline(l, Still(p), w, u) == Still(Spline.ParentTSpline(c, p, v, u))
  {
    hide Facts, Poses, Spline.Cartesian, Spline.B, Still, Push;
    var c, b := Spline.Cartesian(), Spline.B(u);
    var a := Spline.A(c, v, u);
    StillSpline(f, v.x0, p, b.x);
    StillSpline(f, v.x1, p, b.y);
    StillSpline(f, v.x2, p, b.z);
    StillSpline(f, a.x0, p, 0.0);
    StillSpline(f, a.x1, p, 0.0);
    StillSpline(f, a.x2, p, 0.0);
    StillSpline(f, p, a.x0, 0.0);
    StillSpline(f, c.mul(p, a.x0), a.x1, 0.0);
    StillSpline(f, c.mul(c.mul(p, a.x0), a.x1), a.x2, 0.0);
  }
}
