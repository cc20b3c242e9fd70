# Verified model of the Sophus Lie groups, the flight recorder, the capture loop and the lidar registry

The repository fuses a lidar, a camera and an inertial unit. This project models its four hardest
parts and proves what each of them promises.

1. **The Lie groups of Sophus** (SO3, SE3, RxSO3, Sim3 and SO2, SE2, RxSO2, Sim2). Their closed
   forms are modelled entry by entry over exact reals, with the branches and thresholds of the code.
   The theorems say that the forms agree: exp against log, the left Jacobian against its inverse and
   against exp, the adjoint against conjugation and bracket, the point action against the matrix,
   `calcW` against `calcWInv` and against its derivatives.
2. **The cumulative cubic B-spline**, over any group of matrices (`Spline.LieLaws`): the three segment
   cases, smoothness at the knots, and the search for a segment. Elements are compared by their
   matrices, and exp and log have to agree only on the step that ends at a knot. Between translations
   every step does (`Spline.CartesianIsLie`), between poses of SE3 exactly those described by
   `Se3Spline.SmoothExactlyWhen`. The derivatives that the spline over poses reports are those of its value
   (`SplineDerivatives`, `KnotDerivatives`), because exp(b v) is a one-parameter group that starts along hat(v)
   (`Screw`). The spline as a function of time is in `SplineTime`.
3. **The flight recorder and the capture loop.** The recorder is a state machine over single atomic
   operations and single stores, run by any number of threads; so is the way of the frames from the
   source to the loop; the driver's threads are a state machine from constructor to destructor; the
   objects themselves are classes.
4. **The lidar SDK's registry of sockets** and its walk over key-value parameters.

## How the arithmetic is modelled

- Scalars are `real`; rounding is not modelled. Epsilon is the double precision value 1e-10.
- The elementary functions are one record of total functions, `Elementary.Elementary`, with facts about
  the true ones in `Elementary.Facts`: square root, half angles, sums, parity, the quadrant of sine and
  cosine, atan2 as the angle of a point of the unit circle, exp against log, and a few inequalities
  (Cusa and Huygens with its hyperbolic form, Taylor bounds). The theorems about exp and log are for
  every record that satisfies the facts. Algebra that needs less takes single values with the
  equations that define them, as `theta * theta == |omega|^2`, `HalfAngle` and `Transcendental`.
- `Linear.Prod` and `Linear.Quotient` are multiplication and division under a name. Lemmas whose
  names start with `P` and a capital state one polynomial identity each.
- `Checked.Abort` is the outcome of a failed `SOPHUS_ENSURE`.
- In the algebra of one axis a matrix is `c I + a W + b W^2` with `W^3 = -theta^2 W`
  (`Skew.Poly`); in the plane the same polynomial is one complex number (`Planar.ToComplex`).
- The products are those of the operators: with the normalisation in the constructor of SO3
  (`Se3Product`), and with saturation and the check of the constructor on Sim2 and Sim3 (`Sim2Product`,
  `Sim3Product`). `Se3Group.Times`, `Sim2.Multiply` and `Sim3.Times` are the groups' own, which the proofs use.
- A quaternion that exp makes in its Taylor branch is not a unit one. Where its matrix matters, that is the
  one Eigen computes without looking at the norm (`UnitQuaternions.UnitMatrix`).

## What is false of the code

Each of these is proved with the exact condition; where the condition does not show an input, one is
given.

- A product of RxSO3 elements aborts when the product of the scales is exactly 1/epsilon, and the
  inverse aborts when the scale is exactly epsilon: the constructor's upper check is strict, the
  saturation's is not (`RxSo3.Multiply`, `RxSo3.InverseSucceeds`; over runs `RxSo3Runs.RunsKeepInvariant`;
  inputs in `RxSo3.BoundaryInputs`). RxSO2 has no such gap.
- The group laws of Sim3 and Sim2 hold for a product exactly if its scale does not saturate
  (`Sim3Product.GroupLawsExactlyWhen`, `Sim2Product.GroupLawsExactlyWhen`).
- The setters of RxSO3 do not keep the class invariant (`RxSo3Class.RxSo3Element.SetScale`,
  `RxSo3Class.SetScaleBreaks`).
- The angle that `SO3::logAndTheta` reports is documented as the norm of the tangent; for a
  quaternion with negative real part it is minus the norm (`ExpLog.So3ExpOfLog`). Nothing that uses
  it depends on the sign (`Logarithm.InverseJacobianIsEven`, `Sim3Log.EvenWInv`).
- Exp of SO3 and SE3 switches to its Taylor branch below an angle of epsilon, log below a vector part of
  epsilon, and neither is exact there: the round trips hold if and only if the rotation is zero or
  beyond the later threshold (`TaylorBranches.So3LogOfExpExactlyWhen`, `TaylorBranches.So3ExpOfLogExactlyWhen`,
  the same for SE3 and its Ceres manifold, where products normalise; an input in `TaylorBranches.LostRotation`).
- The Taylor branch of `SO3::exp` makes a quaternion that is longer than one for every rotation vector
  but zero, though by less than the check after it allows (`TaylorBranches.UnitExactlyWhen`). On RxSO3 this
  makes the scale slightly too large (`RxSo3Runs.ExpPasses`).
- The Jacobians of SO3 and SE3 are inverse to what the code computes as their inverses, and integrate exp
  and its adjoint, if and only if the rotation is zero or beyond the Taylor threshold (`JacobianBands`).
- The spline through poses is continuous at a knot, and then C2, if and only if the step that ends there
  has a quaternion with a vector part of zero or at least epsilon (`Se3Spline.SmoothExactlyWhen`; an input
  where it jumps in `Se3Spline.JumpInput`).
- `calcW` compares |sigma| and |theta| with epsilon, `calcWInv` their squares. The two are inverse if
  and only if sigma and theta are each zero or have a square of at least epsilon
  (`SimBands.InverseExactlyWhen`, for the matrices `SimBands.MatricesInverseExactlyWhen`), which decides the
  round trips of Sim3 and of its Ceres manifold, for one translation by its components along and across
  the axis (`TranslationBands.ActionExactlyWhen`, `Sim3Log.LogOfExpExactlyWhen`,
  `Sim3Log.ExpOfLogExactlyWhen`, `Manifold.MinusOfPlusSim3`, `Manifold.PlusOfMinusSim3`). `SimBands.BandInputs`
  has an input on each side of every threshold.
- `calcW_derivatives` reports a zero derivative of A and B along sigma where both arguments are small. That of
  A jumps there from zero to more than 1/4, and the differentiated equation of W fails by 1/3
  (`SimDerivatives.SigmaDerivativeJumps`, `SimDerivatives.TinyMiss`).
- In the plane, and across the axis in space, two such errors can cancel: every angle between the
  thresholds has exactly one logarithm of the scale with which they do (`PlanarBands.ProductExactlyWhen`,
  `PlanarBands.CompensationIsTiny`, `PlanarLog.Sim2CancellingInput`). Everywhere else the condition is the
  same (`PlanarLog.Sim2LogOfExpExactlyWhen`, `PlanarLog.Sim2BandInput`).
- SE2 has a band of its own: its round trips hold if and only if there is no translation, no angle, or
  1 - cos has reached epsilon (`PlanarLog.Se2LogOfExpExactlyWhen`, `PlanarLog.Se2BandInput`).
- At a full turn the left Jacobian is singular, and the closed form of its inverse divides by zero
  exactly there (`So3.InverseExists`).
- `rotationFromNormal` rejects hints by their inner product, not its absolute value: hints on opposite
  sides pass the check and fail later if one of them is parallel to the normal and along it the shorter
  one (`Geometry.FailsExactlyWhen`, `Geometry.RejectedInput`, `Geometry.TiltedInput`). A normal whose
  squared norm is within epsilon of one, but not one, is not normalised (`Geometry.ThirdColumnUnit`).
- `SE2FromLine` does not normalise the translation with the normal, so a line with a normal that is
  not unit comes back as another line unless it passes through the origin (`Geometry.LineRoundTrip`,
  `Geometry.MovedLine`).
- `index_and_u` compares the time with half of `tmax()` wherever `t0` is; segment indices are in range
  for all times of the spline only if `t0` lies in a window about zero (`SplineIndex.IndexInRange`,
  `SplineTime.PassesExactlyWhen`). Within epsilon after a knot of the second half it takes the segment before
  the knot, beyond its end; between translations the value is then right if and only if the fourth
  difference of the control points vanishes (`SplineTime.BeyondExactlyWhen`, `SplineTime.RightExactlyWhen`).
- A mapped frame of size zero is invalid to the loop and is never released; the next grab overwrites
  its references. Each such frame loses a sample and a memory, except what the shutdown still finds
  (`FrameLoop.Driver.LoopAndStop`, `FrameLoop.EmptyFramesLeak`).
- The drop counter counts frames that are still on their way as dropped, and does not take them back
  when they are delivered (`FramePipeline.Capture`).
- The recorder's counters are 64 bits wide and never reset: the call number 2^64 + 1 gets slot 0 again
  (`Recorder.WrapReusesSlots`), which can put it into the hands of two threads
  (`Recorder.SlotTwiceAfterWrap`); and reopening the box goes on where it stopped (`BlackBox.Box.Init`).
- `Destory` closes the detection sockets only if the detection thread was started, which a failed
  `Init` prevents, and it leaves the data loop's interest in the view sockets
  (`DeviceManager.Manager.Destory`).
- The key-value walk counts with 8 bits. It comes to an end inside the buffer if and only if there are
  at most 255 parameters and their turns stay inside (`KeyValueWalk.EndsExactlyWhen`); an answer with
  more is read beyond its end (`KeyValueWalk.WalkOverruns`, `KeyValueWalk.OverrunInput`). The walk takes
  the ports of an address shorter than eight bytes from what follows it (`KeyValueWalk.FoundBytes`).

## Model

| member | source | states |
|---|---|---|
| `Quaternions.ActionIsMatrix` | src/Sophus/sophus/rxso3.hpp:277-285 | the two-cross-product action on a point is multiplication by the matrix, for every quaternion |
| `Quaternions.UnitActionIsMatrix` | src/Sophus/sophus/so3.hpp:388-397 | the same for the action of SO3 on unit quaternions |
| `Quaternions.NormProduct` | src/Sophus/sophus/so3.hpp:346-353 | the squared norm of a product is the product of the squared norms |
| `Quaternions.ProductAssoc` | src/Sophus/sophus/so3.hpp:346-353 | the product of quaternions is associative |
| `Quaternions.MatrixProduct` | src/Sophus/sophus/rxso3.hpp:188-223 | the matrix of a product is the product of the matrices |
| `Quaternions.ScaledOrthogonal` | src/Sophus/sophus/rxso3.hpp:188-223 | the matrix is scaled orthogonal: M Mt = Mt M = s^2 I |
| `Quaternions.DetMatrix` | src/Sophus/sophus/rxso3.hpp:188-223 | the determinant of the matrix is s^3 |
| `So3.ExpMatrix` | src/Sophus/sophus/so3.hpp:694-731 | exp gives a unit quaternion, whose matrix is I + sin/theta W + (1 - cos)/theta^2 W^2 |
| `JacobianBands.IntegralExactlyWhen` | src/Sophus/sophus/so3.hpp:550-571 | R = I + hat(omega) leftJacobian(omega) for the rotation R of exp(omega) if and only if omega is zero or beyond the Taylor threshold |
| `JacobianBands.InverseExactlyWhen` | src/Sophus/sophus/so3.hpp:573-597 | leftJacobian and leftJacobianInverse are inverse, on either side, if and only if omega is zero or beyond the Taylor threshold |
| `So3.JacobianSingular` | src/Sophus/sophus/so3.hpp:550-571 | at a full turn the Jacobian annihilates every vector perpendicular to the axis |
| `So3.InverseExists` | src/Sophus/sophus/so3.hpp:550-597 | the Jacobian has an inverse if and only if sin(theta / 2) is not zero |
| `TaylorBranches.So3ExpOfLogExactlyWhen` | src/Sophus/sophus/so3.hpp:260-311 | exp(log q) is q or -q if and only if the vector part is zero or at least epsilon long, and is then the one with the non-negative real part |
| `ExpLog.So3ExpOfLog` | src/Sophus/sophus/so3.hpp:260-311 | outside the Taylor branch the reported angle is the norm of the tangent if and only if the real part is not negative |
| `TaylorBranches.So3LogOfExpExactlyWhen` | src/Sophus/sophus/so3.hpp:260-311 | log(exp omega) = omega, with |omega| as the reported angle, if and only if omega is zero, or at most pi long with a sine of half the angle of at least epsilon |
| `TaylorBranches.LostRotation` | src/Sophus/sophus/so3.hpp:260-311 | a rotation by epsilon that does not come back |
| `Logarithm.InverseJacobianIsEven` | src/Sophus/sophus/so3.hpp:573-597 | the inverse Jacobian does not depend on the sign of the angle it is given |
| `So3Class.So3.Normalize` | src/Sophus/sophus/so3.hpp:318-325 | normalising makes the quaternion unit, or aborts and changes nothing if the norm is below epsilon |
| `So3Class.So3.SetQuaternion` | src/Sophus/sophus/so3.hpp:447-450 | the rotation becomes that of the given quaternion; on failure the object already holds it |
| `So3Class.So3.MulAssign` | src/Sophus/sophus/so3.hpp:438-441 | in-place multiplication never aborts on valid elements, keeps the invariant, multiplies the matrices; aliasing is allowed |
| `Se3.AdIsBracket` | src/Sophus/sophus/se3.hpp:949-960 | the 6x6 matrix of a bracket with fixed first argument computes the bracket |
| `JacobianBands.AdjointExactlyWhen` | src/Sophus/sophus/se3.hpp:560-608 | Adj(exp a) = I + ad_a leftJacobian(a), with the Q block, if and only if the rotation of a is zero or beyond the Taylor threshold |
| `JacobianBands.Inverse6ExactlyWhen` | src/Sophus/sophus/se3.hpp:599-619 | the 6x6 Jacobian and its block inverse are inverse, on either side, under the same condition, as an equivalence |
| `JacobianBands.TranslationExactlyWhen` | src/Sophus/sophus/se3.hpp:852-861 | the inverse Jacobian of log recovers the translational part that exp used if and only if the rotation is beyond the Taylor threshold or the translation along its axis |
| `TaylorBranches.Se3LogOfExpExactlyWhen` | src/Sophus/sophus/se3.hpp:237-254 | log(exp a) = a, rotation and translation, log evaluated on what exp makes in every branch, if and only if the rotation is zero, or at most pi with a sine of half the angle of at least epsilon |
| `TaylorBranches.Se3ExpOfLogExactlyWhen` | src/Sophus/sophus/se3.hpp:237-254 | for every valid A exp(log A) is A up to the sign of the quaternion if and only if its vector part is zero or at least epsilon long |
| `Se3Product.ProductIs` | src/Sophus/sophus/se3.hpp:302-306 | the product with the normalisation in the constructor never aborts on a valid left factor and is the group product with the right factor normalised |
| `Se3Product.LogOfUnitExpExactlyWhen` | src/Sophus/sophus/se3.hpp:237-254 | log of the normalised exp(a) is a under the same condition as without the normalisation |
| `Se3Product.UnitExpOfLogExactlyWhen` | src/Sophus/sophus/se3.hpp:237-254 | exp(log A), normalised, is A up to the sign of the quaternion if and only if its vector part is zero or at least epsilon long |
| `Se3Group.ProductIsGroup` | src/Sophus/sophus/se3.hpp:302-306 | the product keeps the invariant, is associative, and is the product of the 4x4 matrices |
| `Se3Group.InverseIsGroup` | src/Sophus/sophus/se3.hpp:222-225 | inverse on both sides, as poses and as matrices |
| `Se3Group.AdjointIsConjugation` | src/Sophus/sophus/se3.hpp:105-113 | hat(Adj_A x) = A hat(x) A^-1 |
| `Se3Group.AdjointOfProduct` | src/Sophus/sophus/se3.hpp:105-113 | Adj_AB = Adj_A Adj_B |
| `Se3Group.AdjointPreservesBracket` | src/Sophus/sophus/se3.hpp:105-113 | Adj_A [x, y] = [Adj_A x, Adj_A y] |
| `Se3Group.BracketIsCommutator` | src/Sophus/sophus/se3.hpp:931-960 | hat of the bracket is the commutator of the hat matrices |
| `Se3Group.Jacobi` | src/Sophus/sophus/se3.hpp:949-960 | the bracket obeys the Jacobi identity |
| `Se3Group.LineAndPlane` | src/Sophus/sophus/se3.hpp:344-360 | the image of a line carries the image points at the same parameter; signed plane distances are kept |
| `RxSo3.Multiply` | src/Sophus/sophus/rxso3.hpp:241-264 | the stepwise product saturates as documented and passes the constructor unless the product of the scales is zero or exactly 1/epsilon; the new scale is exact |
| `RxSo3.RotationOfProduct` | src/Sophus/sophus/rxso3.hpp:241-264 | whatever the saturation factor, the rotation of the product is the product of the rotations |
| `RxSo3.RotationTimes` | src/Sophus/sophus/rxso3.hpp:371-375 | rescaling a quaternion does not change its rotation matrix |
| `RxSo3.InverseSucceeds` | src/Sophus/sophus/rxso3.hpp:159-161 | the inverse of a valid element passes the constructor if and only if the scale is not epsilon, and is then inverse on both sides |
| `RxSo3Runs.ExpPasses` | src/Sophus/sophus/rxso3.hpp:659-678 | exp passes the constructor for every tangent vector, with the rotation of SO3::exp; its scale is the clamped one if and only if the rotation vector is zero or beyond the Taylor threshold, and otherwise larger by less than the factor 1 + epsilon |
| `RxSo3Runs.RunsKeepInvariant` | src/Sophus/sophus/rxso3.hpp:576-585 | a run of products, inverses and exponentials of any tangent vectors aborts if and only if it comes to one of the two boundary scales; every element it makes passes the check of the constructor |
| `RxSo3.BoundaryInputs` | src/Sophus/sophus/rxso3.hpp:576-585 | valid elements at both boundary scales: a product and an inverse that abort |
| `RxSo3.LineAction` | src/Sophus/sophus/rxso3.hpp:306-309 | the image line carries the image points at the parameter times s, with a direction of the same length |
| `RxSo3.PlaneAction` | src/Sophus/sophus/rxso3.hpp:319-323 | signed distances are multiplied by exactly s, the normal keeps its length |
| `RxSo3Class.RxSo3Element.MulAssign` | src/Sophus/sophus/rxso3.hpp:334-338 | in-place product: aborts, unchanged, if and only if the scales multiply to 1/epsilon; else valid, with saturated scale and the product rotation |
| `RxSo3Class.RxSo3Element.SetSo3` | src/Sophus/sophus/rxso3.hpp:426-431 | replaces the rotation and keeps the scale |
| `RxSo3Class.RxSo3Element.SetScale` | src/Sophus/sophus/rxso3.hpp:396-401 | replaces the scale and keeps the rotation; the invariant holds after it if and only if the new scale meets it |
| `RxSo3Class.SetScaleBreaks` | src/Sophus/sophus/rxso3.hpp:396-401 | a call that leaves an element outside the invariant |
| `Sim3Product.ProductSucceeds` | src/Sophus/sophus/sim3.hpp:211-215 | the product of valid elements aborts on one scale only; else it is valid, with saturated scale, the product rotation and the right translation, and its linear part is the right one times saturated over true scale |
| `Sim3Product.GroupLawsExactlyWhen` | src/Sophus/sophus/sim3.hpp:211-231 | the product is the group's, its matrix the product of the 4x4 matrices, its action the composed action and its adjoint the product of the adjoints, each if and only if the scale does not saturate |
| `Sim3Product.Associativity` | src/Sophus/sophus/sim3.hpp:211-215 | where all products pass the rotations are associative, and the elements too unless a scale saturates on the way |
| `Sim3Product.InverseExactlyWhen` | src/Sophus/sophus/sim3.hpp:131-134 | a valid element has an inverse if and only if its scale is not epsilon; the products with it pass and are the identity |
| `Sim3.LineAction` | src/Sophus/sophus/sim3.hpp:253-256 | lines are mapped to lines, reparametrised by s |
| `Sim3.PlaneAction` | src/Sophus/sophus/sim3.hpp:266-270 | signed plane distances are multiplied by exactly s |
| `Sim3.AdjointIsConjugation` | src/Sophus/sophus/sim3.hpp:107-119 | hat(Adj_A x) = A hat(x) A^-1 |
| `Sim3.BracketIsCommutator` | src/Sophus/sophus/sim3.hpp:691-725 | the bracket is vee of the commutator of the hat matrices |
| `Sim3.AdjointPreservesBracket` | src/Sophus/sophus/sim3.hpp:709-725 | Adj_A [x, y] = [Adj_A x, Adj_A y] |
| `Sim3.Jacobi` | src/Sophus/sophus/sim3.hpp:709-725 | the bracket obeys the Jacobi identity |
| `Sim3Exp.ExpIsIntegral` | src/Sophus/sophus/sim3.hpp:610-625 | hat(omega, sigma) W = s R - I: the translation of exp integrates its rotation and scale |
| `Sim3Exp.WInverse` | src/Sophus/sophus/sim_details.hpp:9-48 | the matrices W and W_inv are inverse on both sides, in the general branch and at sigma = 0 |
| `Sim3Exp.TranslationRoundTrip` | src/Sophus/sophus/sim3.hpp:610-625 | exp does not abort, has the scale exp(sigma), and log's W_inv recovers the translational part |
| `Sim3Log.LogOfExpExactlyWhen` | src/Sophus/sophus/sim3.hpp:146-166 | log(exp x) = x on all seven coordinates, for one twist, if and only if SO3 gives the rotation back, the scale is not clamped, and the translation survives W and its inverse |
| `Sim3Log.LogOfExpEveryTranslation` | src/Sophus/sophus/sim3.hpp:146-166 | so for all translations if and only if the angle is at most pi, the scale is not clamped, and theta and sigma are each zero or beyond the threshold on the square |
| `Sim3Log.ExpOfLogExactlyWhen` | src/Sophus/sophus/sim3.hpp:146-166 | for every valid A exp(log A) is A up to the sign of the quaternion if and only if SO3 gives the rotation back, the scale is not clamped, and the translation survives the inverse of W and W |
| `Sim3Log.EvenWInv` | src/Sophus/sophus/sim_details.hpp:141-188 | the inverse of W does not depend on the sign of the angle it is given |
| `SimDetails.GeneralInverse` | src/Sophus/sophus/sim_details.hpp:141-188 | W W_inv = I in the general branch, for every Omega with Omega^3 = -theta^2 Omega |
| `SimDetails.FlatInverse` | src/Sophus/sophus/sim_details.hpp:159-167 | the same at sigma = 0 |
| `SimDetails.StraightInverse` | src/Sophus/sophus/sim_details.hpp:168-174 | the same at theta = 0 |
| `SimDetails.WIsIntegral` | src/Sophus/sophus/sim_details.hpp:9-48 | (sigma I + Omega) W = s R - I, coefficient by coefficient |
| `SimBands.InverseExactlyWhen` | src/Sophus/sophus/sim_details.hpp:9-48 | W W_inv = I as polynomials in Omega if and only if theta and sigma are each zero or have a square of at least epsilon |
| `SimBands.MatricesInverseExactlyWhen` | src/Sophus/sophus/sim_details.hpp:141-188 | the same for the 3x3 matrices in both orders, and for their action on every vector |
| `TranslationBands.ActionExactlyWhen` | src/Sophus/sophus/sim_details.hpp:141-188 | one translation survives W and its inverse, in either order, if and only if along the axis sigma is zero or beyond the threshold or there is no component, and across it theta too, or the errors cancel, or there is no component |
| `SimBands.BandInputs` | src/Sophus/sophus/sim_details.hpp:159-188 | inputs on each side of the thresholds, for every record of functions with the facts |
| `SimDerivatives.DualValues` | src/Sophus/sophus/sim_details.hpp:9-48 | calcW on dual numbers has the values of calcW in every branch |
| `SimDerivatives.GeneralThetaDerivatives` | src/Sophus/sophus/sim_details.hpp:50-139 | in the general branch the reported theta derivatives are those of the formulas of calcW |
| `SimDerivatives.GeneralSigmaDerivatives` | src/Sophus/sophus/sim_details.hpp:50-139 | in the general branch the same for sigma |
| `SimDerivatives.FlatThetaDerivatives` | src/Sophus/sophus/sim_details.hpp:72-89 | for small sigma the theta derivatives |
| `SimDerivatives.StraightSigmaDerivatives` | src/Sophus/sophus/sim_details.hpp:90-101 | for small theta the sigma derivatives |
| `SimDerivatives.StraightThetaDerivatives` | src/Sophus/sophus/sim_details.hpp:90-101 | for small theta the coefficients do not depend on theta, and the theta derivatives are zero |
| `SimDerivatives.FlatSigmaDerivatives` | src/Sophus/sophus/sim_details.hpp:72-89 | at sigma = 0 the sigma derivatives solve the equation that differentiating (sigma I + Omega) W = s R - I gives |
| `SimDerivatives.TinyDerivatives` | src/Sophus/sophus/sim_details.hpp:72-80 | for small theta and sigma the reported derivatives of A and B are those of the constants that calcW takes there |
| `SimDerivatives.TinyMiss` | src/Sophus/sophus/sim_details.hpp:72-80 | at zero the differentiated equation is met in the coefficient of Omega, and missed by 1/3 in that of Omega^2 |
| `SimDerivatives.SigmaDerivativeJumps` | src/Sophus/sophus/sim_details.hpp:72-89 | at sigma = 0 the reported derivative of A along sigma is zero below the threshold of theta and above 1/4 beyond it, up to an angle of one |
| `RxSo2.Multiply` | src/Sophus/sophus/rxso2.hpp:214-242 | the stepwise product passes the constructor unless it is zero, is a positive multiple of the exact product, and has the exact or the saturated scale |
| `RxSo2.InverseSucceeds` | src/Sophus/sophus/rxso2.hpp:159-163 | the inverse of every valid element passes the constructor and inverts |
| `RxSo2.ExpSucceeds` | src/Sophus/sophus/rxso2.hpp:575-589 | exp passes the constructor, with the clamped scale |
| `RxSo2.RunsKeepInvariant` | src/Sophus/sophus/rxso2.hpp:497-511 | no run of products, inverses and exponentials aborts, and every element it makes has its scale within [epsilon, 1/epsilon] |
| `Sim2Product.ProductSucceeds` | src/Sophus/sophus/sim2.hpp:209-213 | the product of valid elements passes and is valid, with the right translation and a linear part that is the right one times a positive factor, one unless the scale saturates |
| `Sim2Product.GroupLawsExactlyWhen` | src/Sophus/sophus/sim2.hpp:209-224 | group product, product of the 3x3 matrices, composed action and product of the adjoints, each if and only if the scale does not saturate |
| `Sim2Product.Associativity` | src/Sophus/sophus/sim2.hpp:209-213 | associative where neither order saturates on the way |
| `Sim2Product.InverseSucceeds` | src/Sophus/sophus/sim2.hpp:130-133 | every valid element has a valid inverse; the products with it pass and are the identity |
| `Sim2.AdjointIsConjugation` | src/Sophus/sophus/sim2.hpp:106-118 | hat(Adj_A x) = A hat(x) A^-1 |
| `Sim2.AdjointPreservesBracket` | src/Sophus/sophus/sim2.hpp:667-684 | Adj_A [x, y] = [Adj_A x, Adj_A y] |
| `Sim2.BracketIsCommutator` | src/Sophus/sophus/sim2.hpp:649-684 | hat of the bracket is the commutator |
| `Sim2.Jacobi` | src/Sophus/sophus/sim2.hpp:667-684 | the bracket obeys the Jacobi identity |
| `Sim2.PolyIsComplex` | src/Sophus/sophus/sim2.hpp:590-602 | a polynomial in the planar hat matrix acts as one complex number |
| `Sim2.ExpIsIntegral` | src/Sophus/sophus/sim2.hpp:590-602 | (sigma + i theta) W = z - 1 |
| `PlanarBands.ProductExactlyWhen` | src/Sophus/sophus/sim_details.hpp:9-48 | as complex numbers W and W_inv are inverse if and only if theta and sigma are each zero or beyond the threshold on the square, or sigma = 2 - theta^2/6 - theta sin/(1 - cos) for an angle between the thresholds |
| `PlanarBands.CompensationIsTiny` | src/Sophus/sophus/sim_details.hpp:9-48 | every angle between the thresholds has exactly that one sigma; it is positive, at most theta^2/6, and below the thresholds |
| `PlanarLog.Sim2LogOfExpExactlyWhen` | src/Sophus/sophus/sim2.hpp:145-164 | log(exp x) = x if and only if atan2 can return the angle, the scale is not clamped, and there is no translation or W and W_inv are inverse as above |
| `PlanarLog.Sim2ExpOfLogExactlyWhen` | src/Sophus/sophus/sim2.hpp:145-164 | for every valid A exp(log A) = A if and only if its scale is not clamped and there is no translation or W and W_inv are inverse as above |
| `PlanarLog.Sim2BandInput` | src/Sophus/sophus/sim2.hpp:590-602 | a pure scaling whose translation does not come back |
| `PlanarLog.Sim2CancellingInput` | src/Sophus/sophus/sim2.hpp:590-602 | an angle and a scale between the thresholds with which every translation comes back |
| `Se2.GroupLaws` | src/Sophus/sophus/se2.hpp:243-247 | the product keeps the invariant, is associative and is the matrix product; inverse on both sides |
| `Se2.AdjointIsConjugation` | src/Sophus/sophus/se2.hpp:105-113 | hat(Adj_A x) = A hat(x) A^-1 |
| `Se2.AdjointLaws` | src/Sophus/sophus/se2.hpp:105-113 | Adj_AB = Adj_A Adj_B, and Adj preserves the bracket |
| `Se2.BracketLaws` | src/Sophus/sophus/se2.hpp:683-708 | hat of the bracket is the commutator; the Jacobi identity |
| `Se2.VInverse` | src/Sophus/sophus/se2.hpp:174-196 | V of exp and V_inv of log are inverse in their closed forms |
| `Se2.ExpIsIntegral` | src/Sophus/sophus/se2.hpp:610-631 | i theta V = z - 1: the translation of exp integrates its rotation |
| `PlanarLog.Se2LogOfExpExactlyWhen` | src/Sophus/sophus/se2.hpp:174-196 | log(exp x) = x if and only if atan2 can return the angle, and there is no translation, no angle, or 1 - cos is at least epsilon |
| `PlanarLog.Se2ExpOfLogExactlyWhen` | src/Sophus/sophus/se2.hpp:610-631 | exp(log A) = A for every valid A under the same condition |
| `PlanarLog.VExactlyWhen` | src/Sophus/sophus/se2.hpp:174-196 | V of exp and V_inv of log are inverse if and only if the angle is zero or 1 - cos is at least epsilon |
| `PlanarLog.VTaylorGap` | src/Sophus/sophus/se2.hpp:616-621 | in its Taylor branch V falls short of sin/theta and (1 - cos)/theta by no more than the next terms of their series |
| `PlanarLog.Se2BandInput` | src/Sophus/sophus/se2.hpp:174-196 | a twist whose translation does not come back |
| `So2.RescalingIsSecondOrder` | src/Sophus/sophus/so2.hpp:210-235 | the first-order rescale is a positive factor and leaves a second-order error: (1 + n)^2 (1 - n') = (1 - n)^2 |
| `So2.So2.Normalize` | src/Sophus/sophus/so2.hpp:173-180 | normalising makes the number unit, or aborts and changes nothing |
| `So2.So2.SetComplex` | src/Sophus/sophus/so2.hpp:334-337 | stores, then normalises; on failure the old value is lost |
| `So2.So2.Times` | src/Sophus/sophus/so2.hpp:210-235 | the product is unit and a positive multiple of the complex product; on valid elements it is that product exactly |
| `So2.So2.MulAssign` | src/Sophus/sophus/so2.hpp:301-304 | in-place multiplication keeps the invariant and multiplies; aliasing is allowed |
| `ParameterDerivatives.MulExpIsProduct` | src/Sophus/sophus/so3.hpp:194-219 | the matrix of Dx_this_mul_exp_x_at_0 maps v to the coefficients of q (0, v/2) |
| `ParameterDerivatives.LogInvIsProduct` | src/Sophus/sophus/so3.hpp:223-233 | the matrix of Dx_log_this_inv_by_x_at_this maps p to twice the vector part of conj(q) p |
| `ParameterDerivatives.DerivativePairSo3` | src/Sophus/sophus/so3.hpp:194-233 | the two compose to |q|^2 I, so to I on SO3 |
| `ParameterDerivatives.DerivativePairSe3` | src/Sophus/sophus/se3.hpp:137-218 | the two compose to I on SE3 |
| `ParameterDerivatives.DerivativePairRxSo3` | src/Sophus/sophus/rxso3.hpp:437-478 | the two compose to I on RxSO3 |
| `ParameterDerivatives.MulExpRxIsProduct` | src/Sophus/sophus/rxso3.hpp:437-465 | on RxSO3 the first matrix maps (omega, sigma) to the coefficients of q (sigma/2, omega/2) |
| `ParameterDerivatives.LogInvRxIsProduct` | src/Sophus/sophus/rxso3.hpp:466-478 | the second maps p to 2/|q|^2 times conj(q) p, vector and real part |
| `ParameterDerivatives.DerivativePairSim3` | src/Sophus/sophus/sim3.hpp:286-307 | the two compose to I on Sim3 |
| `ParameterDerivatives.DerivativePairSe2` | src/Sophus/sophus/se2.hpp:125-155 | the two compose to I on SE2 |
| `ParameterDerivatives.MulExpIsProductSe2` | src/Sophus/sophus/se2.hpp:125-144 | on SE2 the first matrix moves the stored number by its product with (0, theta), and the translation by the rotated upsilon |
| `ParameterDerivatives.LogInvIsProductSe2` | src/Sophus/sophus/se2.hpp:146-155 | the second maps any change p of the parameters to the imaginary part of conj(z) p and to the translation rotated back |
| `ParameterDerivatives.DerivativePairSim2` | src/Sophus/sophus/sim2.hpp:298-318 | the two compose to I on Sim2, and in their scaled rotation part on RxSO2 |
| `ParameterDerivatives.MulExpIsProductSim2` | src/Sophus/sophus/sim2.hpp:296-307 | on Sim2 the first matrix moves the stored number by its product with (sigma, theta) |
| `ParameterDerivatives.LogInvIsProductSim2` | src/Sophus/sophus/sim2.hpp:309-318 | every change of the stored parameters is the one that the first matrix makes of what the second maps it to |
| `Manifold.MinusOfPlusSe3` | src/Sophus/sophus/ceres_manifold.hpp:24-53 | on SE3, with the normalising product, Minus(Plus(x, d), x) = d if and only if d does not rotate, or by at most pi with a sine of half the angle of at least epsilon |
| `Manifold.PlusOfMinusSe3` | src/Sophus/sophus/ceres_manifold.hpp:24-53 | on SE3, with the normalising product, Plus(x, Minus(y, x)) is y up to the sign of the quaternion if and only if the vector part of the difference is zero or at least epsilon long |
| `Manifold.LeftInvariantSe3` | src/Sophus/sophus/ceres_manifold.hpp:24-53 | on SE3 moving x by a pose on the left moves Plus(x, d) with it, and moving x and y does not change Minus(y, x) |
| `Manifold.MinusOfPlusSim3` | src/Sophus/sophus/ceres_manifold.hpp:24-53 | on Sim3, for one twist, Minus(Plus(x, d), x) = d if and only if log undoes exp on d, the scale of x is not epsilon, and the scale of the product neither saturates nor is 1/epsilon |
| `Manifold.PlusOfMinusSim3` | src/Sophus/sophus/ceres_manifold.hpp:24-53 | on Sim3 Minus(y, x) passes exactly off two scales, and Plus(x, Minus(y, x)) is then y up to the sign of the quaternion if and only if exp undoes log on the difference |
| `Geometry.ChosenCrossIsLong` | src/Sophus/sophus/geometry.hpp:78-107 | for unit hints with inner product d the chosen cross product has squared norm at least (1 - |d|)/2, so 1/2 for perpendicular hints |
| `Geometry.ChosenCrossVanishes` | src/Sophus/sophus/geometry.hpp:78-107 | the chosen cross product is zero if and only if both hints are parallel to the normal |
| `Geometry.RotationFromNormal` | src/Sophus/sophus/geometry.hpp:57-108 | exactly when it passes; the columns are perpendicular, right-handed, the third is the normal, the normalised one is the chosen cross product; orthonormal if and only if the third column is unit |
| `Geometry.ThirdColumnUnit` | src/Sophus/sophus/geometry.hpp:78-90 | the third column is unit if and only if the normal was unit or outside the epsilon band |
| `Geometry.FailsExactlyWhen` | src/Sophus/sophus/geometry.hpp:57-108 | for every triple that passes the entry checks the chosen cross product vanishes if and only if one hint is parallel to the normal and along it the shorter one; the hints are then on opposite sides, and if both end up unit this means that both are parallel to the normal |
| `Geometry.RejectedInput` | src/Sophus/sophus/geometry.hpp:57-108 | accepted hints with which it fails |
| `Geometry.TiltedInput` | src/Sophus/sophus/geometry.hpp:81-101 | accepted hints within epsilon of unit, only one of them parallel to the normal, with which it fails |
| `Geometry.LineRoundTrip` | src/Sophus/sophus/geometry.hpp:125-140 | lineFromSE2(SE2FromLine(l)) = l if and only if the normal is unit; otherwise it is the same line only through the origin |
| `Geometry.LineOfPose` | src/Sophus/sophus/geometry.hpp:125-128 | the line of a pose is the image of the x axis: the image of (x, y) has the signed distance y |
| `Geometry.MovedLine` | src/Sophus/sophus/geometry.hpp:125-140 | a line that comes back as another one |
| `Spline.CubicTaylor` | src/Sophus/sophus/spline.hpp:15-49 | the derivative rows are the exact first and second derivatives of the basis cubics in time |
| `Spline.BasisAtKnot` | src/Sophus/sophus/spline.hpp:15-49 | basis and derivatives at u = 1 are those at u = 0 shifted by one place |
| `Spline.SegmentsAreNormal` | src/Sophus/sophus/spline.hpp:185-273 | every segment case is the normal case on end-replicated control points, with all indices in bounds, also for two control points |
| `Spline.DerivativesAreProductRule` | src/Sophus/sophus/spline.hpp:60-106 | on a valid point and valid factors value, Dt and Dt2 are the product rule applied to the three exponential factors |
| `Spline.JetAtKnot` | src/Sophus/sophus/spline.hpp:60-151 | a segment at u = 1 and the next at u = 0 have the same matrix, first and second derivative |
| `Spline.SmoothAtKnots` | src/Sophus/sophus/spline.hpp:298-371 | the spline is C2 across an interior knot if exp undoes log on the one step that ends there, whatever the other steps are |
| `Spline.CartesianIsLie` | src/Sophus/sophus/cartesian.hpp:149-190 | the translations satisfy the laws assumed above, and every step between them is as required |
| `Screw.ExpIsPowers` | src/Sophus/sophus/se3.hpp:852-861 | for V = hat(v) the factor exp(b v) is I + b V + (1 - cos(b theta))/theta^2 V^2 + (b - sin(b theta)/theta)/theta^2 V^3 wherever it does not turn or turns beyond the Taylor threshold |
| `Screw.TimesAdds` | src/Sophus/sophus/spline.hpp:108-118 | multiples of a twist act as times: exp((b + c) v) has the matrix exp(b v) exp(c v) on the same condition |
| `SplineDerivatives.DerivativesOfSpline` | src/Sophus/sophus/spline.hpp:60-106 | through valid poses the reported Dt and Dt2 are the first and second derivative in time of the value: value, step times Dt and half the squared step times Dt2 give the value after the step, entry by entry, up to a constant times the third power of the step, which does not depend on the step |
| `SplineDerivatives.ClearNearby` | src/Sophus/sophus/spline.hpp:108-118 | where every factor turns by more than the threshold or not at all, that expansion holds for all steps below some size |
| `KnotDerivatives.DerivativesAtKnots` | src/Sophus/sophus/spline.hpp:60-106 | the same at the knots, where the last factor has not yet set out, whichever branch of exp it takes after the step |
| `KnotDerivatives.StartClearNearby` | src/Sophus/sophus/spline.hpp:108-118 | so at a knot only the first two factors have to turn by more than the threshold or not at all |
| `TranslationSpline.TranslationsOnly` | src/Sophus/sophus/spline.hpp:298-371 | between poses without rotation value, Dt and Dt2 are those of the spline over the translations |
| `TaylorBranches.UnitExactlyWhen` | src/Sophus/sophus/so3.hpp:694-731 | exp makes a unit quaternion if and only if the rotation vector is zero or beyond the Taylor threshold, and never fails its own check |
| `Se3Spline.PosesAreLie` | src/Sophus/sophus/spline.hpp:51-58 | the poses of SE3 satisfy the laws that the theorems about the spline assume |
| `Se3Spline.SmoothExactlyWhen` | src/Sophus/sophus/spline.hpp:298-371 | through valid poses, with the normalising product, the values on both sides of a knot have the same matrix if and only if the step that ends there has a quaternion with a vector part of zero or at least epsilon; then the derivatives agree too. At the first knot this is always so |
| `Se3Spline.DerivativesOfPoses` | src/Sophus/sophus/spline.hpp:60-106 | on poses the derivatives are the product rule wherever every factor has no rotation or one beyond the Taylor threshold |
| `Se3Spline.JumpInput` | src/Sophus/sophus/spline.hpp:298-371 | four valid poses with a step of half of epsilon: the spline jumps at the second knot |
| `SplineIndex.IndexPlusU` | src/Sophus/sophus/spline.hpp:443-467 | i + u = (t - t0)/delta_t and 0 <= u <= 1 + epsilon, whatever branch is taken |
| `SplineIndex.IndexInRange` | src/Sophus/sophus/spline.hpp:443-467 | 0 <= i < N for all times of the spline if and only if -N delta_t <= t0 < (N - 2 epsilon) delta_t |
| `SplineTime.PassesExactlyWhen` | src/Sophus/sophus/spline.hpp:409-413 | the spline as a function of time passes at all its times if and only if t0 lies in that window, for every group and all control points |
| `SplineTime.BeyondExactlyWhen` | src/Sophus/sophus/spline.hpp:443-467 | a segment is evaluated beyond its end exactly at the times of the second half that lie within epsilon after a knot, and at its end exactly at the knots of the second half |
| `SplineTime.BeyondKnot` | src/Sophus/sophus/spline.hpp:298-371 | for translations a segment evaluated by h beyond its end misses the next one by h^3/6 times the fourth difference of the control points |
| `SplineTime.RightExactlyWhen` | src/Sophus/sophus/spline.hpp:409-413 | so the value at such a time is that of the segment which contains it if and only if the fourth difference vanishes |
| `Recorder.RunsKeepInvariant` | src/econ_ros2_driver/include/blackbox.hpp:140-186 | the invariant over counters, slots, phases and records holds after every interleaving with fewer than 2^64 calls |
| `Recorder.NoSlotTwice` | src/econ_ros2_driver/include/blackbox.hpp:140-143 | no slot is in the hands of two threads |
| `Recorder.ClaimIsFresh` | src/econ_ros2_driver/include/blackbox.hpp:140-143 | a claim gets the slot numbered by the claims before it, or none when the box is full |
| `Recorder.WrapReusesSlots` | src/econ_ros2_driver/include/blackbox.hpp:140-143 | after every run with 2^64 calls the next claim gets slot 0 again |
| `Recorder.SlotTwiceAfterWrap` | src/econ_ros2_driver/include/blackbox.hpp:140-143 | such a run exists, and the claim after it puts slot 0 into the hands of two threads |
| `Recorder.QuiescentSlots` | src/econ_ros2_driver/include/blackbox.hpp:165-178 | at rest the filled slots are exactly the first min(calls, N), with sequence numbers a permutation of 1 to min(calls, N); the others are blank |
| `Recorder.PublishedRecords` | src/econ_ros2_driver/include/blackbox.hpp:181-186 | a record marked published was completely filled, with the arguments its thread carried, by the call that claimed its slot, and stamped no earlier |
| `Recorder.StampTimes` | src/econ_ros2_driver/include/blackbox.hpp:165-186 | in every interleaving a record has a time of the callback if and only if one step of the run, just one, was the fourth store of log_cbk into its slot, and the time is what had passed by then; the same for the time of the publication and the first store of log_pub |
| `Recorder.Uninterrupted` | src/econ_ros2_driver/include/blackbox.hpp:165-186 | after any run, log_cbk and log_pub of one thread that nobody interrupts fill the next slot with the arguments, the next number and the time, and touch nothing else |
| `Recorder.SingleProducer` | src/econ_ros2_driver/include/blackbox.hpp:165-178 | with one producer the sequence number of a filled slot is its index plus one |
| `BlackBox.Box.Init` | src/econ_ros2_driver/include/blackbox.hpp:101-127 | opens all or nothing; an open box is left alone; the counters are not reset |
| `BlackBox.Box.Shutdown` | src/econ_ros2_driver/include/blackbox.hpp:129-138 | closes everything, once |
| `BlackBox.Box.NextIdx` | src/econ_ros2_driver/include/blackbox.hpp:140-143 | fetch and increment modulo 2^64, or SIZE_MAX past the end |
| `BlackBox.Box.NextSeq` | src/econ_ros2_driver/include/blackbox.hpp:145-147 | increment modulo 2^64 |
| `BlackBox.Box.LogCbk` | src/econ_ros2_driver/include/blackbox.hpp:165-178 | writes one whole record in the next slot, or nothing; keeps the order of numbers |
| `BlackBox.Box.LogPub` | src/econ_ros2_driver/include/blackbox.hpp:181-186 | changes the publication fields of one slot and nothing else |
| `FrameLoop.GstBackend.Grab` | src/econ_ros2_driver/src/gst_backend.cpp:57-75 | a failed grab gives back what it took; a mapped one holds one new sample and one new mapped memory |
| `FrameLoop.GstBackend.Release` | src/econ_ros2_driver/src/gst_backend.cpp:77-80 | unmaps and gives back the stored references, none twice |
| `FrameLoop.GstBackend.Stop` | src/econ_ros2_driver/src/gst_backend.cpp:82-90 | releases and drops the pipeline |
| `FrameLoop.Driver.Account` | src/econ_ros2_driver/src/econ_ros2_driver.cpp:134-147 | one more pull, and the pushes beyond it counted as drops, with the counters' width |
| `FrameLoop.Driver.Iterate` | src/econ_ros2_driver/src/econ_ros2_driver.cpp:127-150 | one turn delivers, accounts and releases, or changes no counter; only an empty frame leaves references behind |
| `FrameLoop.Driver.Loop` | src/econ_ros2_driver/src/econ_ros2_driver.cpp:121-152 | n_pull <= last_push_seen <= n_pull + total_drops, the slack being exactly the deliveries that saw no new push; the references held are exactly those of empty frames |
| `FrameLoop.Driver.LoopAndStop` | src/econ_ros2_driver/src/econ_ros2_driver.cpp:189-198 | after the shutdown one sample per empty frame is lost, less that of a last turn, and one memory per empty frame, less the one that no later turn has let go of |
| `FrameLoop.EmptyFramesLeak` | src/econ_ros2_driver/include/gst_backend.hpp:51 | two empty frames and a timeout lose two samples and one memory for good |
| `FramePipeline.RunsKeepInvariant` | src/econ_ros2_driver/src/gst_backend.cpp:26-53 | in every interleaving of source, pipeline and loop each frame pushed is on its way, lost on one of the ways, or delivered; push counts only grow and no turn sees fewer pushes than deliveries |
| `FramePipeline.RunsArePlausible` | src/econ_ros2_driver/src/gst_backend.cpp:200-205 | so every run with fewer than 2^64 pushes gives turns that meet what the loop assumes |
| `FramePipeline.EndsWhenTold` | src/econ_ros2_driver/src/econ_ros2_driver.cpp:126-133 | the loop ends only after it has been told to, at its next look at the flag, with a turn that grabs nothing; no earlier turn is a stop |
| `FramePipeline.Capture` | src/econ_ros2_driver/src/econ_ros2_driver.cpp:121-152 | the loop over any such run: every frame pushed is counted by n_pull or accounted for, and total_drops is the number of frames missing at the last look plus the deliveries that saw no new push |
| `Lifecycle.EveryStepIsSafe` | src/econ_ros2_driver/src/econ_ros2_driver.cpp:24-55 | in every interleaving no store goes through the base after unmapping, no flush follows closing, no grab meets a backend that has not been started or has been stopped |
| `Lifecycle.NothingIsLeft` | src/econ_ros2_driver/src/econ_ros2_driver.cpp:189-198 | when destructor or failed constructor is through, both threads have ended and descriptor, mapping and pipeline are given back, also that of a start that failed |
| `Lifecycle.StartsUnlessFailed` | src/econ_ros2_driver/src/econ_ros2_driver.cpp:24-46 | in every interleaving the constructor throws if and only if the file of the recorder has failed; once it is through the writer thread has been started, and the grab thread too if and only if neither the set-up of the camera nor its start has failed |
| `Lifecycle.SuccessfulStart` | src/econ_ros2_driver/src/econ_ros2_driver.cpp:24-46 | eight successful steps of the constructor open, map and start everything, in this order |
| `Lifecycle.FullTurn` | src/econ_ros2_driver/src/econ_ros2_driver.cpp:126-187 | a turn of the grab loop in which nothing fails pulls, records, sends, records again and releases |
| `Lifecycle.WriterTurn` | src/econ_ros2_driver/include/blackbox.hpp:119-125 | a turn of the running writer thread flushes once |
| `Lifecycle.FramesAreReleased` | src/econ_ros2_driver/src/econ_ros2_driver.cpp:126-187 | in every interleaving each frame pulled is released, once, before the next is pulled, also when publishing returns early; at the end none is in hand |
| `Lifecycle.JoinsComeCloser` | src/econ_ros2_driver/include/blackbox.hpp:129-138 | while the main thread waits in a join, every step of the awaited thread brings it closer to its end |
| `DeviceManager.BoundIsConsistent` | src/Livox-SDK2/sdk_core/device_manager.cpp:350-413 | binding a fresh socket to a new key keeps maps, vector, sets and loops in agreement, for command, data and view channels |
| `DeviceManager.SharedIsConsistent` | src/Livox-SDK2/sdk_core/device_manager.cpp:358-363 | sharing an existing channel as command channel keeps the agreement and rebinds nothing |
| `DeviceManager.BroadcastIsConsistent` | src/Livox-SDK2/sdk_core/device_manager.cpp:329-337 | one more broadcast socket keeps the agreement |
| `DeviceManager.BoundIsWatched` | src/Livox-SDK2/sdk_core/device_manager.cpp:350-413 | in a consistent registry the socket of every bound key is open and watched by exactly one of the three loops |
| `DeviceManager.Manager.CreateDetectionChannel` | src/Livox-SDK2/sdk_core/device_manager.cpp:261-286 | sets up the two detection sockets and binds the second; fails exactly when one is refused, and if that is the second the first stays open |
| `DeviceManager.Manager.CreateCommandSocket` | src/Livox-SDK2/sdk_core/device_manager.cpp:350-385 | skips, shares, or binds a fresh socket and adds it to vector, maps, command channels and command loop; fails exactly when the system refuses the socket, and then changes nothing |
| `DeviceManager.Manager.CreateDataSocket` | src/Livox-SDK2/sdk_core/device_manager.cpp:387-413 | skips, or binds a fresh socket and adds it to vector, map, data channels and data loop; fails exactly when the system refuses the socket, and then changes nothing |
| `DeviceManager.Manager.CreateViewDataChannel` | src/Livox-SDK2/sdk_core/device_manager.cpp:712-740 | unless the system refuses a socket both keys are bound afterwards; each new one has a fresh socket that the data loop watches and the data channels do not list; nothing changes if both were bound |
| `DeviceManager.Manager.CreateDataChannel` | src/Livox-SDK2/sdk_core/device_manager.cpp:288-304 | all data ports bound unless a socket is refused, every new one as a data channel that the data loop watches; nothing changes where they are bound already |
| `DeviceManager.Manager.CreateCommandChannel` | src/Livox-SDK2/sdk_core/device_manager.cpp:306-348 | all command ports bound unless a socket is refused, every new one as a command channel that the command loop watches, and exactly one more broadcast socket for a Mid360 |
| `DeviceManager.Manager.CreateChannels` | src/Livox-SDK2/sdk_core/device_manager.cpp:240-259 | all channels of all configurations bound unless a socket is refused, every new one watched by the loop of its kind; where they all exist, only broadcast sockets are opened |
| `DeviceManager.Manager.CreateChannelsTwice` | src/Livox-SDK2/sdk_core/device_manager.cpp:554-567 | re-running the creation opens nothing new except one broadcast socket per Mid360 |
| `DeviceManager.Manager.Init` | src/Livox-SDK2/sdk_core/device_manager.cpp:116-180 | keeps the agreement; detection is on the host of the first configuration; it succeeds, with all channels bound, watched and detection started, exactly if there is a configuration, the earlier steps succeed and no socket is refused; without a configuration, or if an earlier step fails, nothing is opened |
| `DeviceManager.Manager.InitView` | src/Livox-SDK2/sdk_core/device_manager.cpp:69-114 | in view mode exactly the detection sockets are set up on the given host; it succeeds, and detection starts, exactly if the earlier steps succeed and no socket is refused |
| `DeviceManager.Manager.GetCommandChannel` | src/Livox-SDK2/sdk_core/device_manager.cpp:777-788 | finds by the lidar's handle exactly the configured command channel, an open socket bound to its key |
| `DeviceManager.Manager.SendCommand` | src/Livox-SDK2/sdk_core/device_manager.cpp:766-775 | a command goes over the lidar's own channel if there is one, and else over the detection socket |
| `DeviceManager.CommandIsOpen` | src/Livox-SDK2/sdk_core/device_manager.cpp:777-788 | every command channel of a consistent registry is open and owned by its key |
| `DeviceManager.Manager.Destory` | src/Livox-SDK2/sdk_core/device_manager.cpp:813-906 | closes every socket exactly once, the detection sockets only if detection was started; the registry is empty |
| `DeviceManager.Manager.InitAndDestory` | src/Livox-SDK2/sdk_core/device_manager.cpp:813-906 | after a successful Init of either kind Destory leaves no socket open and no interest of the command and detection loops |
| `KeyValueWalk.Walk` | src/Livox-SDK2/sdk_core/device_manager.cpp:679-691 | over any bytes the loop with its 8-bit counter and 16-bit offset makes as many turns as there are parameters |
| `KeyValueWalk.WalkTakesItems` | src/Livox-SDK2/sdk_core/device_manager.cpp:679-691 | on encoded items every turn is at the start of an item and takes that item, whatever its length |
| `KeyValueWalk.FoundBytes` | src/Livox-SDK2/sdk_core/device_manager.cpp:682-688 | the eight bytes taken are those of the value, and for a shorter value those that follow it |
| `KeyValueWalk.LastPointItem` | src/Livox-SDK2/sdk_core/device_manager.cpp:682-684 | the point ports are those of the last item with their key |
| `KeyValueWalk.LastImuItem` | src/Livox-SDK2/sdk_core/device_manager.cpp:685-687 | the IMU ports are those of the last item with their key |
| `KeyValueWalk.NoItem` | src/Livox-SDK2/sdk_core/device_manager.cpp:679-691 | without such an item the ports stay as they were |
| `KeyValueWalk.AddViewLidar` | src/Livox-SDK2/sdk_core/device_manager.cpp:673-701 | each port of a view is zero without an item that gives it, and else what the fifth and sixth, or seventh and eighth, byte of the last such item say; but the lidar ports of the types 9 and 35 are 56300 and 56400 |
| `KeyValueWalk.EndsExactlyWhen` | src/Livox-SDK2/sdk_core/device_manager.cpp:679-691 | the loop comes to its end after k turns inside the buffer if and only if k is the number of parameters, at most 255, and that many turns stay inside |
| `KeyValueWalk.WalkOverruns` | src/Livox-SDK2/sdk_core/device_manager.cpp:679-691 | after the last of more than 255 items the guard still holds and the next turn is outside the buffer |
| `KeyValueWalk.OverrunInput` | src/Livox-SDK2/sdk_core/device_manager.cpp:679-691 | 256 parameters without a value are such an answer |

## Left out

- Rounding, and in the Taylor branches near zero the size of the error: where the identities fail is proved, bounds are not, except for V of SE2 (`PlanarLog.VTaylorGap`).
- SplineDerivatives.DerivativesOfSpline: one direction. Before and after the step every factor turns not at all or beyond the Taylor threshold of exp; within it a factor moves along the series of exp, and that no such factors make up for each other is not proved. At the knots `KnotDerivatives.DerivativesAtKnots` asks nothing of the last factor.
- Eigen code that is not in the repository: matrix-to-quaternion conversion, the SVD of `makeRotationMatrix`, the eigenvectors of `averageUnitQuaternion`; and the `Map` classes.
- Random sampling, `iterativeMean`, interpolation and numeric differentiation.
- `Dx_exp_x` and the other derivatives of exp; the pairs at zero and at the element itself are in.
- Lines and planes of the plane, except in the two conversions of `geometry.hpp`; they follow the same pattern as in space.
- `SO2`, `RxSO2` and `RxSO3` setters from matrices, and `RxSO3::setQuaternion`, which checks the squares of the documented bounds.
- Spline: instances of its laws for SO3, RxSO3 and Sim3. SO3 is the rotation part of SE3; the products of the scaled groups saturate.
- Recorder: weak memory order. The steps are sequentially consistent.
- Publishing: time stamps, image buffers, messages and topics. The loop keeps the counters and the references, the life cycle keeps the two calls of the recorder and the early return; HID setup is an outcome.
- Operating system calls are outcomes: a socket is a fresh positive descriptor or a failure (descriptor 0 is taken never to be given out, as the manager itself treats it), a file or mapping succeeds or fails.
- A registry key is a pair of host and port instead of their text. The loops that take down delegates one by one are set differences.
- FrameLoop.GstBackend.Grab: does not model draining the bus, which only logs, and the time of capture; mapping is one of the outcomes.
- DeviceManager.Manager.Init: the loggers, handlers and threads it starts before the channels are one outcome; they touch no socket of the registry.
- KeyValueWalk.Walk: for at most 255 parameters whose turns stay inside the buffer; `KeyValueWalk.EndsExactlyWhen` says that no other walk ends there.
- JSON parsing, parameter checks, logging, detection messages, timers, firmware and viewer programs, and the declarations-only FAST-LIVO2 headers.
