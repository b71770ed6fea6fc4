# Wheeled biped firmware: a verified model

A Dafny model of the firmware of a wheeled balancing robot, and of the two host tools that read its
logs and write its flash, with proofs of what they promise. One module stands for one component.
Objects whose fields the firmware overwrites are classes, its loops are loops with invariants, and
each such method is tied to a function on values about which the main results are proved.

- **State estimator** (`RealFunctions`, `Matrices`, `MatrixLoops`, `RowReduction`, `GaussJordan`, `Covariance`,
  `Pivots`, `FilterRuns`, `Hamilton`, `Quaternions`, `RotationPartials`, `GravityModel`, `Ekf`,
  `StateUpdate`, `Strapdown`, `Measurements`, `TransitionJacobian`, `TransitionEntries`). The 16-state Kalman filter over mutable matrices of symbolic size: the
  zero-skipping product, Gauss-Jordan inversion with partial pivoting, the Joseph update, prediction,
  the gravity measurement and its gate, quaternion algebra, which way prediction and measurement move the
  state, and what whole runs keep.
- **Leg kinematics** (`PlaneGeometry`, `FiveBar`, `RobotLegs`). The five-bar linkage with its branch
  choices, in both directions, exactly when each direction undoes the other, and what that means for
  the robot's own legs.
- **Codecs** (`LinearMaps`, `CrcTable`, `Crc`, `CrcDetection`, `Bytes32`, `CalFlash`, `FirmwareImage`,
  `LogFormat`, `LogLabels`, `LogDecoder`, `LogColumns`, `Logger`, `LogThread`, `Sbus`, `BatteryInfo`). The two CRC-32
  implementations and what the checksum detects, calibration in flash, firmware images, the log from ring buffer to decoder,
  the SBUS framer and the battery reassembler.
- **Control state machines** (`Radio`, `Transmitter`, `DriveModes`, `Controllers`, `LinkLoss`). The radio watchdog and
  height latch, the way from the transmitter's sticks to the readings, the robot's modes, the bench test, the wheels' drive modes over whole runs, and what a lost link
  does to all of them.
- **Hip commands** (`Products`, `HipGate`, `HipRamp`, `WireInts`, `CanFrames`, `HipReplies`, `HipEchoes`, `WheelDrives`, `CanMotor`,
  `StatusPoll`). The one gate every hip command passes and its soft margins, the frames on the bus and what
  the drives make of them, what the replies say, and fair status polling.

Floats are reals. `sqrt`, `sin`, `cos` and `atan2` are parameters known only by their defining
equations. Integers carry their widths where the code depends on them. Threads are atomic steps in any
order. The outcome of flash and card operations, the bytes that have arrived, `is_standing`, the motor
feedback and the hip controller's answer are parameters; whatever they are, the results hold.

`Basics` holds the few definitions that several components share.

In `CanMotor.Driver` every frame sent is recorded with what the driver knew at that moment, and `Valid`
says of all of them, over every run of commands, replies and polls in any order, that a hip gets nothing
outside its drive's range and nothing that pushes it past a bound (src/coms/CANMotor.hpp:57-64): at any
torque scale for speeds, positions, the drive's range and the identifiers of wheel frames, at a positive
one for torques. The soft ramp toward a bound and the limit of 12 Nm are not part of that invariant; the
contract of each command names the frame it sends, and `HipRamp` says what of the request is in it.

A card write has two outcomes, its return code and the bytes it kept, since a full volume reports success
with fewer bytes written. The log thread, the only caller of the logger, never leaves a lone header
(`LogThread.ThreadLogDecodes`); that needs a caller that writes more between two flushes
(`LogThread.LoneHeaderExactly`).

## Findings

Where the code and its own documentation or intent differ, the model follows the code and proves
exactly when it meets the property.

- Variance ceilings (src/state_estimator/EKF.cpp:493 and 497) can make the covariance indefinite; floors
  cannot (`FilterRuns.ClampSafeExactly`).
- One entry of the transition matrix (src/state_estimator/EKF.cpp:153) has qy where the derivative has qx
  (`TransitionJacobian.PositionPartials`).
- "Never partial write" (src/logging/Logger.cpp:153) holds per chunk: `Logger::write` can leave a header
  without its body, which the decoder then fills with what follows (`Logger.WriteOutcome`,
  `Logger.TakenExactly`, `LogDecoder.OrphanSwallows`, `LogThread.LoneHeaderExactly`).
- A flush takes a short write on a full card for a whole one (src/logging/Logger.cpp:114-118): the log stays
  open, the bytes are gone, and once space is freed the file continues after a gap. The file of an open
  log is complete exactly when nothing was lost (`Logger.RunAccounted`, `Logger.FullCardLosesSchema`,
  `Logger.GapAfterErase`, `LogThread.ThreadLogDecodes`).
- The decoder never moves past a record whose type has a length byte of zero in the schema
  (`LogDecoder.MovesExactly`, `LogDecoder.StuckFileNeverEnds`).
- The upload checksum covers the flash exactly only for flash sizes that are multiples of four
  (`FirmwareImage.CoversFlash`).
- Equal crank angles hang the leg straight down for all but one cosine, not for every angle
  (src/kinematics/FiveBarIK.hpp:33-35, `FiveBar.RobotLegsHangStraight`, `RobotLegs.KneesCoincide`). A leg
  whose foot is above its knees does not come back from the inverse map (`FiveBar.RoundTrip`,
  `RobotLegs.RoundTripFails`); the straight poses that the firmware commands all do
  (`RobotLegs.RobotStraightRoundTrip`).
- The documented low end of the stick range reads below −1 (`Radio.LowEndOvershoots`).
- Starting or stopping a wheel test while driving leaves a wheel in the wrong mode
  (`DriveModes.StartKeepsExactly`, `DriveModes.StopKeepsExactly`), and a test started while driving keeps
  a disarm from stopping the robot (`DriveModes.DisarmIdlesExactly`, `DriveModes.DisarmMissed`).
- Half-precision subnormals become zero and infinities NaN (`BatteryInfo.ValueKeptExactly`).
- The torque scale is not checked; a negative one can reverse commands (`HipGate.ReversesExactly`).
- A status reply marks a hip's feedback valid without a position, so the gate then works from zero,
  against the rule stated at src/coms/CANMotor.cpp:197-202 (`HipReplies.BackedExactly`,
  `HipReplies.StatusOpensGate`).
- A wheel speed is sent in units the drive takes for turns per second and read back in radians per second
  (src/coms/CANMotor.cpp:485-529, which calls it dormant although car mode and wheel tests command speeds):
  the reading is 2π times the command
  (`WheelDrives.SpeedReadBack`).
- Torque replies read the temperature byte as unsigned (src/coms/CANMotor.cpp:347), status replies as
  signed (src/coms/CANMotor.cpp:376), and the file documents it as signed
  (`HipReplies.TemperatureExactly`).

## Model

| member | source | states |
|---|---|---|
| `MatrixLoops.MatMul` | src/math/math.hpp:70-79 | The loop that skips zero factors of the left operand leaves the true matrix product, for any sizes. |
| `MatrixLoops.MatAdd` | src/math/math.hpp:81-86 | The sum, entry by entry, also when the result array is one of the operands (as in `P += Q`). |
| `MatrixLoops.MatTrans` | src/math/math.hpp:88-93 | The transpose. |
| `MatrixLoops.MatMulDense` | src/state_estimator/EKF.cpp:403-445 | The accumulating triple loops of `H·PHᵀ` and `PHᵀ·S⁻¹` compute the product. |
| `MatrixLoops.MatMulTransposed` | src/state_estimator/EKF.cpp:396-469 | The loops of `P·Hᵀ` and `_wB·(I − KH)ᵀ`, which read both operands by rows, compute the product with the transpose. |
| `MatrixLoops.IdentityMinusProduct` | src/state_estimator/EKF.cpp:452-459 | `_wA` becomes I − KH. |
| `MatrixLoops.AddWeightedOuter` | src/state_estimator/EKF.cpp:471-475 | `_P` grows by exactly K diag(R) Kᵀ. |
| `MatrixLoops.AddDiagonal` | src/state_estimator/EKF.cpp:408-408 | S grows by diag(R). |
| `Matrices.MulAssoc` | src/state_estimator/EKF.cpp:107-112 | Associativity of the product, the law behind every covariance identity below. |
| `Matrices.QuadCongruence` | src/state_estimator/EKF.cpp:107-112 | The quadratic form of A P Aᵀ at x is that of P at xA. |
| `Matrices.PsdCongruence` | src/state_estimator/EKF.cpp:107-112 | A P Aᵀ is positive semidefinite with P, for any A of fitting size. |
| `GaussJordan.FindPivot` | src/state_estimator/EKF.cpp:419-421 | The pivot is an entry of largest magnitude of the column, from the diagonal down. |
| `GaussJordan.EliminateColumn` | src/state_estimator/EKF.cpp:418-438 | One pass of the column loop keeps the pair (Sw, Sinv) an invertible row reduction of S with one more unit column, or stops because no entry of the column reaches 1e-12. |
| `GaussJordan.Invert` | src/state_estimator/EKF.cpp:411-438 | A loop that runs through leaves the two-sided inverse of S; one that stops early shows that S has no pivot of size 1e-12 left for some column. |
| `RowReduction.EliminationInverts` | src/state_estimator/EKF.cpp:411-438 | Reducing S to the identity by invertible row operations makes their product the inverse on both sides, symmetric or not. |
| `RowReduction.InverseSymmetric` | src/state_estimator/EKF.cpp:411-438 | The inverse of a symmetric S is symmetric, and inverts from the right too. |
| `RowReduction.InverseUnique` | src/state_estimator/EKF.cpp:411-438 | The inverse found does not depend on the row exchanges made. |
| `RowReduction.NoPivotSingle` | src/state_estimator/EKF.cpp:427-427 | With one measurement the early exit happens exactly when the innovation variance is below 1e-12 in magnitude. |
| `Pivots.NoiseGivesPivots` | src/state_estimator/EKF.cpp:418-428 | For a positive semidefinite covariance and noise variances of at least 1e-12 times their number, every column has a pivot: no measurement is skipped. |
| `Ekf.QuatNoiseNoisy` | src/state_estimator/EKF.cpp:210-210 | For the attitude measurement that means a variance of at least 4e-12. |
| `Covariance.CongruenceExpanded` | src/state_estimator/EKF.cpp:452-469 | (I − LH) P (I − LH)ᵀ multiplied out, for any gain L. |
| `Covariance.JosephIsReducedCovariance` | src/state_estimator/EKF.cpp:440-475 | For the gain the filter computes, the Joseph form equals (I − KH)P. |
| `Covariance.CovarianceDrop` | src/state_estimator/EKF.cpp:440-475 | For symmetric P, what the update takes off the covariance is K S Kᵀ. |
| `Covariance.MeasurementNeverIncreases` | src/state_estimator/EKF.cpp:396-475 | Before clamping, a measurement never raises the covariance in the quadratic-form order. |
| `Covariance.GainGap` | src/state_estimator/EKF.cpp:440-475 | For any other gain L the Joseph form is larger by (L − K) S (L − K)ᵀ. |
| `Covariance.GainIsOptimal` | src/state_estimator/EKF.cpp:440-475 | So the gain the filter computes is the least-covariance gain. |
| `StateUpdate.CorrectionMoves` | src/state_estimator/EKF.cpp:440-450 | The state moves by P·Hᵀ·y for the y that solves S·y = innov. |
| `StateUpdate.ResidualLeft` | src/state_estimator/EKF.cpp:396-450 | Row by row, what the move leaves of the innovation is the noise times y: innov − H·(x′ − x) = diag(R)·y. |
| `StateUpdate.OneRowShrinks` | src/state_estimator/EKF.cpp:447-450 | With one row the innovation shrinks by exactly R over S. |
| `StateUpdate.OneRowNearer` | src/state_estimator/EKF.cpp:447-450 | So with a covariance and positive noise the innovation keeps its sign and does not grow. |
| `Covariance.JosephKeeps` | src/state_estimator/EKF.cpp:452-475 | The Joseph form keeps symmetry and positive semidefiniteness for every gain, also one from an inaccurate inverse. |
| `Covariance.PredictedKeeps` | src/state_estimator/EKF.cpp:107-112 | F P Fᵀ + Q keeps both, for any F. |
| `Covariance.PredictedSpread` | src/state_estimator/EKF.cpp:107-112 | The spread of a functional x of the state is predicted as that of xF before, plus its process noise. |
| `Covariance.AveragedSymmetric` | src/state_estimator/EKF.cpp:477-485 | Averaging makes any square matrix symmetric and changes exactly those that are not. |
| `Covariance.AveragedSpread` | src/state_estimator/EKF.cpp:477-485 | Averaging changes the spread of no functional of the state. |
| `FilterRuns.FloorsKeepPsd` | src/state_estimator/EKF.cpp:487-498 | Floors cannot break positive semidefiniteness. |
| `FilterRuns.MeasurementKeeps` | src/state_estimator/EKF.cpp:452-498 | A measurement with any gain keeps symmetry, and positive semidefiniteness when no ceiling fires. |
| `FilterRuns.CeilingBreaksPsd` | src/state_estimator/EKF.cpp:493-497 | A ceiling that cuts a variance below what its correlation with a position or velocity state needs breaks it. |
| `FilterRuns.ClampSafeExactly` | src/state_estimator/EKF.cpp:487-498 | While some position or velocity variance is positive, the clamp keeps every covariance with the given variances positive semidefinite exactly when no variance exceeds its ceiling. |
| `FilterRuns.CeilingCounterexample` | src/state_estimator/EKF.cpp:493-493 | A covariance that the ceiling does break. |
| `FilterRuns.RunKeeps` | src/state_estimator/EKF.cpp:107-498 | Over every run of predictions, measurements and skipped measurements, with any F, H and K and nonnegative noise, the covariance stays symmetric, and positive semidefinite as long as no ceiling fires. |
| `FilterRuns.InitialCovariance` | src/state_estimator/EKF.cpp:35-51 | The initial covariance and the process noise are symmetric and positive semidefinite, and no ceiling fires at the start. |
| `FilterRuns.GroupsAlike` | src/state_estimator/EKF.cpp:35-51 | The components of each vector share initial variance, process noise, floor and ceiling. |
| `Ekf.EKF.Init` | src/state_estimator/EKF.cpp:21-54 | A sound filter at the identity attitude with the initial covariance and process noise. |
| `Ekf.EKF.BuildF` | src/state_estimator/EKF.cpp:119-182 | The transition matrix in block form: identity, position by attitude, attitude by itself and by gyro bias, velocity by rotation and accelerometer bias. |
| `Ekf.EKF.Propagate` | src/state_estimator/EKF.cpp:89-105 | The stored state advances in place as `Strapdown` describes: position and velocity by Euler steps from the old state, attitude by one normalised product, biases stay. |
| `Ekf.EKF.PropagateCovariance` | src/state_estimator/EKF.cpp:107-112 | Through the scratch matrices `_P` becomes F P Fᵀ + Q. |
| `Ekf.EKF.Predict` | src/state_estimator/EKF.cpp:60-113 | Nothing before initialisation; afterwards the propagated state with a unit quaternion, F P Fᵀ + Q for the F of that state, symmetric and positive semidefinite if P was. |
| `Strapdown.RestStays` | src/state_estimator/EKF.cpp:64-95 | From standstill, at any attitude, rates and biases, the predicted velocity stays zero if and only if no time passes or the accelerometer reads what is predicted at rest. |
| `Strapdown.InertialLaw` | src/state_estimator/EKF.cpp:64-95 | For a unit attitude, R((v′ − v) + dt·(ω × v)) = dt·(R·a + (0, 0, g)), with bias-free rate and specific force. |
| `Strapdown.DisplacementLaw` | src/state_estimator/EKF.cpp:89-91 | For a unit attitude the displacement, turned back into the body, is dt times the velocity. |
| `Ekf.EKF.InnovationOf` | src/state_estimator/EKF.cpp:396-409 | PHᵀ and S = H(PHᵀ) + diag(R). |
| `Ekf.EKF.ComputeGain` | src/state_estimator/EKF.cpp:396-445 | K = PHᵀS⁻¹ for the two-sided inverse of S, or none when S has no pivot. |
| `Ekf.EKF.ApplyInnovation` | src/state_estimator/EKF.cpp:447-450 | The loops leave x + K·innov in the stored state, for any number of rows. |
| `Ekf.EKF.JosephUpdate` | src/state_estimator/EKF.cpp:452-498 | `_P` becomes the clamped average of the Joseph form. |
| `Ekf.EKF.Update` | src/state_estimator/EKF.cpp:392-499 | Either state and covariance are untouched and S has no pivot, which cannot be with noise as in `Pivots.NoiseGivesPivots`, or the state moves by P·Hᵀ·y with S·y = innov and the gain of the two-sided inverse updates the covariance; symmetry is kept, and positive semidefiniteness if no ceiling fires. |
| `Ekf.EKF.UpdateQuaternion` | src/state_estimator/EKF.cpp:188-225 | Nothing before initialisation; afterwards the innovation of the nearer antipode, smoothed magnitude, the four-row update, and a unit quaternion whether or not the update was skipped. |
| `Measurements.InnovationIsNearest` | src/state_estimator/EKF.cpp:195-218 | The attitude innovation leads from the prediction to the measured quaternion or its negative, whichever is nearer. |
| `Measurements.AntipodeTurnsAlike` | src/state_estimator/EKF.cpp:195-201 | Both stand for the same attitude. |
| `Measurements.SelectorSees` | src/state_estimator/EKF.cpp:203-208 | The attitude's H sees exactly the change of the quaternion. |
| `Measurements.AttitudeLeft` | src/state_estimator/EKF.cpp:203-224 | After that update the measured antipode differs from the new quaternion, before it is normalised, by the noise times y, where S·y is what it differed before. |
| `Measurements.SmoothedSettles` | src/state_estimator/EKF.cpp:220-222 | Under a constant input the smoothed magnitude closes a tenth of its distance to it every time. |
| `Ekf.EKF.UpdateGravity` | src/state_estimator/EKF.cpp:227-308 | Nothing before initialisation or out of range; otherwise the vibration filter moves on, and the three-row update with the linearised reading is made exactly when the innovation passes the joint gate on the true innovation covariance. |
| `Measurements.GravityLeft` | src/state_estimator/EKF.cpp:253-307 | After that update the accelerometer differs from the linearised prediction by the noise times y, where S·y is what it differed before. |
| `Measurements.VibrationSettles` | src/state_estimator/EKF.cpp:235-239 | Under a constant deviation the vibration filter closes a fiftieth of its distance to its square every time. |
| `Measurements.LengthAndSize` | src/state_estimator/EKF.cpp:231-296 | The range test is on the length of the reading, the gate on the innovation times itself. |
| `GravityModel.DownIsLastRow` | src/state_estimator/EKF.cpp:249-251 | The predicted reading is −g times the last row of the attitude matrix. |
| `GravityModel.GravityPartials` | src/state_estimator/EKF.cpp:259-271 | Each of the 48 entries of H is the partial derivative of the predicted reading, biases included, by that state, as central differences of every width have it. |
| `GravityModel.PickedIsAll` | src/state_estimator/EKF.cpp:288-294 | A sum over the nonzero columns only is the full product. |
| `GravityModel.RowVariance` | src/state_estimator/EKF.cpp:284-294 | The five-by-five sparse sums of a row are its diagonal entry of H P Hᵀ + R. |
| `GravityModel.GravityGate` | src/state_estimator/EKF.cpp:279-303 | So the gate compares the innovation with 25 times the trace of the innovation covariance. |
| `GravityModel.VarianceFloor` | src/state_estimator/EKF.cpp:288-302 | For a positive semidefinite covariance each such entry is at least the noise. |
| `GravityModel.GateIsSize` | src/state_estimator/EKF.cpp:300-302 | So with noise of at least a third of 1e-10 the test for a degenerate trace never fires. |
| `Ekf.EKF.NormalizeQuat` | src/state_estimator/EKF.cpp:505-512 | The quaternion in the state is normalised in place and nothing else changes. |
| `Ekf.Symmetrize` | src/state_estimator/EKF.cpp:477-485 | Every off-diagonal pair becomes its mean, in place. |
| `Ekf.ConstrainVariances` | src/state_estimator/EKF.cpp:487-498 | The diagonal is clamped group by group, in place; the rest stays. |
| `Hamilton.MulNorm2` | src/math/math.cpp:46-54 | The quaternion product multiplies norms. |
| `Quaternions.QuatNormIsUnit` | src/math/math.cpp:61-67 | The normalisation is a unit quaternion for every input: the scaled input above the guard, the identity below it. |
| `Quaternions.QuatMulAssoc` | src/math/math.cpp:46-54 | The product is associative. |
| `Quaternions.ConjMul` | src/math/math.cpp:46-59 | Conjugation reverses products. |
| `Quaternions.ConjInverts` | src/math/math.cpp:56-59 | The conjugate of a unit quaternion is its inverse. |
| `Quaternions.RotationIsConjugation` | src/math/math.cpp:91-109 | For a unit quaternion the matrix acts as v ↦ q ⊗ v ⊗ q*. |
| `Quaternions.HomogeneousIsConjugation` | src/math/math.cpp:91-109 | With the diagonal written homogeneously that holds of every quaternion. |
| `Quaternions.RotationIsHomomorphism` | src/math/math.cpp:91-109 | R(a ⊗ b) = R(a) R(b) for unit quaternions. |
| `Quaternions.RotationOrthogonal` | src/math/math.cpp:91-109 | R Rᵀ = RᵀR = I for a unit quaternion. |
| `Quaternions.YawTurns` | src/math/math.cpp:91-109 | A turn about the vertical takes the first axis toward the second. |
| `Quaternions.ConjTransposes` | src/math/math.cpp:56-109 | The matrix of the conjugate is the transpose. |
| `Quaternions.QuatToRot` | src/math/math.cpp:91-109 | The method fills its output array with the matrix those lemmas are about. |
| `Quaternions.PropagationIsUnit` | src/state_estimator/EKF.cpp:97-105 | Propagation ends on the unit sphere from anywhere; from at or above the guard the guard does not fire, since the step only lengthens the quaternion. |
| `TransitionJacobian.PositionPartials` | src/state_estimator/EKF.cpp:137-155 | Each of the twelve entries of the position-by-attitude block is the partial derivative of R(q)v·dt, as central differences of every width have it, but for `[iX][iQ3]`, which is one exactly when dt = 0, qx = qy or the vertical velocity is zero. |
| `RotationPartials.LastEntryOfFirstRow` | src/state_estimator/EKF.cpp:153-153 | That condition for the first row written out as a polynomial. |
| `TransitionJacobian.AttitudeBlockPropagates` | src/state_estimator/EKF.cpp:157-169 | The attitude block times the quaternion is q ⊗ (1, ½·ω·dt), the propagation before normalisation. |
| `TransitionJacobian.BiasBlockPropagates` | src/state_estimator/EKF.cpp:175-181 | A step of the gyro bias changes that product by exactly the bias block times the step. |
| `TransitionEntries.PositionByAttitude` | src/state_estimator/EKF.cpp:137-155 | In the assembled matrix: position rows and attitude columns hold those partials. |
| `TransitionEntries.PositionByVelocity` | src/state_estimator/EKF.cpp:126-131 | Position rows and velocity columns: the partials of the distance travelled by the velocity. |
| `TransitionEntries.VelocityByBias` | src/state_estimator/EKF.cpp:171-173 | Velocity rows and accelerometer bias columns: what a bias does to the predicted velocity. |
| `TransitionEntries.AttitudeByAttitude` | src/state_estimator/EKF.cpp:157-169 | Attitude rows times the quaternion: the propagation before normalisation. |
| `TransitionEntries.AttitudeByBias` | src/state_estimator/EKF.cpp:175-181 | Attitude rows and gyro bias columns: exactly what a bias step does to it. |
| `TransitionEntries.IdentityElsewhere` | src/state_estimator/EKF.cpp:119-126 | Every other entry is that of the identity. |
| `FiveBar.ClampIdle` | src/kinematics/FiveBarIK.cpp:20-23 | Over the reals the `fmax` under the square root never acts once the guard has passed. |
| `FiveBar.CircIntOn` | src/kinematics/FiveBarIK.cpp:16-32 | The point returned lies exactly on both circles. |
| `FiveBar.KneesOnLinkage` | src/kinematics/FiveBarIK.cpp:62-75 | Whenever the inverse accepts a pose, each knee is exactly at thigh length from its hip and at shin length from the foot. |
| `FiveBar.PoseIsPolar` | src/kinematics/FiveBarIK.hpp:37-39 | L0 is the distance of the foot from the midpoint of the hips, thL its angle from straight down, positive forward. |
| `FiveBar.ThighsPointOutward` | src/kinematics/FiveBarIK.hpp:9-32 | At crank angle zero the thighs point outward; both knees rise with the sine of their angle. |
| `FiveBar.LowerFootRecovers` | src/kinematics/FiveBarIK.cpp:43-55 | From knees on the linkage the forward solver succeeds exactly when they are distinct, and returns the given foot exactly when it is on or below the line through the knees. |
| `FiveBar.RoundTrip` | src/kinematics/FiveBarIK.cpp:36-75 | Whenever the inverse accepts a pose, the forward map of its angles returns exactly that pose if and only if it is a pose the forward map reports, the knees are distinct and the foot is on or below their line. |
| `RobotLegs.RoundTripFails` | src/kinematics/LegParams.hpp:13-13 | A robot leg folded upward for which the forward map of the inverse is another pose. |
| `FiveBar.KneeRecovered` | src/kinematics/FiveBarIK.cpp:16-32 | The inverse picks a given knee exactly when the knee is on its own side of the line from hip to foot. |
| `FiveBar.ReverseTrip` | src/kinematics/FiveBarIK.cpp:36-75 | Whenever the forward map accepts crank angles, the inverse returns them up to whole turns if and only if the foot is at neither hip and each knee is on its own side of its leg, and exactly them if they are also within (−π, π]. |
| `FiveBar.SymmetricPose` | src/kinematics/FiveBarIK.hpp:33-35 | Equal crank angles on a symmetric linkage with long shins: which ones succeed, and that all that do give thL = 0 with the foot below the hip line. |
| `FiveBar.RobotLegsHangStraight` | src/kinematics/LegParams.hpp:13-13 | For the robot's lengths that is every crank angle except those with cosine −5/13, where the knees coincide and the forward map fails. |
| `RobotLegs.KneesCoincide` | src/kinematics/FiveBarIK.hpp:33-35 | Such a crank angle: at atan2(12, −5) the cosine is −5/13 and the forward map fails. |
| `RobotLegs.StraightRoundTrip` | src/kinematics/FiveBarIK.cpp:62-75 | On a symmetric linkage with long shins every accepted straight pose has equal crank angles and comes back exactly. |
| `RobotLegs.RobotAccepts` | src/controllers/HipLock.cpp:36-42 | The robot's inverse accepts a straight leg of length L exactly when 0.0056 <= L² <= 0.12. |
| `RobotLegs.RobotStraightRoundTrip` | src/controllers/HipLock.cpp:36-42 | Each such length comes back exactly, from equal crank angles. |
| `CrcDetection.BitwiseCrc32` | src/coms/CalFlash.cpp:30-39 | The bit-by-bit loop computes CRC-32/ISO-HDLC (section 8 of RFC 1952). |
| `CrcDetection.TableCrc32` | tools/flash_upload.py:76-79 | The table loop computes the same register from any start value, without the complement. |
| `Crc.TableIsSteps` | tools/flash_upload.py:29-73 | Each of the 256 table entries is eight shift steps of its index. |
| `Crc.StepsSplit` | src/coms/CalFlash.cpp:35-36 | Eight steps of a register are eight steps of its low byte, xor the register shifted by a byte. |
| `Crc.TableFeedIsFeed` | tools/flash_upload.py:78-78 | With such a table the lookup step is the bit-by-bit step for every register and byte. |
| `CrcDetection.ImplementationsAgree` | tools/flash_upload.py:76-79 | Register by lookups and register by shifts agree for every message and start value. |
| `CrcDetection.ChecksumsAgree` | src/coms/CalFlash.cpp:30-39 | The calibration checksum is the complement of the uploader's register from all ones. |
| `CrcDetection.RegisterConcat` | tools/flash_upload.py:96-101 | Feeding in pieces is feeding the whole. |
| `CrcDetection.RegisterInjective` | tools/flash_upload.py:76-79 | One message keeps distinct registers distinct. |
| `CrcDetection.BurstChangesRegister` | src/coms/CalFlash.cpp:30-39 | Messages that differ only within four consecutive bytes have different registers, for any start value. |
| `CrcDetection.BurstDetected` | src/coms/CalFlash.cpp:117-120 | No such change, in message and stored checksum together, leaves a valid checksum. |
| `CalFlash.Sector.Erase` | src/coms/CalFlash.cpp:69-82 | A successful erase leaves every byte 0xFF; a failed one leaves anything. |
| `CalFlash.Sector.ProgramWord` | src/coms/CalFlash.cpp:85-103 | Programming can only clear bits, and touches only its own flash word. |
| `CalFlash.Sector.Save` | src/coms/CalFlash.cpp:126-153 | True exactly when the erase and all four words succeed, and then the sector holds the stamped record and is erased beyond it. |
| `CalFlash.Sector.Load` | src/coms/CalFlash.cpp:109-124 | True exactly for a record with the magic number, version and checksum; the output is the record, or zeroed. |
| `CalFlash.Sector.Clear` | src/coms/CalFlash.cpp:155-160 | After a successful clear nothing is accepted. |
| `CalFlash.SavedLoads` | src/coms/CalFlash.cpp:109-153 | What save writes, load accepts, with every bias unchanged. |
| `CalFlash.BurstRefused` | src/coms/CalFlash.cpp:117-120 | After any accepted record, a nonzero change within four consecutive bytes of the 84 protected and checksum bytes is refused and the output zeroed. |
| `CalFlash.PaddingIgnored` | src/coms/CalFlash.cpp:117-120 | The padding is not protected: it may change freely. |
| `CalFlash.ErasedRefused` | src/coms/CalFlash.cpp:114-114 | An erased sector is refused. |
| `CalFlash.ZeroedIsBlank` | src/coms/CalFlash.cpp:109-124 | The output of a refused load is all zero bytes. |
| `FirmwareImage.Firmware.constructor` | tools/flash_upload.py:88-94 | The image is the file and the fewest 0xFF bytes that reach a multiple of four. |
| `FirmwareImage.Firmware.Checksum` | tools/flash_upload.py:96-101 | The register over the image and a whole number of four-byte fills. |
| `FirmwareImage.CoversFlash` | tools/flash_upload.py:96-101 | That covers exactly the flash if and only if the flash size is a multiple of four. |
| `FirmwareImage.Firmware.Chunks` | tools/flash_upload.py:246-249 | The packets joined are the image; each has at most 252 bytes, all but the last exactly that, all a multiple of four. |
| `LogFormat.FieldRoundTrip` | src/logging/Logger.cpp:215-217 | A visible text that fits its zeroed field is read back whole by the decoder's stripping. |
| `LogFormat.CutConcat` | tools/logs.py:244-246 | Cutting a body into its fields loses nothing. |
| `LogLabels.SplitJoined` | tools/logs.py:270-270 | Words without commas are the pieces of their comma-joined list. |
| `LogLabels.JoinedSplit` | tools/logs.py:270-270 | The pieces of any text, joined by commas, are that text. |
| `LogLabels.TrimmedExactly` | tools/logs.py:270-270 | Stripping takes off the blanks around a word and nothing else. |
| `LogLabels.LabelsRoundTrip` | tools/logs.py:270-270 | For any list of nonempty visible words without commas, the decoder's labels of their comma-joined text are exactly that list, in order. |
| `LogColumns.TableIsColumns` | src/logging/LogMessages.hpp:181-247 | The label text of each message type is the comma-joined list of its columns. |
| `LogColumns.RobotColumns` | tools/logs.py:259-273 | From the robot's own schema the decoder reads, for every type, exactly those labels in order, as many as fields in a row: label k stands over field k. |
| `LogColumns.UnknownCodeDropped` | tools/logs.py:241-246 | A format code the decoder does not know takes up no field. |
| `LogFormat.TableWellFormed` | src/logging/LogMessages.hpp:181-247 | Every message type fits its schema record, its format covers its body exactly, and the ids are distinct. |
| `Logger.Ring.RingWrite` | src/logging/Logger.cpp:142-165 | On the queue of waiting bytes: all of the data is appended or nothing, true exactly in the first case; at most 32767 bytes wait. |
| `Logger.Ring.RingRead` | src/logging/Logger.cpp:167-190 | Exactly the longest allowed prefix of the queue is moved out, across the wrap as well. |
| `Logger.WindowGrows` | src/logging/Logger.cpp:155-163 | Storing in one piece or two behind the window appends to it. |
| `Logger.WindowShrinks` | src/logging/Logger.cpp:180-188 | Moving the tail drops a prefix of the window. |
| `Logger.Ring.WriteSchemaHeader` | src/logging/Logger.cpp:206-221 | The queue then holds one 89-byte record per message type, in table order. |
| `Logger.Ring.Init` | src/logging/Logger.cpp:54-100 | The log opens exactly when all four steps of the card setup succeed, with the schema of the table queued; otherwise it is closed and the number of the first failed step is kept. |
| `Logger.FirstFailure` | src/logging/Logger.cpp:61-95 | The number kept is 5 exactly for a setup without failure, otherwise that of the first step that failed. |
| `Logger.Ring.Write` | src/logging/Logger.hpp:32-39 | Header and body are appended separately, each on its own all or nothing. |
| `Logger.Ring.Flush` | src/logging/Logger.cpp:107-124 | At most 4096 bytes leave the queue and as many of them as the card kept reach the file; only an error closes the log, a short write does not. |
| `Logger.WriteOutcome` | src/logging/Logger.hpp:32-39 | A write returns true exactly when 3 + body bytes fit, and then queues the whole record; when only the header fits, the header stays behind alone. |
| `Logger.RunAccounted` | src/logging/Logger.cpp:107-165 | Over every run of writes and flushes, whatever the card does: of the schema and the bytes taken, exactly as many as were lost in writes are in neither file nor ring, the two together are all of them if and only if none was lost, and the file is a prefix unless a write stored bytes after a loss. |
| `Logger.TakenExactly` | src/logging/Logger.hpp:32-39 | The bytes taken are the accepted records and nothing else exactly when no write left a header without its body. |
| `Logger.RoomKeepsAll` | src/logging/Logger.hpp:32-39 | With room for every record no header is left alone, and those accepted are the first of those written, all of them while the log is open. |
| `Logger.SchemaReachesFile` | src/logging/Logger.cpp:107-124 | The first flush takes the whole schema from the ring, so that from then on no more than the bytes lost is missing of it in the file. |
| `Logger.LogDecodes` | tools/logs.py:259-303 | The file of any run without lone headers and without gaps, dropped records included, decodes to exactly the table and exactly the accepted records wholly in it, in order, with no byte skipped; they are all accepted records if and only if the ring is drained and nothing was lost. |
| `Logger.RobotLogDecodes` | src/logging/LogMessages.hpp:181-247 | That, for the robot's own table, after any flush as long as nothing was lost; with room for every record and the log open those are all written. |
| `Logger.FullCardLosesSchema` | src/logging/Logger.cpp:114-118 | A full card at the first flush: the log stays open with an empty ring and an empty file. |
| `Logger.GapAfterErase` | src/threads.cpp:591-615 | Space freed after that: the next record is the whole file, no prefix of what was written, and the decoder finds no schema in it. |
| `LogThread.LogsFit` | src/threads.cpp:1141-1283 | Records that fit behind the queue are all appended to it, in order, each with room. |
| `LogThread.PassesDrain` | src/threads.cpp:1141-1287 | Over every run of passes that fit a chunk together with the schema, the ring is empty after each pass and every record found room. |
| `LogThread.ThreadLogDecodes` | src/threads.cpp:1141-1287 | Over every run of the log thread, each pass writing one record of each type and flushing: no header is ever left alone, the file of an open log is the schema and all records written if and only if no byte was lost, and then decodes to exactly the table and all of them; without gaps it decodes to those wholly in it. |
| `LogThread.LoneHeaderExactly` | src/logging/Logger.hpp:32-39 | A caller that only writes the longest record leaves a lone header exactly when it writes more than 648 without a flush. |
| `LogDecoder.ReadSchema` | tools/logs.py:259-273 | The first loop computes the schema scan. |
| `LogDecoder.ReadRows` | tools/logs.py:279-303 | The second loop, with resynchronisation, collects per type exactly the fields of the scanned records, and counts the skipped bytes, on all data on which it ends. |
| `LogDecoder.Decode` | tools/logs.py:249-303 | The two passes together; nothing is decoded without a schema record. |
| `LogDecoder.SchemaSized` | tools/logs.py:264-272 | Every body size read is at least −3, as it is a length byte less three. |
| `LogDecoder.EndsExactly` | tools/logs.py:282-303 | The data on which it ends are exactly those that some number of passes gets through. |
| `LogDecoder.MovesExactly` | tools/logs.py:282-303 | Every pass moves on, over any data, exactly when no data type has a length byte of zero. |
| `LogDecoder.AdvancingEnds` | tools/logs.py:282-303 | With such a schema the loop ends on all data. |
| `LogDecoder.StuckFileNeverEnds` | tools/logs.py:262-303 | A 93-byte file, one schema record of length byte zero and a record of its type, on which the decoder stays at byte 89 for ever. |
| `LogDecoder.SchemaRoundTrip` | tools/logs.py:259-273 | Over a well-formed table's schema the scan stops right after it, with exactly the table. |
| `LogDecoder.SchemaOfTable` | tools/logs.py:259-273 | The schema read holds exactly the ids of the table, each with its own name, size, layout and labels. |
| `LogDecoder.RecordsRoundTrip` | tools/logs.py:279-303 | Over records in order, the last possibly cut off, the scan recovers exactly those wholly there and skips no byte. |
| `LogDecoder.FileRoundTrip` | tools/logs.py:249-303 | Schema and records together, for every prefix of the stream that takes in the schema. |
| `LogDecoder.NoiseSkipped` | tools/logs.py:279-285 | Bytes without a sync mark are passed over and counted, and the scan goes on as if they were not there. |
| `LogDecoder.MarkPassed` | tools/logs.py:286-303 | At a sync mark a schema record is passed over whole, one byte of an unknown type, and a record whose size does not match its format whole, uncounted. |
| `LogDecoder.OrphanSwallows` | tools/logs.py:294-303 | A header without its body makes the decoder read the bytes that follow as that body. |
| `Sbus.PackingRoundTrip` | src/coms/SBUS.cpp:71-82 | Unpacking returns any sixteen packed 11-bit values, whatever the flags byte that it also reads. |
| `Transmitter.FlagsRead` | src/coms/SBUS.cpp:41-42 | Frame lost and failsafe are read from the third and fourth bit of the flags byte, whatever the digital channels. |
| `Transmitter.FrameHeard` | src/coms/SBUS.cpp:23-82 | A frame sent between frames is received with exactly the channels and flags that were sent. |
| `Sbus.SbusParser.Unpack` | src/coms/SBUS.cpp:71-82 | The loop over shifted byte triples computes those channels. |
| `Sbus.SbusParser.Feed` | src/coms/SBUS.cpp:27-49 | One byte of the stream against the framer's abstract step, for every state and byte. |
| `Sbus.SbusParser.Update` | src/coms/SBUS.cpp:23-51 | Draining any bytes, with every index in bounds and the channels and flags those of the latest good frame. |
| `Sbus.SbusParser.Channel` | src/coms/SBUS.cpp:53-56 | A channel of the current frame, 992 beyond the sixteenth. |
| `Sbus.SbusParser.TakeFrameReceived` | src/coms/SBUS.cpp:58-63 | Whether a good frame arrived since the last call, consumed. |
| `Sbus.SbusParser.MarkStale` | src/coms/SBUS.cpp:65-69 | Both fault flags are set until the next good frame. |
| `Sbus.LastFrameWins` | src/coms/SBUS.cpp:23-51 | After any bytes the latest good frame is the last one completed, and only a frame unmarks the link. |
| `Sbus.FrameTaken` | src/coms/SBUS.cpp:28-47 | From between frames, 25 bytes from a start byte on are taken as they come and published exactly if the footer is good. |
| `Sbus.BurstsPublished` | src/coms/SBUS.cpp:23-51 | From between frames, frames separated by bytes other than 0x0F publish exactly those with a good footer, in order, and end between frames. |
| `Radio.NormAxisRange` | src/coms/Radio.cpp:14-20 | A stick reads zero exactly on 952 to 1032 and lies within [−1, 1] exactly on 173 to 1811. |
| `Radio.LowEndOvershoots` | src/coms/Radio.cpp:5-11 | The documented low end 172 reads below −1. |
| `Radio.NormAxisMonotone` | src/coms/Radio.cpp:14-20 | The reading never falls as the channel rises and is odd about 992. |
| `Transmitter.NormAxisLinear` | src/coms/Radio.cpp:14-20 | Outside the dead band the reading is linear in the channel, on either side. |
| `Radio.RadioThread.Watch` | src/threads.cpp:485-491 | Draining the bytes and the staleness counter, including its wrap-around. |
| `Radio.RadioThread.RadioArmed` | src/coms/Radio.cpp:29-39 | Armed reads true exactly for an unmarked, fault-free latest frame with the arm channel below 992. |
| `Radio.RadioThread.Tick` | src/threads.cpp:484-509 | One pass of the loop against the tick of the abstract run, with the four other sticks published from the latest good frame. |
| `Radio.RadioThread.PublishSticks` | src/threads.cpp:503-507 | Yaw, inverted speed, lean and mode switch of that frame. |
| `Radio.LinkHistory` | src/threads.cpp:485-491 | Over every run the link's frame, counter and staleness mark are functions of the frames completed and their age. |
| `Radio.RobotReader` | src/coms/Radio.cpp:22-39 | The robot's own readings of a frame are readings as the runs below assume them. |
| `Radio.ArmedExactly` | src/threads.cpp:493-508 | Over every run, armed exactly when the latest good frame reads as ready and came at most 50 ticks ago. |
| `Radio.SilentExactly` | src/threads.cpp:485-491 | The age of the latest frame is at least m exactly when none of the last m ticks completed one. |
| `Radio.RobotArmed` | src/coms/Radio.cpp:29-39 | For the robot's reading: both fault flags clear and the arm channel low. |
| `Transmitter.PassHears` | src/threads.cpp:484-509 | A pass that hears such a frame is armed exactly if both flags are clear and channel 4 is low, and reads each of the sixteen channels as its stick. |
| `Radio.LatchHistory` | src/threads.cpp:495-499 | The height latch is open exactly when, with no disarmed tick since, some armed tick read exactly zero. |
| `Radio.HeightTarget` | src/threads.cpp:495-505 | The height target is the stick's reading in that case and zero in every other. |
| `Controllers.Drives.SetOdriveMode` | src/coms/CANMotor.cpp:749-764 | Commands a wheel's mode; ids that are no wheels are rejected. |
| `Controllers.RobotStateMachine.Update` | src/controllers/RobotStateMachine.cpp:21-103 | The mode transition, both wheels' mode commands on exactly the edges into and out of velocity mode, and the torques of the controller in charge, six zeros when disarmed or driving. |
| `Controllers.MotorTest.Start` | src/controllers/MotorTest.cpp:23-46 | A test of motors 1 to 6, a wheel put into velocity mode first. |
| `Controllers.MotorTest.Stop` | src/controllers/MotorTest.cpp:48-71 | The last motor, if a wheel, back to torque mode, active or not. |
| `Controllers.MotorTest.Update` | src/controllers/MotorTest.cpp:73-112 | Zero torque but for a hip under test, whose torque is bounded and heads for a bound it is not at; reversal at the bound or after a full wheel turn; the wheel target is the signed test speed. |
| `Controllers.ControlThread.ComputeTick` | src/threads.cpp:306-323 | A test goes first while disarmed; arming aborts it and runs the state machine. Disarmed, every motor but a hip under test gets zero torque. |
| `Controllers.ControlThread.TestStart` | src/threads.cpp:829-830 | A start sent over USB is the start step of the abstract run, whatever the robot's mode. |
| `Controllers.ControlThread.TestStop` | src/threads.cpp:839-840 | A stop sent over USB likewise. |
| `DriveModes.ControlKeeps` | src/threads.cpp:306-323 | Every compute tick keeps drive modes in agreement, arming in the middle of a test included. |
| `DriveModes.StaysAgreedExactly` | src/threads.cpp:306-323 | Modes agree now and after any further compute ticks exactly when they agree now and no wheel is under test while the robot drives both by velocity. |
| `DriveModes.StartKeepsExactly` | src/controllers/MotorTest.cpp:23-46 | Starting a test keeps such lasting agreement exactly when no other wheel is under test and, for a wheel, the robot is not driving the wheels by velocity. |
| `DriveModes.StartAgreesAtFirst` | src/controllers/MotorTest.cpp:23-46 | Right after the start the modes agree exactly when no other wheel is under test; while driving it is the next tick that breaks it. |
| `DriveModes.StopKeepsExactly` | src/controllers/MotorTest.cpp:48-71 | Stopping keeps agreement, at once and lasting, exactly when the last motor was no wheel or the robot is not driving them. |
| `DriveModes.RunsAgree` | src/coms/CANMotor.cpp:749-764 | Over every run in which tests start only while idle with none active and stop over USB only while idle, each wheel's mode is velocity exactly when the robot wants it or the wheel is under test, and tests run only while idle. |
| `DriveModes.StartWhileDriving` | src/threads.cpp:826-848 | A wheel test started while driving leaves that wheel in torque mode. |
| `DriveModes.StopWhileDriving` | src/threads.cpp:826-848 | So does a stop sent while driving. |
| `DriveModes.DisarmIdlesExactly` | src/controllers/RobotStateMachine.hpp:8-8 | A disarmed tick leaves the robot idle exactly when it was idle or no test was running. |
| `DriveModes.DisarmedRunsIdle` | src/controllers/RobotStateMachine.hpp:8-8 | Over every run with that use of tests a disarmed tick leaves it idle. |
| `DriveModes.DisarmMissed` | src/threads.cpp:306-323 | A test started while driving, then a disarm before the next tick: the robot stays in car mode for as long as it stays disarmed. |
| `DriveModes.ModeHistory` | src/controllers/RobotStateMachine.cpp:31-44 | Over every run the mode is idle exactly when the last reading that reached the state machine was disarmed or there was none, car exactly when it was armed with the switch on, and balancing exactly when among the upright readings up to now one after the first found the robot standing. |
| `DriveModes.StandingDecides` | src/controllers/RobotStateMachine.cpp:39-40 | While standing up, a reading armed and with the switch off leads to balancing exactly when it finds the robot standing. |
| `DriveModes.SendsMatchModes` | src/threads.cpp:429-450 | While modes agree, the last command each wheel gets in a pass of the send thread is of the kind its drive expects. |
| `DriveModes.BalancingStoodUp` | src/controllers/RobotStateMachine.cpp:31-44 | Whenever the robot balances, it began at a compute tick read as armed, with the switch off and standing, while standing up, and has balanced ever since. |
| `LinkLoss.ThreadsApart` | src/threads.cpp:303-323 | In every interleaving of radio passes, compute ticks and test commands each thread runs as on its own events, with the armed flag published last. |
| `LinkLoss.MovesOnlyLinked` | src/threads.cpp:303-323 | Over all of them, with tests used as above, a compute tick leaves idle only if a good and ready frame came within the last 50 radio passes. |
| `LinkLoss.LostLinkIdles` | src/threads.cpp:303-323 | So 51 passes without a good frame idle the robot at the next compute tick. |
| `BatteryInfo.ValueKeptExactly` | src/coms/CANPower.cpp:9-27 | The conversion keeps a half-precision value exactly for normal numbers, zeros and NaN, and for no other (section 3.4 of IEEE 754-2019). |
| `BatteryInfo.FieldsAreBits` | src/coms/CANPower.cpp:11-13 | Sign, exponent and fraction are all the bits of the half, in order. |
| `BatteryInfo.KnownValues` | src/coms/CANPower.cpp:9-27 | Halves and singles of known value: 1, −2.5 and 12.5. |
| `BatteryInfo.PowerMonitor.BatteryInfoCb` | src/coms/CANPower.cpp:48-93 | The callback on its stored fields against the abstract reassembly step. |
| `BatteryInfo.OpenExactly` | src/coms/CANPower.cpp:59-83 | What is pending is the latest start frame, provided no match came since. |
| `BatteryInfo.PublishesExactly` | src/coms/CANPower.cpp:79-92 | Over every frame sequence a frame publishes exactly when it is the first match (same node and transfer id, opposite toggle) of the latest start, and the reading is theirs. |
| `BatteryInfo.CompletesOnce` | src/coms/CANPower.cpp:83-83 | Each start completes at most once, and each frame completes at most one start. |
| `BatteryInfo.KeptOtherwise` | src/coms/CANPower.cpp:79-82 | Without a publication the reading stays. |
| `BatteryInfo.OthersIgnored` | src/coms/CANPower.cpp:79-82 | A frame of another node or transfer, or with the start's own toggle, changes nothing. |
| `BatteryInfo.ShortIgnored` | src/coms/CANPower.cpp:48-77 | Neither does a short frame; a new start replaces the pending one. |
| `BatteryInfo.TransferDelivered` | src/coms/CANPower.cpp:48-93 | The first two frames of a transfer, in order and undisturbed, publish the encoded voltage and current (section 4 of the DroneCAN specification). |
| `BatteryInfo.PowerMonitor.TransferReads` | src/coms/CANPower.cpp:48-93 | After that the voltage and the current stored are the very numbers sent, each exactly when it is normal, zero or NaN. |
| `HipGate.FramesInverse` | src/coms/CANMotor.cpp:141-148 | The two frame maps of a hip are inverse to each other. |
| `HipGate.SoftScaleRange` | src/coms/CANMotor.cpp:156-176 | The soft scale is within [0, 1], zero at or past a bound the request pushes toward, one clear of every bound. |
| `HipGate.GatedTorqueBounds` | src/coms/CANMotor.cpp:624-630 | The gated torque keeps the request's sign and magnitude and 12 Nm, is zero without feedback and at every bound, and is the clamped request clear of them. |
| `HipRamp.LimitScaleRamps` | src/coms/CANMotor.cpp:156-161 | The scale is exactly the part of the soft margin left before the bound: linear from one at the margin's edge to zero at the bound. |
| `HipRamp.SomeMarginLeft` | src/coms/CANMotor.cpp:156-161 | At every value some part of the margin is left, so the laws below cover all feedback. |
| `HipRamp.TorqueRamps` | src/coms/CANMotor.cpp:624-630 | With parts s and t left of the angle and speed margins, s·t of a torque request goes out, within 12 Nm. |
| `HipRamp.TorqueWireRamps` | src/coms/CANMotor.cpp:609-680 | On the wire, single and broadcast: that torque in drive units, cut to an integer in range. |
| `HipRamp.RawRamps` | src/coms/CANMotor.cpp:682-696 | The same part of a raw request, within the drive's range. |
| `HipRamp.VelocityRamps` | src/coms/CANMotor.cpp:181-187 | With a part s left of the angle margin, s of a speed request goes out, within 20 rad/s. |
| `HipRamp.SpeedWireRamps` | src/coms/CANMotor.cpp:698-712 | On the wire that speed in hundredths of a degree per second. |
| `HipGate.TorqueCommandBounds` | src/coms/CANMotor.cpp:609-643 | The wire value of every Nm command keeps all that for a positive scale, and the drive's range. |
| `HipGate.RawCommandBounds` | src/coms/CANMotor.cpp:682-696 | So does the raw path, in wire units. |
| `HipGate.VelocityCommandBounds` | src/coms/CANMotor.cpp:698-712 | A speed command keeps the request's sign and magnitude and 20 rad/s, and is zero without feedback and at or past the angle bound. |
| `HipGate.PositionCommandBounds` | src/coms/CANMotor.cpp:774-783 | The angle on the wire is the clamped target up to one wire unit, with no wrap, on every hip. |
| `HipGate.SameOnBothPaths` | src/coms/CANMotor.cpp:645-675 | Sign before scale or scale before sign: single-motor and broadcast commands carry the same integer. |
| `HipGate.ReversesExactly` | src/coms/CANMotor.cpp:68-68 | The scale is not checked: one reverses some command exactly when 12 of it reach −1. |
| `HipGate.TighterTowardBound` | src/coms/CANMotor.cpp:156-176 | Closer to the bound it pushes toward, a request is never let through more. |
| `WireInts.Int16RoundTrip` | src/coms/CANMotor.cpp:232-235 | Every 16-bit value survives its two little-endian bytes. |
| `WireInts.Int32RoundTrip` | src/coms/CANMotor.cpp:272-278 | Every 32-bit value survives its four. |
| `WireInts.LowByteFirst` | src/coms/CANMotor.cpp:232-278 | The low byte comes first. |
| `CanFrames.BroadcastCarriesSingles` | src/coms/CANMotor.cpp:257-265 | For each hip the broadcast frame carries the two bytes of the single-motor frame. |
| `CanFrames.BroadcastGated` | src/coms/CANMotor.cpp:654-680 | The broadcast frame keeps the gate of all four hips. |
| `HipReplies.FeedbackHistory` | src/coms/CANMotor.cpp:338-390 | Over every history of replies the feedback is valid exactly when a torque, velocity or status reply has come; position and speed are those of the latest torque or velocity reply, and zero before the first. |
| `HipReplies.BackedExactly` | src/coms/CANMotor.cpp:197-202 | Valid feedback is backed by a decoded position exactly when a torque or velocity reply has come or no status reply has. |
| `HipReplies.StatusOpensGate` | src/coms/CANMotor.cpp:369-386 | Until the first torque or velocity reply, status replies alone let the full request through, within 12 Nm, and without them nothing. |
| `HipReplies.TemperatureExactly` | src/coms/CANMotor.cpp:347-376 | Torque and status replies agree on the temperature byte exactly when it is below 128. |
| `HipReplies.FrostReadsHot` | src/coms/CANMotor.cpp:347-364 | At 0xF6, ten degrees below zero, the torque reply reads 246. |
| `HipReplies.EchoedTorque` | src/coms/CANMotor.cpp:344-358 | A drive that reports the current it was commanded is read back as the gated torque, limited to the drive's range and cut toward zero by less than one drive unit. |
| `HipEchoes.EchoedPosition` | src/coms/CANMotor.cpp:344-365 | A hip that has reached the angle commanded is read back at the clamped target, off by less than one encoder count and one wire unit. |
| `HipEchoes.EchoedSpeed` | src/coms/CANMotor.cpp:344-365 | A hip that turns at the gated speed sent is read back at that speed, off by little more than one degree per second. |
| `HipEchoes.MeasurementRead` | src/coms/CANMotor.cpp:338-367 | Every field of a measurement reply is read back, in the robot frame and in the code's units. |
| `HipEchoes.StatusRead` | src/coms/CANMotor.cpp:369-386 | So is every field of a status reply, and it leaves the measurements as they were. |
| `HipEchoes.SpeedLimitSent` | src/coms/CANMotor.cpp:774-783 | The speed limit of a position command is the one requested, within 0 and 20 rad/s, cut to whole degrees per second. |
| `HipEchoes.PositionFrameRead` | src/coms/CANMotor.cpp:290-309 | Direction, speed limit and angle can be read off a position frame. |
| `HipEchoes.VelocityFrameRead` | src/coms/CANMotor.cpp:267-280 | And the speed off a speed frame. |
| `WheelDrives.AddressRead` | src/coms/CANMotor.cpp:432-435 | Node and command of a wheel frame can be read off its identifier. |
| `WheelDrives.ModeChanged` | src/coms/CANMotor.cpp:727-764 | The three frames of a mode change leave that axis in the mode asked for with its loop closed, never change the mode while it is closed, and leave every other axis alone. |
| `WheelDrives.RegisteredInTorque` | src/coms/CANMotor.cpp:459-465 | The two frames of a registration do so exactly when the loop was open. |
| `WheelDrives.WheelMoves` | src/coms/CANMotor.cpp:474-501 | Through gear and mount the wheel gets the torque asked for, within 8 Nm, and the speed asked for. |
| `WheelDrives.PowerKept` | src/coms/CANMotor.cpp:474-501 | And so the power. |
| `WheelDrives.EncoderIsWheel` | src/coms/CANMotor.cpp:503-545 | The wheel's own turns and rate are what is read, in radians. |
| `WheelDrives.SpeedReadBack` | src/coms/CANMotor.cpp:493-535 | A drive that does as told is read back at 2π times the speed asked for. |
| `CanFrames.WheelsMissHips` | src/coms/CANMotor.cpp:432-435 | No wheel frame, of any node number and at any scale, has an identifier a hip listens to. |
| `CanMotor.Driver.FindEntry` | src/coms/CANMotor.cpp:23-28 | The first entry of that id, or −1. |
| `CanMotor.Driver.Register` | src/coms/CANMotor.cpp:574-605 | One more entry while there is room, a wheel put into torque mode; otherwise nothing. |
| `CanMotor.Driver.SetTorque` | src/coms/CANMotor.cpp:609-643 | The frame sent for a hip carries the gated wire value; false exactly for unknown ids. Every frame ever sent keeps the gate (`Valid`). |
| `CanMotor.Driver.SetHipTorques` | src/coms/CANMotor.cpp:654-680 | One broadcast frame exactly when all four hips are registered, nothing otherwise. |
| `CanMotor.Driver.SetTorqueRaw` | src/coms/CANMotor.cpp:682-696 | The raw command, refused for what is not a hip. |
| `CanMotor.Driver.SetVelocity` | src/coms/CANMotor.cpp:698-719 | The speed command of a hip or a wheel. |
| `CanMotor.Driver.SetPosition` | src/coms/CANMotor.cpp:774-783 | The position command, with the direction mirrored where the hip is. |
| `CanMotor.Driver.SetOdriveMode` | src/coms/CANMotor.cpp:749-764 | The three frames of a mode change, for wheels only. |
| `CanMotor.Driver.RmdReply` | src/coms/CANMotor.cpp:320-390 | A full-length reply updates one motor by the layout of its echoed command and counts it; a short one changes nothing. |
| `CanMotor.Driver.OdriveReply` | src/coms/CANMotor.cpp:503-545 | A full-length frame from a wheel updates that wheel alone, by its command, and is counted; a short one changes nothing. |
| `CanMotor.Driver.GateWorksFrom` | src/coms/CANMotor.cpp:203-211 | In every state the driver reaches, a hip's feedback is what the history of its replies says. |
| `CanMotor.Driver.PollStatus` | src/coms/CANMotor.cpp:831-843 | One call asks the first hip from the cursor on and puts the cursor behind it; nothing without hips. |
| `CanMotor.Driver.PollRound` | src/coms/CANMotor.cpp:831-843 | As many consecutive calls as there are hips, from any cursor, send each hip's status request exactly once and nothing else. |
| `StatusPoll.PollsContinue` | src/coms/CANMotor.cpp:831-843 | Consecutive calls poll consecutive entries of one sequence. |
| `StatusPoll.PollingIsFair` | src/coms/CANMotor.cpp:831-843 | The same of the polling sequence, for a table with hips in any positions. |

## Left out

- Floating-point rounding, infinities and overflow: all numeric claims are over the reals.
- The filter's other measurement wrappers (position, velocity, wheel speed): each selects states with ones
  in H, forms an innovation and calls the update modelled here, without a gate.
- Ekf.EKF.Update: does not model the fixed measurement capacity of six rows; the number of rows is symbolic.
- Ekf.EKF.BuildF: models the linearisation as the code has it, which leaves out the normalisation of the
  quaternion and what gravity and rotation do to the velocity row.
- FiveBar.ReverseTrip: takes positive thigh lengths; the forward map does not check them.
- The finite-difference Jacobian and the velocity map, for which the code claims no exactness.
- The flash controller's unlock sequence, status registers and waiting.
- The serial conversation with the bootloader.
- Logger.Ring.Init: does not model the search for a file name; the outcome of each setup step is a parameter.
- Logger.Ring.Flush: does not model periodic file synchronisation and closing.
- LogDecoder.Decode: does not model the CSV files written from the rows; values stay as their bytes.
- LogDecoder.Decode: takes only files on which the program ends, which `LogDecoder.EndsExactly` describes.
- LogDecoder.ReadRows: takes only data on which its loop ends, for the same reason.
- Sbus.SbusParser.Update: does not model the UART; the waiting bytes are a parameter.
- Controllers.MotorTest.Start: is one atomic step; the code switches the drive after it has set its fields.
- Controllers.MotorTest.Update: does not model the controller's internal state; its answer is a parameter.
- Controllers.RobotStateMachine.Update: takes the balance and stand-up controllers' torques as parameters
  and does not model the car controller's wheel speeds.
- BatteryInfo.TransferDelivered: does not model the transfer checksum and later frames, which the callback ignores.
- CanMotor.Driver.SetTorque: does not model the byte layout of single-precision wheel payloads, nor the stub
  protocol's empty sends.
- CanMotor.Driver.SetVelocity: the same of its wheel payload, and both leave out the transmit counters, as
  every send succeeds.
- CanMotor.Driver.OdriveReply: takes the two numbers of an encoder frame as reals, not as their bytes.
- CanMotor.Driver.Register: does not model receive filters; hips are registered under the numbers 1 to 4, as
  the hip tables have four entries and are read by that number without a check.
- Thread scheduling, mutexes, sleeps, CAN peripheral setup, IMU drivers, USB shells and dashboards.
- Car control, PID gains, hip hold, actuator safety and state blending: one-step clamps and averages.
