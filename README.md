# Unscented Kalman filter (CTRV, laser and radar), modelled in Dafny

This project models the `UKF` class of `src/ukf.cpp`. The class is an
unscented Kalman filter that tracks one object with a constant turn rate and
velocity (CTRV) motion model. Its state is position, speed, heading and yaw
rate: `x_` (5), the covariance `P_` (5×5), the predicted sigma points
`Xsig_pred_` (5×15) and the fixed weights `weights_` (15). The control fields
are `is_initialized_`, `use_laser_`, `use_radar_` and `time_us_`, plus the
member `nis_`.

- The first measurement seeds the state.
- Every later measurement runs the time update (`Prediction`) over the elapsed
  time. When the sensor's flag is set, the laser or radar measurement update
  follows. Then the flag of the sensor just used is cleared and the other
  sensor's flag is set.

The project has seven files:

- `ukf.dfy` (module `Ukf`): the class `UKF` over `array`/`array2` fields,
  with methods `ProcessMeasurement`, `Prediction`, `UpdateLidar`,
  `UpdateRadar` and the constructor. The `for`/`while` loops of the source
  are there as imperative kernels:
  - filling sigma-point columns;
  - weighted means;
  - weighted outer-product sums;
  - angle normalisation.

  Each method is proved to compute a value-level definition from the files
  below.
- `dispatch.dfy` (module `Dispatch`): `ProcessMeasurement` as a function
  `Step` on a record of all fields. It also defines the flag state machine
  `NextControl` and its behaviour over sequences of measurements.
- `unscented.dfy` (module `Unscented`): the time update. It covers:
  - the augmented mean and covariance;
  - the sigma-point layout;
  - the CTRV transition;
  - the weighted mean;
  - the covariance with its heading residual wrapped.
- `updates.dfy` (module `Updates`): the laser (linear) and radar (unscented)
  measurement updates and their NIS values.
- `angles.dfy` (module `Angles`): the pair of angle-normalisation loops
  repeated throughout the source.
- `parameters.dfy` (module `Parameters`): dimensions, noise constants,
  weights and the initial covariance.
- `linalg.dfy`: vectors and matrices as sequences (module `Linalg`), and
  the numeric library the filter calls into (module `Numerics`).

A `double` is read as a `real`. `M_PI` is the exact real value of its IEEE-754
double, so "within [−π, π]" is exact. The C math functions (`sin`, `cos`,
`atan2`, `sqrt`), Eigen's Cholesky factor and matrix inverse, and the one
unguarded division are fields of a `Numerics.Library` value that the filter
holds. The model assumes only four things about them:

- factors and inverses have the right shape;
- the division is real division whenever the divisor is non-zero;
- in one lemma about the seeding examples, `cos 0 = 1` and `sin 0 = 0`;
- in the laser symmetry lemma, the library's inverse of the 2×2 `S` is
  symmetric.

Both measurement updates compute the NIS into a local variable that shadows
the member `nis_`. The model keeps that behaviour: `nis_` stays at the 0.0
the constructor gives it.

The normalisation loops leave −π unchanged, so the wrapped range is the
closed interval [−π, π]: an input of exactly −π (or −π − 2πk) comes back as
−π, never as π.

## Model

| member | source | states |
|---|---|---|
| Angles.NormalizeAngle | src/ukf.cpp:236-237 | the two wrap loops terminate; the result lies in [−π, π], differs from the input by a whole number of turns, and is the input itself when that is already in range |
| Angles.WrappedProperties | src/ukf.cpp:339-340 | wrapping gives a value in [−π, π] coterminal with the input and fixes every value already in [−π, π] |
| Angles.WrappedIdempotent | src/ukf.cpp:391-392 | normalising an already normalised residual changes nothing |
| Angles.WrappedRepresentative | src/ukf.cpp:372-373 | the wrapped value is the unique representative of the input in [−π, π], up to the pair −π/π that the loops both leave alone |
| Angles.CoterminalInRange | src/ukf.cpp:378-379 | two in-range angles a whole number of turns apart are equal, or are −π and π |
| Angles.Wrapped | src/ukf.cpp:236-237 | what the two loops leave, one after the other, always lies in [−π, π] |
| Parameters.Weight | src/ukf.cpp:75-77 | weight 0 is λ/(λ+n_aug) = −2/5 and every other weight 0.5/(n_aug+λ) = 1/10 |
| Parameters.InitialCovariance | src/ukf.cpp:56-60 | contract gives only the 5×5 shape; the body is the identity with the two laser variances and 1000 on the diagonal |
| Parameters.WeightsSumToOne | src/ukf.cpp:61-77 | the fifteen weights sum to exactly 1 |
| Parameters.InitialCovarianceDiagonal | src/ukf.cpp:56-60 | the initial P_ is diagonal and symmetric with positive variances |
| Unscented.AugmentedCovarianceSymmetric | src/ukf.cpp:170-174 | P_aug, P_ in the top-left block with the two noise variances on the diagonal, is symmetric when P_ is |
| Unscented.SigmaPointsLayout | src/ukf.cpp:180-184 | column 0 is x_aug; columns i+1 and i+1+n_aug are x_aug plus and minus the scaled column i of L, so each pair averages to x_aug |
| Unscented.CtrvZeroElapsed | src/ukf.cpp:192-216 | with Δt = 0 a propagated sigma point is the first five rows of its augmented column |
| Unscented.CtrvNoiseFree | src/ukf.cpp:202-216 | with zero noise the speed and yaw rate are kept, the heading advances by Δt·ψ̇, and for abs(ψ̇) ≤ 0.001 the position moves in a straight line along the heading |
| Unscented.CtrvStationary | src/ukf.cpp:202-216 | a point with zero speed and zero longitudinal noise keeps its position and zero speed on both branches |
| Unscented.Ctrv | src/ukf.cpp:202-216 | contract gives only the length 5; the body is the CTRV transition with its abs(ψ̇) > 0.001 branch |
| Unscented.Predict | src/ukf.cpp:144-240 | contract gives only the shapes; the body composes augmentation, sigma points, propagation, weighted mean and wrapped covariance |
| Unscented.ZeroElapsedSigmaPoints | src/ukf.cpp:192-217 | propagating over Δt = 0 keeps every state row of every sigma point |
| Unscented.ResidualWrapsAngle | src/ukf.cpp:234-237 | a residual is the column difference with its angle entry normalised into [−π, π] and every other entry untouched |
| Unscented.OuterSymmetric | src/ukf.cpp:231-240 | a weighted sum of outer products of residuals with themselves is symmetric |
| Unscented.PredictedCovarianceSymmetric | src/ukf.cpp:231-240 | the predicted P_ is symmetric for every state, covariance and Δt |
| Unscented.SigmaRowMean | src/ukf.cpp:225-228 | the weighted mean of a row of the sigma-point layout is the entry of x_aug it was spread around |
| Unscented.ZeroElapsedSigmaMean | src/ukf.cpp:225-228 | the weighted mean of sigma points propagated over zero time is the centre x_aug restricted to the state |
| Unscented.ZeroElapsedKeepsMean | src/ukf.cpp:144-228 | a prediction over zero elapsed time leaves the state mean unchanged |
| Updates.LaserObservesPosition | src/ukf.cpp:256-266 | the laser prediction H x is the two position components of x |
| Updates.LaserGainInput | src/ukf.cpp:272-276 | P H^T is the first two columns of P |
| Updates.LaserInnovationCovarianceBlock | src/ukf.cpp:261-273 | S = H P H^T + R is the top-left 2×2 block of P plus the laser noise |
| Updates.LaserZeroInnovationVector | src/ukf.cpp:266-269 | a laser measurement at the state's own position has a zero innovation |
| Updates.LidarZeroInnovation | src/ukf.cpp:266-281 | a laser measurement at the state's own position leaves x_ unchanged |
| Updates.RadarInnovationCovarianceSymmetric | src/ukf.cpp:333-350 | the radar innovation covariance S, with the bearing residuals wrapped and R added, is symmetric |
| Updates.RadarZeroInnovationVector | src/ukf.cpp:388-392 | a radar measurement equal to the predicted measurement has a zero wrapped innovation |
| Updates.RadarZeroInnovation | src/ukf.cpp:385-396 | a radar measurement equal to the predicted measurement leaves x_ unchanged |
| Updates.RadarUpdateKeepsSymmetry | src/ukf.cpp:395-396 | the radar-updated covariance P − K S Kᵀ is symmetric whenever P is, for every gain K, because S is symmetric |
| Updates.LidarUpdateKeepsSymmetry | src/ukf.cpp:279-281 | the laser-updated covariance (I − K H) P is symmetric whenever P and the library's S⁻¹ are |
| Updates.RadarCorrectionEntry | src/ukf.cpp:396 | entry (i, j) of K S Kᵀ is the bilinear form of rows i and j of K under S |
| Updates.GainCorrectionEntry | src/ukf.cpp:280-281 | for every P and gain K, entry (i, j) of (I − K H) P is P(i,j) − (K(i,0)·P(0,j) + K(i,1)·P(1,j)) |
| Updates.LaserGainEntry | src/ukf.cpp:274-275 | entry (i, a) of K = P Hᵀ S⁻¹ combines only the first two entries of row i of P with column a of S⁻¹ |
| Updates.LidarUpdate | src/ukf.cpp:266-281 | contract gives only the shapes of the new mean and covariance; the body is the formula x + K y, (I − K H) P |
| Updates.RadarUpdate | src/ukf.cpp:384-396 | contract gives only the shapes; the body is x + K z_diff, P − K S Kᵀ with K = Tc S⁻¹ |
| Updates.RadarMeasure | src/ukf.cpp:317-323 | contract gives only the length 3; the body is range, bearing and range rate of one sigma point, with the unguarded division |
| Dispatch.InitialState | src/ukf.cpp:94-107 | a first laser fix seeds [px, py, 0, 0, 0]; a first radar fix seeds [ρ cos φ, ρ sin φ, 0, 0, 0] |
| Dispatch.NextControl | src/ukf.cpp:109-140 | every call leaves the filter initialized with time_us_ at the measurement's timestamp; the flag hand-over is stated by Dispatch.AcceptedUpdateHandsOver |
| Dispatch.MeasurementVector | src/ukf.cpp:252-253 | the measurement vector z is the package's raw values |
| Dispatch.Step | src/ukf.cpp:92-141 | one measurement sets the control fields as NextControl says, keeps nis_, and before initialization only seeds x_ |
| Dispatch.FirstMeasurementSeeds | src/ukf.cpp:92-111 | the first measurement seeds x_, keeps P_ and Xsig_pred_, keeps the flags, records the timestamp and marks the filter initialized |
| Dispatch.SeedExamples | src/ukf.cpp:94-107 | a laser fix at (1, 2) seeds [1, 2, 0, 0, 0], and a radar fix (5, 0, 0) seeds [5, 0, 0, 0, 0] |
| Dispatch.LaterMeasurementPredicts | src/ukf.cpp:113-137 | after initialization every measurement runs the prediction over (timestamp − time_us_)/10^6 s, whatever the flags, and then the update of its sensor only when that sensor's flag is on |
| Dispatch.NisNeverWritten | src/ukf.cpp:284 | no measurement changes the member nis_ |
| Dispatch.AcceptedUpdateHandsOver | src/ukf.cpp:120-140 | an accepted laser update leaves use_laser_ off and use_radar_ on (radar symmetrically); a skipped update changes no flag; either way the filter is initialized and time_us_ is the timestamp |
| Dispatch.RunRecordsLastTimestamp | src/ukf.cpp:109-140 | after any non-empty sequence of measurements the filter is initialized and time_us_ is the last timestamp |
| Dispatch.RunKeepsOneFlag | src/ukf.cpp:122-136 | once exactly one flag is on, exactly one stays on |
| Dispatch.OneFlagAfterAcceptedUpdate | src/ukf.cpp:122-136 | after the first accepted update exactly one flag is on, that of the sensor that did not update last |
| Dispatch.NoUpdateKeepsFlags | src/ukf.cpp:122-136 | while no update is accepted the flags keep their values |
| Dispatch.AcceptedSensorsAlternate | src/ukf.cpp:122-136 | the sensors whose updates are accepted alternate laser/radar, so two consecutive accepted updates never come from the same sensor |
| Ukf.WrappedResidual | src/ukf.cpp:234-237 | the residual loop with its in-place wrap computes `Unscented.Residual` |
| Ukf.AccumulateMean | src/ukf.cpp:225-228 | the accumulation loop leaves the weighted mean of the columns in the buffer |
| Ukf.AddOuterTerm | src/ukf.cpp:239 | adding one weighted outer product advances the buffer from the partial sum over i points to the sum over i+1 |
| Ukf.AccumulateCovariance | src/ukf.cpp:231-240 | the covariance loop leaves the weighted sum of outer products of wrapped residuals in the buffer |
| Ukf.AccumulateCross | src/ukf.cpp:367-382 | the Tc loop leaves the weighted cross-covariance of the wrapped state residuals and wrapped measurement residuals |
| Ukf.GenerateSigmaPoints | src/ukf.cpp:180-184 | the column-filling loop produces exactly the sigma-point layout |
| Ukf.PropagateSigmaPoints | src/ukf.cpp:192-217 | the per-point loop stores the CTRV transition of every augmented column into Xsig_pred_ |
| Ukf.TransformSigmaPoints | src/ukf.cpp:311-324 | the per-point loop stores the radar measurement model of every predicted sigma point |
| Ukf.AugmentMean | src/ukf.cpp:165-168 | x_aug is x_ followed by two zeros |
| Ukf.AugmentCovariance | src/ukf.cpp:170-174 | P_aug is P_ top-left, std_a² and std_yawdd² at (5,5) and (6,6), zeros elsewhere |
| Ukf.PredictMoments | src/ukf.cpp:192-240 | after propagation, x_, P_ and Xsig_pred_ hold the predicted mean, covariance and sigma points |
| Ukf.MeasurementMoments | src/ukf.cpp:311-350 | the radar loops compute the measurement sigma points, predicted measurement and innovation covariance S |
| Ukf.RadarStep | src/ukf.cpp:358-400 | the radar update computes `Updates.RadarUpdate` and `Updates.RadarNis` |
| Ukf.ApplyLidarUpdate | src/ukf.cpp:266-284 | x_ and P_ become the laser update of their old values |
| Ukf.ApplyRadarUpdate | src/ukf.cpp:385-396 | x_ and P_ become the radar update of their old values |
| Ukf.InitialWeights | src/ukf.cpp:73-77 | the weight loop stores weight i at index i |
| Ukf.InitialCovarianceBuffer | src/ukf.cpp:56-60 | P_ starts as the identity with std_laspx², std_laspy² and 1000 on the first three diagonal entries |
| Ukf.UKF.constructor | src/ukf.cpp:11-82 | both sensors enabled, not initialized, nis_ = 0, P_ the initial covariance, the weights stored |
| Ukf.UKF.WeightVector | src/ukf.cpp:73-77 | the stored weights are the fixed weight vector |
| Ukf.UKF.ProcessMeasurement | src/ukf.cpp:86-142 | the new fields are exactly Step of the old fields and the measurement, and the class invariant is kept |
| Ukf.UKF.Seed | src/ukf.cpp:92-111 | the initialization branch: the fields become Step of the old ones |
| Ukf.UKF.Advance | src/ukf.cpp:113-141 | the prediction-and-update branch: the fields become Step of the old ones |
| Ukf.UKF.Correct | src/ukf.cpp:119-140 | an accepted measurement applies its sensor's update to x_ and P_, a skipped one leaves them alone; the flags and time_us_ follow NextControl and nis_ is untouched |
| Ukf.UKF.Prediction | src/ukf.cpp:144-241 | x_, P_ and Xsig_pred_ become the unscented prediction of the old x_ and P_ over Δt |
| Ukf.UKF.UpdateLidar | src/ukf.cpp:243-286 | x_ and P_ become the laser update of their old values with the measured position; nis_ is not written |
| Ukf.UKF.UpdateRadar | src/ukf.cpp:288-401 | x_ and P_ become the radar update of their old values from the predicted sigma points; nis_ is not written |

## Left out

- Floating point: every `double` is a real number. Rounding, overflow to
  infinity and NaN are not modelled.
- Transcendental functions (`sin`, `cos`, `atan2`, `sqrt`) are fields of the
  library value with no laws, so no trigonometric identity is used or proved.
- Eigen's `llt().matrixL()` and `.inverse()`: that code is not part of this
  model. They are library fields known only to return square matrices of
  the right size. No statement depends on the factor really being a Cholesky
  factor, or the inverse really being an inverse.
- Positive semi-definiteness of `P_` is not stated. It needs a real Cholesky
  factor and inverse, and the code never checks it.
- Updates.LidarUpdateKeepsSymmetry: symmetry of the laser-updated `P_` is
  proved under the extra hypothesis that the library's inverse of `S` is
  symmetric. The library is not modelled, so that fact is not available
  otherwise. The radar update needs no such hypothesis.
- Unscented.ZeroElapsedKeepsMean: covers the predicted mean only. At Δt = 0
  the predicted covariance equals `P_` only under two conditions. First, the
  factor must be exact (`L Lᵀ = P_aug`), which is left out. Second, every
  heading offset must satisfy `abs(√(λ+n_aug)·L[3][k]) ≤ π`. Otherwise the
  wrap at src/ukf.cpp:236-237 folds the residual. For example, a diagonal
  `P_` with `P_(3,3) = 4` gives a heading residual of √5·2 ≈ 4.472, which
  wraps to about −1.811, so the heading variance comes out near 0.656, not 4.
- The radar measurement model divides by `sqrt(px² + py²)` without a guard.
  That division goes through the library's `divide`, which is real division
  for a non-zero divisor and otherwise unspecified.
- Ukf.UKF.constructor: `time_us_` is not set by the constructor in the
  source, so the model says nothing about its initial value. `x_` and
  `Xsig_pred_` likewise start with unspecified entries.
- Timestamps are unbounded integers, so 64-bit overflow is not modelled. The
  elapsed time is their difference read as a real and divided by 10^6.
- The NIS is computed in `Ukf.RadarStep` and `Ukf.ApplyLidarUpdate` and then
  discarded, as in the source. No statistical property of it is stated.
- The measurement package header and `ukf.h` are not part of this model. A
  measurement is a datatype of sensor kind, raw values (two for laser, three
  for radar) and an integer timestamp.
- `ProcessMeasurement` is split into `Seed`, `Advance` and `Correct`, and
  the prediction and updates call module-level kernels over arrays. The
  order of field writes inside one source method is not kept: each kernel
  writes its outputs in turn.
- Accuracy, convergence and tracking-error claims are statistical outcomes.
  They are not behaviour of the code and are not modelled.
