/**
 * The filter's fixed dimensions, noise parameters, sigma-point weights and
 * initial covariance, all set once by the UKF constructor.
 */
module Parameters {
  import opened Linalg

  /** State dimension n_x and augmented dimension n_aug. */
  const NX: nat := 5
  const NAug: nat := 7
  /** Number of sigma points, 2 * n_aug + 1. */
  const NSigma: nat := 2 * NAug + 1
  /** Sigma-point spreading parameter. */
  const Lambda: int := 3 - NX

  /** Process noise: longitudinal and yaw acceleration standard deviations. */
  const StdA: real := 3.0
  const StdYawdd: real := 2.5
  /** Laser noise standard deviations for the two positions. */
  const StdLasPx: real := 0.15
  const StdLasPy: real := 0.15
  /** Radar noise standard deviations for range, bearing and range rate. */
  const StdRadR: real := 0.3
  const StdRadPhi: real := 0.03
  const StdRadRd: real := 0.3

  /** The weight of sigma point i. */
  function Weight(i: nat): (w: real)
    ensures w == if i == 0 then -0.4 else 0.1
  {
    if i == 0 then Lambda as real / (Lambda + NAug) as real
    else 0.5 / (NAug + Lambda) as real
  }

  function Weights(): (w: Vector)
    ensures |w| == NSigma
  {
    seq(NSigma, i requires 0 <= i => Weight(i))
  }

  /** Identity, except for the laser variances on the positions and 1000 on the speed. */
  function InitialCovariance(): (p: Matrix)
    ensures IsMatrix(p, NX, NX)
  {
    seq(NX, r requires 0 <= r < NX => seq(NX, c requires 0 <= c < NX =>
      if r != c then 0.0
      else if r == 0 then StdLasPx * StdLasPx
      else if r == 1 then StdLasPy * StdLasPy
      else if r == 2 then 1000.0
      else 1.0))
  }

  /** v[0] + ... + v[k-1]. */
  function Sum(v: Vector, k: nat): real
    requires k <= |v|
  {
    if k == 0 then 0.0 else Sum(v, k - 1) + v[k - 1]
  }

  lemma {:induction false} WeightsPrefixSum(k: nat)
    requires 1 <= k <= NSigma
    ensures Sum(Weights(), k) == -0.4 + 0.1 * (k - 1) as real
  {
    if k > 1 {
      WeightsPrefixSum(k - 1);
    }
  }

  /** The fifteen weights sum to exactly one. */
  lemma WeightsSumToOne()
    ensures Sum(Weights(), NSigma) == 1.0
  {
    WeightsPrefixSum(NSigma);
  }

  /** The initial covariance is diagonal with positive variances. */
  lemma InitialCovarianceDiagonal()
    ensures Symmetric(InitialCovariance(), NX)
    ensures forall r, c :: 0 <= r < NX && 0 <= c < NX && r != c ==> InitialCovariance()[r][c] == 0.0
    ensures forall r :: 0 <= r < NX ==> InitialCovariance()[r][r] > 0.0
  {
  }
}
