/**
 * The unscented time update of UKF::Prediction, as values: the augmented mean
 * and covariance, the sigma-point layout, the CTRV transition of one sigma
 * point, the weighted mean and the weighted sum of outer products of
 * angle-wrapped residuals.
 */
module Unscented {
  import opened Linalg
  import opened Angles
  import opened Numerics
  import opened Parameters

  /** Row of the heading in the state and of the bearing in a radar measurement. */
  const HeadingRow: nat := 3
  const BearingRow: nat := 1

  function Abs(a: real): real {
    if a < 0.0 then -a else a
  }

  /** x_aug: the state followed by the two zero-mean noise components. */
  function AugmentedMean(x: Vector): (r: Vector)
    requires |x| == NX
    ensures |r| == NAug
  {
    x + [0.0, 0.0]
  }

  /** P_aug: P top-left, the two process-noise variances on the diagonal below it, zero elsewhere. */
  function AugmentedCovariance(p: Matrix): (r: Matrix)
    requires IsMatrix(p, NX, NX)
    ensures IsMatrix(r, NAug, NAug)
  {
    seq(NAug, i requires 0 <= i < NAug => seq(NAug, j requires 0 <= j < NAug =>
      if i < NX && j < NX then p[i][j]
      else if i == 5 && j == 5 then StdA * StdA
      else if i == 6 && j == 6 then StdYawdd * StdYawdd
      else 0.0))
  }

  /** sqrt(lambda + n_aug), the factor applied to the columns of L. */
  function SpreadingScale(lib: Library): real {
    lib.sqrt((Lambda + NAug) as real)
  }

  /** Entry (r, i) of Xsig_aug: column 0 is x_aug, columns 1..7 add s * L.col(i-1), columns 8..14 subtract s * L.col(i-8). */
  function SigmaEntry(xAug: Vector, l: Matrix, s: real, r: nat, i: nat): real
    requires |xAug| == NAug && IsMatrix(l, NAug, NAug) && r < NAug && i < NSigma
  {
    if i == 0 then xAug[r]
    else if i <= NAug then xAug[r] + s * l[r][i - 1]
    else xAug[r] - s * l[r][i - 1 - NAug]
  }

  function SigmaPoints(xAug: Vector, l: Matrix, s: real): (x: Matrix)
    requires |xAug| == NAug && IsMatrix(l, NAug, NAug)
    ensures IsMatrix(x, NAug, NSigma)
  {
    seq(NAug, r requires 0 <= r < NAug => seq(NSigma, i requires 0 <= i < NSigma => SigmaEntry(xAug, l, s, r, i)))
  }

  /**
   * The CTRV transition of one augmented sigma point
   * [px, py, v, yaw, yaw_rate, nu_a, nu_yaw] over dt seconds, with the
   * turning formulas when |yaw_rate| > 0.001 and straight-line ones otherwise.
   */
  function Ctrv(lib: Library, col: Vector, dt: real): (p: Vector)
    requires |col| == NAug
    ensures |p| == NX
  {
    var px := col[0];
    var py := col[1];
    var v := col[2];
    var yaw := col[3];
    var yawRate := col[4];
    var nuA := col[5];
    var nuYaw := col[6];
    var noiseX := 0.5 * nuA * lib.cos(yaw) * dt * dt;
    var noiseY := 0.5 * nuA * lib.sin(yaw) * dt * dt;
    var pxNew :=
      if Abs(yawRate) > 0.001 then px + v / yawRate * (lib.sin(yaw + dt * yawRate) - lib.sin(yaw)) + noiseX
      else px + v * lib.cos(yaw) * dt + noiseX;
    var pyNew :=
      if Abs(yawRate) > 0.001 then py + v / yawRate * (-lib.cos(yaw + dt * yawRate) + lib.cos(yaw)) + noiseY
      else py + v * lib.sin(yaw) * dt + noiseY;
    [pxNew, pyNew, v + dt * nuA, yaw + dt * yawRate + 0.5 * dt * dt * nuYaw, yawRate + dt * nuYaw]
  }

  /** Xsig_pred_: column i is the CTRV transition of column i of Xsig_aug. */
  function PropagatedSigmaPoints(lib: Library, xSigAug: Matrix, dt: real): (x: Matrix)
    requires IsMatrix(xSigAug, NAug, NSigma)
    ensures IsMatrix(x, NX, NSigma)
  {
    seq(NX, r requires 0 <= r < NX => seq(NSigma, i requires 0 <= i < NSigma => Ctrv(lib, Column(xSigAug, i), dt)[r]))
  }

  /** w[0] * m[r][0] + ... + w[k-1] * m[r][k-1], accumulated left to right. */
  function WeightedRowSum(w: Vector, m: Matrix, r: nat, k: nat): real
    requires r < |m| && k <= |w| && k <= |m[r]|
  {
    if k == 0 then 0.0 else WeightedRowSum(w, m, r, k - 1) + w[k - 1] * m[r][k - 1]
  }

  /** The weighted mean of the columns of an n-row matrix. */
  function WeightedMean(w: Vector, m: Matrix, n: nat): (mean: Vector)
    requires IsMatrix(m, n, |w|)
    ensures |mean| == n
  {
    seq(n, r requires 0 <= r < n => WeightedRowSum(w, m, r, |w|))
  }

  /** Column i of m minus the mean. */
  function Difference(m: Matrix, mean: Vector, i: nat): (d: Vector)
    requires |m| == |mean| && forall r :: 0 <= r < |m| ==> i < |m[r]|
    ensures |d| == |mean|
  {
    SubV(Column(m, i), mean)
  }

  /** v with its entry k replaced by what the normalisation loops make of it. */
  function WrapEntry(v: Vector, k: nat): (r: Vector)
    requires k < |v|
    ensures |r| == |v|
  {
    v[k := Wrapped(v[k])]
  }

  /** The residual of column i against the mean, with the angle entry wrapped. */
  function Residual(m: Matrix, mean: Vector, angle: nat, i: nat): (d: Vector)
    requires |m| == |mean| && forall r :: 0 <= r < |m| ==> i < |m[r]|
    requires angle < |mean|
    ensures |d| == |mean|
  {
    WrapEntry(Difference(m, mean, i), angle)
  }

  function Residuals(m: Matrix, mean: Vector, angle: nat, count: nat): (ds: seq<Vector>)
    requires IsMatrix(m, |mean|, count) && angle < |mean|
    ensures |ds| == count && forall i :: 0 <= i < count ==> |ds[i]| == |mean|
  {
    seq(count, i requires 0 <= i < count => Residual(m, mean, angle, i))
  }

  /**
   * A residual differs from the column minus the mean only in its angle entry,
   * which is brought into [-pi, pi] by whole turns.
   */
  lemma ResidualWrapsAngle(m: Matrix, mean: Vector, angle: nat, i: nat)
    requires |m| == |mean| && forall r :: 0 <= r < |m| ==> i < |m[r]|
    requires angle < |mean|
    ensures var d := Residual(m, mean, angle, i);
      && InRange(d[angle]) && Coterminal(m[angle][i] - mean[angle], d[angle])
      && forall r :: 0 <= r < |mean| && r != angle ==> d[r] == m[r][i] - mean[r]
  {
    WrappedProperties(m[angle][i] - mean[angle]);
  }

  /** The contribution w * a * b of one weighted outer product to one entry. */
  function Contribution(w: real, a: real, b: real): real {
    w * a * b
  }

  /** Entry (r, c) of w[0] * da[0] * db[0]^T + ... + w[k-1] * da[k-1] * db[k-1]^T. */
  function OuterSum(w: Vector, da: seq<Vector>, db: seq<Vector>, r: nat, c: nat, k: nat): real
    requires k <= |w| && k <= |da| && k <= |db|
    requires forall i :: 0 <= i < k ==> r < |da[i]| && c < |db[i]|
  {
    if k == 0 then 0.0
    else OuterSum(w, da, db, r, c, k - 1) + Contribution(w[k - 1], da[k - 1][r], db[k - 1][c])
  }

  /** The weighted sum of the outer products da[i] * db[i]^T, an n-by-m matrix. */
  function Outer(w: Vector, da: seq<Vector>, db: seq<Vector>, n: nat, m: nat): (s: Matrix)
    requires |da| == |w| && |db| == |w|
    requires forall i :: 0 <= i < |w| ==> |da[i]| == n && |db[i]| == m
    ensures IsMatrix(s, n, m)
  {
    seq(n, r requires 0 <= r < n => seq(m, c requires 0 <= c < m => OuterSum(w, da, db, r, c, |w|)))
  }

  datatype Prediction = Prediction(x: Vector, p: Matrix, xSigPred: Matrix)

  /** Xsig_aug: the sigma points of the augmented mean and covariance. */
  function AugmentedSigmaPoints(lib: Library, x: Vector, p: Matrix): (xSigAug: Matrix)
    requires lib.Valid() && |x| == NX && IsMatrix(p, NX, NX)
    ensures IsMatrix(xSigAug, NAug, NSigma)
  {
    SigmaPoints(AugmentedMean(x), lib.choleskyL(AugmentedCovariance(p)), SpreadingScale(lib))
  }

  /** The propagated sigma points and their weighted mean and covariance. */
  function Moments(lib: Library, w: Vector, xSigAug: Matrix, dt: real): (pr: Prediction)
    requires |w| == NSigma && IsMatrix(xSigAug, NAug, NSigma)
    ensures |pr.x| == NX && IsMatrix(pr.p, NX, NX) && IsMatrix(pr.xSigPred, NX, NSigma)
  {
    var xSigPred := PropagatedSigmaPoints(lib, xSigAug, dt);
    var xPred := WeightedMean(w, xSigPred, NX);
    var d := Residuals(xSigPred, xPred, HeadingRow, NSigma);
    Prediction(xPred, Outer(w, d, d, NX, NX), xSigPred)
  }

  /** What UKF::Prediction computes from the state, its covariance and the elapsed time. */
  function Predict(lib: Library, w: Vector, x: Vector, p: Matrix, dt: real): (pr: Prediction)
    requires lib.Valid() && |w| == NSigma && |x| == NX && IsMatrix(p, NX, NX)
    ensures |pr.x| == NX && IsMatrix(pr.p, NX, NX) && IsMatrix(pr.xSigPred, NX, NSigma)
  {
    Moments(lib, w, AugmentedSigmaPoints(lib, x, p), dt)
  }

  lemma AugmentedCovarianceSymmetric(p: Matrix)
    requires IsMatrix(p, NX, NX) && Symmetric(p, NX)
    ensures Symmetric(AugmentedCovariance(p), NAug)
  {
  }

  /**
   * Column 0 is x_aug, and columns i+1 and i+8 lie at x_aug plus and minus
   * s times column i of L, so each pair averages to x_aug.
   */
  lemma SigmaPointsLayout(xAug: Vector, l: Matrix, s: real)
    requires |xAug| == NAug && IsMatrix(l, NAug, NAug)
    ensures Column(SigmaPoints(xAug, l, s), 0) == xAug
    ensures forall r, i :: 0 <= r < NAug && 0 <= i < NAug ==>
      && SigmaPoints(xAug, l, s)[r][i + 1] - xAug[r] == s * l[r][i]
      && xAug[r] - SigmaPoints(xAug, l, s)[r][i + 1 + NAug] == s * l[r][i]
      && (SigmaPoints(xAug, l, s)[r][i + 1] + SigmaPoints(xAug, l, s)[r][i + 1 + NAug]) / 2.0 == xAug[r]
  {
  }

  /** With dt = 0 every sigma point keeps the first five rows of its augmented column. */
  lemma CtrvZeroElapsed(lib: Library, col: Vector)
    requires |col| == NAug
    ensures Ctrv(lib, col, 0.0) == col[..NX]
  {
  }

  /**
   * Without process noise the speed and yaw rate are kept, the heading turns
   * by dt * yaw_rate, and below the 0.001 yaw-rate threshold the position
   * moves in a straight line along the heading.
   */
  lemma CtrvNoiseFree(lib: Library, col: Vector, dt: real)
    requires |col| == NAug && col[5] == 0.0 && col[6] == 0.0
    ensures var p := Ctrv(lib, col, dt);
      && p[2] == col[2] && p[4] == col[4] && p[3] == col[3] + dt * col[4]
      && (Abs(col[4]) <= 0.001 ==>
            p[0] == col[0] + col[2] * lib.cos(col[3]) * dt && p[1] == col[1] + col[2] * lib.sin(col[3]) * dt)
  {
  }

  /** A sigma point with zero speed and zero longitudinal noise keeps its position, on either branch. */
  lemma CtrvStationary(lib: Library, col: Vector, dt: real)
    requires |col| == NAug && col[2] == 0.0 && col[5] == 0.0
    ensures var p := Ctrv(lib, col, dt); p[0] == col[0] && p[1] == col[1] && p[2] == 0.0
  {
  }

  lemma ZeroElapsedSigmaPoints(lib: Library, xSigAug: Matrix)
    requires IsMatrix(xSigAug, NAug, NSigma)
    ensures forall r, i :: 0 <= r < NX && 0 <= i < NSigma ==>
      PropagatedSigmaPoints(lib, xSigAug, 0.0)[r][i] == xSigAug[r][i]
  {
    forall r, i | 0 <= r < NX && 0 <= i < NSigma
      ensures PropagatedSigmaPoints(lib, xSigAug, 0.0)[r][i] == xSigAug[r][i]
    {
      CtrvZeroElapsed(lib, Column(xSigAug, i));
    }
  }

  /** A weighted sum of outer products of a family with itself is symmetric. */
  lemma {:induction false} OuterSumSymmetric(w: Vector, d: seq<Vector>, r: nat, c: nat, k: nat)
    requires k <= |w| && k <= |d|
    requires forall i :: 0 <= i < k ==> r < |d[i]| && c < |d[i]|
    ensures OuterSum(w, d, d, r, c, k) == OuterSum(w, d, d, c, r, k)
  {
    if k > 0 {
      OuterSumSymmetric(w, d, r, c, k - 1);
    }
  }

  lemma OuterSymmetric(w: Vector, d: seq<Vector>, n: nat)
    requires |d| == |w| && forall i :: 0 <= i < |w| ==> |d[i]| == n
    ensures Symmetric(Outer(w, d, d, n, n), n)
  {
    forall r, c | 0 <= r < n && 0 <= c < n
      ensures Outer(w, d, d, n, n)[r][c] == Outer(w, d, d, n, n)[c][r]
    {
      OuterSumSymmetric(w, d, r, c, |w|);
    }
  }

  /** The predicted covariance is symmetric, whatever the state, covariance and elapsed time. */
  lemma PredictedCovarianceSymmetric(lib: Library, w: Vector, x: Vector, p: Matrix, dt: real)
    requires lib.Valid() && |w| == NSigma && |x| == NX && IsMatrix(p, NX, NX)
    ensures Symmetric(Predict(lib, w, x, p, dt).p, NX)
  {
    var pr := Predict(lib, w, x, p, dt);
    OuterSymmetric(w, Residuals(pr.xSigPred, pr.x, HeadingRow, NSigma), NX);
  }

  /** s * l[r][0] + ... + s * l[r][k-1]. */
  function ScaledRowSum(l: Matrix, r: nat, s: real, k: nat): real
    requires r < |l| && k <= |l[r]|
  {
    if k == 0 then 0.0 else ScaledRowSum(l, r, s, k - 1) + s * l[r][k - 1]
  }

  /** The running weighted sum of a sigma-point row over the centre and the plus columns. */
  lemma {:induction false} SigmaRowPlusPrefix(m: Matrix, r: nat, xAug: Vector, l: Matrix, s: real, k: nat)
    requires |xAug| == NAug && IsMatrix(l, NAug, NAug) && r < NAug && r < |m| && |m[r]| == NSigma
    requires forall i :: 0 <= i < NSigma ==> m[r][i] == SigmaEntry(xAug, l, s, r, i)
    requires 1 <= k <= NAug + 1
    ensures WeightedRowSum(Weights(), m, r, k) == -0.4 * xAug[r] + 0.1 * (k - 1) as real * xAug[r] + 0.1 * ScaledRowSum(l, r, s, k - 1)
  {
    if k > 1 {
      SigmaRowPlusPrefix(m, r, xAug, l, s, k - 1);
      var x := xAug[r];
      assert WeightedRowSum(Weights(), m, r, k) == WeightedRowSum(Weights(), m, r, k - 1) + 0.1 * m[r][k - 1] by {
        assert Weights()[k - 1] == 0.1;
      }
      assert m[r][k - 1] == x + s * l[r][k - 2];
      assert 0.1 * (k - 1) as real * x == 0.1 * (k - 2) as real * x + 0.1 * x;
    }
  }

  /**
   * The running weighted sum of a sigma-point row past the plus columns: each
   * minus column takes its offset away again.
   */
  lemma {:induction false} SigmaRowMinusPrefix(m: Matrix, r: nat, xAug: Vector, l: Matrix, s: real, k: nat)
    requires |xAug| == NAug && IsMatrix(l, NAug, NAug) && r < NAug && r < |m| && |m[r]| == NSigma
    requires forall i :: 0 <= i < NSigma ==> m[r][i] == SigmaEntry(xAug, l, s, r, i)
    requires NAug + 1 <= k <= NSigma
    ensures WeightedRowSum(Weights(), m, r, k) == -0.4 * xAug[r] + 0.1 * (k - 1) as real * xAug[r]
      + 0.1 * ScaledRowSum(l, r, s, NAug) - 0.1 * ScaledRowSum(l, r, s, k - 1 - NAug)
  {
    if k == NAug + 1 {
      SigmaRowPlusPrefix(m, r, xAug, l, s, k);
    } else {
      SigmaRowMinusPrefix(m, r, xAug, l, s, k - 1);
      var x := xAug[r];
      assert WeightedRowSum(Weights(), m, r, k) == WeightedRowSum(Weights(), m, r, k - 1) + 0.1 * m[r][k - 1] by {
        assert Weights()[k - 1] == 0.1;
      }
      assert m[r][k - 1] == x - s * l[r][k - 2 - NAug];
      assert 0.1 * (k - 1) as real * x == 0.1 * (k - 2) as real * x + 0.1 * x;
    }
  }

  /** The weighted mean of a sigma-point row is the row of x_aug it was spread around. */
  lemma SigmaRowMean(m: Matrix, r: nat, xAug: Vector, l: Matrix, s: real)
    requires |xAug| == NAug && IsMatrix(l, NAug, NAug) && r < NAug && r < |m| && |m[r]| == NSigma
    requires forall i :: 0 <= i < NSigma ==> m[r][i] == SigmaEntry(xAug, l, s, r, i)
    ensures WeightedRowSum(Weights(), m, r, NSigma) == xAug[r]
  {
    SigmaRowMinusPrefix(m, r, xAug, l, s, NSigma);
  }

  /** Propagating sigma points over zero time and averaging them gives back the centre. */
  lemma ZeroElapsedSigmaMean(lib: Library, xAug: Vector, l: Matrix, s: real)
    requires |xAug| == NAug && IsMatrix(l, NAug, NAug)
    ensures WeightedMean(Weights(), PropagatedSigmaPoints(lib, SigmaPoints(xAug, l, s), 0.0), NX) == xAug[..NX]
  {
    var xSigAug := SigmaPoints(xAug, l, s);
    var xSigPred := PropagatedSigmaPoints(lib, xSigAug, 0.0);
    ZeroElapsedSigmaPoints(lib, xSigAug);
    forall r | 0 <= r < NX
      ensures WeightedMean(Weights(), xSigPred, NX)[r] == xAug[r]
    {
      forall i | 0 <= i < NSigma
        ensures xSigPred[r][i] == SigmaEntry(xAug, l, s, r, i)
      {
        assert xSigPred[r][i] == xSigAug[r][i];
      }
      SigmaRowMean(xSigPred, r, xAug, l, s);
    }
  }

  /** A prediction over zero elapsed time leaves the state mean unchanged. */
  lemma ZeroElapsedKeepsMean(lib: Library, x: Vector, p: Matrix)
    requires lib.Valid() && |x| == NX && IsMatrix(p, NX, NX)
    ensures Predict(lib, Weights(), x, p, 0.0).x == x
  {
    var l := lib.choleskyL(AugmentedCovariance(p));
    ZeroElapsedSigmaMean(lib, AugmentedMean(x), l, SpreadingScale(lib));
    assert AugmentedMean(x)[..NX] == x;
  }
}
