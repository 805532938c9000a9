/**
 * The two measurement updates, as values: the linear Kalman update of
 * UKF::UpdateLidar and the unscented update of UKF::UpdateRadar, together with
 * the normalised innovation squared (NIS) each computes. Each intermediate
 * quantity of the source (predicted measurement, innovation, its covariance,
 * the gain) is a function of its own.
 */
module Updates {
  import opened Linalg
  import opened Angles
  import opened Numerics
  import opened Parameters
  import opened Unscented

  /** Dimensions of a laser and of a radar measurement. */
  const NZLaser: nat := 2
  const NZRadar: nat := 3

  /** H = [1 0 0 0 0; 0 1 0 0 0]: the laser observes the first two state components. */
  function LaserH(): (h: Matrix)
    ensures IsMatrix(h, NZLaser, NX)
  {
    seq(NZLaser, i requires 0 <= i < NZLaser => seq(NX, j requires 0 <= j < NX => if i == j then 1.0 else 0.0))
  }

  function LaserR(): (r: Matrix)
    ensures IsMatrix(r, NZLaser, NZLaser)
  {
    [[StdLasPx * StdLasPx, 0.0], [0.0, StdLasPy * StdLasPy]]
  }

  function RadarR(): (r: Matrix)
    ensures IsMatrix(r, NZRadar, NZRadar)
  {
    [[StdRadR * StdRadR, 0.0, 0.0], [0.0, StdRadPhi * StdRadPhi, 0.0], [0.0, 0.0, StdRadRd * StdRadRd]]
  }

  /** A state estimate: mean and covariance. */
  datatype Estimate = Estimate(x: Vector, p: Matrix)

  // ----- laser -----

  /** z_pred = H x. */
  function LaserPrediction(x: Vector): (z: Vector)
    requires |x| == NX
    ensures |z| == NZLaser
  {
    Apply(LaserH(), x, NZLaser, NX)
  }

  /** y = z - H x. */
  function LaserInnovation(x: Vector, z: Vector): (y: Vector)
    requires |x| == NX && |z| == NZLaser
    ensures |y| == NZLaser
  {
    SubV(z, LaserPrediction(x))
  }

  /** S = H P H^T + R. */
  function LaserInnovationCovariance(p: Matrix): (s: Matrix)
    requires IsMatrix(p, NX, NX)
    ensures IsMatrix(s, NZLaser, NZLaser)
  {
    Add(Mul(Mul(LaserH(), p, NZLaser, NX, NX), Transpose(LaserH(), NZLaser, NX), NZLaser, NX, NZLaser), LaserR(), NZLaser, NZLaser)
  }

  /** K = P H^T S^-1. */
  function LaserGain(lib: Library, p: Matrix): (k: Matrix)
    requires lib.Valid() && IsMatrix(p, NX, NX)
    ensures IsMatrix(k, NX, NZLaser)
  {
    var pht := Mul(p, Transpose(LaserH(), NZLaser, NX), NX, NX, NZLaser);
    Mul(pht, lib.inverse(LaserInnovationCovariance(p)), NX, NZLaser, NZLaser)
  }

  /** x + K y and (I - K H) P. */
  function LidarUpdate(lib: Library, x: Vector, p: Matrix, z: Vector): (e: Estimate)
    requires lib.Valid() && |x| == NX && IsMatrix(p, NX, NX) && |z| == NZLaser
    ensures |e.x| == NX && IsMatrix(e.p, NX, NX)
  {
    var k := LaserGain(lib, p);
    Estimate(
      AddV(x, Apply(k, LaserInnovation(x, z), NX, NZLaser)),
      Mul(Sub(Identity(NX), Mul(k, LaserH(), NX, NZLaser, NX), NX, NX), p, NX, NX, NX))
  }

  /** The normalised innovation squared (y^T Si) y of an innovation y of length n. */
  function Nis(y: Vector, si: Matrix, n: nat): real
    requires |y| == n && IsMatrix(si, n, n)
  {
    Dot(Mul([y], si, 1, n, n)[0], y, n)
  }

  /** The laser NIS y^T S^-1 y. */
  function LidarNis(lib: Library, x: Vector, p: Matrix, z: Vector): real
    requires lib.Valid() && |x| == NX && IsMatrix(p, NX, NX) && |z| == NZLaser
  {
    Nis(LaserInnovation(x, z), lib.inverse(LaserInnovationCovariance(p)), NZLaser)
  }

  // ----- radar -----

  /**
   * The radar measurement model of one predicted sigma point
   * [px, py, v, yaw, yaw_rate]: range, bearing and range rate. The range-rate
   * division is not guarded against a zero range.
   */
  function RadarMeasure(lib: Library, col: Vector): (z: Vector)
    requires |col| == NX
    ensures |z| == NZRadar
  {
    var px := col[0];
    var py := col[1];
    var v := col[2];
    var yaw := col[3];
    var vx := lib.cos(yaw) * v;
    var vy := lib.sin(yaw) * v;
    [lib.sqrt(px * px + py * py),
     lib.atan2(py, px),
     lib.divide(px * vx + py * vy, lib.sqrt(px * px + py * py))]
  }

  /** Zsig: column i is the measurement model applied to predicted sigma point i. */
  function MeasurementSigmaPoints(lib: Library, xSig: Matrix): (z: Matrix)
    requires IsMatrix(xSig, NX, NSigma)
    ensures IsMatrix(z, NZRadar, NSigma)
  {
    seq(NZRadar, r requires 0 <= r < NZRadar => seq(NSigma, i requires 0 <= i < NSigma => RadarMeasure(lib, Column(xSig, i))[r]))
  }

  /** z_pred: the weighted mean of the measurement sigma points. */
  function RadarPrediction(lib: Library, w: Vector, xSig: Matrix): (z: Vector)
    requires |w| == NSigma && IsMatrix(xSig, NX, NSigma)
    ensures |z| == NZRadar
  {
    WeightedMean(w, MeasurementSigmaPoints(lib, xSig), NZRadar)
  }

  /** The measurement residuals Zsig.col(i) - z_pred, bearing wrapped. */
  function RadarResiduals(lib: Library, w: Vector, xSig: Matrix): (dz: seq<Vector>)
    requires |w| == NSigma && IsMatrix(xSig, NX, NSigma)
    ensures |dz| == NSigma && forall i :: 0 <= i < NSigma ==> |dz[i]| == NZRadar
  {
    Residuals(MeasurementSigmaPoints(lib, xSig), RadarPrediction(lib, w, xSig), BearingRow, NSigma)
  }

  /** S: the weighted outer products of the measurement residuals, plus R. */
  function RadarInnovationCovariance(lib: Library, w: Vector, xSig: Matrix): (s: Matrix)
    requires |w| == NSigma && IsMatrix(xSig, NX, NSigma)
    ensures IsMatrix(s, NZRadar, NZRadar)
  {
    var dz := RadarResiduals(lib, w, xSig);
    Add(Outer(w, dz, dz, NZRadar, NZRadar), RadarR(), NZRadar, NZRadar)
  }

  /** Tc: the weighted products of the state residuals (heading wrapped) and the measurement residuals. */
  function RadarCrossCovariance(lib: Library, w: Vector, x: Vector, xSig: Matrix): (tc: Matrix)
    requires |w| == NSigma && |x| == NX && IsMatrix(xSig, NX, NSigma)
    ensures IsMatrix(tc, NX, NZRadar)
  {
    Outer(w, Residuals(xSig, x, HeadingRow, NSigma), RadarResiduals(lib, w, xSig), NX, NZRadar)
  }

  /** K = Tc S^-1. */
  function RadarGain(lib: Library, w: Vector, x: Vector, xSig: Matrix): (k: Matrix)
    requires lib.Valid() && |w| == NSigma && |x| == NX && IsMatrix(xSig, NX, NSigma)
    ensures IsMatrix(k, NX, NZRadar)
  {
    Mul(RadarCrossCovariance(lib, w, x, xSig), lib.inverse(RadarInnovationCovariance(lib, w, xSig)), NX, NZRadar, NZRadar)
  }

  /** z_diff = z - z_pred, bearing wrapped. */
  function RadarInnovation(lib: Library, w: Vector, xSig: Matrix, z: Vector): (zDiff: Vector)
    requires |w| == NSigma && IsMatrix(xSig, NX, NSigma) && |z| == NZRadar
    ensures |zDiff| == NZRadar
  {
    WrapEntry(SubV(z, RadarPrediction(lib, w, xSig)), BearingRow)
  }

  /** x + K z_diff and P - K S K^T. */
  function RadarUpdate(lib: Library, w: Vector, x: Vector, p: Matrix, xSig: Matrix, z: Vector): (e: Estimate)
    requires lib.Valid() && |w| == NSigma && |x| == NX && IsMatrix(p, NX, NX) && IsMatrix(xSig, NX, NSigma)
    requires |z| == NZRadar
    ensures |e.x| == NX && IsMatrix(e.p, NX, NX)
  {
    var k := RadarGain(lib, w, x, xSig);
    var s := RadarInnovationCovariance(lib, w, xSig);
    Estimate(
      AddV(x, Apply(k, RadarInnovation(lib, w, xSig, z), NX, NZRadar)),
      Sub(p, Mul(Mul(k, s, NX, NZRadar, NZRadar), Transpose(k, NX, NZRadar), NX, NZRadar, NX), NX, NX))
  }

  /** The radar NIS z_diff^T S^-1 z_diff. */
  function RadarNis(lib: Library, w: Vector, xSig: Matrix, z: Vector): real
    requires lib.Valid() && |w| == NSigma && IsMatrix(xSig, NX, NSigma) && |z| == NZRadar
  {
    Nis(RadarInnovation(lib, w, xSig, z), lib.inverse(RadarInnovationCovariance(lib, w, xSig)), NZRadar)
  }

  // ----- properties -----

  /** H x selects the two position components of the state. */
  lemma LaserObservesPosition(x: Vector)
    requires |x| == NX
    ensures LaserPrediction(x) == [x[0], x[1]]
  {
    DotUnit(LaserH()[0], x, NX, 0);
    DotUnit(LaserH()[1], x, NX, 1);
  }

  /** P H^T keeps the first two columns of P. */
  lemma LaserGainInput(p: Matrix)
    requires IsMatrix(p, NX, NX)
    ensures forall i, j :: 0 <= i < NX && 0 <= j < NZLaser ==>
      Mul(p, Transpose(LaserH(), NZLaser, NX), NX, NX, NZLaser)[i][j] == p[i][j]
  {
    var ht := Transpose(LaserH(), NZLaser, NX);
    forall i, j | 0 <= i < NX && 0 <= j < NZLaser
      ensures Mul(p, ht, NX, NX, NZLaser)[i][j] == p[i][j]
    {
      DotUnit(Column(ht, j), p[i], NX, j);
    }
  }

  /** The laser innovation covariance H P H^T + R is the top-left 2-by-2 block of P plus R. */
  lemma LaserInnovationCovarianceBlock(p: Matrix)
    requires IsMatrix(p, NX, NX)
    ensures forall i, j :: 0 <= i < NZLaser && 0 <= j < NZLaser ==>
      LaserInnovationCovariance(p)[i][j] == p[i][j] + LaserR()[i][j]
  {
    var hp := Mul(LaserH(), p, NZLaser, NX, NX);
    forall i, j | 0 <= i < NZLaser && 0 <= j < NX
      ensures hp[i][j] == p[i][j]
    {
      DotUnit(LaserH()[i], Column(p, j), NX, i);
    }
    var ht := Transpose(LaserH(), NZLaser, NX);
    forall i, j | 0 <= i < NZLaser && 0 <= j < NZLaser
      ensures Mul(hp, ht, NZLaser, NX, NZLaser)[i][j] == p[i][j]
    {
      DotUnit(Column(ht, j), hp[i], NX, j);
    }
  }

  /** A laser measurement at the state's own position has a zero innovation. */
  lemma LaserZeroInnovationVector(x: Vector)
    requires |x| == NX
    ensures forall j :: 0 <= j < NZLaser ==> LaserInnovation(x, [x[0], x[1]])[j] == 0.0
  {
    LaserObservesPosition(x);
  }

  /** A laser measurement that equals the predicted position leaves the state mean unchanged. */
  lemma LidarZeroInnovation(lib: Library, x: Vector, p: Matrix)
    requires lib.Valid() && |x| == NX && IsMatrix(p, NX, NX)
    ensures LidarUpdate(lib, x, p, [x[0], x[1]]).x == x
  {
    var y := LaserInnovation(x, [x[0], x[1]]);
    LaserZeroInnovationVector(x);
    var k := LaserGain(lib, p);
    ApplyZero(k, y, NX, NZLaser);
    AddZero(x, Apply(k, y, NX, NZLaser));
  }

  /** The radar innovation covariance S is symmetric. */
  lemma RadarInnovationCovarianceSymmetric(lib: Library, w: Vector, xSig: Matrix)
    requires |w| == NSigma && IsMatrix(xSig, NX, NSigma)
    ensures Symmetric(RadarInnovationCovariance(lib, w, xSig), NZRadar)
  {
    OuterSymmetric(w, RadarResiduals(lib, w, xSig), NZRadar);
  }

  /** A radar measurement that equals the predicted measurement has a zero innovation. */
  lemma RadarZeroInnovationVector(lib: Library, w: Vector, xSig: Matrix)
    requires |w| == NSigma && IsMatrix(xSig, NX, NSigma)
    ensures forall j :: 0 <= j < NZRadar ==> RadarInnovation(lib, w, xSig, RadarPrediction(lib, w, xSig))[j] == 0.0
  {
    WrappedProperties(0.0);
  }

  /** A radar measurement that equals the predicted measurement leaves the state mean unchanged. */
  lemma RadarZeroInnovation(lib: Library, w: Vector, x: Vector, p: Matrix, xSig: Matrix)
    requires lib.Valid() && |w| == NSigma && |x| == NX && IsMatrix(p, NX, NX) && IsMatrix(xSig, NX, NSigma)
    ensures RadarUpdate(lib, w, x, p, xSig, RadarPrediction(lib, w, xSig)).x == x
  {
    var zDiff := RadarInnovation(lib, w, xSig, RadarPrediction(lib, w, xSig));
    RadarZeroInnovationVector(lib, w, xSig);
    var k := RadarGain(lib, w, x, xSig);
    ApplyZero(k, zDiff, NX, NZRadar);
    AddZero(x, Apply(k, zDiff, NX, NZRadar));
  }
  // ----- symmetry of the updated covariance -----

  /** u^T s v for vectors of length three and a 3-by-3 matrix s, written out. */
  function Bilinear3(u: Vector, s: Matrix, v: Vector): real
    requires 3 <= |u| && 3 <= |v| && IsMatrix(s, 3, 3)
  {
    (u[0] * s[0][0] + u[1] * s[1][0] + u[2] * s[2][0]) * v[0]
    + (u[0] * s[0][1] + u[1] * s[1][1] + u[2] * s[2][1]) * v[1]
    + (u[0] * s[0][2] + u[1] * s[1][2] + u[2] * s[2][2]) * v[2]
  }

  /** u^T s v for vectors of length two and a 2-by-2 matrix s, written out. */
  function Bilinear2(u: Vector, s: Matrix, v: Vector): real
    requires 2 <= |u| && 2 <= |v| && IsMatrix(s, 2, 2)
  {
    (u[0] * s[0][0] + u[1] * s[1][0]) * v[0] + (u[0] * s[0][1] + u[1] * s[1][1]) * v[1]
  }

  /** A symmetric matrix gives a symmetric bilinear form. */
  lemma Bilinear3Symmetric(u: Vector, s: Matrix, v: Vector)
    requires 3 <= |u| && 3 <= |v| && IsMatrix(s, 3, 3) && Symmetric(s, 3)
    ensures Bilinear3(u, s, v) == Bilinear3(v, s, u)
  {
    assert s[0][1] == s[1][0] && s[0][2] == s[2][0] && s[1][2] == s[2][1];
  }

  lemma Bilinear2Symmetric(u: Vector, s: Matrix, v: Vector)
    requires 2 <= |u| && 2 <= |v| && IsMatrix(s, 2, 2) && Symmetric(s, 2)
    ensures Bilinear2(u, s, v) == Bilinear2(v, s, u)
  {
    assert s[0][1] == s[1][0];
  }

  /** Entry (i, j) of K S K^T is the bilinear form of rows i and j of K. */
  lemma RadarCorrectionEntry(k: Matrix, s: Matrix, i: nat, j: nat)
    requires IsMatrix(k, NX, NZRadar) && IsMatrix(s, NZRadar, NZRadar) && i < NX && j < NX
    ensures Mul(Mul(k, s, NX, NZRadar, NZRadar), Transpose(k, NX, NZRadar), NX, NZRadar, NX)[i][j]
      == Bilinear3(k[i], s, k[j])
  {
    var ks := Mul(k, s, NX, NZRadar, NZRadar);
    var kt := Transpose(k, NX, NZRadar);
    forall b | 0 <= b < NZRadar
      ensures ks[i][b] == k[i][0] * s[0][b] + k[i][1] * s[1][b] + k[i][2] * s[2][b]
    {
      DotThree(k[i], Column(s, b));
    }
    assert Column(kt, j) == k[j];
    DotThree(ks[i], Column(kt, j));
  }

  /**
   * The radar update keeps the covariance symmetric: P - K S K^T is symmetric
   * for every gain K once P is, because S is.
   */
  lemma RadarUpdateKeepsSymmetry(lib: Library, w: Vector, x: Vector, p: Matrix, xSig: Matrix, z: Vector)
    requires lib.Valid() && |w| == NSigma && |x| == NX && IsMatrix(p, NX, NX) && IsMatrix(xSig, NX, NSigma)
    requires |z| == NZRadar && Symmetric(p, NX)
    ensures Symmetric(RadarUpdate(lib, w, x, p, xSig, z).p, NX)
  {
    var k := RadarGain(lib, w, x, xSig);
    var s := RadarInnovationCovariance(lib, w, xSig);
    RadarInnovationCovarianceSymmetric(lib, w, xSig);
    var ksk := Mul(Mul(k, s, NX, NZRadar, NZRadar), Transpose(k, NX, NZRadar), NX, NZRadar, NX);
    forall i, j | 0 <= i < NX && 0 <= j < NX
      ensures ksk[i][j] == ksk[j][i]
    {
      RadarCorrectionEntry(k, s, i, j);
      RadarCorrectionEntry(k, s, j, i);
      Bilinear3Symmetric(k[i], s, k[j]);
    }
  }

  /** Entry (i, a) of the laser gain P H^T S^-1: the first two entries of row i of P against column a of S^-1. */
  lemma LaserGainEntry(lib: Library, p: Matrix, i: nat, a: nat)
    requires lib.Valid() && IsMatrix(p, NX, NX) && i < NX && a < NZLaser
    ensures var si := lib.inverse(LaserInnovationCovariance(p));
      LaserGain(lib, p)[i][a] == p[i][0] * si[0][a] + p[i][1] * si[1][a]
  {
    var pht := Mul(p, Transpose(LaserH(), NZLaser, NX), NX, NX, NZLaser);
    var si := lib.inverse(LaserInnovationCovariance(p));
    LaserGainInput(p);
    DotTwo(pht[i], Column(si, a));
  }

  /** A dot product over the state whose first row has zeros past the laser block. */
  lemma DotSplit(a: Vector, b: Vector)
    requires |a| == NX && |b| == NX
    requires Dot(a[NZLaser..], b[NZLaser..], NX - NZLaser) == 0.0
    ensures Dot(a, b, NX) == a[0] * b[0] + a[1] * b[1]
  {
    assert Dot(a[NZLaser..], b[NZLaser..], 3) == a[2] * b[2] + a[3] * b[3] + a[4] * b[4] by {
      DotThree(a[NZLaser..], b[NZLaser..]);
    }
    DotTwo(a, b);
    assert Dot(a, b, 3) == Dot(a, b, 2) + a[2] * b[2];
    assert Dot(a, b, 4) == Dot(a, b, 3) + a[3] * b[3];
  }

  /** Entry (i, j) of (I - K H) P, for any 5-by-2 gain K and any P. */
  lemma GainCorrectionEntry(k: Matrix, p: Matrix, i: nat, j: nat)
    requires IsMatrix(k, NX, NZLaser) && IsMatrix(p, NX, NX) && i < NX && j < NX
    ensures Mul(Sub(Identity(NX), Mul(k, LaserH(), NX, NZLaser, NX), NX, NX), p, NX, NX, NX)[i][j]
      == p[i][j] - (k[i][0] * p[0][j] + k[i][1] * p[1][j])
  {
    var kh := Mul(k, LaserH(), NX, NZLaser, NX);
    var ikh := Sub(Identity(NX), kh, NX, NX);
    forall c | 0 <= c < NX
      ensures kh[i][c] == if c < NZLaser then k[i][c] else 0.0
    {
      DotTwo(k[i], Column(LaserH(), c));
    }
    var pj := Column(p, j);
    DotSub(ikh[i], Identity(NX)[i], kh[i], pj, NX);
    DotUnit(Identity(NX)[i], pj, NX, i);
    DotZero(kh[i][NZLaser..], pj[NZLaser..], NX - NZLaser);
    DotSplit(kh[i], pj);
  }

  /** Entry (i, j) of (I - K H) P is P[i][j] minus the bilinear form of rows i and j of P under S^-1. */
  lemma LaserCorrectionEntry(lib: Library, p: Matrix, i: nat, j: nat)
    requires lib.Valid() && IsMatrix(p, NX, NX) && Symmetric(p, NX) && i < NX && j < NX
    ensures var k := LaserGain(lib, p);
      var si := lib.inverse(LaserInnovationCovariance(p));
      Mul(Sub(Identity(NX), Mul(k, LaserH(), NX, NZLaser, NX), NX, NX), p, NX, NX, NX)[i][j]
        == p[i][j] - Bilinear2(p[i], si, p[j])
  {
    var k := LaserGain(lib, p);
    GainCorrectionEntry(k, p, i, j);
    LaserGainEntry(lib, p, i, 0);
    LaserGainEntry(lib, p, i, 1);
    assert p[0][j] == p[j][0] && p[1][j] == p[j][1];
  }

  /**
   * The laser update keeps the covariance symmetric: (I - K H) P is symmetric
   * whenever P is and the library's inverse of S is symmetric.
   */
  lemma LidarUpdateKeepsSymmetry(lib: Library, x: Vector, p: Matrix, z: Vector)
    requires lib.Valid() && |x| == NX && IsMatrix(p, NX, NX) && |z| == NZLaser && Symmetric(p, NX)
    requires Symmetric(lib.inverse(LaserInnovationCovariance(p)), NZLaser)
    ensures Symmetric(LidarUpdate(lib, x, p, z).p, NX)
  {
    var si := lib.inverse(LaserInnovationCovariance(p));
    forall i, j | 0 <= i < NX && 0 <= j < NX
      ensures LidarUpdate(lib, x, p, z).p[i][j] == LidarUpdate(lib, x, p, z).p[j][i]
    {
      LaserCorrectionEntry(lib, p, i, j);
      LaserCorrectionEntry(lib, p, j, i);
      Bilinear2Symmetric(p[i], si, p[j]);
    }
  }
}
