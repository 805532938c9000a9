/**
 * The filter object itself: class UKF with its state vector, covariance,
 * predicted sigma points and weights held in fixed-size arrays, and the loops
 * of its methods, each proved to compute the value-level definition of the
 * same step.
 */
module Ukf {
  import opened Linalg
  import opened Angles
  import opened Numerics
  import opened Parameters
  import opened Unscented
  import opened Updates
  import opened Dispatch

  /** The contents of a two-dimensional array, row by row. */
  function Rows(m: array2<real>): (r: Matrix)
    reads m
    ensures IsMatrix(r, m.Length0, m.Length1)
    ensures forall i, j :: 0 <= i < m.Length0 && 0 <= j < m.Length1 ==> r[i][j] == m[i, j]
  {
    seq(m.Length0, i reads m requires 0 <= i < m.Length0 =>
      seq(m.Length1, j reads m requires 0 <= j < m.Length1 => m[i, j]))
  }

  /** An array whose entries are those of m holds m. */
  lemma RowsOf(a: array2<real>, m: Matrix)
    requires IsMatrix(m, a.Length0, a.Length1)
    requires forall r, c :: 0 <= r < a.Length0 && 0 <= c < a.Length1 ==> a[r, c] == m[r][c]
    ensures Rows(a) == m
  {
    MatrixExt(Rows(a), m, a.Length0, a.Length1);
  }

  /** Overwrites every entry of dst with the matching entry of src. */
  method StoreMatrix(src: Matrix, dst: array2<real>)
    requires IsMatrix(src, dst.Length0, dst.Length1)
    modifies dst
    ensures Rows(dst) == src
  {
    forall i, j | 0 <= i < dst.Length0 && 0 <= j < dst.Length1 {
      dst[i, j] := src[i][j];
    }
    RowsOf(dst, src);
  }

  /** Overwrites every entry of dst with the matching entry of src. */
  method StoreVector(src: Vector, dst: array<real>)
    requires |src| == dst.Length
    modifies dst
    ensures dst[..] == src
  {
    forall i | 0 <= i < dst.Length {
      dst[i] := src[i];
    }
  }

  /**
   * Column i of m minus the mean, with the angle entry brought into [-pi, pi]
   * by the normalisation loops.
   */
  method WrappedResidual(m: Matrix, mean: Vector, angle: nat, i: nat) returns (d: Vector)
    requires |m| == |mean| && forall r :: 0 <= r < |m| ==> i < |m[r]|
    requires angle < |mean|
    ensures d == Residual(m, mean, angle, i)
  {
    d := SubV(Column(m, i), mean);
    var a := NormalizeAngle(d[angle]);
    d := d[angle := a];
  }

  /**
   * out := 0, then out := out + w[i] * m.col(i) for every i: the weighted mean
   * of the columns of m.
   */
  method AccumulateMean(w: Vector, m: Matrix, out: array<real>)
    requires IsMatrix(m, out.Length, |w|)
    modifies out
    ensures out[..] == WeightedMean(w, m, out.Length)
  {
    forall r | 0 <= r < out.Length {
      out[r] := 0.0;
    }
    var i := 0;
    while i < |w|
      invariant 0 <= i <= |w|
      invariant forall r :: 0 <= r < out.Length ==> out[r] == WeightedRowSum(w, m, r, i)
    {
      forall r | 0 <= r < out.Length {
        out[r] := out[r] + w[i] * m[r][i];
      }
      i := i + 1;
    }
  }

  /** out := out + w * a * b^T. */
  method AddWeightedOuter(w: real, a: Vector, b: Vector, out: array2<real>)
    requires out.Length0 == |a| && out.Length1 == |b|
    modifies out
    ensures forall r, c :: 0 <= r < |a| && 0 <= c < |b| ==> out[r, c] == old(out[r, c]) + Contribution(w, a[r], b[c])
  {
    forall r, c | 0 <= r < |a| && 0 <= c < |b| {
      out[r, c] := out[r, c] + Contribution(w, a[r], b[c]);
    }
  }

  /**
   * One step of the accumulation: with da and db the residuals of column i,
   * out goes from the sum of the first i weighted products to the first i + 1.
   */
  method AddOuterTerm(w: Vector, ghost das: seq<Vector>, ghost dbs: seq<Vector>, i: nat,
                      da: Vector, db: Vector, out: array2<real>)
    requires i < |w| && |das| == |w| && |dbs| == |w|
    requires forall k :: 0 <= k < |w| ==> |das[k]| == out.Length0 && |dbs[k]| == out.Length1
    requires da == das[i] && db == dbs[i]
    requires forall r, c :: 0 <= r < out.Length0 && 0 <= c < out.Length1 ==> out[r, c] == OuterSum(w, das, dbs, r, c, i)
    modifies out
    ensures forall r, c :: 0 <= r < out.Length0 && 0 <= c < out.Length1 ==> out[r, c] == OuterSum(w, das, dbs, r, c, i + 1)
  {
    AddWeightedOuter(w[i], da, db, out);
    forall r, c | 0 <= r < out.Length0 && 0 <= c < out.Length1
      ensures out[r, c] == OuterSum(w, das, dbs, r, c, i + 1)
    {
      assert out[r, c] == old(out[r, c]) + Contribution(w[i], da[r], db[c]);
    }
  }

  /**
   * out := 0, then out := out + w[i] * d * d^T for the wrapped residual d of
   * every column i of m: the weighted covariance of the columns about the mean.
   */
  method AccumulateCovariance(w: Vector, m: Matrix, mean: Vector, angle: nat, out: array2<real>)
    requires IsMatrix(m, |mean|, |w|) && angle < |mean|
    requires out.Length0 == |mean| && out.Length1 == |mean|
    modifies out
    ensures var d := Residuals(m, mean, angle, |w|); Rows(out) == Outer(w, d, d, |mean|, |mean|)
  {
    var n := |mean|;
    ghost var ds := Residuals(m, mean, angle, |w|);
    forall r, c | 0 <= r < n && 0 <= c < n {
      out[r, c] := 0.0;
    }
    var i := 0;
    while i < |w|
      invariant 0 <= i <= |w|
      invariant forall r, c :: 0 <= r < n && 0 <= c < n ==> out[r, c] == OuterSum(w, ds, ds, r, c, i)
    {
      var d := WrappedResidual(m, mean, angle, i);
      AddOuterTerm(w, ds, ds, i, d, d, out);
      i := i + 1;
    }
    RowsOf(out, Outer(w, ds, ds, n, n));
  }

  /**
   * out := 0, then out := out + w[i] * da * db^T for the wrapped residuals da
   * of the columns of a and db of the columns of b: the weighted cross
   * covariance of the two families.
   */
  method AccumulateCross(w: Vector, a: Matrix, meanA: Vector, angleA: nat,
                         b: Matrix, meanB: Vector, angleB: nat, out: array2<real>)
    requires IsMatrix(a, |meanA|, |w|) && angleA < |meanA|
    requires IsMatrix(b, |meanB|, |w|) && angleB < |meanB|
    requires out.Length0 == |meanA| && out.Length1 == |meanB|
    modifies out
    ensures Rows(out) == Outer(w, Residuals(a, meanA, angleA, |w|), Residuals(b, meanB, angleB, |w|), |meanA|, |meanB|)
  {
    ghost var das := Residuals(a, meanA, angleA, |w|);
    ghost var dbs := Residuals(b, meanB, angleB, |w|);
    forall r, c | 0 <= r < |meanA| && 0 <= c < |meanB| {
      out[r, c] := 0.0;
    }
    var i := 0;
    while i < |w|
      invariant 0 <= i <= |w|
      invariant forall r, c :: 0 <= r < |meanA| && 0 <= c < |meanB| ==> out[r, c] == OuterSum(w, das, dbs, r, c, i)
    {
      var db := WrappedResidual(b, meanB, angleB, i);
      var da := WrappedResidual(a, meanA, angleA, i);
      AddOuterTerm(w, das, dbs, i, da, db, out);
      i := i + 1;
    }
    RowsOf(out, Outer(w, das, dbs, |meanA|, |meanB|));
  }

  /** out.col(c) := v, leaving the other columns as they were. */
  method SetColumn(out: array2<real>, c: nat, v: Vector)
    requires c < out.Length1 && |v| == out.Length0
    modifies out
    ensures forall r :: 0 <= r < out.Length0 ==> out[r, c] == v[r]
    ensures forall r, k :: 0 <= r < out.Length0 && 0 <= k < out.Length1 && k != c ==> out[r, k] == old(out[r, k])
  {
    forall r | 0 <= r < out.Length0 {
      out[r, c] := v[r];
    }
  }

  /**
   * Xsig_aug: column 0 is x_aug, and for each column i of L the columns i+1
   * and i+1+n_aug are x_aug plus and minus s times that column.
   */
  method GenerateSigmaPoints(xAug: Vector, l: Matrix, s: real) returns (xs: array2<real>)
    requires |xAug| == NAug && IsMatrix(l, NAug, NAug)
    ensures fresh(xs) && Rows(xs) == SigmaPoints(xAug, l, s)
  {
    xs := new real[NAug, NSigma];
    SetColumn(xs, 0, xAug);
    var i := 0;
    while i < NAug
      invariant 0 <= i <= NAug
      invariant forall r, c :: 0 <= r < NAug && 0 <= c < NSigma && (c <= i || NAug + 1 <= c <= NAug + i) ==>
        xs[r, c] == SigmaEntry(xAug, l, s, r, c)
    {
      SetColumn(xs, i + 1, seq(NAug, r requires 0 <= r < NAug => xAug[r] + s * l[r][i]));
      SetColumn(xs, i + 1 + NAug, seq(NAug, r requires 0 <= r < NAug => xAug[r] - s * l[r][i]));
      i := i + 1;
    }
    RowsOf(xs, SigmaPoints(xAug, l, s));
  }

  /** Xsig_pred_: column i is the CTRV transition of column i of Xsig_aug over dt. */
  method PropagateSigmaPoints(lib: Library, xSigAug: Matrix, dt: real, out: array2<real>)
    requires IsMatrix(xSigAug, NAug, NSigma) && out.Length0 == NX && out.Length1 == NSigma
    modifies out
    ensures Rows(out) == PropagatedSigmaPoints(lib, xSigAug, dt)
  {
    var i := 0;
    while i < NSigma
      invariant 0 <= i <= NSigma
      invariant forall r, c :: 0 <= r < NX && 0 <= c < i ==> out[r, c] == Ctrv(lib, Column(xSigAug, c), dt)[r]
    {
      var p := Ctrv(lib, Column(xSigAug, i), dt);
      SetColumn(out, i, p);
      i := i + 1;
    }
    RowsOf(out, PropagatedSigmaPoints(lib, xSigAug, dt));
  }

  /** Zsig: column i is the radar measurement model applied to predicted sigma point i. */
  method TransformSigmaPoints(lib: Library, xSig: Matrix, out: array2<real>)
    requires IsMatrix(xSig, NX, NSigma) && out.Length0 == NZRadar && out.Length1 == NSigma
    modifies out
    ensures Rows(out) == MeasurementSigmaPoints(lib, xSig)
  {
    var i := 0;
    while i < NSigma
      invariant 0 <= i <= NSigma
      invariant forall r, c :: 0 <= r < NZRadar && 0 <= c < i ==> out[r, c] == RadarMeasure(lib, Column(xSig, c))[r]
    {
      var z := RadarMeasure(lib, Column(xSig, i));
      SetColumn(out, i, z);
      i := i + 1;
    }
    RowsOf(out, MeasurementSigmaPoints(lib, xSig));
  }

  /** x and P written at once with the two halves of an estimate. */
  method StoreEstimate(e: Estimate, x: array<real>, P: array2<real>)
    requires |e.x| == x.Length && IsMatrix(e.p, P.Length0, P.Length1)
    modifies x, P
    ensures x[..] == e.x && Rows(P) == e.p
  {
    StoreVector(e.x, x);
    StoreMatrix(e.p, P);
  }

  /** x_aug: x followed by two zeros, filled in place. */
  method AugmentMean(x0: Vector) returns (xAug: Vector)
    requires |x0| == NX
    ensures xAug == AugmentedMean(x0)
  {
    var xa := new real[NAug];
    forall r | 0 <= r < NX {
      xa[r] := x0[r];
    }
    xa[5] := 0.0;
    xa[6] := 0.0;
    xAug := xa[..];
  }

  /** P_aug: zero, then P in the top-left corner and the two process-noise variances, filled in place. */
  method AugmentCovariance(p0: Matrix) returns (pAug: Matrix)
    requires IsMatrix(p0, NX, NX)
    ensures pAug == AugmentedCovariance(p0)
  {
    var pa := new real[NAug, NAug];
    forall r, c | 0 <= r < NAug && 0 <= c < NAug {
      pa[r, c] := 0.0;
    }
    forall r, c | 0 <= r < NX && 0 <= c < NX {
      pa[r, c] := p0[r][c];
    }
    assert forall r, c :: 0 <= r < NAug && 0 <= c < NAug && (r != c || r < NX) ==>
      pa[r, c] == AugmentedCovariance(p0)[r][c];
    pa[5, 5] := StdA * StdA;
    pa[6, 6] := StdYawdd * StdYawdd;
    RowsOf(pa, AugmentedCovariance(p0));
    pAug := Rows(pa);
  }

  /**
   * The second half of the time update, written into Xsig_pred_, x_ and P_:
   * propagate the augmented sigma points, then take their weighted mean and
   * their weighted covariance about it.
   */
  method PredictMoments(lib: Library, w: Vector, xSigAug: Matrix, dt: real,
                        x: array<real>, P: array2<real>, xSigPred: array2<real>)
    requires |w| == NSigma && IsMatrix(xSigAug, NAug, NSigma)
    requires x.Length == NX && P.Length0 == NX && P.Length1 == NX
    requires xSigPred.Length0 == NX && xSigPred.Length1 == NSigma && P != xSigPred
    modifies x, P, xSigPred
    ensures var pr := Moments(lib, w, xSigAug, dt);
      x[..] == pr.x && Rows(P) == pr.p && Rows(xSigPred) == pr.xSigPred
  {
    PropagateSigmaPoints(lib, xSigAug, dt, xSigPred);
    var xs := Rows(xSigPred);
    AccumulateMean(w, xs, x);
    var mean := x[..];
    AccumulateCovariance(w, xs, mean, HeadingRow, P);
  }

  /**
   * The measurement sigma points Zsig, their mean z_pred and the innovation
   * covariance S, each built in a local buffer; R is added to S last.
   */
  method MeasurementMoments(lib: Library, w: Vector, xSig: Matrix) returns (zSig: Matrix, zPred: Vector, s: Matrix)
    requires |w| == NSigma && IsMatrix(xSig, NX, NSigma)
    ensures zSig == MeasurementSigmaPoints(lib, xSig) && zPred == RadarPrediction(lib, w, xSig)
    ensures s == RadarInnovationCovariance(lib, w, xSig)
  {
    var zs := new real[NZRadar, NSigma];
    TransformSigmaPoints(lib, xSig, zs);
    zSig := Rows(zs);
    var zp := new real[NZRadar];
    AccumulateMean(w, zSig, zp);
    zPred := zp[..];
    var sa := new real[NZRadar, NZRadar];
    AccumulateCovariance(w, zSig, zPred, BearingRow, sa);
    s := Add(Rows(sa), RadarR(), NZRadar, NZRadar);
  }

  /**
   * The radar update as UpdateRadar computes it: Tc in a local buffer, the
   * gain, the bearing-wrapped innovation, the new estimate and the NIS.
   */
  method RadarStep(lib: Library, w: Vector, x0: Vector, p0: Matrix, xSig: Matrix, z: Vector)
    returns (e: Estimate, nis: real)
    requires lib.Valid() && |w| == NSigma && |x0| == NX && IsMatrix(p0, NX, NX) && IsMatrix(xSig, NX, NSigma)
    requires |z| == NZRadar
    ensures e == RadarUpdate(lib, w, x0, p0, xSig, z) && nis == RadarNis(lib, w, xSig, z)
  {
    var zSig, zPred, s := MeasurementMoments(lib, w, xSig);
    var tcs := new real[NX, NZRadar];
    AccumulateCross(w, xSig, x0, HeadingRow, zSig, zPred, BearingRow, tcs);
    var tc := Rows(tcs);
    var si := lib.inverse(s);
    var k := Mul(tc, si, NX, NZRadar, NZRadar);
    var zDiff := SubV(z, zPred);
    var bearing := NormalizeAngle(zDiff[BearingRow]);
    zDiff := zDiff[BearingRow := bearing];
    e := Estimate(AddV(x0, Apply(k, zDiff, NX, NZRadar)),
                  Sub(p0, Mul(Mul(k, s, NX, NZRadar, NZRadar), Transpose(k, NX, NZRadar), NX, NZRadar, NX), NX, NX));
    nis := Nis(zDiff, si, NZRadar);
  }

  /** The laser update written into x_ and P_; its NIS is computed and dropped. */
  method ApplyLidarUpdate(lib: Library, z: Vector, x: array<real>, P: array2<real>)
    requires lib.Valid() && |z| == NZLaser
    requires x.Length == NX && P.Length0 == NX && P.Length1 == NX
    modifies x, P
    ensures Estimate(x[..], Rows(P)) == LidarUpdate(lib, old(x[..]), old(Rows(P)), z)
  {
    var e := LidarUpdate(lib, x[..], Rows(P), z);
    var nisLaser := LidarNis(lib, x[..], Rows(P), z);
    StoreEstimate(e, x, P);
  }

  /** The radar update written into x_ and P_; its NIS is computed and dropped. */
  method ApplyRadarUpdate(lib: Library, w: Vector, xSig: Matrix, z: Vector, x: array<real>, P: array2<real>)
    requires lib.Valid() && |w| == NSigma && IsMatrix(xSig, NX, NSigma) && |z| == NZRadar
    requires x.Length == NX && P.Length0 == NX && P.Length1 == NX
    modifies x, P
    ensures Estimate(x[..], Rows(P)) == RadarUpdate(lib, w, old(x[..]), old(Rows(P)), xSig, z)
  {
    var e, nisRadar := RadarStep(lib, w, x[..], Rows(P), xSig, z);
    StoreEstimate(e, x, P);
  }

  /** The weights of the sigma points, in a new buffer. */
  method InitialWeights() returns (ws: array<real>)
    ensures fresh(ws) && ws.Length == NSigma && forall i :: 0 <= i < NSigma ==> ws[i] == Weight(i)
  {
    ws := new real[NSigma];
    ws[0] := Lambda as real / (Lambda + NAug) as real;
    for i := 1 to NSigma
      invariant ws[0] == Weight(0)
      invariant forall k :: 1 <= k < i ==> ws[k] == Weight(k)
    {
      ws[i] := 0.5 / (NAug + Lambda) as real;
    }
  }

  /** The initial covariance, in a new buffer: the identity with three diagonal entries overwritten. */
  method InitialCovarianceBuffer() returns (p: array2<real>)
    ensures fresh(p) && p.Length0 == NX && p.Length1 == NX && Rows(p) == InitialCovariance()
  {
    p := new real[NX, NX];
    forall r, c | 0 <= r < NX && 0 <= c < NX {
      p[r, c] := if r == c then 1.0 else 0.0;
    }
    p[0, 0] := StdLasPx * StdLasPx;
    p[1, 1] := StdLasPy * StdLasPy;
    p[2, 2] := 1000.0;
    ghost var init := InitialCovariance();
    forall r, c | 0 <= r < NX && 0 <= c < NX
      ensures p[r, c] == init[r][c]
    {
      if r != c || 2 < r {
        assert p[r, c] == if r == c then 1.0 else 0.0;
      }
    }
    RowsOf(p, init);
  }

  /** The unscented Kalman filter for a CTRV motion model, fed by laser and radar. */
  class UKF {
    /** The math and linear-algebra routines the filter calls. */
    const lib: Library
    var isInitialized: bool
    var useLaser: bool
    var useRadar: bool
    /** Timestamp of the last measurement, in microseconds. */
    var timeUs: int
    var nis: real
    /** State [px, py, v, yaw, yaw_rate], its covariance, the predicted sigma points and their weights. */
    const x: array<real>
    const P: array2<real>
    const xSigPred: array2<real>
    const weights: array<real>

    ghost predicate Valid()
      reads weights
    {
      && lib.Valid()
      && x.Length == NX && P.Length0 == NX && P.Length1 == NX
      && xSigPred.Length0 == NX && xSigPred.Length1 == NSigma
      && weights.Length == NSigma && (forall i :: 0 <= i < NSigma ==> weights[i] == Weight(i))
      && x != weights && P != xSigPred
    }

    /** The initialization flag, the sensor flags and the last timestamp, as a value. */
    ghost function Flags(): Control
      reads this
    {
      Control(isInitialized, useLaser, useRadar, timeUs)
    }

    /** The fields ProcessMeasurement reads and writes, as a value. */
    ghost function State(): FilterState
      reads this, x, P, xSigPred
    {
      FilterState(Flags(), x[..], Rows(P), Rows(xSigPred), nis)
    }

    /**
     * Both sensors enabled, not yet initialized, NIS zero, the weights of the
     * sigma points and the initial covariance; time_us_ is left unset.
     */
    constructor (lib: Library)
      requires lib.Valid()
      ensures Valid() && this.lib == lib
      ensures fresh(x) && fresh(P) && fresh(xSigPred) && fresh(weights)
      ensures !isInitialized && useLaser && useRadar && nis == 0.0
      ensures Rows(P) == InitialCovariance()
    {
      this.lib := lib;
      useLaser := true;
      useRadar := true;
      x := new real[NX];
      var p := InitialCovarianceBuffer();
      P := p;
      nis := 0.0;
      xSigPred := new real[NX, NSigma];
      var ws := InitialWeights();
      weights := ws;
      isInitialized := false;
    }

    /** The weights as a sequence: exactly Weights(). */
    method WeightVector() returns (w: Vector)
      requires Valid()
      ensures w == Weights()
    {
      w := weights[..];
    }

    /**
     * The first measurement seeds the state; every later one runs the time
     * update and, if its sensor's flag is set, the measurement update, after
     * which that sensor's flag is cleared and the other sensor's flag is set.
     */
    method ProcessMeasurement(m: Measurement)
      requires Valid() && m.WellFormed()
      modifies this, x, P, xSigPred
      ensures Valid()
      ensures State() == Step(lib, Weights(), old(State()), m)
    {
      if !isInitialized {
        Seed(m);
      } else {
        Advance(m);
      }
    }

    /** The first measurement: x_ from the laser position or the radar polar coordinates. */
    method Seed(m: Measurement)
      requires Valid() && m.WellFormed() && !isInitialized
      modifies this, x
      ensures Valid()
      ensures State() == Step(lib, Weights(), old(State()), m)
    {
      ghost var s0 := State();
      ghost var seeded := InitialState(lib, m);
      match m.sensor {
        case Laser =>
          StoreVector([m.raw[0], m.raw[1], 0.0, 0.0, 0.0], x);
          assert x[..] == seeded;
        case Radar =>
          var rho := m.raw[0];
          var phi := m.raw[1];
          var v := [rho * lib.cos(phi), rho * lib.sin(phi), 0.0, 0.0, 0.0];
          assert v[0] == seeded[0] && v[1] == seeded[1];
          StoreVector(v, x);
      }
      assert Rows(P) == s0.p && Rows(xSigPred) == s0.xSigPred;
      timeUs := m.timestamp;
      isInitialized := true;
    }

    /** A later measurement: the time update, then the update its sensor's flag allows. */
    method Advance(m: Measurement)
      requires Valid() && m.WellFormed() && isInitialized
      modifies this, x, P, xSigPred
      ensures Valid()
      ensures State() == Step(lib, Weights(), old(State()), m)
    {
      ghost var s0 := State();
      var dt := ElapsedSeconds(timeUs, m.timestamp);
      Prediction(dt);
      Correct(m);
      LaterMeasurementPredicts(lib, Weights(), s0, m);
    }

    /**
     * The measurement update of the measurement's sensor if its flag is set,
     * after which that sensor's flag is cleared and the other sensor's flag is
     * set; then the new timestamp.
     */
    method Correct(m: Measurement)
      requires Valid() && m.WellFormed() && isInitialized
      modifies this, x, P
      ensures Valid() && Flags() == NextControl(old(Flags()), m) && nis == old(nis)
      ensures UpdateAccepted(old(Flags()), m) ==>
        Estimate(x[..], Rows(P)) == SensorUpdate(lib, Weights(), old(x[..]), old(Rows(P)), old(Rows(xSigPred)), m)
      ensures !UpdateAccepted(old(Flags()), m) ==> x[..] == old(x[..]) && Rows(P) == old(Rows(P))
    {
      var laser, radar := useLaser, useRadar;
      match m.sensor {
        case Laser =>
          if useLaser {
            UpdateLidar(m);
            laser, radar := false, true;
          }
        case Radar =>
          if useRadar {
            UpdateRadar(m);
            laser, radar := true, false;
          }
      }
      useLaser, useRadar, timeUs := laser, radar, m.timestamp;
    }

    /** The time update over dt seconds. */
    method Prediction(dt: real)
      requires Valid()
      modifies x, P, xSigPred
      ensures var pr := Predict(lib, Weights(), old(x[..]), old(Rows(P)), dt);
        x[..] == pr.x && Rows(P) == pr.p && Rows(xSigPred) == pr.xSigPred
    {
      var w := WeightVector();
      var xAug := AugmentMean(x[..]);
      var pAug := AugmentCovariance(Rows(P));
      var l := lib.choleskyL(pAug);
      var xSigAug := GenerateSigmaPoints(xAug, l, lib.sqrt((Lambda + NAug) as real));
      PredictMoments(lib, w, Rows(xSigAug), dt, x, P, xSigPred);
    }

    /**
     * The laser update of x_ and P_. The NIS it computes goes to a local that
     * shadows the member nis_, which keeps its value.
     */
    method UpdateLidar(m: Measurement)
      requires Valid() && |m.raw| == NZLaser
      modifies x, P
      ensures Estimate(x[..], Rows(P)) == LidarUpdate(lib, old(x[..]), old(Rows(P)), m.raw)
    {
      var z := [m.raw[0], m.raw[1]];
      assert z == m.raw;
      ApplyLidarUpdate(lib, z, x, P);
    }

    /**
     * The radar update of x_ and P_ from the predicted sigma points. The NIS it
     * computes goes to a local that shadows the member nis_, which keeps its value.
     */
    method UpdateRadar(m: Measurement)
      requires Valid() && |m.raw| == NZRadar
      modifies x, P
      ensures Estimate(x[..], Rows(P)) == RadarUpdate(lib, Weights(), old(x[..]), old(Rows(P)), old(Rows(xSigPred)), m.raw)
    {
      var w := weights[..];
      assert w == Weights();
      ApplyRadarUpdate(lib, w, Rows(xSigPred), m.raw, x, P);
    }
  }
}
