/**
 * UKF::ProcessMeasurement as a function on values: the first measurement seeds
 * the state, every later one runs the time update and then, when the flag of
 * its sensor is set, the matching measurement update, after which the flag
 * of the sensor just used is cleared and the other sensor's flag is set. The
 * member `nis_` is never written.
 */
module Dispatch {
  import opened Linalg
  import opened Numerics
  import opened Parameters
  import opened Unscented
  import opened Updates

  datatype Sensor = Laser | Radar

  /** The other sensor. */
  function Other(s: Sensor): Sensor {
    match s
    case Laser => Radar
    case Radar => Laser
  }

  /** A measurement package: its sensor, its raw values and its timestamp in microseconds. */
  datatype Measurement = Measurement(sensor: Sensor, raw: Vector, timestamp: int) {
    /** A laser package holds two positions, a radar package range, bearing and range rate. */
    predicate WellFormed() {
      match sensor
      case Laser => |raw| == NZLaser
      case Radar => |raw| == NZRadar
    }
  }

  /** The control fields: is_initialized_, use_laser_, use_radar_ and time_us_. */
  datatype Control = Control(initialized: bool, useLaser: bool, useRadar: bool, timeUs: int) {
    /** The flag that lets measurements of sensor s through. */
    predicate Enabled(s: Sensor) {
      match s
      case Laser => useLaser
      case Radar => useRadar
    }
  }

  /** Whether a measurement reaches its update: the filter is running and the sensor's flag is set. */
  predicate UpdateAccepted(c: Control, m: Measurement) {
    c.initialized && c.Enabled(m.sensor)
  }

  /** The control fields after ProcessMeasurement. */
  function NextControl(c: Control, m: Measurement): (n: Control)
    ensures n.initialized && n.timeUs == m.timestamp
  {
    if !c.initialized then c.(initialized := true, timeUs := m.timestamp)
    else if c.Enabled(m.sensor) then Control(true, m.sensor == Radar, m.sensor == Laser, m.timestamp)
    else c.(timeUs := m.timestamp)
  }

  /** delta_t: microseconds between two timestamps, in seconds. */
  function ElapsedSeconds(from: int, to: int): real {
    (to - from) as real / 1000000.0
  }

  /** The state seeded by a first measurement: a position, and zero speed, heading and yaw rate. */
  function InitialState(lib: Library, m: Measurement): (x: Vector)
    requires m.WellFormed()
    ensures |x| == NX && x[2] == 0.0 && x[3] == 0.0 && x[4] == 0.0
    ensures m.sensor == Laser ==> x[0] == m.raw[0] && x[1] == m.raw[1]
    ensures m.sensor == Radar ==> x[0] == m.raw[0] * lib.cos(m.raw[1]) && x[1] == m.raw[0] * lib.sin(m.raw[1])
  {
    match m.sensor
    case Laser => [m.raw[0], m.raw[1], 0.0, 0.0, 0.0]
    case Radar =>
      var rho := m.raw[0];
      var phi := m.raw[1];
      [rho * lib.cos(phi), rho * lib.sin(phi), 0.0, 0.0, 0.0]
  }

  /** Everything ProcessMeasurement reads or writes. */
  datatype FilterState = FilterState(control: Control, x: Vector, p: Matrix, xSigPred: Matrix, nis: real) {
    predicate Shaped() {
      |x| == NX && IsMatrix(p, NX, NX) && IsMatrix(xSigPred, NX, NSigma)
    }
  }

  /** The measurement vector z the update copies out of the package: all of its raw values. */
  function MeasurementVector(m: Measurement): (z: Vector)
    requires m.WellFormed()
    ensures z == m.raw
  {
    match m.sensor
    case Laser => [m.raw[0], m.raw[1]]
    case Radar => [m.raw[0], m.raw[1], m.raw[2]]
  }

  /** The measurement update of the measurement's sensor, applied to a predicted estimate. */
  function SensorUpdate(lib: Library, w: Vector, x: Vector, p: Matrix, xSig: Matrix, m: Measurement): (e: Estimate)
    requires lib.Valid() && |w| == NSigma && |x| == NX && IsMatrix(p, NX, NX) && IsMatrix(xSig, NX, NSigma)
    requires m.WellFormed()
    ensures |e.x| == NX && IsMatrix(e.p, NX, NX)
  {
    match m.sensor
    case Laser => LidarUpdate(lib, x, p, MeasurementVector(m))
    case Radar => RadarUpdate(lib, w, x, p, xSig, MeasurementVector(m))
  }

  /** One call of ProcessMeasurement. */
  function Step(lib: Library, w: Vector, s: FilterState, m: Measurement): (t: FilterState)
    requires lib.Valid() && |w| == NSigma && s.Shaped() && m.WellFormed()
    ensures t.Shaped() && t.control == NextControl(s.control, m) && t.nis == s.nis
    ensures !s.control.initialized ==> t == s.(control := t.control, x := InitialState(lib, m))
  {
    if !s.control.initialized then
      s.(control := NextControl(s.control, m), x := InitialState(lib, m))
    else
      var pr := Predict(lib, w, s.x, s.p, ElapsedSeconds(s.control.timeUs, m.timestamp));
      var e := if UpdateAccepted(s.control, m) then SensorUpdate(lib, w, pr.x, pr.p, pr.xSigPred, m) else Estimate(pr.x, pr.p);
      FilterState(NextControl(s.control, m), e.x, e.p, pr.xSigPred, s.nis)
  }

  /** The control fields after a sequence of measurements. */
  function Run(c: Control, ms: seq<Measurement>): Control
    decreases |ms|
  {
    if ms == [] then c else Run(NextControl(c, ms[0]), ms[1..])
  }

  /** The sensors of the measurements, in order, that reach their update. */
  function AcceptedSensors(c: Control, ms: seq<Measurement>): seq<Sensor>
    decreases |ms|
  {
    if ms == [] then []
    else (if UpdateAccepted(c, ms[0]) then [ms[0].sensor] else []) + AcceptedSensors(NextControl(c, ms[0]), ms[1..])
  }

  // ----- properties -----

  /**
   * A first measurement only seeds the state: no prediction and no update run,
   * the covariance and predicted sigma points keep their values, and the filter
   * records the timestamp and becomes initialized with its flags untouched.
   */
  lemma FirstMeasurementSeeds(lib: Library, w: Vector, s: FilterState, m: Measurement)
    requires lib.Valid() && |w| == NSigma && s.Shaped() && m.WellFormed() && !s.control.initialized
    ensures var t := Step(lib, w, s, m);
      && t.x == InitialState(lib, m) && t.p == s.p && t.xSigPred == s.xSigPred
      && t.control == Control(true, s.control.useLaser, s.control.useRadar, m.timestamp)
  {
  }

  /**
   * Seeding is deterministic: a laser fix at (1, 2) gives [1, 2, 0, 0, 0], and
   * a radar fix at range 5 on bearing 0 gives [5, 0, 0, 0, 0] given cos 0 = 1
   * and sin 0 = 0.
   */
  lemma SeedExamples(lib: Library, t: int)
    requires lib.cos(0.0) == 1.0 && lib.sin(0.0) == 0.0
    ensures InitialState(lib, Measurement(Laser, [1.0, 2.0], t)) == [1.0, 2.0, 0.0, 0.0, 0.0]
    ensures InitialState(lib, Measurement(Radar, [5.0, 0.0, 0.0], t)) == [5.0, 0.0, 0.0, 0.0, 0.0]
  {
  }

  /**
   * Once initialized, every measurement runs the time update over the elapsed
   * time, whatever the flags say, and the update only when its flag is set.
   */
  lemma LaterMeasurementPredicts(lib: Library, w: Vector, s: FilterState, m: Measurement)
    requires lib.Valid() && |w| == NSigma && s.Shaped() && m.WellFormed() && s.control.initialized
    ensures var pr := Predict(lib, w, s.x, s.p, ElapsedSeconds(s.control.timeUs, m.timestamp));
      var t := Step(lib, w, s, m);
      && t.xSigPred == pr.xSigPred
      && (!s.control.Enabled(m.sensor) ==> t.x == pr.x && t.p == pr.p)
      && (s.control.Enabled(m.sensor) && m.sensor == Laser ==>
            Estimate(t.x, t.p) == LidarUpdate(lib, pr.x, pr.p, m.raw))
      && (s.control.Enabled(m.sensor) && m.sensor == Radar ==>
            Estimate(t.x, t.p) == RadarUpdate(lib, w, pr.x, pr.p, pr.xSigPred, m.raw))
  {
  }

  /** No measurement ever writes nis_: it keeps the value the constructor gave it. */
  lemma NisNeverWritten(lib: Library, w: Vector, s: FilterState, m: Measurement)
    requires lib.Valid() && |w| == NSigma && s.Shaped() && m.WellFormed()
    ensures Step(lib, w, s, m).nis == s.nis
  {
  }

  /**
   * An accepted update turns its own sensor's flag off and the other one on;
   * a measurement that does not reach its update leaves both flags as they were.
   * Either way the filter is initialized afterwards and time_us_ holds the
   * measurement's timestamp.
   */
  lemma AcceptedUpdateHandsOver(c: Control, m: Measurement)
    ensures UpdateAccepted(c, m) ==>
      !NextControl(c, m).Enabled(m.sensor) && NextControl(c, m).Enabled(Other(m.sensor))
    ensures !UpdateAccepted(c, m) ==>
      NextControl(c, m).useLaser == c.useLaser && NextControl(c, m).useRadar == c.useRadar
    ensures NextControl(c, m).initialized && NextControl(c, m).timeUs == m.timestamp
  {
  }

  /** After any number of measurements the filter records the last timestamp. */
  lemma {:induction false} RunRecordsLastTimestamp(c: Control, ms: seq<Measurement>)
    requires ms != []
    ensures Run(c, ms).initialized && Run(c, ms).timeUs == ms[|ms| - 1].timestamp
    decreases |ms|
  {
    if |ms| > 1 {
      RunRecordsLastTimestamp(NextControl(c, ms[0]), ms[1..]);
    }
  }

  /** Once exactly one flag is set, every measurement keeps it so. */
  lemma {:induction false} RunKeepsOneFlag(c: Control, ms: seq<Measurement>)
    requires c.useLaser != c.useRadar
    ensures Run(c, ms).useLaser != Run(c, ms).useRadar
    decreases |ms|
  {
    if ms != [] {
      RunKeepsOneFlag(NextControl(c, ms[0]), ms[1..]);
    }
  }

  /**
   * After the first accepted update exactly one flag is set, and it is the
   * flag of the sensor that was not just used.
   */
  lemma {:induction false} OneFlagAfterAcceptedUpdate(c: Control, ms: seq<Measurement>)
    requires AcceptedSensors(c, ms) != []
    ensures Run(c, ms).useLaser != Run(c, ms).useRadar
    ensures var u := AcceptedSensors(c, ms); Run(c, ms).Enabled(Other(u[|u| - 1]))
    decreases |ms|
  {
    var c1 := NextControl(c, ms[0]);
    if AcceptedSensors(c1, ms[1..]) != [] {
      OneFlagAfterAcceptedUpdate(c1, ms[1..]);
    } else {
      assert UpdateAccepted(c, ms[0]);
      RunKeepsOneFlag(c1, ms[1..]);
      NoUpdateKeepsFlags(c1, ms[1..]);
    }
  }

  /** Measurements none of which reaches its update leave both flags alone. */
  lemma {:induction false} NoUpdateKeepsFlags(c: Control, ms: seq<Measurement>)
    requires AcceptedSensors(c, ms) == []
    ensures Run(c, ms).useLaser == c.useLaser && Run(c, ms).useRadar == c.useRadar
    decreases |ms|
  {
    if ms != [] {
      assert !UpdateAccepted(c, ms[0]);
      NoUpdateKeepsFlags(NextControl(c, ms[0]), ms[1..]);
    }
  }

  /**
   * The accepted updates alternate between the sensors: two updates in a row
   * never come from the same sensor, whatever order the measurements arrive in.
   * The first of them is one whose flag was set to begin with.
   */
  lemma {:induction false} AcceptedSensorsAlternate(c: Control, ms: seq<Measurement>)
    ensures var u := AcceptedSensors(c, ms);
      && (u != [] ==> c.Enabled(u[0]))
      && forall i :: 0 <= i < |u| - 1 ==> u[i + 1] == Other(u[i])
    decreases |ms|
  {
    if ms != [] {
      var c1 := NextControl(c, ms[0]);
      AcceptedSensorsAlternate(c1, ms[1..]);
      var rest := AcceptedSensors(c1, ms[1..]);
      if UpdateAccepted(c, ms[0]) {
        var u := [ms[0].sensor] + rest;
        assert AcceptedSensors(c, ms) == u;
        forall i | 0 <= i < |u| - 1
          ensures u[i + 1] == Other(u[i])
        {
          if i == 0 {
            assert c1.Enabled(rest[0]) && !c1.Enabled(ms[0].sensor);
          } else {
            assert u[i] == rest[i - 1] && u[i + 1] == rest[i];
          }
        }
      } else {
        assert AcceptedSensors(c, ms) == rest;
      }
    }
  }
}
