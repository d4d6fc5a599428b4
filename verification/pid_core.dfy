/** What one update of the PID gives (components/climate_hub/pid_core.cpp), over real numbers and with the
    time passed as an argument: how its three terms come about. */
module PidCores {
  import opened Options
  import opened SampleWindows

  datatype Tuning = Tuning(
    kp: real, ki: real, kd: real, minIntegral: Option<real>, maxIntegral: Option<real>,
    outputSamples: nat, derivativeSamples: nat,
    low: real, high: real, kpMultiplier: real, kiMultiplier: real, kdMultiplier: real, deadbandSamples: nat)

  datatype Pid = Pid(
    error: real, proportional: real, integral: real, derivative: real,
    previousError: real, previousSetpoint: Option<real>, accumulated: real,
    derivativeWindow: seq<real>, outputWindow: seq<real>)

  const NEW_TUNING :=
    Tuning(0.0, 0.0, 0.0, Some(-1.0), Some(1.0), 1, 8, 0.0, 0.0, 0.0, 0.0, 0.0, 1)

  predicate InDeadband(t: Tuning, error: real) {
    t.low < -error < t.high
  }

  /** The error as the proportional term sees it: scaled inside the deadband, offset outside it. */
  function Shaped(t: Tuning, error: real): real {
    if InDeadband(t, error) then error * t.kpMultiplier
    else
      var threshold := if error < 0.0 then t.high else t.low;
      error + (threshold - t.kpMultiplier * threshold)
  }

  function Proportional(t: Tuning, error: real): real {
    if InDeadband(t, error) then t.kp * error * t.kpMultiplier
    else
      var threshold := if error < 0.0 then t.high else t.low;
      t.kp * error + (threshold - t.kpMultiplier * threshold) * t.kp
  }

  function Clamped(t: Tuning, x: real): real {
    var raised := if t.minIntegral.Some? && x < t.minIntegral.value then t.minIntegral.value else x;
    if t.maxIntegral.Some? && raised > t.maxIntegral.value then t.maxIntegral.value else raised
  }

  function Integrated(t: Tuning, accumulated: real, error: real, dt: real): real {
    var more := error * dt * t.ki;
    Clamped(t, accumulated + if InDeadband(t, error) then more * t.kiMultiplier else more)
  }

  /** The previous error as if the setpoint had been then what it is now. */
  function Rebased(s: Pid, setpoint: real): real {
    if s.previousSetpoint.Some? && s.previousSetpoint.value != setpoint
    then s.previousError - (s.previousSetpoint.value - setpoint)
    else s.previousError
  }

  function Slope(s: Pid, setpoint: real, value: real, dt: real): real {
    if dt != 0.0 then ((setpoint - value) - Rebased(s, setpoint)) / dt else 0.0
  }

  function Average(window: seq<real>, value: real, samples: nat): real {
    if samples <= 1 then value else Mean(Pushed(window, value, samples))
  }

  function Updated(t: Tuning, s: Pid, setpoint: real, value: real, dt: real): (Pid, real) {
    var error := setpoint - value;
    var proportional := Proportional(t, error);
    var accumulated := Integrated(t, s.accumulated, error, dt);
    var slope := Slope(s, setpoint, value, dt);
    var smooth := Average(s.derivativeWindow, slope, t.derivativeSamples);
    var derivative := if InDeadband(t, error) then t.kd * smooth * t.kdMultiplier else t.kd * smooth;
    var output := proportional + accumulated + derivative;
    var samples := if InDeadband(t, error) then t.deadbandSamples else t.outputSamples;
    (Pid(error, proportional, accumulated, derivative, error, Some(setpoint), accumulated,
         Pushed(s.derivativeWindow, slope, t.derivativeSamples), Pushed(s.outputWindow, output, samples)),
     Average(s.outputWindow, output, samples))
  }

  /** Averages start over. */
  function Forgotten(s: Pid): Pid {
    s.(previousSetpoint := None, derivativeWindow := [], outputWindow := [])
  }

  const UNLEARNT := Pid(0.0, 0.0, 0.0, 0.0, 0.0, None, 0.0, [], [])

  function Limited(t: Tuning, s: Pid): Pid {
    s.(accumulated := Clamped(t, s.accumulated), integral := Clamped(t, s.accumulated))
  }

  // --- The integral ---

  /** Whatever the errors and the pauses, the integral stays inside its limits. */
  lemma IntegralStaysInside(t: Tuning, s: Pid, setpoint: real, value: real, dt: real)
    requires t.minIntegral.Some? && t.maxIntegral.Some? ==> t.minIntegral.value <= t.maxIntegral.value
    ensures var i := Updated(t, s, setpoint, value, dt).0.accumulated;
            && (t.minIntegral.Some? ==> i >= t.minIntegral.value)
            && (t.maxIntegral.Some? ==> i <= t.maxIntegral.value)
  {
    hide Average, Pushed, Proportional, Slope;
  }

  /** New limits hold at once, for what is shown as for what goes on. */
  lemma LimitsHoldAtOnce(t: Tuning, s: Pid)
    requires t.minIntegral.Some? && t.maxIntegral.Some? ==> t.minIntegral.value <= t.maxIntegral.value
    ensures var r := Limited(t, s);
            && r.integral == r.accumulated && Reaches(t, r.accumulated)
            && (Reaches(t, s.accumulated) ==> r.accumulated == s.accumulated)
  {}

  datatype Reading = Reading(setpoint: real, value: real, dt: real)

  function UpdatedAll(t: Tuning, s: Pid, readings: seq<Reading>): Pid {
    if readings == [] then s
    else
      var r := readings[|readings| - 1];
      Updated(t, UpdatedAll(t, s, readings[..|readings| - 1]), r.setpoint, r.value, r.dt).0
  }

  /** A stretch of the area between target and reading, scaled inside the deadband. */
  function Stretch(t: Tuning, r: Reading): real {
    var stretch := (r.setpoint - r.value) * r.dt;
    if t.low < r.value - r.setpoint < t.high then t.kiMultiplier * stretch else stretch
  }

  function Area(t: Tuning, readings: seq<Reading>): real {
    if readings == [] then 0.0
    else Area(t, readings[..|readings| - 1]) + Stretch(t, readings[|readings| - 1])
  }

  predicate Reaches(t: Tuning, x: real) {
    (t.minIntegral.Some? ==> t.minIntegral.value <= x) && (t.maxIntegral.Some? ==> x <= t.maxIntegral.value)
  }

  lemma StretchAdds(t: Tuning, s: Pid, r: Reading)
    requires Reaches(t, s.accumulated + Product(t.ki, Stretch(t, r)))
    ensures Updated(t, s, r.setpoint, r.value, r.dt).0.accumulated == s.accumulated + Product(t.ki, Stretch(t, r))
  {
    hide Average, Pushed, Proportional, Slope;
    var error := r.setpoint - r.value;
    var stretch := error * r.dt;
    assert stretch * t.ki == t.ki * stretch;
    if InDeadband(t, error) {
      assert stretch * t.ki * t.kiMultiplier == t.ki * (t.kiMultiplier * stretch);
    }
  }

  lemma Distributes(k: real, x: real, y: real)
    ensures Product(k, x + y) == Product(k, x) + Product(k, y)
  {}

  /** Over a run that stays inside the limits the integral grows by its gain times the area between target
      and reading: up below the target, down above it. */
  lemma {:induction false} IntegralIsArea(t: Tuning, s: Pid, readings: seq<Reading>)
    requires forall n :: 0 <= n <= |readings| ==> Reaches(t, s.accumulated + Product(t.ki, Area(t, readings[..n])))
    ensures UpdatedAll(t, s, readings).accumulated == s.accumulated + Product(t.ki, Area(t, readings))
    decreases |readings|
  {
    hide Reaches, Updated, Stretch;
    if readings != [] {
      var n := |readings| - 1;
      var before := readings[..n];
      forall k | 0 <= k <= n ensures Reaches(t, s.accumulated + Product(t.ki, Area(t, before[..k]))) {
        assert before[..k] == readings[..k];
      }
      IntegralIsArea(t, s, before);
      Distributes(t.ki, Area(t, before), Stretch(t, readings[n]));
      hide Product;
      assert readings[..n + 1] == readings;
      StretchAdds(t, UpdatedAll(t, s, before), readings[n]);
    }
  }

  // --- The derivative ---

  /** The last update saw `value`. */
  predicate Saw(s: Pid, value: real) {
    s.previousSetpoint.Some? && s.previousError == s.previousSetpoint.value - value
  }

  lemma UpdatedSaw(t: Tuning, s: Pid, setpoint: real, value: real, dt: real)
    ensures Saw(Updated(t, s, setpoint, value, dt).0, value)
  {
    hide Average, Pushed, Proportional, Slope, Integrated;
  }

  /** A setpoint that moves gives no kick: from one update to the next the slope is that of the reading
      alone, wherever the setpoint was and is. */
  lemma NoSetpointKick(t: Tuning, s: Pid, first: real, value: real, dt: real, second: real, next: real, pause: real)
    ensures Slope(Updated(t, s, first, value, dt).0, second, next, pause)
         == if pause != 0.0 then (value - next) / pause else 0.0
  {
    var after := Updated(t, s, first, value, dt).0;
    UpdatedSaw(t, s, first, value, dt);
    hide Updated;
    assert Rebased(after, second) == second - value;
  }

  /** The gain on the slope, and over how many updates the effort is averaged, on either side of the deadband's
      edges. */
  function SlopeGain(t: Tuning, error: real): real {
    if t.low < -error < t.high then Product(t.kdMultiplier, t.kd) else t.kd
  }

  function SamplesAt(t: Tuning, error: real): nat {
    if t.low < -error < t.high then t.deadbandSamples else t.outputSamples
  }

  /** Without averages the effort is the sum of its terms, and the derivative brakes: it works against a
      reading that moves, whatever the setpoint does. */
  lemma DerivativeBrakes(
    t: Tuning, s: Pid, first: real, value: real, dt: real, second: real, next: real, pause: real)
    requires SlopeGain(t, second - next) > 0.0 && pause > 0.0
    requires t.derivativeSamples <= 1 && SamplesAt(t, second - next) <= 1
    ensures var (after, effort) := Updated(t, Updated(t, s, first, value, dt).0, second, next, pause);
            && effort == after.proportional + after.integral + after.derivative
            && after.derivative == Product(SlopeGain(t, second - next), (value - next) / pause)
            && (after.derivative < 0.0 <==> next > value) && (after.derivative > 0.0 <==> next < value)
  {
    hide Average, Proportional, Integrated, SlopeGain;
    NoSetpointKick(t, s, first, value, dt, second, next, pause);
    Unaveraged(t, Updated(t, s, first, value, dt).0, second, next, pause);
    hide Updated;
    Quotient(SlopeGain(t, second - next), value - next, pause);
  }

  lemma Unaveraged(t: Tuning, s: Pid, setpoint: real, value: real, dt: real)
    requires t.derivativeSamples <= 1 && SamplesAt(t, setpoint - value) <= 1
    ensures var (after, effort) := Updated(t, s, setpoint, value, dt);
            && effort == after.proportional + after.integral + after.derivative
            && after.derivative == Product(SlopeGain(t, setpoint - value), Slope(s, setpoint, value, dt))
  {
    hide Proportional, Integrated, Slope, Pushed;
    Scales(t.kd, Slope(s, setpoint, value, dt), t.kdMultiplier);
  }

  lemma Scales(k: real, x: real, m: real)
    ensures k * x * m == Product(Product(m, k), x)
  {
    assert k * x * m == m * k * x;
  }

  lemma Quotient(k: real, x: real, y: real)
    requires k > 0.0 && y > 0.0
    ensures (Product(k, x / y) > 0.0 <==> x > 0.0) && (Product(k, x / y) < 0.0 <==> x < 0.0)
  {
    var q := x / y;
    assert q * y == x;
    if q > 0.0 {
      Positive(q, y);
      Positive(k, q);
    } else if q < 0.0 {
      Positive(-q, y);
      Positive(k, -q);
      Negated(k, q);
      assert -q * y == -x;
    }
  }

  // --- The proportional term across the deadband ---

  function Product(m: real, x: real): real {
    m * x
  }

  /** A tuning in the ranges the parameters are held to. */
  predicate InRange(t: Tuning) {
    t.low <= 0.0 <= t.high && 0.0 <= t.kpMultiplier <= 1.0 && t.kp >= 0.0
  }

  lemma ProportionalIsShaped(t: Tuning, error: real)
    ensures Proportional(t, error) == t.kp * Shaped(t, error)
  {
    var m := t.kpMultiplier;
    if InDeadband(t, error) {
      assert t.kp * error * m == t.kp * (error * m);
    } else {
      var threshold := if error < 0.0 then t.high else t.low;
      var offset := threshold - m * threshold;
      assert t.kp * error + offset * t.kp == t.kp * (error + offset);
    }
  }

  /** From one error to the next the term neither jumps nor turns back: it grows with the error, and no
      faster than the gain. */
  predicate Grows(t: Tuning, a: real, b: real) {
    0.0 <= Proportional(t, b) - Proportional(t, a) <= Product(t.kp, b - a)
  }

  ghost predicate Smooth(t: Tuning) {
    forall a, b :: a <= b ==> Grows(t, a, b)
  }

  /** What a deadband from below leaves out, by a target only undershot. */
  predicate OneSided(t: Tuning) {
    t.low < 0.0 && t.high == 0.0 && t.kpMultiplier < 1.0
  }

  lemma Positive(x: real, y: real)
    requires x > 0.0 && y > 0.0
    ensures x * y > 0.0
  {}

  lemma Share(m: real, d: real)
    requires 0.0 <= m <= 1.0 && d >= 0.0
    ensures 0.0 <= m * d <= d
  {
    if m == 0.0 || d == 0.0 {
      assert m * d == 0.0;
    } else {
      Positive(m, d);
      if m < 1.0 {
        Positive(1.0 - m, d);
        assert (1.0 - m) * d == d - m * d;
      }
    }
  }

  lemma Scaled(m: real, a: real, b: real)
    requires 0.0 <= m <= 1.0 && a <= b
    ensures 0.0 <= Product(m, b) - Product(m, a) <= b - a
  {
    var d := b - a;
    Share(m, d);
    var x, y, p := m * b, m * a, m * d;
    assert m * b == m * (a + d);
    assert p == x - y;
    assert 0.0 <= x - y <= b - a;
  }

  lemma Negated(m: real, x: real)
    ensures Product(m, -x) == -Product(m, x)
  {}

  /** Outside the deadband, from its lower edge on. */
  lemma Above(t: Tuning, error: real)
    requires error >= 0.0 && !InDeadband(t, error)
    ensures Shaped(t, error) == error + t.low - Product(t.kpMultiplier, t.low)
  {}

  lemma Below(t: Tuning, error: real)
    requires error < 0.0 && !InDeadband(t, error)
    ensures Shaped(t, error) == error + t.high - Product(t.kpMultiplier, t.high)
  {}

  lemma Within(t: Tuning, error: real)
    requires InDeadband(t, error)
    ensures Shaped(t, error) == Product(t.kpMultiplier, error) && -t.high < error < -t.low
  {
    assert error * t.kpMultiplier == t.kpMultiplier * error;
  }

  lemma Unscaled(t: Tuning, error: real)
    requires t.kpMultiplier == 1.0
    ensures Shaped(t, error) == error
  {}

  /** An error outside lies past one of the edges, but on target beside a deadband from below. */
  lemma OutsideIsPast(t: Tuning, error: real)
    requires InRange(t) && !OneSided(t) && t.kpMultiplier < 1.0 && !InDeadband(t, error)
    ensures if error >= 0.0 then error >= -t.low else error <= -t.high
  {}

  lemma ShapeIsSmooth(t: Tuning, a: real, b: real)
    requires InRange(t) && !OneSided(t) && a <= b
    ensures 0.0 <= Shaped(t, b) - Shaped(t, a) <= b - a
  {
    if t.kpMultiplier == 1.0 {
      Unscaled(t, a);
      Unscaled(t, b);
      hide Shaped;
    } else {
      PlaceOf(t, a);
      PlaceOf(t, b);
      hide Shaped, InDeadband, Placed;
      StepBetween(t, a, b);
    }
  }

  /** Where an error lies and what it is shaped to. */
  predicate Placed(t: Tuning, e: real) {
    || (Shaped(t, e) == Product(t.kpMultiplier, e) && -t.high < e < -t.low)
    || (Shaped(t, e) == e + t.low - Product(t.kpMultiplier, t.low) && e >= -t.low && e >= 0.0)
    || (Shaped(t, e) == e + t.high - Product(t.kpMultiplier, t.high) && e <= -t.high && e < 0.0)
  }

  lemma PlaceOf(t: Tuning, e: real)
    requires InRange(t) && !OneSided(t) && t.kpMultiplier < 1.0
    ensures Placed(t, e)
  {
    hide Product;
    if InDeadband(t, e) {
      Within(t, e);
    } else {
      OutsideIsPast(t, e);
      if e >= 0.0 {
        Above(t, e);
      } else {
        Below(t, e);
      }
    }
    hide Shaped;
  }

  lemma StepBetween(t: Tuning, a: real, b: real)
    requires InRange(t) && a <= b && Placed(t, a) && Placed(t, b)
    ensures 0.0 <= Shaped(t, b) - Shaped(t, a) <= b - a
  {
    hide Shaped, Product;
    var m, low, high := t.kpMultiplier, t.low, t.high;
    Negated(m, low);
    Negated(m, high);
    Scaled(m, a, b);
    Scaled(m, -high, -low);
    if a <= -low {
      Scaled(m, a, -low);
    }
    if -high <= b {
      Scaled(m, -high, b);
    }
  }

  /** Between two errors the term grows with the error and no faster than the gain, unless the deadband
      reaches only below the target. */
  lemma StepIsSmooth(t: Tuning, a: real, b: real)
    requires InRange(t) && (t.kp == 0.0 || !OneSided(t)) && a <= b
    ensures Grows(t, a, b)
  {
    hide Proportional, Shaped;
    ProportionalIsShaped(t, a);
    ProportionalIsShaped(t, b);
    if t.kp > 0.0 {
      ShapeIsSmooth(t, a, b);
    }
    AmplifiedBy(t.kp, Shaped(t, a), Shaped(t, b), b - a);
  }

  lemma AmplifiedBy(k: real, x: real, y: real, most: real)
    requires k == 0.0 || (k > 0.0 && 0.0 <= y - x <= most)
    ensures 0.0 <= k * y - k * x <= Product(k, most)
  {
    if k == 0.0 {
      assert k * y == k * x == k * most == 0.0;
    } else {
      Amplified(k, x, y, 0.0, most);
    }
  }

  lemma Amplified(k: real, x: real, y: real, least: real, most: real)
    requires k >= 0.0 && least <= y - x <= most
    ensures k * least <= k * y - k * x <= k * most
  {
    assert k * (y - x - least) >= 0.0 && k * (most - (y - x)) >= 0.0;
    assert k * (y - x - least) == k * y - k * x - k * least;
    assert k * (most - (y - x)) == k * most - (k * y - k * x);
  }

  /** The step a deadband from below puts on target, before the gain. */
  function Step(t: Tuning): real {
    (1.0 - t.kpMultiplier) * -t.low
  }

  lemma StepIsPositive(t: Tuning)
    requires InRange(t) && OneSided(t)
    ensures Step(t) > 0.0
  {
    Positive(1.0 - t.kpMultiplier, -t.low);
  }

  lemma ShapeJumps(t: Tuning, error: real)
    requires InRange(t) && OneSided(t) && 0.0 < error < -t.low
    ensures Shaped(t, error) - Shaped(t, 0.0) >= Step(t) > 0.0
  {
    var m := t.kpMultiplier;
    Above(t, 0.0);
    Within(t, error);
    StepIsPositive(t);
    Share(m, error);
    assert Step(t) == -t.low + m * t.low;
  }

  /** With a deadband from below, on target the term takes the lower edge's offset: any error above
      it, however small, stands a whole step higher. */
  lemma OneSidedJumps(t: Tuning, error: real)
    requires InRange(t) && OneSided(t) && 0.0 < error < -t.low
    ensures Proportional(t, error) - Proportional(t, 0.0) >= t.kp * Step(t)
    ensures t.kp > 0.0 ==> t.kp * Step(t) > 0.0
  {
    ProportionalIsShaped(t, error);
    ProportionalIsShaped(t, 0.0);
    ShapeJumps(t, error);
    var x, y := Shaped(t, 0.0), Shaped(t, error);
    Amplified(t.kp, x, y, Step(t), y - x);
    if t.kp > 0.0 {
      Positive(t.kp, Step(t));
    }
    hide Proportional, Shaped, Step;
  }

  lemma SteepNear(t: Tuning) returns (close: real)
    requires InRange(t) && OneSided(t) && t.kp > 0.0
    ensures close > 0.0 && !Grows(t, 0.0, close)
  {
    hide Proportional, Step;
    StepIsPositive(t);
    close := (if -t.low < Step(t) then -t.low else Step(t)) / 2.0;
    OneSidedJumps(t, close);
    Scaling(t.kp, close, Step(t));
    assert close == close - 0.0;
    hide Product;
  }

  lemma Scaling(k: real, x: real, y: real)
    requires k > 0.0 && x < y
    ensures Product(k, x) < k * y
  {
    Positive(k, y - x);
    assert k * (y - x) == k * y - k * x;
  }

  /** The term is smooth unless it acts at all and its deadband reaches only below the target. */
  lemma DeadbandIsSmooth(t: Tuning)
    requires InRange(t)
    ensures Smooth(t) <==> t.kp == 0.0 || !OneSided(t)
  {
    hide Grows;
    if t.kp == 0.0 || !OneSided(t) {
      forall a, b | a <= b ensures Grows(t, a, b) {
        StepIsSmooth(t, a, b);
      }
    } else {
      var close := SteepNear(t);
    }
  }

  // --- The law, in place ---

  class PidCore {
    var tuning: Tuning
    var error: real
    var proportional: real
    var integral: real
    var derivative: real
    var previousError: real
    var previousSetpoint: real
    var hasPreviousSetpoint: bool
    var accumulated: real
    const derivativeWindow: SampleWindow
    const outputWindow: SampleWindow

    ghost predicate Valid()
      reads this, derivativeWindow, outputWindow
    {
      derivativeWindow != outputWindow && derivativeWindow.Valid() && outputWindow.Valid()
    }

    function View(): Pid
      requires Valid()
      reads this, derivativeWindow, outputWindow
    {
      Pid(error, proportional, integral, derivative, previousError,
          if hasPreviousSetpoint then Some(previousSetpoint) else None, accumulated,
          derivativeWindow.Contents(), outputWindow.Contents())
    }

    constructor ()
      ensures Valid() && tuning == NEW_TUNING
      ensures View() == UNLEARNT
      ensures fresh(derivativeWindow) && fresh(outputWindow)
    {
      tuning := NEW_TUNING;
      error, proportional, integral, derivative := 0.0, 0.0, 0.0, 0.0;
      previousError, previousSetpoint, hasPreviousSetpoint, accumulated := 0.0, 0.0, false, 0.0;
      derivativeWindow := new SampleWindow();
      outputWindow := new SampleWindow();
    }

    method SetGains(kp: real, ki: real, kd: real)
      modifies this`tuning
      ensures tuning == old(tuning).(kp := kp, ki := ki, kd := kd)
    {
      tuning := tuning.(kp := kp, ki := ki, kd := kd);
    }

    method SetSamples(output: nat, derivative: nat)
      modifies this`tuning
      ensures tuning == old(tuning).(outputSamples := output, derivativeSamples := derivative)
    {
      tuning := tuning.(outputSamples := output, derivativeSamples := derivative);
    }

    method SetDeadband(low: real, high: real, kpMultiplier: real, kiMultiplier: real, kdMultiplier: real, samples: nat)
      modifies this`tuning
      ensures tuning == old(tuning).(low := low, high := high, kpMultiplier := kpMultiplier,
                                     kiMultiplier := kiMultiplier, kdMultiplier := kdMultiplier,
                                     deadbandSamples := samples)
    {
      tuning := tuning.(low := low, high := high, kpMultiplier := kpMultiplier, kiMultiplier := kiMultiplier,
                        kdMultiplier := kdMultiplier, deadbandSamples := samples);
    }

    method SetStartingIntegral(value: real)
      requires Valid()
      modifies this`accumulated
      ensures Valid() && View() == old(View()).(accumulated := value)
    {
      accumulated := value;
    }

    /** Nothing learnt is left; the tuning is. */
    method Reset()
      requires Valid()
      modifies this, derivativeWindow, outputWindow
      ensures Valid() && tuning == old(tuning) && View() == UNLEARNT
    {
      accumulated, previousError := 0.0, 0.0;
      error, proportional, integral, derivative := 0.0, 0.0, 0.0, 0.0;
      ForgetSamples();
    }

    /** The windows and the last setpoint go; what is integrated stays. */
    method ForgetSamples()
      requires Valid()
      modifies this`hasPreviousSetpoint, derivativeWindow, outputWindow
      ensures Valid()
      ensures View() == Forgotten(old(View()))
    {
      hasPreviousSetpoint := false;
      derivativeWindow.Clear();
      outputWindow.Clear();
    }

    method SetIntegralLimits(lowest: Option<real>, highest: Option<real>)
      requires Valid()
      modifies this`tuning, this`accumulated, this`integral
      ensures Valid() && tuning == old(tuning).(minIntegral := lowest, maxIntegral := highest)
      ensures View() == Limited(tuning, old(View()))
    {
      tuning := tuning.(minIntegral := lowest, maxIntegral := highest);
      accumulated := Clamped(tuning, accumulated);
      integral := accumulated;
    }

    /** A whole new tuning, what was learnt kept inside its limits. */
    method Configure(t: Tuning)
      requires Valid()
      modifies this`tuning, this`accumulated, this`integral
      ensures Valid() && tuning == t && View() == Limited(t, old(View()))
    {
      SetGains(t.kp, t.ki, t.kd);
      SetIntegralLimits(t.minIntegral, t.maxIntegral);
      SetSamples(t.outputSamples, t.derivativeSamples);
      SetDeadband(t.low, t.high, t.kpMultiplier, t.kiMultiplier, t.kdMultiplier, t.deadbandSamples);
    }

    method Restart(starting: real)
      requires Valid()
      modifies this, derivativeWindow, outputWindow
      ensures Valid() && tuning == old(tuning) && View() == UNLEARNT.(accumulated := starting)
    {
      Reset();
      SetStartingIntegral(starting);
    }

    method CalculateProportional()
      modifies this`proportional
      ensures proportional == Proportional(tuning, error)
    {
      proportional := tuning.kp * error;
      if InDeadband(tuning, error) {
        proportional := proportional * tuning.kpMultiplier;
        return;
      }
      var threshold := if error < 0.0 then tuning.high else tuning.low;
      proportional := proportional + (threshold - tuning.kpMultiplier * threshold) * tuning.kp;
    }

    method CalculateIntegral(dt: real)
      modifies this`accumulated, this`integral
      ensures accumulated == integral == Integrated(tuning, old(accumulated), error, dt)
    {
      var more := error * dt * tuning.ki;
      accumulated := accumulated + if InDeadband(tuning, error) then more * tuning.kiMultiplier else more;
      accumulated := Clamped(tuning, accumulated);
      integral := accumulated;
    }

    method CalculateDerivative(setpoint: real, value: real, dt: real)
      requires Valid() && error == setpoint - value
      modifies this`previousError, this`previousSetpoint, this`hasPreviousSetpoint, this`derivative,
               derivativeWindow
      ensures Valid() && previousError == error && hasPreviousSetpoint && previousSetpoint == setpoint
      ensures var slope := Slope(old(View()), setpoint, value, dt);
              var smooth := Average(old(derivativeWindow.Contents()), slope, tuning.derivativeSamples);
              && derivative == (if InDeadband(tuning, error) then tuning.kd * smooth * tuning.kdMultiplier
                                else tuning.kd * smooth)
              && derivativeWindow.Contents()
                 == Pushed(old(derivativeWindow.Contents()), slope, tuning.derivativeSamples)
    {
      hide Mean, Pushed;
      var slope := 0.0;
      if dt != 0.0 {
        if hasPreviousSetpoint && previousSetpoint != setpoint {
          previousError := previousError - (previousSetpoint - setpoint);
        }
        slope := (error - previousError) / dt;
      }
      previousError := error;
      previousSetpoint := setpoint;
      hasPreviousSetpoint := true;
      slope := derivativeWindow.PushAverage(slope, tuning.derivativeSamples);
      derivative := tuning.kd * slope;
      if InDeadband(tuning, error) {
        derivative := derivative * tuning.kdMultiplier;
      }
    }

    /** Refines `Updated`: the whole new state, and the averaged effort. */
    method Update(setpoint: real, value: real, dt: real) returns (effort: real)
      requires Valid()
      modifies this, derivativeWindow, outputWindow
      ensures Valid() && tuning == old(tuning)
      ensures (View(), effort) == Updated(tuning, old(View()), setpoint, value, dt)
    {
      hide Proportional, Integrated, Slope, Pushed, Average, InDeadband;
      error := setpoint - value;
      CalculateProportional();
      CalculateIntegral(dt);
      SlopeOfView(old(View()), View(), setpoint, value, dt);
      CalculateDerivative(setpoint, value, dt);
      var output := proportional + integral + derivative;
      assert outputWindow.Contents() == old(outputWindow.Contents());
      var samples := if InDeadband(tuning, error) then tuning.deadbandSamples else tuning.outputSamples;
      AverageMeans(outputWindow.Contents(), output, samples);
      effort := outputWindow.PushAverage(output, samples);
      var after := Updated(tuning, old(View()), setpoint, value, dt);
      assert proportional == after.0.proportional;
      assert integral == after.0.integral;
      assert derivative == after.0.derivative;
      assert effort == Average(old(View()).outputWindow, output, samples);
      assert effort == after.1;
      assert View() == Updated(tuning, old(View()), setpoint, value, dt).0;
    }
  }

  lemma SlopeOfView(s: Pid, t: Pid, setpoint: real, value: real, dt: real)
    requires s.previousError == t.previousError && s.previousSetpoint == t.previousSetpoint
    ensures Slope(s, setpoint, value, dt) == Slope(t, setpoint, value, dt)
  {}

  lemma AverageMeans(window: seq<real>, value: real, samples: nat)
    ensures Average(window, value, samples) == if samples <= 1 then value else Mean(Pushed(window, value, samples))
  {}
}
