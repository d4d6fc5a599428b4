/** One calibration of one thermostat (components/climate_hub/autotune.cpp): the tuner, its relay, and
    the limits that end it. */
module Autotunes {
  import opened RelayTuner
  import opened ThermostatWords

  const NOISEBAND: real := 0.25
  const MAX_MS: nat := 24 * 3600 * 1000
  const STALL_MS: nat := 6 * 3600 * 1000

  datatype Calibration = Calibration(
    direction: Direction, setpoint: real, tuner: Tuner, started: nat, lastSwitch: nat, switches: nat)

  function Begun(direction: Direction, setpoint: real, now: nat): Calibration {
    var lowest := if direction.Warmer? then 0.0 else -1.0;
    Calibration(direction, setpoint, NewTuner(NOISEBAND, lowest, lowest + 1.0), now, now, 0)
  }

  function Since(now: nat, then_: nat): nat {
    if now >= then_ then now - then_ else 0
  }

  function Fed(c: Calibration, value: real, now: nat): Calibration {
    var tuner := Updated(c.tuner, c.setpoint - value, Since(now, c.started));
    if tuner.phaseCount != c.switches then c.(tuner := tuner, switches := tuner.phaseCount, lastSwitch := now)
    else c.(tuner := tuner)
  }

  predicate Found(c: Calibration) {
    c.tuner.finished
  }

  /** The calibration's relay is to be closed: its output is on. */
  predicate Closes(c: Calibration) {
    !c.tuner.finished && if c.direction.Warmer? then c.tuner.relay.Positive? else !c.tuner.relay.Positive?
  }

  predicate LimitReached(c: Calibration, now: nat) {
    || Since(now, c.started) >= MAX_MS
    || Since(now, c.lastSwitch) >= STALL_MS
    || c.tuner.frequency.overflowed
  }

  /** Its readings lie in the past. */
  predicate Past(c: Calibration, now: nat) {
    && c.started <= now && c.lastSwitch <= now
    && (c.tuner.frequency.crossed ==> c.tuner.frequency.lastCrossing <= now - c.started)
  }

  /** A calibration has one relay: the tuner's output is fully on or off in its direction. */
  predicate OneRelay(c: Calibration) {
    && c.tuner.outputPositive == (if c.direction.Warmer? then 1.0 else 0.0)
    && c.tuner.outputNegative == (if c.direction.Warmer? then 0.0 else -1.0)
  }

  lemma FeedingKeeps(c: Calibration, value: real, now: nat)
    requires OneRelay(c) && Past(c, now)
    ensures OneRelay(Fed(c, value, now)) && Past(Fed(c, value, now), now)
    ensures Fed(c, value, now).direction == c.direction
  {}

  /** The time of the last switch is that of the reading that switched the relay. */
  lemma FeedingTimesSwitches(c: Calibration, value: real, now: nat)
    requires c.switches == c.tuner.phaseCount
    ensures var r := Fed(c, value, now);
            var switched := !c.tuner.finished && Switches(c.tuner.relay, c.tuner.noiseband, c.setpoint - value);
            && r.switches == r.tuner.phaseCount && r.switches == c.switches + (if switched then 1 else 0)
            && r.lastSwitch == (if switched then now else c.lastSwitch)
            && r.started == c.started && r.setpoint == c.setpoint
  {}

  /** The first reading never ends a calibration with gains. */
  lemma FirstReadingFindsNothing(direction: Direction, setpoint: real, value: real, now: nat)
    ensures !Found(Fed(Begun(direction, setpoint, now), value, now))
  {}

  class AutotuneRun {
    const direction: Direction
    const setpoint: real
    const tuner: PidAutotuner
    const started: nat
    var lastSwitch: nat
    var switches: nat

    function View(): Calibration
      reads this, tuner
    {
      Calibration(direction, setpoint, tuner.View(), started, lastSwitch, switches)
    }

    constructor (direction: Direction, setpoint: real, now: nat)
      ensures View() == Begun(direction, setpoint, now)
      ensures fresh(tuner)
    {
      this.direction := direction;
      this.setpoint := setpoint;
      var lowest := if direction.Warmer? then 0.0 else -1.0;
      tuner := new PidAutotuner(NOISEBAND, lowest, lowest + 1.0);
      started, lastSwitch, switches := now, now, 0;
    }

    /** Refines `Fed`; the answer is `Closes` while no gains are found, before and after. */
    method Feed(value: real, now: nat) returns (on: bool)
      requires Past(View(), now) && OneRelay(View())
      modifies this, tuner
      ensures View() == Fed(old(View()), value, now)
      ensures !old(Found(View())) && !Found(View()) ==> on == Closes(View())
    {
      hide Updated;
      var wasFinished := tuner.finished;
      var output := tuner.Update(setpoint, value, now - started);
      if tuner.phaseCount != switches {
        switches := tuner.phaseCount;
        lastSwitch := now;
      }
      return if direction.Warmer? then output > 0.0 else output < 0.0;
    }

    predicate Limited(now: nat)
      reads this, tuner
    {
      LimitReached(View(), now)
    }
  }
}
