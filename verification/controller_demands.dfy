/** What the control loop is asked for over whole runs (components/climate_hub/controller_runtime.cpp): what
    the latch and a calibration demand, how long a silent sensor is waited for, and what a start carries on. */
module ControllerDemands {
  import opened Options
  import opened ThermostatWords
  import opened RelayClaims
  import opened DutyCyclers
  import opened Hysteresis
  import opened Autotunes
  import opened Controllers
  import opened ControlLaws
  import ControllerSafety
  import ControllerAnswers
  import RelayTuner
  import PidCores

  // --- The latch's switching points ---

  /** The switching points are those of the document. */
  predicate PointsHold(s: Controller) {
    s.running ==>
      && s.latch.low == Some(s.doc.setpoint - s.doc.below) && s.latch.high == Some(s.doc.setpoint + s.doc.above)
      && s.latch.heats == s.doc.heatConfigured && s.latch.cools == s.doc.coolConfigured
  }

  /** All that the switching points are made of. */
  predicate SamePoints(s: Controller, r: Controller) {
    && r.running == s.running
    && r.doc == s.doc && r.latch == s.latch.(action := r.latch.action)
  }

  lemma CheckedSamePoints(s: Controller, now: nat)
    ensures SamePoints(s, Checked(s, now))
  {
    hide FaultNow, LimitReached, WithDuty;
  }

  lemma ControlRunSamePoints(s: Controller, output: Option<real>, now: nat)
    ensures SamePoints(s, ControlRun(s, output, now))
  {
    hide WithDuty, Held;
  }

  lemma ActedSamePoints(s: Controller, output: Option<real>, now: nat)
    ensures SamePoints(s, Acted(s, output, now))
  {
    hide Requested, ForcedOff, Advanced, On, ControlRun, WithDuty, Due, StandsBy;
    ControlRunSamePoints(s, output, now);
  }

  lemma TickedSamePoints(s: Controller, output: Option<real>, now: nat)
    ensures SamePoints(s, Ticked(s, output, now))
  {
    hide Checked, Acted, RelayAction;
    CheckedSamePoints(s, now);
    ActedSamePoints(Checked(s, now), output, now);
  }

  lemma RunFedSamePoints(s: Controller, value: real, now: nat)
    requires s.run.Some?
    ensures SamePoints(s, RunFed(s, value, now))
  {
    hide Fed, LimitReached, Closes, RelayAction, WithDuty;
  }

  lemma RunBegunSamePoints(s: Controller, direction: Direction, now: nat)
    ensures SamePoints(s, RunBegun(s, direction, now))
  {
    hide RunFed, RelayAction, WithDuty;
    if s.hasSample && s.temperature.Some? {
      RunFedSamePoints(s.(run := Some(Begun(direction, s.doc.setpoint, now))), s.temperature.value, now);
    }
  }

  lemma SampledSamePoints(s: Controller, value: real, now: nat)
    ensures SamePoints(s, Sampled(s, value, now))
  {
    hide RunFed;
    if s.run.Some? {
      RunFedSamePoints(s.(lastSample := now, hasSample := true), value, now);
    }
  }

  lemma ApplyingHoldsPoints(s: Controller, preset: Option<Preset>, mode: Option<Mode>, target: Option<real>)
    requires PointsHold(s)
    ensures PointsHold(Applying(s, preset, mode, target))
  {
    hide Commanded, RelayAction, DocumentMoved;
    ControllerAnswers.CommandArrives(s.doc, preset, mode, target);
    var doc := Commanded(s.doc, preset, mode, target);
    MovedSamePoints(s, doc);
  }

  lemma MovedSamePoints(s: Controller, doc: Document)
    ensures SamePoints(s.(doc := doc), DocumentMoved(s, doc))
  {
    hide RunEnded;
    RunEndedSamePoints(s.(doc := doc, latch := LatchKept(doc.mode == s.doc.mode, s.latch)));
  }

  lemma StartedHoldsPoints(s: Controller, start: Start, now: nat)
    ensures PointsHold(Started(s, start, now)) && Started(s, start, now).doc == start.doc
  {
    hide RelayAction, FaultNow, Seeded, WithPeriod;
  }

  lemma RunEndedSamePoints(s: Controller)
    ensures SamePoints(s, RunEnded(s))
  {}

  lemma HappenedHoldsPoints(s: Controller, e: ControllerSafety.Event)
    requires PointsHold(s)
    ensures PointsHold(ControllerSafety.Happened(s, e))
  {
    hide Ticked, Sampled, Applying, RunBegun, RunEnded, Started;
    match e
    case Tick(output, now) => TickedSamePoints(s, output, now);
    case Arrived(value, now) => SampledSamePoints(s, value, now);
    case Command(preset, mode, target, _) => ApplyingHoldsPoints(s, preset, mode, target);
    case BeginRun(direction, now) => RunBegunSamePoints(s, direction, now);
    case EndRun => RunEndedSamePoints(s);
    case StartOrSave(start, now) => StartedHoldsPoints(RunEnded(s), start, now);
    case _ =>
  }

  lemma {:induction false} EveryRunHoldsPoints(events: seq<ControllerSafety.Event>)
    ensures PointsHold(ControllerSafety.After(events))
    decreases |events|
  {
    if events != [] {
      EveryRunHoldsPoints(events[..|events| - 1]);
      HappenedHoldsPoints(ControllerSafety.After(events[..|events| - 1]), events[|events| - 1]);
    }
  }

  predicate DrivesOneWay(d: Document) {
    !(d.heatConfigured && d.coolConfigured && d.mode.HeatCool?)
  }

  /** After any run, a pass of a two-point thermostat that runs its law: below the target by more than the band
      the heating relay has all its duty, above it the cooling relay, each where there is one and the mode
      drives it; inside the band nothing new is asked for. */
  lemma BandIsKept(events: seq<ControllerSafety.Event>, output: Option<real>, now: nat)
    requires var s := ControllerSafety.After(events);
             ControllerAnswers.RunsLaw(s, now) && s.doc.kind.BangBang? && s.temperature.Some?
    ensures var s := ControllerSafety.After(events);
            var r := Ticked(s, output, now);
            var t := s.temperature.value;
            && (t < s.doc.setpoint - s.doc.below ==>
                  && r.heatDuty.duty == (if ControllerAnswers.MayHeat(s) then 1.0 else 0.0) && r.coolDuty.duty == 0.0)
            && (t >= s.doc.setpoint - s.doc.below && t > s.doc.setpoint + s.doc.above ==>
                  && r.coolDuty.duty == (if ControllerAnswers.MayCool(s) then 1.0 else 0.0) && r.heatDuty.duty == 0.0)
            && (s.doc.setpoint - s.doc.below <= t <= s.doc.setpoint + s.doc.above ==>
                  && (r.heatDuty.duty > 0.0 ==> s.latch.action.Heating?)
                  && (r.coolDuty.duty > 0.0 ==> s.latch.action.Cooling?)
                  && (DrivesOneWay(s.doc) && s.latch.action.Heating? ==> r.heatDuty.duty == 1.0)
                  && (DrivesOneWay(s.doc) && s.latch.action.Cooling? ==> r.coolDuty.duty == 1.0))
  {
    hide Ticked, ControllerAnswers.RunsLaw, ControllerSafety.After;
    EveryRunHoldsPoints(events);
    RunsMeansRunning(ControllerSafety.After(events), now);
    ControllerAnswers.LatchPass(ControllerSafety.After(events), output, now);
  }

  lemma RunsMeansRunning(s: Controller, now: nat)
    requires ControllerAnswers.RunsLaw(s, now)
    ensures s.running
  {}

  // --- A calibration's duties ---

  /** The calibration's relay is on, all of it, exactly when its direction is the one asked about and the
      tuner's switch says so. */
  predicate Swings(s: Controller, run: Calibration) {
    && s.heatDuty.duty == (if run.direction.Warmer? && Closes(run) then 1.0 else 0.0)
    && s.coolDuty.duty == (if run.direction.Colder? && Closes(run) then 1.0 else 0.0)
  }

  /** A calibration swings around the target there is, counts its switches, and from its first reading on has the
      duties. */
  predicate Calibrates(s: Controller) {
    s.run.Some? ==>
      var run := s.run.value;
      && run.setpoint == s.doc.setpoint && run.tuner.noiseband == NOISEBAND
      && run.switches == run.tuner.phaseCount
      && if run.tuner.relay.Init? then !Found(run) && s.heatDuty.duty == 0.0 == s.coolDuty.duty
         else s.hasSample && (!Found(run) ==> Swings(s, run))
  }

  lemma FedCalibrates(s: Controller, value: real, now: nat)
    requires s.run.Some? && s.hasSample
    requires s.run.value.setpoint == s.doc.setpoint && s.run.value.tuner.noiseband == NOISEBAND
    requires s.run.value.switches == s.run.value.tuner.phaseCount
    requires s.run.value.tuner.relay.Init? ==> !Found(s.run.value)
    ensures Calibrates(RunFed(s, value, now))
  {
    hide RelayAction, LimitReached, Fed, Closes, Held;
    FedSwitch(s.run.value, value, now);
    FeedingTimesSwitches(s.run.value, value, now);
    FullDuty();
  }

  lemma FullDuty()
    ensures Held(Full(true)) == 1.0 && Held(Full(false)) == 0.0
  {}

  /** A reading sets the tuner's switch: closed past the band on the side its direction works against. */
  lemma FedSwitch(c: Calibration, value: real, now: nat)
    requires c.tuner.noiseband == NOISEBAND && (c.tuner.relay.Init? ==> !Found(c))
    ensures var fed := Fed(c, value, now);
            && fed.direction == c.direction && fed.setpoint == c.setpoint
            && fed.tuner.noiseband == NOISEBAND && !fed.tuner.relay.Init?
            && (!Found(fed) && value < c.setpoint - NOISEBAND ==> Closes(fed) == c.direction.Warmer?)
            && (!Found(fed) && value > c.setpoint + NOISEBAND ==> Closes(fed) == c.direction.Colder?)
  {
    hide RelayTuner.Crossing, RelayTuner.Peaked, RelayTuner.Ended;
  }

  lemma SampledCalibrates(s: Controller, value: real, now: nat)
    requires Calibrates(s)
    ensures Calibrates(Sampled(s, value, now))
  {
    hide RunFed, Closes, Found;
    if s.run.Some? {
      FedCalibrates(s.(lastSample := now, hasSample := true), value, now);
    }
  }

  lemma RunBegunCalibrates(s: Controller, direction: Direction, now: nat)
    ensures Calibrates(RunBegun(s, direction, now))
  {
    hide RunFed, Closes, RelayAction;
    if s.hasSample && s.temperature.Some? {
      FedCalibrates(s.(run := Some(Begun(direction, s.doc.setpoint, now))), s.temperature.value, now);
    }
  }

  lemma ApplyingCalibrates(s: Controller, preset: Option<Preset>, mode: Option<Mode>, target: Option<real>)
    requires Calibrates(s)
    ensures Calibrates(Applying(s, preset, mode, target))
  {
    hide Commanded, RelayAction, Closes, Found;
  }

  lemma CheckedCalibrates(s: Controller, now: nat)
    requires Calibrates(s)
    ensures Calibrates(Checked(s, now))
    ensures Checked(s, now).run.Some? ==> Checked(s, now).fault.NoFault?
  {
    hide FaultNow, LimitReached, Closes, Found;
  }

  lemma ActedCalibrates(s: Controller, output: Option<real>, now: nat)
    requires Calibrates(s) && (s.run.Some? ==> s.fault.NoFault? && !s.doc.mode.ModeOff?)
    ensures Calibrates(Acted(s, output, now))
  {
    hide Requested, ForcedOff, Advanced, On, ControlRun, Closes, Found;
    ControlRunRun(s, output, now);
    ControllerSafety.AdvancedKeepsDuty(s.heatDuty, now);
    ControllerSafety.AdvancedKeepsDuty(s.coolDuty, now);
  }

  lemma ControlRunRun(s: Controller, output: Option<real>, now: nat)
    ensures ControlRun(s, output, now).run == s.run
  {}

  lemma TickedCalibrates(s: Controller, output: Option<real>, now: nat)
    requires ControllerSafety.Safe(s) && Calibrates(s)
    ensures Calibrates(Ticked(s, output, now))
  {
    hide Checked, Acted, Calibrates, RelayAction;
    if s.running && s.doc.enabled {
      CheckedCalibrates(s, now);
      RunDrives(s, now);
      ActedCalibrates(Checked(s, now), output, now);
      ShownCalibrates(Acted(Checked(s, now), output, now));
    }
  }

  lemma ShownCalibrates(s: Controller)
    requires Calibrates(s)
    ensures Calibrates(Shown(s))
  {
    hide RelayAction, Closes, Found;
  }

  lemma RunDrives(s: Controller, now: nat)
    requires ControllerSafety.Safe(s) && s.running
    ensures Checked(s, now).run.Some? ==> !Checked(s, now).doc.mode.ModeOff?
  {
    hide FaultNow, LimitReached;
  }

  lemma HappenedCalibrates(s: Controller, e: ControllerSafety.Event)
    requires ControllerSafety.Safe(s) && Calibrates(s)
    ensures Calibrates(ControllerSafety.Happened(s, e))
  {
    hide Ticked, Sampled, Applying, RunBegun, Started, ControllerSafety.Safe, Closes, Found;
    match e
    case Tick(output, now) => TickedCalibrates(s, output, now);
    case Arrived(value, now) => SampledCalibrates(s, value, now);
    case Command(preset, mode, target, _) => ApplyingCalibrates(s, preset, mode, target);
    case BeginRun(direction, now) => RunBegunCalibrates(s, direction, now);
    case StartOrSave(start, now) => StartedRuns(RunEnded(s), start, now);
    case Stop(now) => StoppedRuns(s, now);
    case _ =>
  }

  lemma StartedRuns(s: Controller, start: Start, now: nat)
    ensures Started(s, start, now).run == s.run
  {
    hide RelayAction, FaultNow, Seeded, WithPeriod;
  }

  lemma StoppedRuns(s: Controller, now: nat)
    ensures s.running ==> Stopped(s, now).run.None?
  {
    hide ForcedOff;
  }

  lemma {:induction false} EveryRunCalibrates(events: seq<ControllerSafety.Event>)
    ensures Calibrates(ControllerSafety.After(events))
    decreases |events|
  {
    if events != [] {
      ControllerSafety.EveryRunIsSafe(events[..|events| - 1]);
      EveryRunCalibrates(events[..|events| - 1]);
      HappenedCalibrates(ControllerSafety.After(events[..|events| - 1]), events[|events| - 1]);
    }
  }

  /** In any run, the reading a calibration goes on after decides its relay: heating is on below the target by
      more than the band and off above it by as much, cooling the other way round, and the other direction's
      relay has no duty. */
  lemma CalibrationSwingsAroundTarget(events: seq<ControllerSafety.Event>, value: real, now: nat)
    requires ControllerSafety.After(events).running
    requires var r := ControllerSafety.After(events + [ControllerSafety.Arrived(value, now)]);
             r.run.Some? && !Found(r.run.value)
    ensures var r := ControllerSafety.After(events + [ControllerSafety.Arrived(value, now)]);
            var heats := r.run.value.direction.Warmer?;
            && (value < r.doc.setpoint - NOISEBAND ==>
                  r.heatDuty.duty == (if heats then 1.0 else 0.0) && r.coolDuty.duty == 0.0)
            && (value > r.doc.setpoint + NOISEBAND ==>
                  r.coolDuty.duty == (if heats then 0.0 else 1.0) && r.heatDuty.duty == 0.0)
  {
    var all := events + [ControllerSafety.Arrived(value, now)];
    EveryRunCalibrates(events);
    EveryRunCalibrates(all);
    assert all[..|events|] == events;
    var s := ControllerSafety.After(events);
    assert ControllerSafety.After(all) == Sampled(s, value, now);
    hide ControllerSafety.After, RelayAction, LimitReached, Closes, Calibrates;
    CalibrationFollows(s, value, now);
  }

  lemma CalibrationFollows(s: Controller, value: real, now: nat)
    requires Calibrates(s) && Calibrates(Sampled(s, value, now))
    requires Sampled(s, value, now).run.Some? && !Found(Sampled(s, value, now).run.value)
    ensures var r := Sampled(s, value, now);
            var heats := r.run.value.direction.Warmer?;
            && (value < r.doc.setpoint - NOISEBAND ==>
                  r.heatDuty.duty == (if heats then 1.0 else 0.0) && r.coolDuty.duty == 0.0)
            && (value > r.doc.setpoint + NOISEBAND ==>
                  r.coolDuty.duty == (if heats then 0.0 else 1.0) && r.heatDuty.duty == 0.0)
  {
    hide RelayAction, LimitReached, Fed, Closes, Held;
    FedSwitch(s.run.value, value, now);
    FullDuty();
  }

  lemma FaultIsNow(s: Controller, output: Option<real>, now: nat)
    requires s.running && s.doc.enabled
    ensures Ticked(s, output, now).fault == FaultNow(s, now)
    ensures Ticked(s, output, now).run == Checked(s, now).run
  {
    hide Checked, RelayAction, Requested, ForcedOff, Advanced, On, ControlRun, Due, StandsBy, FaultNow,
         ControllerSafety.NothingToActOn;
    ControllerSafety.CheckedRefuses(s, now);
    ControllerSafety.PidRunFrame(Checked(s, now), output, now);
    ControlRunRun(Checked(s, now), output, now);
  }

  /** A pass ends a calibration exactly on a fault, a day after its start, six hours after its last switch, or
      with its store of crossings full. */
  lemma CalibrationEnds(s: Controller, output: Option<real>, now: nat)
    requires s.running && s.doc.enabled && s.run.Some?
    requires s.run.value.started <= now && s.run.value.lastSwitch <= now
    ensures var r := Ticked(s, output, now);
            && (r.run == s.run || r.run.None?)
            && (r.run.None? <==>
                  || !r.fault.NoFault? || now - s.run.value.started >= 24 * 3600 * 1000
                  || now - s.run.value.lastSwitch >= 6 * 3600 * 1000 || s.run.value.tuner.frequency.overflowed)
  {
    FaultIsNow(s, output, now);
    hide Ticked, FaultNow;
  }

  /** A reading ends a calibration exactly when it is over the limit, or the calibration has lasted as long as it
      may; otherwise it goes on with that reading. */
  lemma ReadingEndsCalibration(s: Controller, value: real, now: nat)
    requires s.run.Some? && s.run.value.started <= now && s.run.value.lastSwitch <= now
    ensures var r := Sampled(s, value, now);
            && (r.run.None? <==>
                  || value > s.doc.maxTemperature || now - s.run.value.started >= 24 * 3600 * 1000
                  || now - s.run.value.lastSwitch >= 6 * 3600 * 1000 || s.run.value.tuner.frequency.overflowed)
            && (r.run.Some? ==> r.run.value == Fed(s.run.value, value, now))
            && (r.run.None? ==> r.heatDuty.duty == 0.0 == r.coolDuty.duty && r.controlDue && !r.controlled)
  {
    hide Fed, RelayAction, Closes;
  }

  // --- Who is told of a contest ---

  predicate IsContested(claim: Option<Driven>, now: nat) {
    claim.Some? && Contested(claim.value.claim, now)
  }

  /** A contest on either relay is reported, and nothing else as one; with a reading in time and under the limit
      there is no other fault. */
  lemma ContestIsReported(s: Controller, output: Option<real>, now: nat)
    requires s.running && s.doc.enabled
    ensures var r := Ticked(s, output, now);
            && (r.fault.RelayContested? <==>
                  && !Silent(s, now) && !TooWarm(s) && (IsContested(s.heat, now) || IsContested(s.cool, now)))
            && (r.fault.NoFault? <==>
                  && !Silent(s, now) && !TooWarm(s) && !IsContested(s.heat, now) && !IsContested(s.cool, now))
  {
    FaultIsNow(s, output, now);
    hide Ticked, Contested;
  }

  // --- The pulses ---

  /** The state a pass drives the relays from: the law run first if it is due. */
  function ActingOn(s: Controller, output: Option<real>, now: nat): Controller {
    var c := Checked(s, now);
    if Due(c, now) then ControlRun(c, output, now) else c
  }

  function DutyOf(s: Controller, direction: Direction): Cycler {
    if direction.Warmer? then s.heatDuty else s.coolDuty
  }

  function ClaimOf(s: Controller, direction: Direction): Option<Driven> {
    if direction.Warmer? then s.heat else s.cool
  }

  /** What the relay is asked for is on for the first part of each period since the phase began, as long as the
      duty says, and the phase goes on; without a relay it stands still. */
  predicate Pulses(was: Option<Driven>, p: Phase, now: nat, claim: Option<Driven>, duty: Cycler, k: nat) {
    var on := SimplyPerformed(p, Update(now));
    if was.None? then InPhase(duty, p, now, k)
    else
      && InPhase(duty, on, now, k)
      && claim == Some(Requested(was.value, SimplyOn(on, now), now))
  }

  lemma PulseStaysInPhase(claim: Option<Driven>, duty: Cycler, p: Phase, clock: nat, k: nat, now: nat) returns (j: nat)
    requires InPhase(duty, p, clock, k) && clock <= now
    ensures Pulses(claim, p, now, RequestedOf(claim, duty, now), AdvancedWith(claim, duty, now), j)
  {
    hide Requested, Advanced, On;
    if claim.Some? {
      j := UpdateStaysInPhase(duty, p, clock, k, now);
      hide SimplyOn;
    } else {
      j := k;
    }
  }

  lemma PassStaysInPhase(
    s: Controller, output: Option<real>, now: nat, direction: Direction, p: Phase, clock: nat, k: nat)
    returns (j: nat)
    requires s.running && s.doc.enabled && !StandsBy(Checked(s, now)) && clock <= now
    requires InPhase(DutyOf(ActingOn(s, output, now), direction), p, clock, k)
    ensures var r := Ticked(s, output, now);
            Pulses(ClaimOf(s, direction), p, now, ClaimOf(r, direction), DutyOf(r, direction), j)
  {
    hide Ticked, ActingOn, StandsBy, Checked, Pulses, InPhase, RequestedOf, AdvancedWith;
    PassDrives(s, output, now);
    j := PulseStaysInPhase(ClaimOf(s, direction), DutyOf(ActingOn(s, output, now), direction), p, clock, k, now);
  }

  lemma PassDrives(s: Controller, output: Option<real>, now: nat)
    requires s.running && s.doc.enabled && !StandsBy(Checked(s, now))
    ensures var a := ActingOn(s, output, now);
            var r := Ticked(s, output, now);
            && r.heatDuty == AdvancedWith(s.heat, a.heatDuty, now) && r.heat == RequestedOf(s.heat, a.heatDuty, now)
            && r.coolDuty == AdvancedWith(s.cool, a.coolDuty, now) && r.cool == RequestedOf(s.cool, a.coolDuty, now)
  {
    ControllerSafety.CheckedRefuses(s, now);
    ControllerSafety.PidRunFrame(Checked(s, now), output, now);
    hide Checked, Due, StandsBy, ControlRun, AdvancedWith, RequestedOf, RelayAction, FaultNow,
         ControllerSafety.NothingToActOn;
  }

  // --- Silence ---

  /** Nothing that tells the loop anything of its sensor, or ends it. */
  predicate TellsNothing(e: ControllerSafety.Event) {
    !e.Arrived? && !e.StartOrSave? && !e.Stop?
  }

  /** All a pass judges the sensor by. */
  predicate SameSensing(s: Controller, r: Controller) {
    && r.running == s.running && r.hasSample == s.hasSample && r.lastSample == s.lastSample
    && r.temperature == s.temperature && r.waitingSince == s.waitingSince
    && r.doc.enabled == s.doc.enabled && r.doc.timeout == s.doc.timeout
    && r.doc.maxTemperature == s.doc.maxTemperature
  }

  lemma TickedSameSensing(s: Controller, output: Option<real>, now: nat)
    ensures SameSensing(s, Ticked(s, output, now))
  {
    hide Checked, RelayAction, Requested, ForcedOff, Advanced, On, Due, StandsBy, ControlRun;
    TickedSamePoints(s, output, now);
    CheckedSameSensing(s, now);
    ControlRunSameSensing(Checked(s, now), output, now);
  }

  lemma CheckedSameSensing(s: Controller, now: nat)
    ensures SameSensing(s, Checked(s, now))
  {
    hide FaultNow, LimitReached;
  }

  lemma ControlRunSameSensing(s: Controller, output: Option<real>, now: nat)
    ensures SameSensing(s, ControlRun(s, output, now))
  {}

  lemma RunFedSameSensing(s: Controller, value: real, now: nat)
    requires s.run.Some?
    ensures SameSensing(s, RunFed(s, value, now))
  {
    hide Fed, LimitReached, Closes, RelayAction;
  }

  lemma RunBegunSameSensing(s: Controller, direction: Direction, now: nat)
    ensures SameSensing(s, RunBegun(s, direction, now))
  {
    hide RunFed, RelayAction;
    if s.hasSample && s.temperature.Some? {
      RunFedSameSensing(s.(run := Some(Begun(direction, s.doc.setpoint, now))), s.temperature.value, now);
    }
  }

  lemma ApplyingSameSensing(s: Controller, preset: Option<Preset>, mode: Option<Mode>, target: Option<real>)
    ensures SameSensing(s, Applying(s, preset, mode, target))
  {
    hide Commanded, RelayAction;
    ControllerAnswers.CommandArrives(s.doc, preset, mode, target);
  }

  lemma HappenedSameSensing(s: Controller, e: ControllerSafety.Event)
    requires TellsNothing(e)
    ensures SameSensing(s, ControllerSafety.Happened(s, e))
  {
    hide Ticked, Applying, RunBegun;
    match e
    case Tick(output, now) => TickedSameSensing(s, output, now);
    case Command(preset, mode, target, _) => ApplyingSameSensing(s, preset, mode, target);
    case BeginRun(direction, now) => RunBegunSameSensing(s, direction, now);
    case _ =>
  }

  lemma {:induction false} RunSameSensing(events: seq<ControllerSafety.Event>, n: nat)
    requires n <= |events| && forall i :: n <= i < |events| ==> TellsNothing(events[i])
    ensures SameSensing(ControllerSafety.After(events[..n]), ControllerSafety.After(events))
    decreases |events|
  {
    assert events[..|events|] == events;
    if n < |events| {
      var before := events[..|events| - 1];
      assert before[..n] == events[..n];
      RunSameSensing(before, n);
      hide ControllerSafety.Happened;
      HappenedSameSensing(ControllerSafety.After(before), events[|events| - 1]);
    }
  }

  /** In any run whose latest reading was `value` at `t`, a pass finds something to act on exactly while the
      reading is not older than the timeout and not over the limit; otherwise both relays are open after it. */
  lemma SilenceOpens(events: seq<ControllerSafety.Event>, t: nat, value: real, n: nat, output: Option<real>, now: nat)
    requires n < |events| && events[n] == ControllerSafety.Arrived(value, t)
    requires forall i :: n < i < |events| ==> TellsNothing(events[i])
    requires ControllerSafety.After(events).running && ControllerSafety.After(events).doc.enabled
    ensures var s := ControllerSafety.After(events);
            var r := Ticked(s, output, now);
            var tooOld, tooWarm := now - t > s.doc.timeout, value > s.doc.maxTemperature;
            && (ControllerSafety.NothingToActOn(s, now) <==> tooOld || tooWarm)
            && (r.fault.SensorStale? <==> tooOld) && (r.fault.Overtemp? <==> !tooOld && tooWarm)
            && (tooOld || tooWarm ==> ControllerSafety.Open(r.heat) && ControllerSafety.Open(r.cool))
  {
    RunSameSensing(events, n + 1);
    var heard := events[..n + 1];
    assert heard[..n] == events[..n];
    var s, before := ControllerSafety.After(events), ControllerSafety.After(events[..n]);
    assert ControllerSafety.After(heard) == ControllerSafety.Happened(before, events[n]);
    SampledIsHeard(before, value, t);
    FaultIsNow(s, output, now);
    hide ControllerSafety.After, Sampled, Ticked;
    if ControllerSafety.NothingToActOn(s, now) {
      ControllerSafety.NothingToActOnOpensBoth(s, output, now);
    }
  }

  lemma SampledIsHeard(s: Controller, value: real, now: nat)
    ensures var r := Sampled(s, value, now);
            r.hasSample && r.lastSample == now && r.temperature == Some(value) && r.running == s.running
  {
    hide RunFed;
    if s.run.Some? {
      RunFedSameSensing(s.(lastSample := now, hasSample := true), value, now);
    }
  }

  /** From a start on, silence counts from the reading the start knew of; without one, from the start, or from
      where it counted before a Save that keeps the sensor. */
  lemma SilenceCountsFrom(s: Controller, start: Start, now: nat, later: nat)
    ensures var r := Started(s, start, now);
            var since := if start.last.seen then start.last.ms
                         else if s.running && start.sameSensor then s.waitingSince
                         else now;
            && (Silent(r, later) <==> later - since > start.doc.timeout)
            && (start.last.seen ==> r.temperature == Some(start.last.value)) && r.hasSample == start.last.seen
            && r.running && r.controlDue
  {
    hide RelayAction, FaultNow, Seeded, WithPeriod;
  }

  // --- What a start carries on ---

  /** A two-point thermostat that starts goes by what its relays do, in directions its mode drives; one that is
      saved goes on as it was, and one saved under another law by its relays again. */
  lemma StartedDemands(s: Controller, start: Start, now: nat)
    ensures var r := Started(s, start, now);
            var saved := s.running && s.kind.BangBang? && start.doc.kind.BangBang?;
            && (saved ==>
                  && (r.latch.action.Heating? <==>
                        start.heat.Some? && Heats(start.doc.mode) && s.latch.action.Heating?)
                  && (r.latch.action.Cooling? <==>
                        start.cool.Some? && Cools(start.doc.mode) && s.latch.action.Cooling?))
            && (!saved ==>
                  && (r.latch.action.Heating? <==>
                        start.heat.Some? && Heats(start.doc.mode) && start.heat.value.claim.state)
                  && (r.latch.action.Cooling? <==>
                        && start.cool.Some? && Cools(start.doc.mode) && start.cool.value.claim.state
                        && !r.latch.action.Heating?))
  {
    hide RelayAction, FaultNow, WithPeriod;
  }

  /** A claim as the hub gave it, under the document's dwell. */
  predicate DwellGiven(given: Option<Driven>, claim: Option<Driven>, minOn: nat, minOff: nat) {
    && claim.Some? == given.Some?
    && (given.Some? ==>
          && claim.value.relay == given.value.relay
          && claim.value.claim.minOn == minOn && claim.value.claim.minOff == minOff
          && LastSwitching(claim.value.claim) == LastSwitching(given.value.claim)
          && claim.value.claim.pending == given.value.claim.pending)
  }

  /** The pulses of one direction after a start: its period is the document's, of a millisecond at least, and only a
      Save that leaves the period alone goes on with the phase there was. */
  predicate PulsesGiven(s: Controller, was: Cycler, duty: Cycler, period: nat) {
    && duty.period == (if period < 1 then 1 else period) && duty.duty == was.duty
    && (duty.started <==> was.started && s.running && duty.period == was.period)
    && (duty.started ==> duty == was)
  }

  lemma StartedPulses(s: Controller, start: Start, now: nat)
    ensures var r := Started(s, start, now);
            && DwellGiven(start.heat, r.heat, start.doc.heatMinOn, start.doc.heatMinOff)
            && DwellGiven(start.cool, r.cool, start.doc.coolMinOn, start.doc.coolMinOff)
            && PulsesGiven(s, s.heatDuty, r.heatDuty, start.doc.heatPeriod)
            && PulsesGiven(s, s.coolDuty, r.coolDuty, start.doc.coolPeriod)
  {
    hide RelayAction, FaultNow, Seeded;
  }

  /** What is shown after a start: with both relays open, the direction shown before only where a PID is between two
      pulses on the very relay it had. */
  lemma StartedShows(s: Controller, start: Start, now: nat)
    requires start.heat.Some? ==> !start.heat.value.claim.state
    requires start.cool.Some? ==> !start.cool.value.claim.state
    ensures var r := Started(s, start, now);
            var acts := !CutsOut(r.fault) && !r.doc.mode.ModeOff?;
            var heats := ControllerAnswers.BetweenPulses(r, r.heat, r.heatDuty, Warmer);
            var cools := ControllerAnswers.BetweenPulses(r, r.cool, r.coolDuty, Colder);
            && (r.action.Heating? <==> acts && r.hasSample && s.action.Heating? && start.sameHeat && heats)
            && (r.action.Cooling? <==> acts && r.hasSample && s.action.Cooling? && start.sameCool && cools)
            && (r.action.ActionOff? <==> !acts)
  {
    hide FaultNow, Seeded, WithPeriod, RhythmKept;
  }

  /** Stopped, it holds no relay and shows nothing. */
  lemma StoppedShowsNothing(s: Controller, now: nat)
    requires s.running
    ensures var r := Stopped(s, now);
            && !r.running && r.heat.None? && r.cool.None? && r.run.None?
            && r.action.ActionOff? && r.fault.NoFault? && !r.hasSample && r.temperature.None?
            && r.heatDuty.duty == 0.0 == r.coolDuty.duty
  {
    hide ForcedOff;
  }

  /** What the PID has learnt is kept by a Save of a running PID with the same sensor, and by nothing else: the
      first pass after any other start asks for its proportional term and the document's starting integral. */
  lemma FirstEffort(law: Law, s: Controller, start: Start, now: nat, later: nat)
    requires start.last.seen
    ensures var keeps := s.running && start.sameSensor && s.kind.Pid? && start.doc.kind.Pid?;
            var r := Started(s, start, now);
            var effort := Ran(ControlLaws.Given(law, start.doc, keeps), r, later).1;
            var integral := if keeps then PidCores.Clamped(start.doc.tuning, law.pid.accumulated)
                            else start.doc.startingIntegral;
            var terms := PidCores.Proportional(start.doc.tuning, start.doc.setpoint - start.last.value)
                       + PidCores.Clamped(start.doc.tuning, integral);
            !keeps || !s.controlled ==> effort == Some(terms)
  {
    var keeps := s.running && start.sameSensor && s.kind.Pid? && start.doc.kind.Pid?;
    var r := Started(s, start, now);
    StartedAnew(s, start, now);
    if !keeps || !s.controlled {
      FirstPassStartsOver(ControlLaws.Given(law, start.doc, keeps), r, later);
    }
    hide Ran, Started, PidCores.Proportional;
  }

  lemma StartedAnew(s: Controller, start: Start, now: nat)
    ensures var r := Started(s, start, now);
            && r.doc == start.doc && r.temperature == ReadingShown(start.last, start.stale)
            && (r.controlled <==>
                  s.running && start.sameSensor && s.kind.Pid? && start.doc.kind.Pid? && s.controlled)
  {
    hide RelayAction, FaultNow, WithPeriod, Seeded;
  }

  /** After a calibration's end the PID starts over, with the document's gains and starting integral. */
  lemma EffortAfterCalibration(law: Law, s: Controller, now: nat)
    requires s.run.Some? && s.temperature.Some?
    ensures var ended := RunEnded(s);
            var effort := Ran(Restarted(law, s.doc), ended, now).1;
            var t := law.tuning.(kp := s.doc.tuning.kp, ki := s.doc.tuning.ki, kd := s.doc.tuning.kd);
            && ended.heatDuty.duty == 0.0 == ended.coolDuty.duty && ended.controlDue
            && effort == Some(PidCores.Proportional(t, s.doc.setpoint - s.temperature.value)
                              + PidCores.Clamped(t, s.doc.startingIntegral))
  {
    FirstPassStartsOver(Restarted(law, s.doc), RunEnded(s), now);
    hide Ran, PidCores.Proportional, PidCores.Clamped;
  }

  /** A command that moves the mode or the target ends a calibration, one that does not leaves it; a new mode
      drops what the latch held; and the next pass runs the law. */
  lemma CommandIsActedOn(s: Controller, preset: Option<Preset>, mode: Option<Mode>, target: Option<real>)
    ensures var doc := Commanded(s.doc, preset, mode, target);
            var r := Applying(s, preset, mode, target);
            && r.doc == doc && r.controlDue
            && r.run == (if doc.mode != s.doc.mode || doc.setpoint != s.doc.setpoint then None else s.run)
            && (doc.mode != s.doc.mode ==> r.latch.action.Idle?)
            && (doc.mode == s.doc.mode ==> r.latch.action == s.latch.action)
            && (s.run.None? ==> r.heatDuty == s.heatDuty && r.coolDuty == s.coolDuty)
  {
    hide Commanded, RelayAction;
  }
}
