/** The control loop of one thermostat as functions on values
    (components/climate_hub/controller_runtime.cpp): what a pass, a reading, a command, a Save and a
    calibration do to the duties, the relays, the fault and the action shown. What the PID law
    computes is any number, or none: nothing below depends on it. */
module Controllers {
  import opened Options
  import opened ThermostatWords
  import opened RelayClaims
  import opened DutyCyclers
  import opened Hysteresis
  import opened Autotunes
  import PidCores

  datatype Preset = Preset(key: string, setpoint: real, mode: Option<Mode>)

  /** A preset mode of `None` keeps the mode there is. */
  datatype Document = Document(
    enabled: bool, mode: Mode, lastOn: Mode, kind: Kind, setpoint: real, below: real, above: real,
    heatConfigured: bool, coolConfigured: bool, heatPeriod: nat, coolPeriod: nat,
    heatMinOn: nat, heatMinOff: nat, coolMinOn: nat, coolMinOff: nat,
    lowestTarget: real, highestTarget: real, timeout: nat, maxTemperature: real, interval: nat,
    activePreset: string, tuning: PidCores.Tuning, startingIntegral: real)

  /** `temperature` is absent while the entity shows none. */
  datatype Controller = Controller(
    running: bool, doc: Document, heat: Option<Driven>, cool: Option<Driven>,
    latch: Latch, heatDuty: Cycler, coolDuty: Cycler, action: Action, fault: Fault, kind: Kind,
    temperature: Option<real>, lastSample: nat, waitingSince: nat, lastControl: nat,
    hasSample: bool, controlled: bool, controlDue: bool, run: Option<Calibration>)

  // --- The document ---

  function ClampTarget(d: Document, value: real): real {
    var capped := if value < d.highestTarget then value else d.highestTarget;
    if capped > d.lowestTarget then capped else d.lowestTarget
  }

  predicate SupportsMode(d: Document, m: Mode) {
    match m
    case ModeOff => true
    case Heat => d.heatConfigured
    case Cool => d.coolConfigured
    case HeatCool => d.heatConfigured && d.coolConfigured
  }

  /** The mode a thermostat that is off comes back in. */
  function OnMode(d: Document): Mode {
    if !d.mode.ModeOff? then d.mode
    else if !d.lastOn.ModeOff? && SupportsMode(d, d.lastOn) then d.lastOn
    else if d.heatConfigured then Heat
    else Cool
  }

  function WithMode(d: Document, m: Mode): Document {
    d.(lastOn := OnMode(d), mode := m)
  }

  function ModeTaken(d: Document, m: Option<Mode>): Document {
    if m.Some? && m.value != d.mode && SupportsMode(d, m.value) then WithMode(d, m.value) else d
  }

  function PresetTaken(d: Document, p: Preset): Document {
    ModeTaken(d.(setpoint := ClampTarget(d, p.setpoint), activePreset := p.key), p.mode)
  }

  function TargetTaken(d: Document, target: Option<real>): Document {
    if target.Some? then d.(setpoint := ClampTarget(d, target.value)) else d
  }

  function Commanded(d: Document, preset: Option<Preset>, mode: Option<Mode>, target: Option<real>): Document {
    TargetTaken(ModeTaken(if preset.Some? then PresetTaken(d, preset.value) else d, mode), target)
  }

  // --- What the relays show ---

  /** Every fault but a contested relay stops control. */
  predicate CutsOut(f: Fault) {
    f.SensorStale? || f.Overtemp?
  }

  /** The claim holds the relay closed, or a PID is between two pulses on it. */
  predicate Shows(s: Controller, claim: Option<Driven>, duty: Cycler, direction: Action, drives: bool) {
    && claim.Some?
    && (claim.value.claim.state ||
        (s.doc.kind.Pid? && drives && duty.duty > 0.0 && s.action == direction))
  }

  function RelayAction(s: Controller): Action {
    if CutsOut(s.fault) || s.doc.mode.ModeOff? then ActionOff
    else if !s.hasSample then Idle
    else
      var heating := Shows(s, s.heat, s.heatDuty, Heating, Heats(s.doc.mode));
      var cooling := Shows(s, s.cool, s.coolDuty, Cooling, Cools(s.doc.mode));
      if heating && (!cooling || s.heatDuty.duty > 0.0) then Heating
      else if cooling then Cooling
      else Idle
  }

  function Shown(s: Controller): Controller {
    s.(action := RelayAction(s))
  }

  // --- Faults ---

  predicate ContestedBy(claim: Option<Driven>, now: nat) {
    claim.Some? && Contested(claim.value.claim, now)
  }

  /** More than the timeout has passed without a reading, since the sensor was given its chance. */
  predicate Silent(s: Controller, now: nat) {
    now - (if s.hasSample then s.lastSample else s.waitingSince) > s.doc.timeout
  }

  predicate TooWarm(s: Controller) {
    s.hasSample && s.temperature.Some? && s.temperature.value > s.doc.maxTemperature
  }

  function FaultNow(s: Controller, now: nat): Fault {
    if Silent(s, now) then SensorStale
    else if TooWarm(s) then Overtemp
    else if ContestedBy(s.heat, now) || ContestedBy(s.cool, now) then RelayContested
    else NoFault
  }

  function FaultSet(s: Controller, now: nat): Controller {
    var fault := FaultNow(s, now);
    s.(fault := fault, controlDue := s.controlDue || (CutsOut(s.fault) && !CutsOut(fault)))
  }

  // --- The calibration ---

  function DutiesSet(s: Controller, heat: Option<real>, cool: Option<real>): Controller {
    s.(heatDuty := WithDuty(s.heatDuty, heat), coolDuty := WithDuty(s.coolDuty, cool))
  }

  const ZERO: Option<real> := Some(0.0)

  /** Full or nothing. */
  function Full(on: bool): Option<real> {
    if on then Some(1.0) else ZERO
  }

  function RunEnded(s: Controller): Controller {
    if s.run.None? then s
    else DutiesSet(s, ZERO, ZERO).(run := None, controlled := false, controlDue := true)
  }

  /** A calibration's relay set, the other one held open. */
  function Swinging(s: Controller, direction: Direction, on: bool): Controller {
    Shown(DutiesSet(s, Full(direction.Warmer? && on), Full(direction.Colder? && on)))
  }

  function RunFed(s: Controller, value: real, now: nat): Controller
    requires s.run.Some?
  {
    if value > s.doc.maxTemperature || LimitReached(s.run.value, now) then RunEnded(s)
    else
      var run := Fed(s.run.value, value, now);
      if Found(run) then s.(run := Some(run)) else Swinging(s.(run := Some(run)), run.direction, Closes(run))
  }

  function RunBegun(s: Controller, direction: Direction, now: nat): Controller {
    var begun := s.(run := Some(Begun(direction, s.doc.setpoint, now)));
    if s.hasSample && s.temperature.Some? then RunFed(begun, s.temperature.value, now)
    else Shown(DutiesSet(begun, ZERO, ZERO))
  }

  function Sampled(s: Controller, value: real, now: nat): Controller {
    var seen := s.(lastSample := now, hasSample := true);
    (if s.run.Some? then RunFed(seen, value, now) else seen).(temperature := Some(value))
  }

  // --- Commands ---

  function Setpoints(s: Controller): Controller {
    s.(latch := s.latch.(low := Some(s.doc.setpoint - s.doc.below), high := Some(s.doc.setpoint + s.doc.above)))
  }

  function LatchKept(keeps: bool, latch: Latch): Latch {
    if keeps then latch else latch.(action := Idle)
  }

  /** A mode change drops the latch, and a mode or a target that moves ends a calibration. */
  function DocumentMoved(s: Controller, doc: Document): Controller {
    var moved := s.(doc := doc, latch := LatchKept(doc.mode == s.doc.mode, s.latch));
    if doc.mode != s.doc.mode || doc.setpoint != s.doc.setpoint then RunEnded(moved) else moved
  }

  function Applying(s: Controller, preset: Option<Preset>, mode: Option<Mode>, target: Option<real>): Controller {
    Shown(Setpoints(DocumentMoved(s, Commanded(s.doc, preset, mode, target)))).(controlDue := true)
  }

  // --- The pass ---

  function PidRun(s: Controller, output: Option<real>): Controller {
    var opposite := if output.Some? then Some(-output.value) else None;
    DutiesSet(s, if s.doc.heatConfigured && Heats(s.doc.mode) then Some(Held(output)) else ZERO,
              if s.doc.coolConfigured && Cools(s.doc.mode) then Some(Held(opposite)) else ZERO)
  }

  function LatchRun(s: Controller): Controller {
    var latch := Latched(s.latch, s.doc.mode, s.temperature);
    DutiesSet(s.(latch := latch), Full(latch.action.Heating?), Full(latch.action.Cooling?))
  }

  function ControlRun(s: Controller, output: Option<real>, now: nat): Controller {
    var due := s.(lastControl := now, controlled := true, controlDue := false);
    if s.doc.kind.Pid? then PidRun(due, output) else LatchRun(due)
  }

  function RequestedOf(claim: Option<Driven>, duty: Cycler, now: nat): Option<Driven> {
    if claim.Some? then Some(Requested(claim.value, On(Advanced(duty, now), now), now)) else None
  }

  /** A cycler of a direction without a relay keeps still. */
  function AdvancedWith(claim: Option<Driven>, duty: Cycler, now: nat): Cycler {
    if claim.Some? then Advanced(duty, now) else duty
  }

  function HeatDriven(s: Controller, now: nat): Controller {
    s.(heat := RequestedOf(s.heat, s.heatDuty, now), heatDuty := AdvancedWith(s.heat, s.heatDuty, now))
  }

  function CoolDriven(s: Controller, now: nat): Controller {
    s.(cool := RequestedOf(s.cool, s.coolDuty, now), coolDuty := AdvancedWith(s.cool, s.coolDuty, now))
  }

  function OutputsDriven(s: Controller, now: nat): Controller {
    CoolDriven(HeatDriven(s, now), now)
  }

  function ForcedOffOf(claim: Option<Driven>, now: nat, paced: bool): Option<Driven> {
    if claim.Some? then Some(ForcedOff(claim.value, now, paced)) else None
  }

  function RelaysOff(s: Controller, now: nat, paced: bool): Controller {
    DutiesSet(s, ZERO, ZERO).(heat := ForcedOffOf(s.heat, now, paced), cool := ForcedOffOf(s.cool, now, paced))
  }

  /** The fault found, and a calibration it or a limit ends ended. */
  function Checked(s: Controller, now: nat): Controller {
    var seen := FaultSet(s, now);
    if seen.run.Some? && (!seen.fault.NoFault? || LimitReached(seen.run.value, now)) then RunEnded(seen) else seen
  }

  predicate StandsBy(s: Controller) {
    CutsOut(s.fault) || s.doc.mode.ModeOff? || !s.hasSample
  }

  predicate Due(s: Controller, now: nat) {
    s.run.None? && (s.controlDue || now - s.lastControl >= s.doc.interval)
  }

  function Acted(s: Controller, output: Option<real>, now: nat): Controller {
    if StandsBy(s) then RelaysOff(s.(controlled := false), now, s.hasSample && !CutsOut(s.fault))
    else OutputsDriven(if Due(s, now) then ControlRun(s, output, now) else s, now)
  }

  /** One pass; `output` is what the PID law gives should the pass run it. */
  function Ticked(s: Controller, output: Option<real>, now: nat): Controller {
    if !s.running || !s.doc.enabled then s else Shown(Acted(Checked(s, now), output, now))
  }

  // --- Starting, saving, stopping ---

  /** What a start knows of the sensor; `seen` is false when it has said nothing yet. */
  datatype Reading = Reading(value: real, ms: nat, seen: bool)

  /** What a start is given: the document, whether the sensor is the one it had, the relays' claims
      and whether each is the one it had, the latest reading, and what the entity shows without one. */
  datatype Start = Start(
    doc: Document, sameSensor: bool, heat: Option<Driven>, sameHeat: bool, cool: Option<Driven>, sameCool: bool,
    last: Reading, stale: Option<real>)

  function Dwelling(claim: Option<Driven>, minOn: nat, minOff: nat): Option<Driven> {
    if claim.Some? then Some(claim.value.(claim := WithDwell(claim.value.claim, minOn, minOff))) else None
  }

  function ConfigApplied(s: Controller): Controller {
    var d := s.doc;
    var points := Setpoints(s);
    points.(
      latch := points.latch.(heats := d.heatConfigured, cools := d.coolConfigured),
      heatDuty := WithPeriod(s.heatDuty, d.heatPeriod), coolDuty := WithPeriod(s.coolDuty, d.coolPeriod),
      heat := Dwelling(s.heat, d.heatMinOn, d.heatMinOff), cool := Dwelling(s.cool, d.coolMinOn, d.coolMinOff))
  }

  /** What the latch starts from: on a Save that keeps the law, what it held; on a start, what the
      relays do. Either only in a direction the mode drives. */
  function Seeded(s: Controller, start: Start): Action {
    var keeps := s.running && s.kind.BangBang? && start.doc.kind.BangBang?;
    var heating := start.heat.Some? && Heats(start.doc.mode) &&
                   if keeps then s.latch.action.Heating? else start.heat.value.claim.state;
    var cooling := start.cool.Some? && Cools(start.doc.mode) &&
                   if keeps then s.latch.action.Cooling? else start.cool.value.claim.state;
    if heating then Heating else if cooling then Cooling else Idle
  }

  /** A direction whose relay is replaced is not shown as running on. */
  function ActionCarried(a: Action, sameHeat: bool, sameCool: bool): Action {
    if (a.Heating? && !sameHeat) || (a.Cooling? && !sameCool) then Idle else a
  }

  function ClaimsGiven(s: Controller, start: Start): Controller {
    s.(action := ActionCarried(s.action, start.sameHeat, start.sameCool), heat := start.heat, cool := start.cool)
  }

  function RhythmKept(keeps: bool, duty: Cycler): Cycler {
    if keeps then duty else Rephased(duty)
  }

  function WaitKept(keeps: bool, since: nat, now: nat): nat {
    if keeps then since else now
  }

  predicate PidKept(s: Controller, sameSensor: bool, next: Kind) {
    s.running && sameSensor && s.kind.Pid? && next.Pid? && s.controlled
  }

  function ReadingShown(last: Reading, stale: Option<real>): Option<real> {
    if last.seen then Some(last.value) else stale
  }

  /** A Save keeps the rhythm of the PWM, and while the sensor stands, the wait for a reading and what
      a PID learnt. */
  function DocumentGiven(s: Controller, doc: Document, sameSensor: bool, now: nat): Controller {
    var same := s.running && sameSensor;
    s.(running := true, doc := doc, kind := doc.kind,
       heatDuty := RhythmKept(s.running, s.heatDuty), coolDuty := RhythmKept(s.running, s.coolDuty),
       waitingSince := WaitKept(same, s.waitingSince, now),
       controlDue := true,
       controlled := PidKept(s, sameSensor, doc.kind))
  }

  function Given(s: Controller, start: Start, now: nat): Controller {
    DocumentGiven(ClaimsGiven(s, start), start.doc, start.sameSensor, now)
  }

  function ReadingTaken(s: Controller, start: Start, seed: Action): Controller {
    s.(latch := s.latch.(action := seed), hasSample := start.last.seen, lastSample := start.last.ms,
       temperature := ReadingShown(start.last, start.stale))
  }

  function Started(s: Controller, start: Start, now: nat): Controller {
    Shown(FaultSet(ReadingTaken(ConfigApplied(Given(s, start, now)), start, Seeded(s, start)), now))
  }

  function Stopped(s: Controller, now: nat): Controller {
    if !s.running then s
    else RelaysOff(RunEnded(s), now, false).(
      running := false, heat := None, cool := None, action := ActionOff, fault := NoFault, hasSample := false,
      temperature := None)
  }

  predicate InPast(duty: Cycler, now: nat) {
    duty.started ==> duty.start <= now
  }

  /** The clock has not run back: what the cyclers, the claims and the calibration remember lies in the
      past. */
  predicate Timely(s: Controller, now: nat) {
    && InPast(s.heatDuty, now) && InPast(s.coolDuty, now) && s.lastControl <= now
    && (s.heat.Some? ==> RelayClaims.Past(s.heat.value.claim, now))
    && (s.cool.Some? ==> RelayClaims.Past(s.cool.value.claim, now))
    && (s.run.Some? ==> Autotunes.Past(s.run.value, now) && OneRelay(s.run.value))
  }

  const NEW_CONTROLLER := Controller(
    false,
    Document(false, ModeOff, ModeOff, Pid, 0.0, 0.0, 0.0, false, false, 0, 0, 0, 0, 0, 0, 0.0, 0.0, 0, 0.0, 0, "",
             PidCores.NEW_TUNING, 0.0),
    None, None, NEW_LATCH, NEW_CYCLER, NEW_CYCLER, ActionOff, NoFault, Pid, None, 0, 0, 0, false, false, true, None)
}
