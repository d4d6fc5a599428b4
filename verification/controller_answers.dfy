/** What the control loop answers (components/climate_hub/controller_runtime.cpp): which way a pass drives
    for which reading, what a command leaves in the document, and what the entity shows. */
module ControllerAnswers {
  import opened Options
  import opened ThermostatWords
  import opened RelayClaims
  import opened DutyCyclers
  import opened Hysteresis
  import Autotunes
  import opened Controllers
  import ControllerSafety
  import opened ControlLaws
  import PidCores
  import SampleWindows

  // --- The PID's effort ---

  predicate MayHeat(s: Controller) {
    s.doc.heatConfigured && Heats(s.doc.mode)
  }

  predicate MayCool(s: Controller) {
    s.doc.coolConfigured && Cools(s.doc.mode)
  }

  /** At most the whole of it. */
  function AtMostOne(x: real): real {
    if x < 1.0 then x else 1.0
  }

  /** A positive effort is heat and a negative one cold, as far as it goes, in a direction the document has a
      relay for and the mode drives; everything else is no duty. */
  lemma EffortIsDuty(s: Controller, effort: real, now: nat)
    requires s.doc.kind.Pid?
    ensures var r := ControlRun(s, Some(effort), now);
            && r.heatDuty.duty == (if MayHeat(s) && effort > 0.0 then AtMostOne(effort) else 0.0)
            && r.coolDuty.duty == (if MayCool(s) && effort < 0.0 then AtMostOne(-effort) else 0.0)
  {}

  /** A PID of its proportional term alone. */
  predicate OnlyProportional(law: Law) {
    var t := law.tuning;
    && t.kp > 0.0 && t.ki == 0.0 && t.kd == 0.0 && t.low == 0.0 == t.high
    && t.outputSamples <= 1 && law.pid.accumulated == 0.0 && PidCores.Clamped(t, 0.0) == 0.0
  }

  lemma ProportionalEffort(law: Law, s: Controller, now: nat)
    requires OnlyProportional(law) && s.temperature.Some?
    ensures var (after, effort) := Ran(law, s, now);
            && OnlyProportional(after)
            && effort == Some(PidCores.Product(law.tuning.kp, s.doc.setpoint - s.temperature.value))
  {
    hide PidCores.Slope, SampleWindows.Pushed, SampleWindows.Mean;
    var error := s.doc.setpoint - s.temperature.value;
    var t, pid := law.tuning, ForgottenIf(!s.controlled, law.pid);
    NoGain(error, Elapsed(s, now), t);
    var slope := PidCores.Slope(pid, s.doc.setpoint, s.temperature.value, Elapsed(s, now));
    NoSlope(t.kd, PidCores.Average(pid.derivativeWindow, slope, t.derivativeSamples));
    hide PidCores.Proportional, PidCores.Integrated;
    var u := PidCores.Updated(t, pid, s.doc.setpoint, s.temperature.value, Elapsed(s, now));
    assert u.0.accumulated == 0.0;
    assert u.1 == PidCores.Product(t.kp, error);
    assert Ran(law, s, now).1 == Some(u.1);
    assert Ran(law, s, now).0 == law.(pid := u.0);
  }

  lemma NoGain(error: real, dt: real, t: PidCores.Tuning)
    requires t.ki == 0.0 && t.low == 0.0 == t.high && PidCores.Clamped(t, 0.0) == 0.0
    ensures PidCores.Integrated(t, 0.0, error, dt) == 0.0
    ensures PidCores.Proportional(t, error) == t.kp * error
  {
    assert error * dt * 0.0 == 0.0;
    assert 0.0 * t.kiMultiplier == 0.0;
    assert t.kpMultiplier * 0.0 == 0.0;
    assert 0.0 * t.kp == 0.0;
  }

  lemma NoSlope(kd: real, slope: real)
    requires kd == 0.0
    ensures kd * slope == 0.0
  {}

  /** With a proportional gain alone the heater has duty only below the target and the cooler only above it,
      and each does where it may. */
  lemma HeatsWhenCold(law: Law, s: Controller, now: nat)
    requires OnlyProportional(law) && s.doc.kind.Pid? && s.temperature.Some?
    ensures var r := ControlRun(s, Ran(law, s, now).1, now);
            && (r.heatDuty.duty > 0.0 <==> MayHeat(s) && s.temperature.value < s.doc.setpoint)
            && (r.coolDuty.duty > 0.0 <==> MayCool(s) && s.temperature.value > s.doc.setpoint)
  {
    ProportionalEffort(law, s, now);
    var error := s.doc.setpoint - s.temperature.value;
    Signed(law.tuning.kp, error);
    EffortIsDuty(s, law.tuning.kp * error, now);
    hide ControlRun, Ran;
  }

  lemma Signed(k: real, x: real)
    requires k > 0.0
    ensures (k * x > 0.0 <==> x > 0.0) && (k * x < 0.0 <==> x < 0.0)
  {
    if x > 0.0 {
      PidCores.Positive(k, x);
    } else if x < 0.0 {
      PidCores.Positive(k, -x);
      assert k * -x == -(k * x);
    }
  }

  // --- The whole pass ---

  /** A pass that has something to act on runs the law at once after a command, a start or a cut-out, and
      otherwise once its interval is over. */
  predicate RunsLaw(s: Controller, now: nat) {
    && s.running && s.doc.enabled && s.run.None?
    && !ControllerSafety.NothingToActOn(s, now) && !s.doc.mode.ModeOff?
    && (s.controlDue || CutsOut(s.fault) || now - s.lastControl >= s.doc.interval)
  }

  lemma PassRunsLaw(s: Controller, output: Option<real>, now: nat)
    requires RunsLaw(s, now)
    ensures var c := FaultSet(s, now);
            && Checked(s, now) == c && !StandsBy(c) && Due(c, now)
            && Ticked(s, output, now).heatDuty.duty == ControlRun(c, output, now).heatDuty.duty
            && Ticked(s, output, now).coolDuty.duty == ControlRun(c, output, now).coolDuty.duty
            && Ticked(s, output, now).latch == ControlRun(c, output, now).latch
  {
    hide ControlRun, RelayAction, FaultNow, Requested, Advanced, On, ControllerSafety.NothingToActOn;
    ControllerSafety.CheckedRefuses(s, now);
    ControllerSafety.AdvancedKeepsDuty(ControlRun(FaultSet(s, now), output, now).heatDuty, now);
    ControllerSafety.AdvancedKeepsDuty(ControlRun(FaultSet(s, now), output, now).coolDuty, now);
  }

  /** A pass that does not run the law leaves no duty when it has nothing to act on or is off, and every duty as
      it was otherwise. */
  lemma PassKeepsDuties(s: Controller, output: Option<real>, now: nat)
    requires s.running && s.doc.enabled && Checked(s, now).run == s.run && !RunsLaw(s, now)
    ensures var r := Ticked(s, output, now);
            var idle := ControllerSafety.NothingToActOn(s, now) || s.doc.mode.ModeOff?;
            && r.heatDuty.duty == (if idle then 0.0 else s.heatDuty.duty)
            && r.coolDuty.duty == (if idle then 0.0 else s.coolDuty.duty)
  {
    hide ControlRun, RelayAction, FaultNow, Requested, ForcedOff, Advanced, On, ControllerSafety.NothingToActOn,
         Autotunes.LimitReached;
    ControllerSafety.CheckedRefuses(s, now);
    ControllerSafety.AdvancedKeepsDuty(s.heatDuty, now);
    ControllerSafety.AdvancedKeepsDuty(s.coolDuty, now);
  }

  /** A pass that runs the law is the next one's start: without a command, a start or a cut-out in between the law
      runs again once its interval is over, on the time passed since. */
  lemma LawKeepsItsInterval(s: Controller, output: Option<real>, now: nat, later: nat)
    requires RunsLaw(s, now) && now <= later
    ensures var r := Ticked(s, output, now);
            && (RunsLaw(r, later) <==>
                  !ControllerSafety.NothingToActOn(r, later) && later - now >= s.doc.interval)
            && Elapsed(r, later) == (later - now) as real / 1000.0
  {
    PassRunsLaw(s, output, now);
    PassIsNoted(s, output, now);
    hide Ticked, ControllerSafety.NothingToActOn;
  }

  lemma PassIsNoted(s: Controller, output: Option<real>, now: nat)
    requires RunsLaw(s, now)
    ensures var r := Ticked(s, output, now);
            && r.running && r.doc == s.doc && r.run.None? && !CutsOut(r.fault)
            && !r.controlDue && r.lastControl == now && r.controlled
  {
    PassRunsLaw(s, output, now);
    ControllerSafety.CheckedRefuses(s, now);
    FaultSetKeeps(s, now);
    LawIsNoted(FaultSet(s, now), output, now);
    hide ControlRun, RelayAction, FaultNow, Requested, Advanced, On, ControllerSafety.NothingToActOn, FaultSet, Due;
  }

  lemma LawIsNoted(s: Controller, output: Option<real>, now: nat)
    ensures var r := ControlRun(s, output, now);
            && r.running == s.running && r.doc == s.doc && r.run == s.run && r.fault == s.fault
            && !r.controlDue && r.lastControl == now && r.controlled
  {
    hide Held, Latched;
  }

  lemma FaultSetKeeps(s: Controller, now: nat)
    ensures var c := FaultSet(s, now);
            && c.doc == s.doc && c.temperature == s.temperature && c.controlled == s.controlled
            && c.lastControl == s.lastControl && c.latch == s.latch && c.run == s.run
  {
    hide FaultNow;
  }

  /** A pass of a PID: its effort is that of the law on the reading shown, and its duties are that effort in
      the direction of its sign. */
  lemma PidPass(law: Law, s: Controller, now: nat)
    requires RunsLaw(s, now) && s.doc.kind.Pid? && s.temperature.Some?
    ensures var effort := PassedLaw(law, s, now).1;
            var r := Ticked(s, effort, now);
            && effort == Ran(law, s, now).1 && effort.Some?
            && r.heatDuty.duty == (if MayHeat(s) && effort.value > 0.0 then AtMostOne(effort.value) else 0.0)
            && r.coolDuty.duty == (if MayCool(s) && effort.value < 0.0 then AtMostOne(-effort.value) else 0.0)
  {
    hide PidCores.Updated, ControlRun, Ticked, ControllerSafety.NothingToActOn;
    var c := FaultSet(s, now);
    FaultSetKeeps(s, now);
    PassRunsLaw(s, PassedLaw(law, s, now).1, now);
    EffortIsDuty(c, Ran(law, s, now).1.value, now);
  }

  /** A room below its target is heated and one above it cooled, where the thermostat may, by a law that only
      looks at the distance. */
  lemma ColdRoomIsHeated(law: Law, s: Controller, now: nat)
    requires RunsLaw(s, now) && s.doc.kind.Pid? && s.temperature.Some? && OnlyProportional(law)
    ensures var r := Ticked(s, PassedLaw(law, s, now).1, now);
            && (r.heatDuty.duty > 0.0 <==> MayHeat(s) && s.temperature.value < s.doc.setpoint)
            && (r.coolDuty.duty > 0.0 <==> MayCool(s) && s.temperature.value > s.doc.setpoint)
  {
    hide RunsLaw, OnlyProportional, Ran, ControlRun, Ticked, PassedLaw;
    PidPass(law, s, now);
    HeatsWhenCold(law, s, now);
    EffortIsDuty(s, Ran(law, s, now).1.value, now);
  }

  /** What a latch asks for after a reading: past a switching point the direction of that point, where the
      mode drives it, and between them what it asked for before, in a mode that drives one way. */
  predicate AsksFor(was: Latch, mode: Mode, reading: real, heat: bool, cool: bool)
    requires was.low.Some? && was.high.Some?
  {
    if reading < was.low.value then heat == (was.heats && Heats(mode)) && !cool
    else if reading > was.high.value then !heat && cool == (was.cools && Cools(mode))
    else if was.heats && was.cools && mode.HeatCool? then !heat && !cool
    else heat == was.action.Heating? && cool == was.action.Cooling?
  }

  /** A pass of a two-point thermostat: all or nothing, in the direction of the last switching point crossed. */
  lemma LatchPass(s: Controller, output: Option<real>, now: nat)
    requires RunsLaw(s, now) && s.doc.kind.BangBang? && s.temperature.Some?
    requires s.latch.low.Some? && s.latch.high.Some?
    ensures var r := Ticked(s, output, now);
            && r.heatDuty.duty == (if r.latch.action.Heating? then 1.0 else 0.0)
            && r.coolDuty.duty == (if r.latch.action.Cooling? then 1.0 else 0.0)
            && AsksFor(s.latch, s.doc.mode, s.temperature.value, r.latch.action.Heating?, r.latch.action.Cooling?)
  {
    hide Ticked, ControllerSafety.NothingToActOn;
    FaultSetKeeps(s, now);
    PassRunsLaw(s, output, now);
  }

  // --- Commands ---

  /** The nearest to `wanted` a target may be. */
  predicate Nearest(d: Document, wanted: real, target: real) {
    d.lowestTarget <= d.highestTarget ==>
      && d.lowestTarget <= target <= d.highestTarget
      && (wanted < d.lowestTarget ==> target == d.lowestTarget)
      && (wanted > d.highestTarget ==> target == d.highestTarget)
      && (d.lowestTarget <= wanted <= d.highestTarget ==> target == wanted)
  }

  /** It has a relay for every direction the mode drives. */
  predicate CanDo(d: Document, m: Mode) {
    (Heats(m) ==> d.heatConfigured) && (Cools(m) ==> d.coolConfigured)
  }

  /** The mode a command ends in: its own if the thermostat can do it, else its preset's if it can do that. */
  function ModeAsked(d: Document, preset: Option<Preset>, mode: Option<Mode>): Mode {
    if mode.Some? && CanDo(d, mode.value) then mode.value
    else if preset.Some? && preset.value.mode.Some? && CanDo(d, preset.value.mode.value)
    then preset.value.mode.value
    else d.mode
  }

  lemma TargetArrives(d: Document, wanted: real)
    ensures Nearest(d, wanted, ClampTarget(d, wanted))
  {}

  lemma TargetIsKept(d: Document, mode: Option<Mode>)
    ensures ModeTaken(d, mode) == d.(mode := ModeTaken(d, mode).mode, lastOn := ModeTaken(d, mode).lastOn)
    ensures ModeTaken(d, mode).mode == if mode.Some? && CanDo(d, mode.value) then mode.value else d.mode
  {
    hide OnMode;
  }

  /** A command arrives: a target sent, or else its preset's, as near as the range lets it; the mode; the
      preset's key. Nothing else of the document moves, but what mode to come back in. */
  lemma CommandArrives(d: Document, preset: Option<Preset>, mode: Option<Mode>, target: Option<real>)
    ensures var r := Commanded(d, preset, mode, target);
            && (target.Some? ==> Nearest(d, target.value, r.setpoint))
            && (target.None? && preset.Some? ==> Nearest(d, preset.value.setpoint, r.setpoint))
            && (target.None? && preset.None? ==> r.setpoint == d.setpoint)
            && r.mode == ModeAsked(d, preset, mode)
            && r.activePreset == (if preset.Some? then preset.value.key else d.activePreset)
            && r == d.(setpoint := r.setpoint, mode := r.mode, activePreset := r.activePreset, lastOn := r.lastOn)
  {
    var picked := if preset.Some? then PresetTaken(d, preset.value) else d;
    if preset.Some? {
      TargetArrives(d, preset.value.setpoint);
      TargetIsKept(d.(setpoint := ClampTarget(d, preset.value.setpoint), activePreset := preset.value.key),
                   preset.value.mode);
    }
    TargetIsKept(picked, mode);
    if target.Some? {
      TargetArrives(ModeTaken(picked, mode), target.value);
    }
    hide ModeTaken, ClampTarget;
  }

  /** Switched off, a thermostat remembers the mode it was in, and comes back in it; one that never was in
      a mode it can do comes back heating if it can. */
  lemma ComesBackAsItWas(d: Document)
    ensures !d.mode.ModeOff? && CanDo(d, d.mode) ==> OnMode(Commanded(d, None, Some(ModeOff), None)) == d.mode
    ensures d.heatConfigured || d.coolConfigured ==>
              !OnMode(d).ModeOff? && (d.mode.ModeOff? ==> CanDo(d, OnMode(d)))
    ensures d.mode.ModeOff? && (d.lastOn.ModeOff? || !CanDo(d, d.lastOn)) ==>
              OnMode(d) == if d.heatConfigured then Heat else Cool
  {}

  // --- What is shown ---

  predicate BetweenPulses(s: Controller, claim: Option<Driven>, duty: Cycler, direction: Direction) {
    s.doc.kind.Pid? && claim.Some? && Drives(s.doc.mode, direction) && duty.duty > 0.0
  }

  /** The entity shows what the relays do: with one of them closed, that direction; with none closed, idle
      unless a PID is between two pulses of the direction it showed. */
  lemma ShownIsDone(s: Controller)
    requires !CutsOut(s.fault) && !s.doc.mode.ModeOff? && s.hasSample
    ensures var heats := s.heat.Some? && s.heat.value.claim.state;
            var cools := s.cool.Some? && s.cool.value.claim.state;
            var a := Shown(s).action;
            && (heats && !cools && s.coolDuty.duty <= 0.0 ==> a.Heating?)
            && (cools && !heats && s.heatDuty.duty <= 0.0 ==> a.Cooling?)
            && (heats && cools ==> if s.heatDuty.duty > 0.0 then a.Heating? else a.Cooling?)
            && (!heats && !cools && s.doc.kind.BangBang? ==> a.Idle?)
            && (!heats && !cools && s.heatDuty.duty <= 0.0 && s.coolDuty.duty <= 0.0 ==> a.Idle?)
            && (!heats && !cools && s.action.Heating? && BetweenPulses(s, s.heat, s.heatDuty, Warmer) ==> a.Heating?)
            && (!heats && !cools && s.action.Cooling? && BetweenPulses(s, s.cool, s.coolDuty, Colder) ==> a.Cooling?)
  {}
}
