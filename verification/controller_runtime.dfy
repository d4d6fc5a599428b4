/** One thermostat's controller, in place
    (components/climate_hub/controller_runtime.cpp): its PID, its latch and its cyclers are its own; its
    claims and its calibration are objects of the hub's that it points to. `View` is the state the
    functions of `Controllers` speak of, `LearntView` what the PID has learnt. */
module ControllerRuntimes {
  import opened Options
  import opened ThermostatWords
  import opened RelayClaims
  import opened DutyCyclers
  import opened Hysteresis
  import opened Autotunes
  import opened Controllers
  import opened ControllerSafety
  import opened ControllerClock
  import ControlLaws
  import PidCores

  class ControllerRuntime {
    const pid: PidCores.PidCore
    const hysteresis: HysteresisCore
    const heatDuty: DutyCycler
    const coolDuty: DutyCycler
    var running: bool
    var doc: Document
    var sensor: nat
    var heatClaim: RelayClaim?
    var coolClaim: RelayClaim?
    var action: Action
    var fault: Fault
    var kind: Kind
    var temperature: Option<real>
    var lastSample: nat
    var waitingSince: nat
    var lastControl: nat
    var hasSample: bool
    var controlled: bool
    var controlDue: bool
    var run: AutotuneRun?

    function Relays(): set<object>
      reads this
    {
      (if heatClaim == null then {} else {heatClaim, heatClaim.sw}) +
      (if coolClaim == null then {} else {coolClaim, coolClaim.sw})
    }

    function Claims(): set<object>
      reads this
    {
      (if heatClaim == null then {} else {heatClaim}) + (if coolClaim == null then {} else {coolClaim})
    }

    function Running(): set<object>
      reads this
    {
      if run == null then {} else {run, run.tuner}
    }

    function Learning(): set<object> {
      {pid, pid.derivativeWindow, pid.outputWindow}
    }

    ghost predicate Valid()
      reads this
    {
      && (heatClaim != null && coolClaim != null ==> heatClaim != coolClaim && heatClaim.sw != coolClaim.sw)
      && heatDuty != coolDuty
    }

    static function Held(claim: RelayClaim?): Option<Driven>
      reads if claim == null then {} else {claim, claim.sw}
    {
      if claim == null then None else Some(claim.View())
    }

    static function Calibrating(run: AutotuneRun?): Option<Calibration>
      reads if run == null then {} else {run, run.tuner}
    {
      if run == null then None else Some(run.View())
    }

    function View(): Controller
      reads this, Relays(), Running(), hysteresis, heatDuty, coolDuty
    {
      Controller(running, doc,
                 Held(heatClaim), Held(coolClaim),
                 hysteresis.View(), heatDuty.View(), coolDuty.View(), action, fault, kind, temperature, lastSample,
                 waitingSince, lastControl, hasSample, controlled, controlDue,
                 Calibrating(run))
    }

    /** What the state says of the fields. */
    lemma Sees()
      ensures var s := View();
              && s.running == running && s.doc == doc && s.kind == kind && s.fault == fault && s.action == action
              && s.hasSample == hasSample && s.temperature == temperature && s.controlled == controlled
              && s.controlDue == controlDue && s.lastControl == lastControl && s.waitingSince == waitingSince
              && s.latch == hysteresis.View() && s.heatDuty == heatDuty.View() && s.coolDuty == coolDuty.View()
              && (s.run.None? <==> run == null) && (run != null ==> s.run == Some(run.View()))
              && s.heat == Held(heatClaim) && s.cool == Held(coolClaim)
    {}

    ghost function LearntView(): ControlLaws.Law
      requires pid.Valid()
      reads pid, pid.derivativeWindow, pid.outputWindow
    {
      ControlLaws.Law(pid.tuning, pid.View())
    }

    constructor ()
      ensures Valid() && pid.Valid() && View() == NEW_CONTROLLER && LearntView() == ControlLaws.NEW_LAW
    {
      pid := new PidCores.PidCore();
      hysteresis := new HysteresisCore();
      heatDuty := new DutyCycler();
      coolDuty := new DutyCycler();
      running, doc, sensor, heatClaim, coolClaim := false, NEW_CONTROLLER.doc, 0, null, null;
      action, fault, kind, temperature := ActionOff, NoFault, Pid, None;
      lastSample, waitingSince, lastControl := 0, 0, 0;
      hasSample, controlled, controlDue, run := false, false, true, null;
    }

    // --- The action shown ---

    /** `Shows` of one claim and its cycler, read off the objects. */
    predicate ShowsOn(claim: RelayClaim?, duty: DutyCycler, direction: Action, drives: bool)
      reads this, duty, if claim == null then {} else {claim}
    {
      && claim != null
      && (claim.state || (doc.kind.Pid? && drives && duty.duty > 0.0 && action == direction))
    }

    method RelayActionNow() returns (shown: Action)
      ensures shown == RelayAction(View())
    {
      if CutsOut(fault) || doc.mode.ModeOff? {
        return ActionOff;
      }
      if !hasSample {
        return Idle;
      }
      var heating := ShowsOn(heatClaim, heatDuty, Heating, Heats(doc.mode));
      var cooling := ShowsOn(coolClaim, coolDuty, Cooling, Cools(doc.mode));
      if heating && (!cooling || heatDuty.duty > 0.0) {
        return Heating;
      }
      return if cooling then Cooling else Idle;
    }

    /** Refines `Shown`, and says whether there was anything new. */
    method Show() returns (changed: bool)
      requires Valid()
      modifies this`action
      ensures Valid() && View() == Shown(old(View())) && changed == (action != old(action))
    {
      hide RelayAction, Held, Calibrating, DutyCycler.View, HysteresisCore.View;
      var next := RelayActionNow();
      if next == action {
        return false;
      }
      action := next;
      return true;
    }

    // --- The calibration ---

    method SetDuties(heat: Option<real>, cool: Option<real>)
      requires Valid()
      modifies heatDuty, coolDuty
      ensures Valid() && View() == DutiesSet(old(View()), heat, cool)
    {
      hide WithDuty, Held, Calibrating, HysteresisCore.View, DutyCycler.View;
      heatDuty.SetDuty(heat);
      coolDuty.SetDuty(cool);
    }

    /** Nothing from before a calibration carries on in the PID. */
    method RestartPid()
      requires Valid() && pid.Valid()
      modifies Learning()
      ensures Valid() && pid.Valid() && View() == old(View())
      ensures LearntView() == ControlLaws.Restarted(old(LearntView()), doc)
    {
      hide Held, Calibrating, HysteresisCore.View, DutyCycler.View;
      pid.SetGains(doc.tuning.kp, doc.tuning.ki, doc.tuning.kd);
      pid.Restart(doc.startingIntegral);
    }

    method DropRun()
      requires Valid()
      modifies this`run, this`controlled, this`controlDue
      ensures Valid() && run == null && View() == old(View()).(run := None, controlled := false, controlDue := true)
    {
      hide Held, HysteresisCore.View, DutyCycler.View;
      run := null;
      controlled := false;
      controlDue := true;
    }

    method EndAutotune()
      requires Valid() && pid.Valid()
      modifies this`run, this`controlled, this`controlDue, heatDuty, coolDuty, Learning()
      ensures Valid() && pid.Valid() && View() == RunEnded(old(View())) && run == null
      ensures LearntView() == ControlLaws.RestartedIf(old(run) != null, old(LearntView()), doc)
    {
      hide WithDuty, View, Valid, PidCores.PidCore.Valid, ControlLaws.Restarted, LearntView, Held, Calibrating,
           HysteresisCore.View, DutyCycler.View;
      Sees();
      if run == null {
        return;
      }
      RestartPid();
      SetDuties(ZERO, ZERO);
      DropRun();
    }

    /** Refines `Swinging`, and says whether the action is a new one. */
    method Swing(direction: Direction, on: bool) returns (changed: bool)
      requires Valid()
      modifies this`action, heatDuty, coolDuty
      ensures Valid() && View() == Swinging(old(View()), direction, on)
    {
      hide Valid, PidCores.PidCore.Valid, RelayAction, WithDuty, View, LearntView, Held, Calibrating,
           HysteresisCore.View, DutyCycler.View;
      SetDuties(Full(direction.Warmer? && on), Full(direction.Colder? && on));
      changed := Show();
    }

    method FeedRun(value: real, now: nat) returns (on: bool)
      requires Valid() && run != null && Timely(View(), now)
      modifies Running()
      ensures Valid() && run.View() == Fed(old(run.View()), value, now)
      ensures View() == old(View()).(run := Some(run.View()))
      ensures !Found(run.View()) ==> on == Closes(run.View())
    {
      hide Fed, Closes, Autotunes.Past, OneRelay, RelayClaims.Past, InPast, Held, HysteresisCore.View, DutyCycler.View;
      FoundOnce(run.View(), value, now);
      on := run.Feed(value, now);
    }

    /** One reading for the calibration, which it may end; `acted` says whether there is news to show. */
    method FeedAutotune(value: real, now: nat) returns (acted: bool)
      requires Valid() && pid.Valid() && run != null && Timely(View(), now)
      modifies this`run, this`controlled, this`controlDue, this`action, Running(), heatDuty, coolDuty, Learning()
      ensures Valid() && pid.Valid() && View() == RunFed(old(View()), value, now)
    {
      hide Valid, PidCores.PidCore.Valid, Fed, LimitReached, Swinging, RunEnded, Closes, Timely, View, LearntView,
           Held, Calibrating, HysteresisCore.View, DutyCycler.View;
      Sees();
      var limited := value > doc.maxTemperature || run.Limited(now);
      if limited {
        EndAutotune();
        return true;
      }
      var on := FeedRun(value, now);
      if run.tuner.finished {
        return false;
      }
      acted := Swing(run.direction, on);
    }

    method TakeRun(begun: AutotuneRun)
      requires Valid()
      modifies this`run
      ensures Valid() && run == begun && View() == old(View()).(run := Some(begun.View()))
    {
      hide Held, HysteresisCore.View, DutyCycler.View;
      run := begun;
    }

    /** The relay in the calibration's direction is its own from here on. */
    method BeginAutotune(begun: AutotuneRun, now: nat)
      requires Valid() && pid.Valid() && Timely(View(), now)
      requires begun.View() == Begun(begun.direction, doc.setpoint, now)
      modifies this`run, this`controlled, this`controlDue, this`action, begun, begun.tuner, heatDuty, coolDuty,
               Learning()
      ensures Valid() && pid.Valid() && View() == RunBegun(old(View()), begun.direction, now) && Timely(View(), now)
      ensures old(Safe(View())) && old(running) && old(run) == null && Drives(old(doc).mode, begun.direction) ==>
                Safe(View())
    {
      hide Valid, PidCores.PidCore.Valid, RunFed, WithDuty, Timely, Safe, Begun, RelayAction, View, LearntView, Held,
           Calibrating, HysteresisCore.View, DutyCycler.View;
      Sees();
      BegunWell(View(), begun.direction, now);
      TakeRun(begun);
      if hasSample && temperature.Some? {
        var acted := FeedAutotune(temperature.value, now);
      } else {
        SetDuties(ZERO, ZERO);
        var changed := Show();
      }
    }

    // --- Readings and commands ---

    method NoteSample(now: nat)
      requires Valid()
      modifies this`lastSample, this`hasSample
      ensures Valid() && View() == old(View()).(lastSample := now, hasSample := true)
    {
      hide Held, Calibrating, HysteresisCore.View, DutyCycler.View;
      lastSample := now;
      hasSample := true;
    }

    method SetTemperature(value: Option<real>)
      requires Valid()
      modifies this`temperature
      ensures Valid() && View() == old(View()).(temperature := value)
    {
      hide Held, Calibrating, HysteresisCore.View, DutyCycler.View;
      temperature := value;
    }

    /** One reading, for the calibration first; `publish` is whether it made a difference. */
    method OnSample(value: real, now: nat) returns (publish: bool)
      requires Valid() && pid.Valid() && Timely(View(), now)
      modifies this`lastSample, this`hasSample, this`temperature, this`run, this`controlled, this`controlDue,
               this`action, Running(), heatDuty, coolDuty, Learning()
      ensures Valid() && pid.Valid() && Timely(View(), now) && (old(Safe(View())) ==> Safe(View()))
      ensures View() == if old(running) then Sampled(old(View()), value, now) else old(View())
    {
      hide Valid, PidCores.PidCore.Valid, RunFed, Timely, Safe, View, LearntView, Held, Calibrating,
           HysteresisCore.View, DutyCycler.View;
      Sees();
      if !running {
        return false;
      }
      SampledWell(View(), value, now);
      NoteSample(now);
      var acted := false;
      if run != null {
        acted := FeedAutotune(value, now);
      }
      Sees();
      if temperature == Some(value) && !acted {
        return false;
      }
      SetTemperature(Some(value));
      return true;
    }

    method TakeDocument(next: Document)
      requires Valid()
      modifies this`doc, hysteresis
      ensures Valid() && doc == next
      ensures View() == old(View()).(doc := next, latch := LatchKept(next.mode == old(doc.mode), old(View()).latch))
    {
      hide Held, Calibrating, DutyCycler.View;
      var mode := doc.mode;
      doc := next;
      if doc.mode != mode {
        hysteresis.Reset();
      }
    }

    method Move(next: Document)
      requires Valid() && pid.Valid()
      modifies this`doc, hysteresis, this`run, this`controlled, this`controlDue, heatDuty, coolDuty, Learning()
      ensures Valid() && pid.Valid() && View() == DocumentMoved(old(View()), next)
    {
      hide Valid, PidCores.PidCore.Valid, RunEnded, View, LearntView, Held, Calibrating, HysteresisCore.View,
           DutyCycler.View;
      Sees();
      var previous := doc;
      TakeDocument(next);
      if next.mode != previous.mode || next.setpoint != previous.setpoint {
        EndAutotune();
      }
    }

    method TakeSetpoints()
      requires Valid()
      modifies hysteresis
      ensures Valid() && View() == Setpoints(old(View()))
    {
      hide Held, Calibrating, DutyCycler.View;
      hysteresis.SetSetpoints(Some(doc.setpoint - doc.below), Some(doc.setpoint + doc.above));
    }

    method MakeDue()
      requires Valid()
      modifies this`controlDue
      ensures Valid() && View() == old(View()).(controlDue := true)
    {
      hide Held, Calibrating, HysteresisCore.View, DutyCycler.View;
      controlDue := true;
    }

    /** One command, whatever of preset, mode and target it carries; `changed` compares the documents. */
    method Apply(preset: Option<Preset>, mode: Option<Mode>, target: Option<real>, ghost now: nat)
      returns (changed: bool)
      requires Valid() && pid.Valid() && running && Timely(View(), now)
      modifies this`doc, hysteresis, this`run, this`controlled, this`controlDue, this`action, heatDuty, coolDuty,
               Learning()
      ensures Valid() && pid.Valid() && View() == Applying(old(View()), preset, mode, target)
      ensures Timely(View(), now) && (old(Safe(View())) ==> Safe(View()))
      ensures changed == (doc.mode != old(doc.mode) || doc.setpoint != old(doc.setpoint)
                          || doc.activePreset != old(doc.activePreset))
    {
      hide Valid, PidCores.PidCore.Valid, Shown, DocumentMoved, Commanded, Setpoints, Timely, Safe, View, LearntView,
           Held, Calibrating, HysteresisCore.View, DutyCycler.View;
      Sees();
      AppliedWell(View(), preset, mode, target, now);
      var previous := doc;
      Move(Commanded(doc, preset, mode, target));
      TakeSetpoints();
      var shown := Show();
      MakeDue();
      Sees();
      return doc.mode != previous.mode || doc.setpoint != previous.setpoint
          || doc.activePreset != previous.activePreset;
    }

    // --- The pass ---

    method FindFault(now: nat) returns (found: Fault)
      requires Valid() && Timely(View(), now)
      ensures found == FaultNow(View(), now)
    {
      hide Calibrating, HysteresisCore.View, DutyCycler.View, Autotunes.Past, OneRelay, InPast;
      var silence := now - if hasSample then lastSample else waitingSince;
      if silence > doc.timeout {
        return SensorStale;
      }
      if hasSample && temperature.Some? && temperature.value > doc.maxTemperature {
        return Overtemp;
      }
      if heatClaim != null && heatClaim.IsContested(now) {
        return RelayContested;
      }
      if coolClaim != null && coolClaim.IsContested(now) {
        return RelayContested;
      }
      return NoFault;
    }

    method RefreshFault(now: nat)
      requires Valid() && Timely(View(), now)
      modifies this`fault, this`controlDue
      ensures Valid() && View() == FaultSet(old(View()), now)
    {
      hide FaultNow, Held, Calibrating, HysteresisCore.View, DutyCycler.View, Autotunes.Past, OneRelay, InPast,
           RelayClaims.Past;
      var next := FindFault(now);
      if next == fault {
        return;
      }
      if CutsOut(fault) && !CutsOut(next) {
        controlDue := true;
      }
      fault := next;
    }

    method RunLaw(first: bool, elapsed: real) returns (effort: real)
      requires Valid() && pid.Valid() && temperature.Some?
      modifies Learning()
      ensures Valid() && pid.Valid() && View() == old(View())
      ensures var law := old(LearntView());
              var (after, asked) := PidCores.Updated(law.tuning, ControlLaws.ForgottenIf(first, law.pid),
                                                     doc.setpoint, temperature.value, elapsed);
              LearntView() == law.(pid := after) && effort == asked
    {
      hide PidCores.Updated, Held, Calibrating, HysteresisCore.View, DutyCycler.View;
      if first {
        pid.ForgetSamples();
      }
      effort := pid.Update(doc.setpoint, temperature.value, elapsed);
    }

    /** The effort a duty one way or the other, in the directions the mode drives. */
    method SplitEffort(effort: real)
      requires Valid()
      modifies heatDuty, coolDuty
      ensures Valid() && View() == PidRun(old(View()), Some(effort))
    {
      hide Valid, PidCores.PidCore.Valid, WithDuty, View, LearntView, Held, Calibrating, HysteresisCore.View,
           DutyCycler.View;
      Sees();
      var mayHeat := doc.heatConfigured && Heats(doc.mode);
      var mayCool := doc.coolConfigured && Cools(doc.mode);
      SetDuties(if mayHeat then Some(DutyCyclers.Held(Some(effort))) else ZERO,
                if mayCool then Some(DutyCyclers.Held(Some(-effort))) else ZERO);
    }

    method UpdateLatch() returns (demand: Action)
      requires Valid()
      modifies hysteresis
      ensures Valid() && View() == old(View()).(latch := Latched(old(View()).latch, doc.mode, temperature))
      ensures demand == View().latch.action
    {
      hide Latched, Held, Calibrating, DutyCycler.View;
      demand := hysteresis.Update(doc.mode, temperature);
    }

    method RunLatch()
      requires Valid()
      modifies hysteresis, heatDuty, coolDuty
      ensures Valid() && View() == LatchRun(old(View()))
    {
      hide Valid, PidCores.PidCore.Valid, Latched, WithDuty, View, LearntView, Held, Calibrating, HysteresisCore.View,
           DutyCycler.View;
      Sees();
      var demand := UpdateLatch();
      SetDuties(Full(demand.Heating?), Full(demand.Cooling?));
    }

    method NoteControl(now: nat)
      requires Valid()
      modifies this`lastControl, this`controlled, this`controlDue
      ensures Valid() && View() == old(View()).(lastControl := now, controlled := true, controlDue := false)
    {
      hide Held, Calibrating, HysteresisCore.View, DutyCycler.View;
      lastControl := now;
      controlled := true;
      controlDue := false;
    }

    /** The law run on what this pass sees. */
    method RunControl(now: nat)
      requires Valid() && pid.Valid() && temperature.Some?
      modifies this`lastControl, this`controlled, this`controlDue, hysteresis, heatDuty, coolDuty, Learning()
      ensures Valid() && pid.Valid()
      ensures var (law, effort) := ControlLaws.Controlled(old(LearntView()), old(View()), now);
              LearntView() == law && View() == ControlRun(old(View()), effort, now)
    {
      hide Valid, PidCores.PidCore.Valid, PidRun, LatchRun, PidCores.Updated, View, LearntView, Held, Calibrating,
           HysteresisCore.View, DutyCycler.View;
      Sees();
      var elapsed := if controlled then (now - lastControl) as real / 1000.0 else 0.0;
      var first := !controlled;
      NoteControl(now);
      if doc.kind.Pid? {
        var effort := RunLaw(first, elapsed);
        SplitEffort(effort);
      } else {
        RunLatch();
      }
    }

    /** One claim asked for what its cycler says. */
    method DriveOutput(claim: RelayClaim, duty: DutyCycler, now: nat)
      requires RelayClaims.Past(claim.Memory(), now) && InPast(duty.View(), now)
      modifies claim, claim.sw, duty
      ensures claim.View() == Requested(old(claim.View()), On(Advanced(old(duty.View()), now), now), now)
      ensures duty.View() == Advanced(old(duty.View()), now)
    {
      hide Requested, Advanced, On;
      var on := duty.Update(now);
      var at := claim.Request(on, now);
    }

    method DriveHeat(now: nat)
      requires Valid() && Timely(View(), now)
      modifies Relays(), heatDuty
      ensures Valid() && View() == HeatDriven(old(View()), now)
    {
      hide Requested, Advanced, On, Calibrating, RelayClaims.Past, Autotunes.Past, OneRelay, InPast,
           HysteresisCore.View, DutyCycler.View;
      if heatClaim != null {
        DriveOutput(heatClaim, heatDuty, now);
      }
    }

    method DriveCool(now: nat)
      requires Valid() && Timely(View(), now)
      modifies Relays(), coolDuty
      ensures Valid() && View() == CoolDriven(old(View()), now)
    {
      hide Requested, Advanced, On, Calibrating, RelayClaims.Past, Autotunes.Past, OneRelay, InPast,
           HysteresisCore.View, DutyCycler.View;
      if coolClaim != null {
        DriveOutput(coolClaim, coolDuty, now);
      }
    }

    method DriveOutputs(now: nat)
      requires Valid() && Timely(View(), now)
      modifies Relays(), heatDuty, coolDuty
      ensures Valid() && View() == OutputsDriven(old(View()), now)
    {
      hide Valid, PidCores.PidCore.Valid, HeatDriven, CoolDriven, Timely, View, LearntView, Held, Calibrating,
           HysteresisCore.View, DutyCycler.View;
      HeatDrivenTimely(View(), now);
      DriveHeat(now);
      DriveCool(now);
    }

    method ForceHeatOff(now: nat, paced: bool)
      requires Valid() && Timely(View(), now)
      modifies Relays()
      ensures Valid() && View() == old(View()).(heat := ForcedOffOf(old(View()).heat, now, paced))
      ensures !paced && heatClaim != null ==> !heatClaim.sw.state
    {
      hide ForcedOff, Calibrating, RelayClaims.Past, Autotunes.Past, OneRelay, InPast, HysteresisCore.View,
           DutyCycler.View;
      if heatClaim != null {
        heatClaim.ForceOff(now, paced);
      }
    }

    method ForceCoolOff(now: nat, paced: bool)
      requires Valid() && Timely(View(), now)
      modifies if coolClaim == null then {} else {coolClaim, coolClaim.sw}
      ensures Valid() && View() == old(View()).(cool := ForcedOffOf(old(View()).cool, now, paced))
      ensures !paced && coolClaim != null ==> !coolClaim.sw.state
    {
      hide ForcedOff, Calibrating, RelayClaims.Past, Autotunes.Past, OneRelay, InPast, HysteresisCore.View,
           DutyCycler.View;
      if coolClaim != null {
        coolClaim.ForceOff(now, paced);
      }
    }

    method AllRelaysOff(now: nat, paced: bool)
      requires Valid() && Timely(View(), now)
      modifies Relays(), heatDuty, coolDuty
      ensures Valid() && View() == RelaysOff(old(View()), now, paced)
      ensures !paced && heatClaim != null ==> !heatClaim.sw.state
      ensures !paced && coolClaim != null ==> !coolClaim.sw.state
    {
      hide PidCores.PidCore.Valid, ForcedOffOf, WithDuty, Timely, View, LearntView, Held, Calibrating,
           HysteresisCore.View, DutyCycler.View;
      DutiesSetTimely(View(), now);
      SetDuties(ZERO, ZERO);
      HeatForcedTimely(View(), now, paced);
      ForceHeatOff(now, paced);
      ForceCoolOff(now, paced);
    }

    method Check(now: nat)
      requires Valid() && pid.Valid() && Timely(View(), now)
      modifies this`fault, this`controlDue, this`run, this`controlled, heatDuty, coolDuty, Learning()
      ensures Valid() && pid.Valid() && Timely(View(), now) && View() == Checked(old(View()), now)
      ensures LearntView() == ControlLaws.RestartedIf(old(run) != null && run == null, old(LearntView()), doc)
    {
      hide Valid, PidCores.PidCore.Valid, FaultNow, LimitReached, RunEnded, Timely, View, LearntView, Held,
           Calibrating, HysteresisCore.View, DutyCycler.View;
      CheckedTimely(View(), now);
      RefreshFault(now);
      Sees();
      if run != null && (!fault.NoFault? || run.Limited(now)) {
        EndAutotune();
      }
    }

    method Pause()
      requires Valid()
      modifies this`controlled
      ensures Valid() && View() == old(View()).(controlled := false)
    {
      hide Held, Calibrating, HysteresisCore.View, DutyCycler.View;
      controlled := false;
    }

    method StandBy(now: nat)
      requires Valid() && Timely(View(), now)
      modifies this`controlled, heatDuty, coolDuty, Relays()
      ensures Valid()
      ensures View() == RelaysOff(old(View()).(controlled := false), now, hasSample && !CutsOut(fault))
    {
      hide Valid, RelaysOff, Timely, View;
      StandingTimely(View(), now);
      Pause();
      AllRelaysOff(now, hasSample && !CutsOut(fault));
    }

    method Act(now: nat)
      requires Valid() && pid.Valid() && Timely(View(), now) && (hasSample ==> temperature.Some?)
      modifies this`lastControl, this`controlled, this`controlDue, hysteresis, heatDuty, coolDuty, Relays(), Learning()
      ensures Valid() && pid.Valid()
      ensures var (law, effort) := ControlLaws.Acting(old(LearntView()), old(View()), now);
              LearntView() == law && View() == Acted(old(View()), effort, now)
    {
      hide Valid, PidCores.PidCore.Valid, OutputsDriven, RelaysOff, ControlRun, Timely, ControlLaws.Controlled, View,
           LearntView, Held, Calibrating, HysteresisCore.View, DutyCycler.View;
      Sees();
      if CutsOut(fault) || doc.mode.ModeOff? || !hasSample {
        StandBy(now);
      } else {
        if run == null && (controlDue || now - lastControl >= doc.interval) {
          ControlRunTimely(View(), ControlLaws.Controlled(LearntView(), View(), now).1, now);
          RunControl(now);
        }
        DriveOutputs(now);
      }
    }

    /** One pass. What it finds to act on it acts on, with what the PID gives where it runs; before and after
        it the clock and the duties are in order. */
    method Tick(now: nat)
      requires Valid() && pid.Valid() && Timely(View(), now) && Safe(View())
      modifies this`fault, this`controlDue, this`run, this`controlled, this`lastControl, this`action, hysteresis,
               heatDuty, coolDuty, Relays(), Learning()
      ensures Valid() && pid.Valid() && Timely(View(), now) && Safe(View())
      ensures var (law, effort) := ControlLaws.PassedLaw(old(LearntView()), old(View()), now);
              LearntView() == law && View() == Ticked(old(View()), effort, now)
      ensures running && doc.enabled ==> DutyInMode(View())
    {
      hide Valid, PidCores.PidCore.Valid, Checked, Acted, Shown, Timely, Safe, DutyInMode, ControlLaws.Acting,
           ControlLaws.Restarted, StandsBy, Due, View, LearntView, Held, Calibrating, HysteresisCore.View,
           DutyCycler.View;
      Sees();
      ghost var effort := ControlLaws.PassedLaw(LearntView(), View(), now).1;
      TickedTimely(View(), effort, now);
      TickedIsSafe(View(), effort, now);
      CheckedSees(View(), now);
      if !running || !doc.enabled {
        return;
      }
      Check(now);
      Sees();
      Act(now);
      var changed := Show();
    }

    // --- Starting, saving, stopping ---

    function StartOf(doc: Document, sensor: nat, heat: RelayClaim?, cool: RelayClaim?, last: Reading,
                     stale: Option<real>): Start
      reads this, if heat == null then {} else {heat, heat.sw}, if cool == null then {} else {cool, cool.sw}
    {
      Controllers.Start.Start(doc, sensor == this.sensor, Held(heat), heat == heatClaim, Held(cool), cool == coolClaim,
                              last, stale)
    }

    lemma GivesThePast(start: Start, heat: RelayClaim?, cool: RelayClaim?, now: nat)
      requires start.heat == Held(heat) && (heat != null ==> RelayClaims.Past(heat.Memory(), now))
      requires start.cool == Held(cool) && (cool != null ==> RelayClaims.Past(cool.Memory(), now))
      ensures GivesPast(start, now)
    {}

    /** The old relay's gap between pulses is not the new one's. */
    method CarryAction(sameHeat: bool, sameCool: bool)
      requires Valid()
      modifies this`action
      ensures Valid() && View() == old(View()).(action := ActionCarried(old(action), sameHeat, sameCool))
    {
      hide Held, Calibrating, HysteresisCore.View, DutyCycler.View;
      if (!sameHeat && action.Heating?) || (!sameCool && action.Cooling?) {
        action := Idle;
      }
    }

    method GiveClaims(next: nat, heat: RelayClaim?, cool: RelayClaim?)
      requires Valid() && (heat != null && cool != null ==> heat != cool && heat.sw != cool.sw)
      modifies this`sensor, this`heatClaim, this`coolClaim
      ensures Valid() && heatClaim == heat && coolClaim == cool && sensor == next
      ensures View() == old(View()).(heat := Held(heat), cool := Held(cool))
    {
      hide Held, Calibrating, HysteresisCore.View, DutyCycler.View;
      heatClaim := heat;
      coolClaim := cool;
      sensor := next;
    }

    method Rephase()
      requires Valid()
      modifies heatDuty, coolDuty
      ensures Valid()
      ensures View() == old(View()).(heatDuty := Rephased(old(heatDuty.View())),
                                     coolDuty := Rephased(old(coolDuty.View())))
    {
      hide Rephased, Held, Calibrating, HysteresisCore.View, DutyCycler.View;
      heatDuty.Reset();
      coolDuty.Reset();
    }

    method KeepPace(same: bool, next: Kind, now: nat)
      requires Valid()
      modifies this`waitingSince, this`controlled
      ensures Valid()
      ensures View() == old(View()).(waitingSince := WaitKept(old(running) && same, old(waitingSince), now),
                                     controlled := PidKept(old(View()), same, next))
    {
      hide Held, Calibrating, HysteresisCore.View, DutyCycler.View;
      controlled := running && same && kind.Pid? && next.Pid? && controlled;
      if !running || !same {
        waitingSince := now;
      }
    }

    method GiveDocument(next: Document)
      requires Valid()
      modifies this`doc, this`kind, this`controlDue, this`running
      ensures Valid() && doc == next
      ensures View() == old(View()).(running := true, doc := next, kind := next.kind, controlDue := true)
    {
      hide Held, Calibrating, HysteresisCore.View, DutyCycler.View;
      doc, kind, controlDue, running := next, next.kind, true, true;
    }

    method HandOver(start: Start, next: nat, heat: RelayClaim?, cool: RelayClaim?)
      requires Valid() && (heat != null && cool != null ==> heat != cool && heat.sw != cool.sw)
      requires start == StartOf(start.doc, next, heat, cool, start.last, start.stale)
      modifies this`sensor, this`heatClaim, this`coolClaim, this`action
      ensures Valid() && heatClaim == heat && coolClaim == cool
      ensures View() == ClaimsGiven(old(View()), start)
    {
      hide ActionCarried, View, Held, Calibrating, HysteresisCore.View, DutyCycler.View;
      Sees();
      CarryAction(heat == heatClaim, cool == coolClaim);
      GiveClaims(next, heat, cool);
    }

    method CarryOn(next: Document, same: bool, now: nat)
      requires Valid()
      modifies this`doc, this`kind, this`waitingSince, this`controlDue, this`controlled, this`running, heatDuty,
               coolDuty
      ensures Valid() && doc == next
      ensures View() == DocumentGiven(old(View()), next, same, now)
    {
      hide Valid, Rephased, WaitKept, View, Held, Calibrating, HysteresisCore.View, DutyCycler.View;
      Sees();
      if !running {
        Rephase();
      }
      Sees();
      KeepPace(same, next.kind, now);
      GiveDocument(next);
    }

    method Give(start: Start, next: nat, heat: RelayClaim?, cool: RelayClaim?, now: nat)
      requires Valid() && (heat != null && cool != null ==> heat != cool && heat.sw != cool.sw)
      requires start == StartOf(start.doc, next, heat, cool, start.last, start.stale)
      modifies this`sensor, this`heatClaim, this`coolClaim, this`action, this`doc, this`kind, this`waitingSince,
               this`controlDue, this`controlled, this`running, heatDuty, coolDuty
      ensures Valid() && heatClaim == heat && coolClaim == cool && doc == start.doc
      ensures View() == Given(old(View()), start, now)
    {
      hide Valid, ClaimsGiven, DocumentGiven, View, Held, Calibrating, HysteresisCore.View, DutyCycler.View;
      HandOver(start, next, heat, cool);
      CarryOn(start.doc, start.sameSensor, now);
    }

    method ApplyDwell()
      requires Valid()
      modifies Claims()
      ensures Valid()
      ensures View() == old(View()).(heat := Dwelling(old(Held(heatClaim)), doc.heatMinOn, doc.heatMinOff),
                                     cool := Dwelling(old(Held(coolClaim)), doc.coolMinOn, doc.coolMinOff))
    {
      hide WithDwell, Calibrating, HysteresisCore.View, DutyCycler.View;
      if heatClaim != null {
        heatClaim.SetDwell(doc.heatMinOn, doc.heatMinOff);
      }
      if coolClaim != null {
        coolClaim.SetDwell(doc.coolMinOn, doc.coolMinOff);
      }
    }

    method ApplyTuning(keeps: bool)
      requires Valid() && pid.Valid()
      modifies Learning()
      ensures Valid() && pid.Valid() && View() == old(View())
      ensures LearntView() == ControlLaws.Given(old(LearntView()), doc, keeps)
    {
      hide PidCores.Clamped, PidCores.Limited, Held, Calibrating, HysteresisCore.View, DutyCycler.View;
      pid.Configure(doc.tuning);
      if !keeps {
        pid.Restart(doc.startingIntegral);
      }
    }

    method ApplyDirections()
      requires Valid()
      modifies hysteresis
      ensures Valid()
      ensures View() == old(View()).(latch := old(View()).latch.(heats := doc.heatConfigured,
                                                                 cools := doc.coolConfigured))
    {
      hide Held, Calibrating, DutyCycler.View;
      hysteresis.SetDirections(doc.heatConfigured, doc.coolConfigured);
    }

    method ApplyLatch()
      requires Valid()
      modifies hysteresis
      ensures Valid()
      ensures View() == Setpoints(old(View())).(latch := Setpoints(old(View())).latch.(
                          heats := doc.heatConfigured, cools := doc.coolConfigured))
    {
      hide Valid, View;
      Sees();
      TakeSetpoints();
      ApplyDirections();
    }

    method ApplyPeriods()
      requires Valid()
      modifies heatDuty, coolDuty
      ensures Valid()
      ensures View() == old(View()).(heatDuty := WithPeriod(old(View()).heatDuty, doc.heatPeriod),
                                     coolDuty := WithPeriod(old(View()).coolDuty, doc.coolPeriod))
    {
      hide WithPeriod, Held, Calibrating, HysteresisCore.View, DutyCycler.View;
      heatDuty.SetPeriod(doc.heatPeriod);
      coolDuty.SetPeriod(doc.coolPeriod);
    }

    method ApplyConfig()
      requires Valid()
      modifies hysteresis, heatDuty, coolDuty, Claims()
      ensures Valid() && View() == ConfigApplied(old(View()))
    {
      hide Valid, PidCores.PidCore.Valid, Dwelling, WithPeriod, View, LearntView, Held, Calibrating,
           HysteresisCore.View, DutyCycler.View;
      ApplyLatch();
      ApplyPeriods();
      Sees();
      ApplyDwell();
    }

    method Refresh(now: nat)
      requires Valid() && Timely(View(), now)
      modifies this`fault, this`controlDue, this`action
      ensures Valid() && View() == Shown(FaultSet(old(View()), now))
    {
      hide Valid, PidCores.PidCore.Valid, Shown, FaultSet, View, Timely, LearntView, Held, Calibrating,
           HysteresisCore.View, DutyCycler.View;
      RefreshFault(now);
      var changed := Show();
    }

    method SeedLatch(seed: Action)
      requires Valid()
      modifies hysteresis
      ensures Valid() && View() == old(View()).(latch := old(View()).latch.(action := seed))
    {
      hide Held, Calibrating, DutyCycler.View;
      hysteresis.Seed(seed);
    }

    method NoteReading(last: Reading, stale: Option<real>)
      requires Valid()
      modifies this`hasSample, this`lastSample, this`temperature
      ensures Valid()
      ensures View() == old(View()).(hasSample := last.seen, lastSample := last.ms,
                                     temperature := ReadingShown(last, stale))
    {
      hide Held, Calibrating, HysteresisCore.View, DutyCycler.View;
      hasSample := last.seen;
      lastSample := last.ms;
      temperature := if last.seen then Some(last.value) else stale;
    }

    method TakeReading(start: Start, seed: Action)
      requires Valid()
      modifies hysteresis, this`hasSample, this`lastSample, this`temperature
      ensures Valid() && View() == ReadingTaken(old(View()), start, seed)
    {
      hide Valid, PidCores.PidCore.Valid, ReadingShown, View, LearntView, Held, Calibrating, HysteresisCore.View,
           DutyCycler.View;
      SeedLatch(seed);
      NoteReading(start.last, start.stale);
    }

    /** What the latch starts from. */
    function SeedFor(next: Document, heat: RelayClaim?, cool: RelayClaim?): Action
      reads this, hysteresis, if heat == null then {} else {heat}, if cool == null then {} else {cool}
    {
      var keeps := running && kind.BangBang? && next.kind.BangBang?;
      var latched := hysteresis.action;
      if heat != null && Heats(next.mode) && (if keeps then latched.Heating? else heat.state) then Heating
      else if cool != null && Cools(next.mode) && (if keeps then latched.Cooling? else cool.state) then Cooling
      else Idle
    }

    lemma SeedIs(start: Start, heat: RelayClaim?, cool: RelayClaim?)
      requires start.heat == Held(heat) && start.cool == Held(cool)
      ensures SeedFor(start.doc, heat, cool) == Seeded(View(), start)
    {
      hide Calibrating;
    }

    method Configure(keeps: bool)
      requires Valid() && pid.Valid()
      modifies hysteresis, heatDuty, coolDuty, Claims(), Learning()
      ensures Valid() && pid.Valid() && View() == ConfigApplied(old(View()))
      ensures LearntView() == ControlLaws.Given(old(LearntView()), doc, keeps)
    {
      hide PidCores.PidCore.Valid, ConfigApplied, ControlLaws.Given, View, LearntView;
      ApplyConfig();
      ApplyTuning(keeps);
    }

    method Settle(start: Start, seed: Action, now: nat)
      requires Valid() && Timely(ReadingTaken(View(), start, seed), now)
      modifies hysteresis, this`hasSample, this`lastSample, this`temperature, this`fault, this`controlDue, this`action
      ensures Valid() && View() == Shown(FaultSet(ReadingTaken(old(View()), start, seed), now))
    {
      hide Valid, ReadingTaken, Shown, FaultSet, Timely, View;
      TakeReading(start, seed);
      Refresh(now);
    }

    method Begin(start: Start, next: nat, heat: RelayClaim?, cool: RelayClaim?, now: nat)
      requires Valid() && pid.Valid() && (heat != null && cool != null ==> heat != cool && heat.sw != cool.sw)
      requires start == StartOf(start.doc, next, heat, cool, start.last, start.stale)
      requires Timely(ReadingTaken(ConfigApplied(Given(View(), start, now)), start, Seeded(View(), start)), now)
      modifies this`sensor, this`heatClaim, this`coolClaim, this`action, this`doc, this`kind, this`waitingSince,
               this`controlDue, this`controlled, this`running, this`hasSample, this`lastSample, this`temperature,
               this`fault, hysteresis, heatDuty, coolDuty, Learning(),
               if heat == null then {} else {heat}, if cool == null then {} else {cool}
      ensures Valid() && pid.Valid() && View() == Started(old(View()), start, now)
      ensures LearntView() == ControlLaws.Given(old(LearntView()), start.doc, old(KeepsLaw(start.doc, next)))
    {
      hide Valid, PidCores.PidCore.Valid, Given, ConfigApplied, ReadingTaken, Shown, FaultSet, Seeded, Timely, SeedFor,
           KeepsLaw, ControlLaws.Given, View, LearntView, Held, Calibrating;
      var keeps := KeepsLaw(start.doc, next);
      var seed := SeedFor(start.doc, heat, cool);
      SeedIs(start, heat, cool);
      Give(start, next, heat, cool, now);
      Configure(keeps);
      Settle(start, seed, now);
    }

    predicate KeepsLaw(next: Document, nextSensor: nat)
      reads this
    {
      running && sensor == nextSensor && kind.Pid? && next.kind.Pid?
    }

    /** Runs `next`, or as a Save carries on with it; no relay is touched, and the PID keeps what it learnt
        where its law and its sensor stand. */
    method Start(next: Document, sensor: nat, heat: RelayClaim?, cool: RelayClaim?, now: nat, last: Reading,
                 stale: Option<real>)
      requires Valid() && pid.Valid() && Timely(View(), now)
      requires heat != null && cool != null ==> heat != cool && heat.sw != cool.sw
      requires heat != null ==> RelayClaims.Past(heat.Memory(), now)
      requires cool != null ==> RelayClaims.Past(cool.Memory(), now)
      modifies this`sensor, this`heatClaim, this`coolClaim, this`action, this`doc, this`kind, this`waitingSince,
               this`controlDue, this`controlled, this`running, this`hasSample, this`lastSample, this`temperature,
               this`fault, hysteresis, heatDuty, coolDuty, Learning(),
               if heat == null then {} else {heat}, if cool == null then {} else {cool}
      ensures Valid() && pid.Valid()
      ensures Timely(View(), now) && (old(Safe(View())) && old(run) == null ==> Safe(View()))
      ensures View() == Started(old(View()), old(StartOf(next, sensor, heat, cool, last, stale)), now)
      ensures LearntView() == ControlLaws.Given(old(LearntView()), next, old(KeepsLaw(next, sensor)))
    {
      hide Valid, PidCores.PidCore.Valid, Started, Given, ConfigApplied, ReadingTaken, Seeded, Timely, Safe, KeepsLaw,
           ControlLaws.Given, View, LearntView, Held, Calibrating, HysteresisCore.View, DutyCycler.View;
      Sees();
      var start := StartOf(next, sensor, heat, cool, last, stale);
      GivesThePast(start, heat, cool, now);
      StartedWell(View(), start, now);
      Begin(start, sensor, heat, cool, now);
    }

    method LetGo()
      requires Valid()
      modifies this`running, this`heatClaim, this`coolClaim
      ensures Valid() && View() == old(View()).(running := false, heat := None, cool := None)
    {
      hide Calibrating, HysteresisCore.View, DutyCycler.View;
      running, heatClaim, coolClaim := false, null, null;
    }

    method ShowNothing()
      requires Valid()
      modifies this`action, this`fault, this`hasSample, this`temperature
      ensures Valid()
      ensures View() == old(View()).(action := ActionOff, fault := NoFault, hasSample := false, temperature := None)
    {
      hide Held, Calibrating, HysteresisCore.View, DutyCycler.View;
      action, fault, hasSample, temperature := ActionOff, NoFault, false, None;
    }

    method ShutDown(now: nat)
      requires Valid() && pid.Valid() && Timely(View(), now)
      modifies this`run, this`controlled, this`controlDue, heatDuty, coolDuty, Relays(), Learning()
      ensures Valid() && pid.Valid() && View() == RelaysOff(RunEnded(old(View())), now, false)
      ensures heatClaim != null ==> !heatClaim.sw.state
      ensures coolClaim != null ==> !coolClaim.sw.state
    {
      hide Valid, PidCores.PidCore.Valid, RunEnded, RelaysOff, Timely, View, LearntView, Held, Calibrating,
           HysteresisCore.View, DutyCycler.View;
      RunEndedTimely(View(), now);
      EndAutotune();
      AllRelaysOff(now, false);
    }

    /** Both relays are open afterwards and let go of. */
    method Stop(now: nat)
      requires Valid() && pid.Valid() && Timely(View(), now)
      modifies this`run, this`controlled, this`controlDue, this`running, this`heatClaim, this`coolClaim, this`action,
               this`fault, this`hasSample, this`temperature, heatDuty, coolDuty, Relays(), Learning()
      ensures Valid() && pid.Valid() && View() == Stopped(old(View()), now)
      ensures Timely(View(), now) && (old(Safe(View())) ==> Safe(View()))
      ensures old(running) && old(heatClaim) != null ==> !old(heatClaim).sw.state
      ensures old(running) && old(coolClaim) != null ==> !old(coolClaim).sw.state
    {
      hide Valid, PidCores.PidCore.Valid, RunEnded, RelaysOff, Timely, Safe, View, LearntView, Held, Calibrating,
           HysteresisCore.View, DutyCycler.View;
      Sees();
      StoppedWell(View(), now);
      if !running {
        return;
      }
      ShutDown(now);
      LetGo();
      ShowNothing();
    }

    /** Forgets a claim another thermostat goes on with; nothing of the claim changes. */
    method ReleaseClaim(claim: RelayClaim)
      requires Valid()
      modifies this`heatClaim, this`coolClaim
      ensures Valid() && claim != heatClaim && claim != coolClaim
      ensures View() == old(View()).(
                heat := if old(heatClaim) == claim then None else old(View()).heat,
                cool := if old(coolClaim) == claim then None else old(View()).cool)
    {
      hide Calibrating, HysteresisCore.View, DutyCycler.View;
      if heatClaim == claim {
        heatClaim := null;
      }
      if coolClaim == claim {
        coolClaim := null;
      }
    }
  }

  lemma BegunWell(s: Controller, direction: Direction, now: nat)
    requires Timely(s, now)
    ensures Timely(RunBegun(s, direction, now), now)
    ensures Timely(s.(run := Some(Begun(direction, s.doc.setpoint, now))), now)
    ensures Safe(s) && s.running && s.run.None? && Drives(s.doc.mode, direction) ==> Safe(RunBegun(s, direction, now))
  {
    hide Safe, RunBegun, Begun, Autotunes.Past, OneRelay, RelayClaims.Past, InPast;
    RunBegunTimely(s, direction, now);
    BegunIsPast(direction, s.doc.setpoint, now);
    if Safe(s) && s.running && s.run.None? && Drives(s.doc.mode, direction) {
      RunBegunIsSafe(s, direction, now);
    }
  }

  lemma SeenTimely(s: Controller, now: nat)
    requires Timely(s, now)
    ensures Timely(s.(lastSample := now, hasSample := true), now)
  {
    hide Autotunes.Past, OneRelay, RelayClaims.Past, InPast;
  }

  lemma SampledWell(s: Controller, value: real, now: nat)
    requires Timely(s, now) && s.running
    ensures Timely(s.(lastSample := now, hasSample := true), now)
    ensures Timely(Sampled(s, value, now), now) && (Safe(s) ==> Safe(Sampled(s, value, now)))
  {
    SeenTimely(s, now);
    hide Safe, Sampled, Timely;
    SampledTimely(s, value, now);
    if Safe(s) {
      SampledIsSafe(s, value, now);
    }
  }

  lemma AppliedWell(s: Controller, preset: Option<Preset>, mode: Option<Mode>, target: Option<real>, now: nat)
    requires Timely(s, now) && s.running
    ensures var r := Applying(s, preset, mode, target);
            Timely(r, now) && (Safe(s) ==> Safe(r))
  {
    hide Safe, Applying, Timely;
    ApplyingTimely(s, preset, mode, target, now);
    if Safe(s) {
      ApplyingIsSafe(s, preset, mode, target);
    }
  }

  lemma DutiesSetTimely(s: Controller, now: nat)
    requires Timely(s, now)
    ensures Timely(DutiesSet(s, ZERO, ZERO), now)
  {
    hide Autotunes.Past, OneRelay, RelayClaims.Past, InPast, WithDuty;
    DutyAside(s.heatDuty, ZERO, now);
    DutyAside(s.coolDuty, ZERO, now);
  }

  lemma HeatForcedTimely(s: Controller, now: nat, paced: bool)
    requires Timely(s, now)
    ensures Timely(s.(heat := ForcedOffOf(s.heat, now, paced)), now)
  {
    hide ForcedOff, Autotunes.Past, OneRelay, RelayClaims.Past, InPast;
  }

  lemma HeatDrivenTimely(s: Controller, now: nat)
    requires Timely(s, now)
    ensures Timely(HeatDriven(s, now), now)
  {
    hide Requested, Advanced, On, Autotunes.Past, OneRelay, RelayClaims.Past, InPast;
    AdvancedIsPast(s.heatDuty, now);
  }

  lemma StandingTimely(s: Controller, now: nat)
    requires Timely(s, now)
    ensures Timely(s.(controlled := false), now)
  {
    hide Autotunes.Past, OneRelay, RelayClaims.Past, InPast;
  }

  lemma CheckedSees(s: Controller, now: nat)
    requires Safe(s)
    ensures var c := Checked(s, now);
            && (c.hasSample ==> c.temperature.Some?)
            && c.running == s.running && c.doc == s.doc && (s.run.None? ==> c.run.None?)
  {
    hide FaultNow, LimitReached, WithDuty, OneWayDuty, DutyInMode;
  }

  lemma GivenTimely(s: Controller, start: Start, now: nat)
    requires Timely(s, now) && GivesPast(start, now)
    ensures Timely(ReadingTaken(ConfigApplied(Given(s, start, now)), start, Seeded(s, start)), now)
  {
    hide Seeded, Autotunes.Past, OneRelay;
  }

  lemma StartedWell(s: Controller, start: Start, now: nat)
    requires Timely(s, now) && GivesPast(start, now)
    ensures Timely(ReadingTaken(ConfigApplied(Given(s, start, now)), start, Seeded(s, start)), now)
    ensures Timely(Started(s, start, now), now) && (Safe(s) && s.run.None? ==> Safe(Started(s, start, now)))
  {
    GivenTimely(s, start, now);
    hide Safe, Started, Timely;
    StartedTimely(s, start, now);
    if Safe(s) && s.run.None? {
      StartedIsSafe(s, start, now);
    }
  }

  lemma StoppedWell(s: Controller, now: nat)
    requires Timely(s, now)
    ensures Timely(Stopped(s, now), now) && (Safe(s) ==> Safe(Stopped(s, now)))
  {
    hide Safe, Stopped, Timely;
    StoppedTimely(s, now);
    if Safe(s) {
      StoppedIsSafe(s, now);
    }
  }

  /** A reading that finds no gains leaves the calibration's relay where its output says. */
  lemma FoundOnce(c: Calibration, value: real, now: nat)
    ensures Found(c) ==> Found(Fed(c, value, now))
  {}
}
