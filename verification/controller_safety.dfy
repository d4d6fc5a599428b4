/** What the control loop keeps over every run: passes, readings, commands, Saves, calibrations, and a
    world that moves its relays at any moment (components/climate_hub/controller_runtime.cpp). */
module ControllerSafety {
  import opened Options
  import opened ThermostatWords
  import opened RelayClaims
  import opened DutyCyclers
  import opened Hysteresis
  import opened Autotunes
  import RelayTuner
  import opened Controllers

  datatype Event =
    | Tick(output: Option<real>, now: nat)
    | Arrived(value: real, now: nat)
    | Command(preset: Option<Preset>, mode: Option<Mode>, target: Option<real>, now: nat)
    | BeginRun(direction: Direction, now: nat)
    | EndRun
    | StartOrSave(start: Start, now: nat)
    | Stop(now: nat)
    | MovedFromElsewhere(direction: Direction)
    | TakenAway(direction: Direction)

  function Flipped(claim: Option<Driven>): Option<Driven> {
    if claim.Some? then Some(claim.value.(relay := !claim.value.relay)) else None
  }

  /** What the hub lets happen: it starts a calibration only of a running PID without a fault, in a
      direction the mode drives; a Save ends one first. */
  function Happened(s: Controller, e: Event): Controller {
    match e
    case Tick(output, now) => Ticked(s, output, now)
    case Arrived(value, now) => if s.running then Sampled(s, value, now) else s
    case Command(preset, mode, target, _) => if s.running then Applying(s, preset, mode, target) else s
    case BeginRun(direction, now) =>
      if s.running && s.run.None? && s.doc.kind.Pid? && s.fault.NoFault? && Drives(s.doc.mode, direction)
      then RunBegun(s, direction, now)
      else s
    case EndRun => RunEnded(s)
    case StartOrSave(start, now) => Started(RunEnded(s), start, now)
    case Stop(now) => Stopped(s, now)
    case MovedFromElsewhere(direction) =>
      if direction.Warmer? then s.(heat := Flipped(s.heat)) else s.(cool := Flipped(s.cool))
    case TakenAway(direction) => if direction.Warmer? then s.(heat := None) else s.(cool := None)
  }

  function After(events: seq<Event>): Controller {
    if events == [] then NEW_CONTROLLER else Happened(After(events[..|events| - 1]), events[|events| - 1])
  }

  // --- The invariant ---

  /** Never heating and cooling at once. */
  predicate OneWayDuty(s: Controller) {
    && 0.0 <= s.heatDuty.duty <= 1.0 && 0.0 <= s.coolDuty.duty <= 1.0
    && !(s.heatDuty.duty > 0.0 && s.coolDuty.duty > 0.0)
  }

  /** Only a direction the mode drives has duty. */
  predicate DutyInMode(s: Controller) {
    && (s.heatDuty.duty > 0.0 ==> Heats(s.doc.mode))
    && (s.coolDuty.duty > 0.0 ==> Cools(s.doc.mode))
  }

  /** The action says off exactly in mode off or on a cut-out. */
  predicate OffMeansOff(s: Controller) {
    s.action.ActionOff? <==> CutsOut(s.fault) || s.doc.mode.ModeOff?
  }

  /** All but what the entity shows. */
  predicate Sane(s: Controller) {
    && OneWayDuty(s)
    && (s.hasSample ==> s.temperature.Some?)
    && (!s.running ==> s.run.None?)
    && (s.running ==>
          && Fits(s.latch.action, s.doc.mode)
          && (s.run.Some? || !s.controlDue ==> DutyInMode(s))
          && (s.run.Some? ==> Drives(s.doc.mode, s.run.value.direction)))
  }

  predicate Safe(s: Controller) {
    Sane(s) && if s.running then OffMeansOff(s) else s.action.ActionOff?
  }

  lemma ShownIsSafe(s: Controller)
    requires Sane(s) && s.running
    ensures Safe(Shown(s)) && DutyInMode(Shown(s)) == DutyInMode(s)
  {
    hide Shows;
  }

  lemma RunEndedIsSafe(s: Controller)
    requires Safe(s)
    ensures Safe(RunEnded(s)) && RunEnded(s).run.None?
    ensures s.run.Some? ==> DutyInMode(RunEnded(s))
  {}

  lemma SwingingIsSafe(s: Controller, direction: Direction, on: bool)
    requires s.running && s.run.Some? && s.run.value.direction == direction && Drives(s.doc.mode, direction)
    requires Fits(s.latch.action, s.doc.mode) && (s.hasSample ==> s.temperature.Some?)
    ensures Safe(Swinging(s, direction, on)) && Swinging(s, direction, on).running
  {
    var held := DutiesSet(s, Full(direction.Warmer? && on), Full(direction.Colder? && on));
    assert Sane(held);
    ShownIsSafe(held);
  }

  lemma RunFedIsSafe(s: Controller, value: real, now: nat)
    requires Safe(s) && s.running && s.run.Some? && s.hasSample
    ensures Safe(RunFed(s, value, now)) && RunFed(s, value, now).running
  {
    if value > s.doc.maxTemperature || LimitReached(s.run.value, now) {
      hide LimitReached, RelayTuner.Updated;
      RunEndedIsSafe(s);
    } else {
      var run := Fed(s.run.value, value, now);
      assert run.direction == s.run.value.direction;
      SwingingIsSafe(s.(run := Some(run)), run.direction, Closes(run));
      hide LimitReached, Found, Fed, Closes, Swinging;
    }
  }

  lemma RunBegunIsSafe(s: Controller, direction: Direction, now: nat)
    requires Safe(s) && s.running && s.run.None? && Drives(s.doc.mode, direction)
    ensures Safe(RunBegun(s, direction, now))
  {
    var begun := s.(run := Some(Begun(direction, s.doc.setpoint, now)));
    if s.hasSample {
      FirstReadingFindsNothing(direction, s.doc.setpoint, s.temperature.value, now);
      var run := Fed(begun.run.value, s.temperature.value, now);
      assert run.direction == direction;
      SwingingIsSafe(begun.(run := Some(run)), direction, Closes(run));
      BegunEndsSafe(s, begun);
      hide LimitReached, Found, Fed, Closes, Swinging, Begun, RunEnded;
    } else {
      hide Begun;
      ShownIsSafe(DutiesSet(begun, ZERO, ZERO));
    }
  }

  lemma BegunEndsSafe(s: Controller, begun: Controller)
    requires Safe(s) && s.running && begun == s.(run := begun.run)
    ensures begun.run.Some? ==> Safe(RunEnded(begun))
  {}

  lemma SampledIsSafe(s: Controller, value: real, now: nat)
    requires Safe(s) && s.running
    ensures Safe(Sampled(s, value, now))
  {
    hide RunFed;
    var seen := s.(lastSample := now, hasSample := true, temperature := Some(value));
    if s.run.Some? {
      RunFedIsSafe(seen, value, now);
      RunFedOtherTemperature(seen, s.temperature, value, now);
    }
  }

  /** Feeding a calibration looks at the reading it is given, not at the one the entity shows. */
  lemma RunFedOtherTemperature(s: Controller, shown: Option<real>, value: real, now: nat)
    requires s.run.Some?
    ensures RunFed(s.(temperature := shown), value, now) == RunFed(s, value, now).(temperature := shown)
  {
    hide LimitReached, Fed, Found, Closes, RelayAction;
    if !(value > s.doc.maxTemperature || LimitReached(s.run.value, now)) {
      var run := Fed(s.run.value, value, now);
      SwingingOtherTemperature(s.(run := Some(run)), shown, run.direction, Closes(run));
    }
  }

  lemma SwingingOtherTemperature(s: Controller, shown: Option<real>, direction: Direction, on: bool)
    ensures Swinging(s.(temperature := shown), direction, on) == Swinging(s, direction, on).(temperature := shown)
  {
    hide WithDuty;
  }

  lemma ApplyingIsSafe(s: Controller, preset: Option<Preset>, mode: Option<Mode>, target: Option<real>)
    requires Safe(s) && s.running
    ensures Safe(Applying(s, preset, mode, target))
  {
    hide Commanded;
  }

  lemma ControlRunIsSane(s: Controller, output: Option<real>, now: nat)
    requires Sane(s) && s.running && s.run.None?
    ensures var r := ControlRun(s, output, now);
            Sane(r) && DutyInMode(r) && r.running
  {}

  lemma OutputsDrivenIsSane(s: Controller, now: nat)
    requires Sane(s)
    ensures Sane(OutputsDriven(s, now)) && (DutyInMode(s) ==> DutyInMode(OutputsDriven(s, now)))
  {
    hide Requested;
  }

  lemma RelaysOffIsSane(s: Controller, now: nat, paced: bool)
    requires Sane(s)
    ensures Sane(RelaysOff(s, now, paced)) && DutyInMode(RelaysOff(s, now, paced))
  {
    hide ForcedOff;
  }

  lemma CheckedIsSane(s: Controller, now: nat)
    requires Sane(s) && s.running
    ensures Sane(Checked(s, now)) && Checked(s, now).doc == s.doc && Checked(s, now).running
  {
    hide FaultNow, LimitReached;
  }

  lemma ActedIsSane(s: Controller, output: Option<real>, now: nat)
    requires Sane(s) && s.running
    ensures Sane(Acted(s, output, now)) && DutyInMode(Acted(s, output, now)) && Acted(s, output, now).running
  {
    ActedRuns(s, output, now);
    if StandsBy(s) {
      RelaysOffIsSane(s.(controlled := false), now, s.hasSample && !CutsOut(s.fault));
    } else if Due(s, now) {
      ControlRunIsSane(s, output, now);
      hide ControlRun, OutputsDriven;
      OutputsDrivenIsSane(ControlRun(s, output, now), now);
    } else {
      OutputsDrivenIsSane(s, now);
    }
  }

  lemma ActedRuns(s: Controller, output: Option<real>, now: nat)
    ensures Acted(s, output, now).running == s.running
  {
    hide Requested, ForcedOff, Latched, Advanced, On, PidRun, LatchRun;
    PidRunFrame(s, output, now);
  }

  lemma PidRunFrame(s: Controller, output: Option<real>, now: nat)
    ensures ControlRun(s, output, now).running == s.running
    ensures ControlRun(s, output, now).action == s.action
    ensures ControlRun(s, output, now).heat == s.heat && ControlRun(s, output, now).cool == s.cool
    ensures StandsBy(ControlRun(s, output, now)) == StandsBy(s)
    ensures ControlRun(s, output, now).fault == s.fault && ControlRun(s, output, now).hasSample == s.hasSample
  {
    hide Latched, Held;
  }

  /** A pass leaves duty only in a direction the mode drives. */
  lemma TickedIsSafe(s: Controller, output: Option<real>, now: nat)
    requires Safe(s)
    ensures Safe(Ticked(s, output, now))
    ensures s.running && s.doc.enabled ==> DutyInMode(Ticked(s, output, now))
  {
    hide Sane, Checked, Acted, DutyInMode;
    if s.running && s.doc.enabled {
      CheckedIsSane(s, now);
      ActedIsSane(Checked(s, now), output, now);
      ShownIsSafe(Acted(Checked(s, now), output, now));
    }
  }

  lemma StartedIsSafe(s: Controller, start: Start, now: nat)
    requires Safe(s) && s.run.None?
    ensures Safe(Started(s, start, now)) && Started(s, start, now).running
  {
    hide ContestedBy;
  }

  lemma HappenedIsSafe(s: Controller, e: Event)
    requires Safe(s)
    ensures Safe(Happened(s, e))
  {
    hide Ticked, Sampled, Applying, RunBegun, RunEnded, Started, Stopped;
    match e
    case Tick(output, now) => TickedIsSafe(s, output, now);
    case Arrived(value, now) => if s.running { SampledIsSafe(s, value, now); }
    case Command(preset, mode, target, _) => if s.running { ApplyingIsSafe(s, preset, mode, target); }
    case BeginRun(direction, now) =>
      if s.running && s.run.None? && Drives(s.doc.mode, direction) { RunBegunIsSafe(s, direction, now); }
    case EndRun => RunEndedIsSafe(s);
    case StartOrSave(start, now) => RunEndedIsSafe(s); StartedIsSafe(RunEnded(s), start, now);
    case Stop(now) => StoppedIsSafe(s, now);
    case _ =>
  }

  lemma StoppedIsSafe(s: Controller, now: nat)
    requires Safe(s)
    ensures Safe(Stopped(s, now))
  {
    hide ForcedOff;
  }

  /** Every run, from a new controller on: through mode changes, presets, Saves, calibrations and
      whatever moves the relays, heating and cooling never have duty together, and the action says off
      exactly in mode off, on a cut-out or stopped. */
  lemma {:induction false} EveryRunIsSafe(events: seq<Event>)
    ensures Safe(After(events))
    decreases |events|
  {
    if events != [] {
      EveryRunIsSafe(events[..|events| - 1]);
      HappenedIsSafe(After(events[..|events| - 1]), events[|events| - 1]);
    }
  }

  /** And after every pass of every run, only a direction the mode drives has duty. */
  lemma DutyFollowsMode(events: seq<Event>, output: Option<real>, now: nat)
    requires After(events).running && After(events).doc.enabled
    ensures DutyInMode(After(events + [Tick(output, now)]))
  {
    hide Ticked, DutyInMode;
    EveryRunIsSafe(events);
    TickedIsSafe(After(events), output, now);
    assert (events + [Tick(output, now)])[..|events|] == events;
  }

  // --- Cut-outs ---

  predicate Open(claim: Option<Driven>) {
    claim.Some? ==> !claim.value.relay
  }

  predicate NothingToActOn(s: Controller, now: nat) {
    Silent(s, now) || TooWarm(s) || !s.hasSample
  }

  lemma RelaysOffOpens(s: Controller, now: nat)
    ensures Open(RelaysOff(s, now, false).heat) && Open(RelaysOff(s, now, false).cool)
    ensures RelaysOff(s, now, false).heatDuty.duty == 0.0 == RelaysOff(s, now, false).coolDuty.duty
  {}

  lemma CheckedRefuses(s: Controller, now: nat)
    ensures var c := Checked(s, now);
            && c.hasSample == s.hasSample && c.fault == FaultNow(s, now) && c.doc == s.doc
            && c.heat == s.heat && c.cool == s.cool
            && (NothingToActOn(s, now) <==> CutsOut(c.fault) || !c.hasSample)
  {
    hide LimitReached, ContestedBy;
  }

  /** With a silent sensor, a reading over the limit, or no reading at all, a pass leaves both relays
      open and no duty, whatever state anything is in and whatever moved the relays. */
  lemma NothingToActOnOpensBoth(s: Controller, output: Option<real>, now: nat)
    requires s.running && s.doc.enabled && NothingToActOn(s, now)
    ensures var r := Ticked(s, output, now);
            && Open(r.heat) && Open(r.cool)
            && r.heatDuty.duty == 0.0 && r.coolDuty.duty == 0.0
            && r.heat.Some? == s.heat.Some? && r.cool.Some? == s.cool.Some?
  {
    hide ForcedOff, NothingToActOn, FaultNow;
    CheckedRefuses(s, now);
    var c := Checked(s, now);
    hide Checked, CutsOut;
    var off := RelaysOff(c.(controlled := false), now, false);
    RelaysOffOpens(c.(controlled := false), now);
    assert Acted(c, output, now) == off;
  }

  // --- A relay that is closed, and why ---

  /** Something other than demand keeps it closed for now: its min_on, or a put-back that waits. */
  predicate HeldClosed(c: Claim) {
    c.pending || c.wait.MinOn?
  }

  lemma RequestedWhy(d: Driven, want: bool, now: nat)
    ensures Requested(d, want, now).relay && !want ==> HeldClosed(Requested(d, want, now).claim)
  {}

  lemma ForcedOffWhy(d: Driven, now: nat, paced: bool)
    requires Consistent(d.claim)
    ensures ForcedOff(d, now, paced).relay ==> paced && ForcedOff(d, now, paced).claim.pending
  {}

  predicate AllConsistent(s: Controller) {
    && (s.heat.Some? ==> Consistent(s.heat.value.claim))
    && (s.cool.Some? ==> Consistent(s.cool.value.claim))
  }

  /** After a pass a closed relay either has duty in a direction the mode drives, with a reading in
      time and under the limit to go by, or its own min_on or a paced put-back holds it. */
  predicate ClosedFor(s: Controller, claim: Option<Driven>, duty: Cycler, now: nat) {
    claim.Some? && claim.value.relay ==>
      !NothingToActOn(s, now) && (duty.duty > 0.0 || HeldClosed(claim.value.claim))
  }

  lemma AdvancedKeepsDuty(c: Cycler, now: nat)
    ensures Advanced(c, now).duty == c.duty && (On(Advanced(c, now), now) ==> c.duty > 0.0)
  {}

  lemma OutputsDrivenWhy(s: Controller, now: nat)
    ensures var r := OutputsDriven(s, now);
            && r.heatDuty.duty == s.heatDuty.duty && r.coolDuty.duty == s.coolDuty.duty
            && (r.heat.Some? && r.heat.value.relay ==> r.heatDuty.duty > 0.0 || HeldClosed(r.heat.value.claim))
            && (r.cool.Some? && r.cool.value.relay ==> r.coolDuty.duty > 0.0 || HeldClosed(r.cool.value.claim))
  {
    hide Requested, HeldClosed, Advanced, On;
    AdvancedKeepsDuty(s.heatDuty, now);
    AdvancedKeepsDuty(s.coolDuty, now);
    if s.heat.Some? {
      RequestedWhy(s.heat.value, On(Advanced(s.heatDuty, now), now), now);
    }
    if s.cool.Some? {
      RequestedWhy(s.cool.value, On(Advanced(s.coolDuty, now), now), now);
    }
  }

  lemma RelaysOffWhy(s: Controller, now: nat, paced: bool)
    requires AllConsistent(s)
    ensures var r := RelaysOff(s, now, paced);
            && (r.heat.Some? && r.heat.value.relay ==> paced && HeldClosed(r.heat.value.claim))
            && (r.cool.Some? && r.cool.value.relay ==> paced && HeldClosed(r.cool.value.claim))
  {
    hide ForcedOff;
    if s.heat.Some? {
      ForcedOffWhy(s.heat.value, now, paced);
    }
    if s.cool.Some? {
      ForcedOffWhy(s.cool.value, now, paced);
    }
  }

  lemma ClosedOnlyFor(s: Controller, output: Option<real>, now: nat)
    requires s.running && s.doc.enabled && AllConsistent(s)
    ensures var r := Ticked(s, output, now);
            ClosedFor(s, r.heat, r.heatDuty, now) && ClosedFor(s, r.cool, r.coolDuty, now)
  {
    CheckedRefuses(s, now);
    var c := Checked(s, now);
    hide Checked, NothingToActOn, HeldClosed, FaultNow, CutsOut, OutputsDriven, RelaysOff, ControlRun;
    if StandsBy(c) {
      RelaysOffWhy(c.(controlled := false), now, c.hasSample && !CutsOut(c.fault));
    } else {
      OutputsDrivenWhy(if Due(c, now) then ControlRun(c, output, now) else c, now);
    }
  }

  /** The hub hands over claims that remember no move that did not happen. */
  predicate GivesSoundClaims(e: Event) {
    e.StartOrSave? ==>
      && (e.start.heat.Some? ==> Consistent(e.start.heat.value.claim))
      && (e.start.cool.Some? ==> Consistent(e.start.cool.value.claim))
  }

  lemma RunEndedKeepsRelays(s: Controller)
    ensures RunEnded(s).heat == s.heat && RunEnded(s).cool == s.cool
  {}

  lemma RunFedKeepsRelays(s: Controller, value: real, now: nat)
    requires s.run.Some?
    ensures RunFed(s, value, now).heat == s.heat && RunFed(s, value, now).cool == s.cool
  {
    hide Fed, LimitReached, RelayAction, Closes;
  }

  lemma DrivenStaysConsistent(s: Controller, now: nat)
    requires AllConsistent(s)
    ensures AllConsistent(OutputsDriven(s, now))
  {
    hide Requested, Consistent, Advanced, On;
  }

  lemma OffStaysConsistent(s: Controller, now: nat, paced: bool)
    requires AllConsistent(s)
    ensures AllConsistent(RelaysOff(s, now, paced))
  {
    hide ForcedOff, Consistent;
  }

  lemma TickedStaysConsistent(s: Controller, output: Option<real>, now: nat)
    requires AllConsistent(s)
    ensures AllConsistent(Ticked(s, output, now))
  {
    hide Checked, Consistent, ControlRun, OutputsDriven, RelaysOff, StandsBy, Due, RelayAction, FaultNow,
         NothingToActOn;
    CheckedRefuses(s, now);
    var c := Checked(s, now);
    OffStaysConsistent(c.(controlled := false), now, c.hasSample && !CutsOut(c.fault));
    PidRunFrame(c, output, now);
    DrivenStaysConsistent(if Due(c, now) then ControlRun(c, output, now) else c, now);
  }

  lemma HappenedStaysConsistent(s: Controller, e: Event)
    requires AllConsistent(s) && GivesSoundClaims(e)
    ensures AllConsistent(Happened(s, e))
  {
    hide Sampled, RunBegun, RunEnded, Ticked, Applying, Started, Stopped;
    match e
    case Tick(output, now) => TickedStaysConsistent(s, output, now);
    case Arrived(value, now) => SampledKeepsRelays(s, value, now);
    case Command(preset, mode, target, now) => ApplyingKeepsRelays(s, preset, mode, target);
    case BeginRun(direction, now) => RunBegunKeepsRelays(s, direction, now);
    case EndRun => RunEndedKeepsRelays(s);
    case StartOrSave(start, now) => StartedTakesClaims(RunEnded(s), start, now);
    case Stop(now) => StoppedKeepsNone(s, now);
    case _ =>
  }

  lemma SampledKeepsRelays(s: Controller, value: real, now: nat)
    ensures Sampled(s, value, now).heat == s.heat && Sampled(s, value, now).cool == s.cool
  {
    hide RunFed;
    if s.run.Some? {
      RunFedKeepsRelays(s.(lastSample := now, hasSample := true), value, now);
    }
  }

  lemma RunBegunKeepsRelays(s: Controller, direction: Direction, now: nat)
    ensures RunBegun(s, direction, now).heat == s.heat && RunBegun(s, direction, now).cool == s.cool
  {
    hide RunFed, RelayAction;
    if s.temperature.Some? {
      RunFedKeepsRelays(s.(run := Some(Begun(direction, s.doc.setpoint, now))), s.temperature.value, now);
    }
  }

  lemma StoppedKeepsNone(s: Controller, now: nat)
    ensures Stopped(s, now).heat == (if s.running then None else s.heat)
    ensures Stopped(s, now).cool == (if s.running then None else s.cool)
  {}

  lemma ApplyingKeepsRelays(s: Controller, preset: Option<Preset>, mode: Option<Mode>, target: Option<real>)
    ensures var r := Applying(s, preset, mode, target);
            r.heat == s.heat && r.cool == s.cool
  {
    hide Commanded, RelayAction;
  }

  lemma StartedTakesClaims(s: Controller, start: Start, now: nat)
    ensures var r := Started(s, start, now);
            && r.heat == Dwelling(start.heat, start.doc.heatMinOn, start.doc.heatMinOff)
            && r.cool == Dwelling(start.cool, start.doc.coolMinOn, start.doc.coolMinOff)
  {
    hide FaultNow, RelayAction, Seeded;
  }

  lemma {:induction false} EveryRunIsConsistent(events: seq<Event>)
    requires forall i :: 0 <= i < |events| ==> GivesSoundClaims(events[i])
    ensures AllConsistent(After(events))
    decreases |events|
  {
    if events != [] {
      var n := |events| - 1;
      EveryRunIsConsistent(events[..n]);
      HappenedStaysConsistent(After(events[..n]), events[n]);
    }
  }

  /** After every pass of every run, each closed relay has its reason: duty in a direction the mode
      drives and a fresh reading under the limit, or its own min_on or put-back still running, which a
      silent sensor or an over-temperature overrides. */
  lemma EveryClosedRelayHasItsReason(events: seq<Event>, output: Option<real>, now: nat)
    requires forall i :: 0 <= i < |events| ==> GivesSoundClaims(events[i])
    requires After(events).running && After(events).doc.enabled
    ensures var before := After(events);
            var r := After(events + [Tick(output, now)]);
            && ClosedFor(before, r.heat, r.heatDuty, now) && ClosedFor(before, r.cool, r.coolDuty, now)
            && DutyInMode(r) && OneWayDuty(r)
  {
    hide Ticked, DutyInMode, ClosedFor, OneWayDuty, AllConsistent;
    EveryRunIsConsistent(events);
    EveryRunIsSafe(events);
    var s := After(events);
    assert After(events + [Tick(output, now)]) == Ticked(s, output, now) by {
      assert (events + [Tick(output, now)])[..|events|] == events;
    }
    TickedIsSafe(s, output, now);
    SafeMeansOneWay(Ticked(s, output, now));
    ClosedOnlyFor(s, output, now);
  }

  lemma SafeMeansOneWay(s: Controller)
    requires Safe(s)
    ensures OneWayDuty(s)
  {}

  // --- What is shown ---

  /** Heating comes up only once the heating relay has closed, and cooling likewise. */
  lemma ShownOnceClosed(s: Controller)
    ensures var r := Shown(s);
            && (r.action.Heating? && !s.action.Heating? ==> s.heat.Some? && s.heat.value.claim.state)
            && (r.action.Cooling? && !s.action.Cooling? ==> s.cool.Some? && s.cool.value.claim.state)
  {}

  /** A pass that controls leaves no claim wrong about its relay. */
  lemma ClaimsSeeTheirRelays(s: Controller, output: Option<real>, now: nat)
    requires s.running && s.doc.enabled
    ensures var r := Ticked(s, output, now);
            && (r.heat.Some? ==> r.heat.value.claim.state == r.heat.value.relay)
            && (r.cool.Some? ==> r.cool.value.claim.state == r.cool.value.relay)
  {
    hide Checked, Due, StandsBy, ControlRun, CutsOut, Advanced, On;
  }

  /** So after a pass of any run the entity comes to say heating only with the contact closed. */
  lemma HeatingMeansClosed(s: Controller, output: Option<real>, now: nat)
    requires s.running && s.doc.enabled
    ensures var r := Ticked(s, output, now);
            && (r.action.Heating? && !s.action.Heating? ==> r.heat.Some? && r.heat.value.relay)
            && (r.action.Cooling? && !s.action.Cooling? ==> r.cool.Some? && r.cool.value.relay)
  {
    ClaimsSeeTheirRelays(s, output, now);
    var acted := Acted(Checked(s, now), output, now);
    ActedKeepsAction(Checked(s, now), output, now);
    assert acted.action == s.action;
    hide Checked, Acted, Shown;
    ShownOnceClosed(acted);
    ShownKeepsRelays(acted);
  }

  lemma ShownKeepsRelays(s: Controller)
    ensures Shown(s).heat == s.heat && Shown(s).cool == s.cool
  {}

  lemma ActedKeepsAction(s: Controller, output: Option<real>, now: nat)
    ensures Acted(s, output, now).action == s.action
  {
    hide Requested, ForcedOff, Latched, Advanced, On, ControlRun;
    PidRunFrame(s, output, now);
  }

  // --- A pass is one move in each relay's life ---

  /** What a pass does to a relay, in the words of a claim's life. */
  function MoveOf(s: Controller, duty: Cycler, now: nat): Op {
    if StandsBy(s) then CutOut(s.hasSample && !CutsOut(s.fault)) else Driving(On(Advanced(duty, now), now))
  }

  function Living(claim: Option<Driven>): Life {
    if claim.Some? then Life(Some(claim.value.claim), None, claim.value.relay) else BOOT
  }

  /** Every pass drives each claim it holds by one move of its life, so what holds of every life, such
      as that no relay is cycled short, holds of the relays this loop drives. */
  lemma PassIsLife(s: Controller, output: Option<real>, now: nat)
    requires s.running && s.doc.enabled
    ensures var c := Checked(s, now);
            var acting := if !StandsBy(c) && Due(c, now) then ControlRun(c, output, now) else c;
            var r := Ticked(s, output, now);
            && (s.heat.Some? ==> Living(r.heat) == Drive(Living(s.heat), At(now, MoveOf(acting, acting.heatDuty, now))))
            && (s.cool.Some? ==> Living(r.cool) == Drive(Living(s.cool), At(now, MoveOf(acting, acting.coolDuty, now))))
  {
    CheckedRefuses(s, now);
    PidRunFrame(Checked(s, now), output, now);
    hide Checked, Due, CutsOut, Advanced, On, Requested, ForcedOff, FaultNow, NothingToActOn, ControlRun, RelayAction;
  }
}
