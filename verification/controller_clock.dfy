/** The control loop never asks its parts about the future (components/climate_hub/controller_runtime.cpp):
    on a clock that does not run back, what the cyclers, the claims and a calibration remember lies in
    the past before every step of every run. */
module ControllerClock {
  import opened Options
  import opened ThermostatWords
  import RelayClaims
  import opened DutyCyclers
  import opened Autotunes
  import Hysteresis
  import opened Controllers
  import opened ControllerSafety

  lemma StaysTimely(s: Controller, now: nat, later: nat)
    requires Timely(s, now) && now <= later
    ensures Timely(s, later)
  {
    hide OneRelay;
  }

  lemma RunEndedTimely(s: Controller, now: nat)
    requires Timely(s, now)
    ensures Timely(RunEnded(s), now)
  {
    hide Autotunes.Past, OneRelay, RelayClaims.Past, WithDuty;
    DutyAside(s.heatDuty, ZERO, now);
    DutyAside(s.coolDuty, ZERO, now);
  }

  lemma DutyAside(c: Cycler, duty: Option<real>, now: nat)
    requires InPast(c, now)
    ensures InPast(WithDuty(c, duty), now)
  {}

  lemma ShownTimely(s: Controller, now: nat)
    requires Timely(s, now)
    ensures Timely(Shown(s), now)
  {
    hide RelayAction, Autotunes.Past, OneRelay, RelayClaims.Past, InPast;
  }

  lemma SwingingTimely(s: Controller, direction: Direction, on: bool, now: nat)
    requires Timely(s, now)
    ensures Timely(Swinging(s, direction, on), now)
  {
    hide RelayAction, Autotunes.Past, OneRelay, RelayClaims.Past, WithDuty, InPast;
    DutyAside(s.heatDuty, Full(direction.Warmer? && on), now);
    DutyAside(s.coolDuty, Full(direction.Colder? && on), now);
  }

  lemma RunFedTimely(s: Controller, value: real, now: nat)
    requires Timely(s, now) && s.run.Some?
    ensures Timely(RunFed(s, value, now), now)
  {
    hide RunEnded, Swinging, LimitReached, Found, Closes, Fed, Autotunes.Past, OneRelay, RelayClaims.Past, InPast;
    RunEndedTimely(s, now);
    var run := Fed(s.run.value, value, now);
    FeedingKeeps(s.run.value, value, now);
    SwingingTimely(s.(run := Some(run)), run.direction, Closes(run), now);
  }

  lemma BegunIsPast(direction: Direction, setpoint: real, now: nat)
    ensures Autotunes.Past(Begun(direction, setpoint, now), now) && OneRelay(Begun(direction, setpoint, now))
  {}

  lemma RunBegunTimely(s: Controller, direction: Direction, now: nat)
    requires Timely(s, now)
    ensures Timely(RunBegun(s, direction, now), now)
  {
    hide RunFed, RelayAction, Begun, Autotunes.Past, OneRelay, RelayClaims.Past, WithDuty, InPast;
    BegunIsPast(direction, s.doc.setpoint, now);
    var begun := s.(run := Some(Begun(direction, s.doc.setpoint, now)));
    if s.hasSample && s.temperature.Some? {
      RunFedTimely(begun, s.temperature.value, now);
    } else {
      DutyAside(s.heatDuty, ZERO, now);
      DutyAside(s.coolDuty, ZERO, now);
    }
  }

  lemma SampledTimely(s: Controller, value: real, now: nat)
    requires Timely(s, now)
    ensures Timely(Sampled(s, value, now), now)
  {
    hide RunFed, Autotunes.Past, OneRelay, RelayClaims.Past, InPast;
    if s.run.Some? {
      RunFedTimely(s.(lastSample := now, hasSample := true), value, now);
    }
  }

  lemma MovedTimely(s: Controller, doc: Document, now: nat)
    requires Timely(s, now)
    ensures Timely(DocumentMoved(s, doc), now)
  {
    hide RunEnded, Autotunes.Past, OneRelay, RelayClaims.Past, InPast;
    var moved := s.(doc := doc, latch := LatchKept(doc.mode == s.doc.mode, s.latch));
    RunEndedTimely(moved, now);
  }

  lemma ApplyingTimely(s: Controller, preset: Option<Preset>, mode: Option<Mode>, target: Option<real>, now: nat)
    requires Timely(s, now)
    ensures Timely(Applying(s, preset, mode, target), now)
  {
    hide DocumentMoved, Commanded, RelayAction, Autotunes.Past, OneRelay, RelayClaims.Past, InPast;
    MovedTimely(s, Commanded(s.doc, preset, mode, target), now);
  }

  lemma CheckedTimely(s: Controller, now: nat)
    requires Timely(s, now)
    ensures Timely(Checked(s, now), now)
  {
    hide RunEnded, FaultNow, LimitReached, Autotunes.Past, OneRelay, RelayClaims.Past, InPast;
    RunEndedTimely(FaultSet(s, now), now);
  }

  lemma ControlRunTimely(s: Controller, output: Option<real>, now: nat)
    requires Timely(s, now)
    ensures Timely(ControlRun(s, output, now), now)
  {
    hide Hysteresis.Latched, Autotunes.Past, OneRelay, RelayClaims.Past;
  }

  lemma AdvancedIsPast(c: Cycler, now: nat)
    requires InPast(c, now)
    ensures InPast(Advanced(c, now), now)
  {
  }

  lemma OutputsDrivenTimely(s: Controller, now: nat)
    requires Timely(s, now)
    ensures Timely(OutputsDriven(s, now), now)
  {
    hide RelayClaims.Requested, Advanced, On, Autotunes.Past, OneRelay, RelayClaims.Past, InPast;
    AdvancedIsPast(s.heatDuty, now);
    AdvancedIsPast(s.coolDuty, now);
  }

  lemma RelaysOffTimely(s: Controller, now: nat, paced: bool)
    requires Timely(s, now)
    ensures Timely(RelaysOff(s, now, paced), now)
  {
    hide RelayClaims.ForcedOff, Autotunes.Past, OneRelay, RelayClaims.Past, WithDuty, InPast;
    DutyAside(s.heatDuty, ZERO, now);
    DutyAside(s.coolDuty, ZERO, now);
  }

  lemma ActedTimely(s: Controller, output: Option<real>, now: nat)
    requires Timely(s, now)
    ensures Timely(Acted(s, output, now), now)
  {
    hide RelaysOff, OutputsDriven, ControlRun, Due, StandsBy, Autotunes.Past, OneRelay, RelayClaims.Past, InPast;
    if StandsBy(s) {
      RelaysOffTimely(s.(controlled := false), now, s.hasSample && !CutsOut(s.fault));
    } else {
      ControlRunTimely(s, output, now);
      OutputsDrivenTimely(if Due(s, now) then ControlRun(s, output, now) else s, now);
    }
  }

  lemma TickedTimely(s: Controller, output: Option<real>, now: nat)
    requires Timely(s, now)
    ensures Timely(Ticked(s, output, now), now)
  {
    hide Checked, Acted, Shown, Timely;
    CheckedTimely(s, now);
    ActedTimely(Checked(s, now), output, now);
    ShownTimely(Acted(Checked(s, now), output, now), now);
  }

  /** What a start is handed remembers no future. */
  predicate GivesPast(start: Start, now: nat) {
    && (start.heat.Some? ==> RelayClaims.Past(start.heat.value.claim, now))
    && (start.cool.Some? ==> RelayClaims.Past(start.cool.value.claim, now))
  }

  lemma StartedTimely(s: Controller, start: Start, now: nat)
    requires Timely(s, now) && GivesPast(start, now)
    ensures Timely(Started(s, start, now), now)
  {
    hide RelayAction, FaultNow, Seeded, Autotunes.Past, OneRelay;
  }

  lemma StoppedTimely(s: Controller, now: nat)
    requires Timely(s, now)
    ensures Timely(Stopped(s, now), now)
  {
    hide RelaysOff, RunEnded, Autotunes.Past, OneRelay, RelayClaims.Past, InPast;
    RunEndedTimely(s, now);
    RelaysOffTimely(RunEnded(s), now, false);
  }

  // --- Over every run ---

  function TimeOf(e: Event): Option<nat> {
    match e
    case Tick(_, now) => Some(now)
    case Arrived(_, now) => Some(now)
    case Command(_, _, _, now) => Some(now)
    case BeginRun(_, now) => Some(now)
    case StartOrSave(_, now) => Some(now)
    case Stop(now) => Some(now)
    case _ => None
  }

  /** The clock when the latest of `events` happened. */
  function ClockAfter(events: seq<Event>): nat {
    if events == [] then 0
    else
      var before, time := ClockAfter(events[..|events| - 1]), TimeOf(events[|events| - 1]);
      if time.Some? then time.value else before
  }

  /** The clock does not run back, and claims handed over remember no future. */
  predicate Ordered(events: seq<Event>) {
    events != [] ==>
      var before, e := events[..|events| - 1], events[|events| - 1];
      && Ordered(before)
      && (TimeOf(e).Some? ==> ClockAfter(before) <= TimeOf(e).value)
      && (e.StartOrSave? ==> GivesPast(e.start, e.now))
  }

  lemma HappenedTimely(s: Controller, e: Event, now: nat)
    requires Timely(s, now) && (TimeOf(e).Some? ==> TimeOf(e).value == now)
    requires e.StartOrSave? ==> GivesPast(e.start, e.now)
    ensures Timely(Happened(s, e), now)
  {
    hide Ticked, Sampled, Applying, RunBegun, RunEnded, Started, Stopped, GivesPast, Autotunes.Past, OneRelay,
         RelayClaims.Past, InPast;
    match e
    case Tick(output, _) => TickedTimely(s, output, now);
    case Arrived(value, _) => SampledTimely(s, value, now);
    case Command(preset, mode, target, _) => ApplyingTimely(s, preset, mode, target, now);
    case BeginRun(direction, _) => RunBegunTimely(s, direction, now);
    case EndRun => RunEndedTimely(s, now);
    case StartOrSave(start, _) => RunEndedTimely(s, now); StartedTimely(RunEnded(s), start, now);
    case Stop(_) => StoppedTimely(s, now);
    case _ =>
  }

  /** So every step of every run finds the state it needs. */
  lemma {:induction false} EveryRunIsTimely(events: seq<Event>)
    requires Ordered(events)
    ensures Timely(After(events), ClockAfter(events))
    decreases |events|
  {
    if events != [] {
      var before, e := events[..|events| - 1], events[|events| - 1];
      EveryRunIsTimely(before);
      hide Timely, Happened, TimeOf, GivesPast;
      StaysTimely(After(before), ClockAfter(before), ClockAfter(events));
      HappenedTimely(After(before), e, ClockAfter(events));
    }
  }
}
