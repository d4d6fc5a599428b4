/** Two switching points and a latch between them (components/climate_hub/hysteresis_core.cpp). A
    reading or a switching point that is no number is absent. */
module Hysteresis {
  import opened Options
  import opened ThermostatWords

  datatype Latch = Latch(low: Option<real>, high: Option<real>, heats: bool, cools: bool, action: Action)

  const NEW_LATCH := Latch(Some(0.0), Some(0.0), false, false, ActionOff)

  predicate TooCold(l: Latch, temperature: real) {
    l.low.Some? && temperature < l.low.value
  }

  predicate TooHot(l: Latch, temperature: real) {
    l.high.Some? && temperature > l.high.value
  }

  function Latched(l: Latch, mode: Mode, temperature: Option<real>): (r: Latch)
    ensures Fits(l.action, mode) ==> Fits(r.action, mode)
    ensures r == l.(action := r.action)
  {
    l.(action :=
      if mode.ModeOff? || temperature.None? || l.low.None? || l.high.None? then ActionOff
      else if TooCold(l, temperature.value) then (if l.heats && Heats(mode) then Heating else Idle)
      else if TooHot(l, temperature.value) then (if l.cools && Cools(mode) then Cooling else Idle)
      else if (l.heats && l.cools && mode.HeatCool?) || l.action.ActionOff? then Idle
      else l.action)
  }

  // --- What the latch is: the last switching point crossed ---

  function Run(l: Latch, mode: Mode, readings: seq<real>): Latch {
    if readings == [] then l
    else Latched(Run(l, mode, readings[..|readings| - 1]), mode, Some(readings[|readings| - 1]))
  }

  predicate Inside(l: Latch, reading: real) {
    !TooCold(l, reading) && !TooHot(l, reading)
  }

  /** The latest reading outside the band. */
  predicate LastOutside(l: Latch, readings: seq<real>, i: nat) {
    && i < |readings| && !Inside(l, readings[i])
    && forall j :: i < j < |readings| ==> Inside(l, readings[j])
  }

  function Outside(l: Latch, mode: Mode, reading: real): Action {
    if TooCold(l, reading) then (if l.heats && Heats(mode) then Heating else Idle)
    else (if l.cools && Cools(mode) then Cooling else Idle)
  }

  predicate OneWay(l: Latch, mode: Mode) {
    !mode.ModeOff? && !(l.heats && l.cools && mode.HeatCool?)
  }

  /** In a mode that drives one direction, the demand after any run of readings is the one of the
      latest reading outside the band, and the one it began with while there is none. */
  lemma {:induction false} LatchIsTheLastCrossing(l: Latch, mode: Mode, readings: seq<real>)
    requires l.low.Some? && l.high.Some? && OneWay(l, mode)
    ensures forall i: nat :: LastOutside(l, readings, i) ==>
              Run(l, mode, readings).action == Outside(l, mode, readings[i])
    ensures (forall i :: 0 <= i < |readings| ==> Inside(l, readings[i])) && readings != [] ==>
              Run(l, mode, readings).action == if l.action.ActionOff? then Idle else l.action
    ensures Run(l, mode, readings) == l.(action := Run(l, mode, readings).action)
    decreases |readings|
  {
    if readings != [] {
      var n := |readings| - 1;
      var before := readings[..n];
      LatchIsTheLastCrossing(l, mode, before);
      forall i: nat | LastOutside(l, readings, i) && i < n
        ensures LastOutside(l, before, i) && before[i] == readings[i]
      {
        assert Inside(l, readings[n]);
        forall j | i < j < n ensures Inside(l, before[j]) {
          assert before[j] == readings[j];
        }
      }
    }
  }

  lemma {:induction false} RunKeepsPoints(l: Latch, mode: Mode, readings: seq<real>)
    ensures Run(l, mode, readings) == l.(action := Run(l, mode, readings).action)
  {
    if readings != [] {
      RunKeepsPoints(l, mode, readings[..|readings| - 1]);
      hide Latched;
    }
  }

  /** Driving both directions nothing is latched: two runs from any two states, each ending in the same
      reading, demand the same. */
  lemma TwoWaysForget(l: Latch, k: Latch, some: seq<real>, others: seq<real>)
    requires l.low.Some? && l.high.Some? && l.heats && l.cools && k == l.(action := k.action)
    requires some != [] && others != [] && some[|some| - 1] == others[|others| - 1]
    ensures Run(l, HeatCool, some).action == Run(k, HeatCool, others).action
  {
    RunKeepsPoints(l, HeatCool, some[..|some| - 1]);
    RunKeepsPoints(k, HeatCool, others[..|others| - 1]);
  }

  class HysteresisCore {
    var low: Option<real>
    var high: Option<real>
    var heats: bool
    var cools: bool
    var action: Action

    function View(): Latch
      reads this
    {
      Latch(low, high, heats, cools, action)
    }

    constructor ()
      ensures View() == NEW_LATCH
    {
      low, high, heats, cools, action := Some(0.0), Some(0.0), false, false, ActionOff;
    }

    method SetSetpoints(low: Option<real>, high: Option<real>)
      modifies this
      ensures View() == old(View()).(low := low, high := high)
    {
      this.low := low;
      this.high := high;
    }

    method SetDirections(heats: bool, cools: bool)
      modifies this
      ensures View() == old(View()).(heats := heats, cools := cools)
    {
      this.heats := heats;
      this.cools := cools;
    }

    method Update(mode: Mode, temperature: Option<real>) returns (demand: Action)
      modifies this
      ensures View() == Latched(old(View()), mode, temperature) && demand == action
    {
      if mode.ModeOff? {
        action := ActionOff;
        return action;
      }
      if temperature.None? || low.None? || high.None? {
        action := ActionOff;
        return action;
      }
      var tooCold := temperature.value < low.value;
      var tooHot := temperature.value > high.value;
      if tooCold {
        action := if heats && Heats(mode) then Heating else Idle;
      } else if tooHot {
        action := if cools && Cools(mode) then Cooling else Idle;
      } else if (heats && cools && mode.HeatCool?) || action.ActionOff? {
        action := Idle;
      }
      return action;
    }

    method Reset()
      modifies this
      ensures View() == old(View()).(action := Idle)
    {
      action := Idle;
    }

    method Seed(held: Action)
      modifies this
      ensures View() == old(View()).(action := held)
    {
      action := held;
    }
  }
}
