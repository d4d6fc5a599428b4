/** Pulse-width modulation slow enough for a relay (components/climate_hub/duty_cycler.cpp). The cycler
    moves its period start along as it goes; what it does is what a cycler does that only remembers when
    its phase began. */
module DutyCyclers {
  import opened Arithmetic
  import opened Options

  const DEFAULT_PERIOD_MS: nat := 300000

  datatype Cycler = Cycler(period: nat, start: nat, duty: real, started: bool)

  const NEW_CYCLER := Cycler(DEFAULT_PERIOD_MS, 0, 0.0, false)

  function WithPeriod(c: Cycler, ms: nat): Cycler {
    var period := if ms < 1 then 1 else ms;
    if period == c.period then c else c.(period := period, started := false)
  }

  /** Held between 0 and 1; 0 for what is no number. */
  function Held(duty: Option<real>): (r: real)
    ensures 0.0 <= r <= 1.0
  {
    if duty.None? || duty.value < 0.0 then 0.0 else if duty.value > 1.0 then 1.0 else duty.value
  }

  function WithDuty(c: Cycler, duty: Option<real>): Cycler {
    c.(duty := Held(duty))
  }

  function Rephased(c: Cycler): Cycler {
    c.(started := false)
  }

  function Length(c: Cycler): nat {
    if c.period == 0 then 1 else c.period
  }

  /** The phase `now` falls in. */
  function Advanced(c: Cycler, now: nat): Cycler {
    var begun := if c.started then c else c.(start := now, started := true);
    var elapsed := if now >= begun.start then now - begun.start else 0;
    if elapsed >= Length(c) then begun.(start := now - elapsed % Length(c)) else begun
  }

  predicate On(c: Cycler, now: nat) {
    var elapsed := if now >= c.start then now - c.start else 0;
    if c.duty <= 0.0 then false
    else if c.duty >= 1.0 then true
    else elapsed as real < c.duty * Length(c) as real
  }

  // --- The simple form: a fixed origin and one remainder ---

  datatype Phase = Phase(period: nat, origin: Option<nat>, duty: real)

  datatype Call = SetPeriod(period: nat) | SetDuty(duty: Option<real>) | Restart | Update(now: nat)

  function Performed(c: Cycler, call: Call): Cycler {
    match call
    case SetPeriod(period) => WithPeriod(c, period)
    case SetDuty(duty) => WithDuty(c, duty)
    case Restart => Rephased(c)
    case Update(now) => Advanced(c, now)
  }

  function Outputs(c: Cycler, calls: seq<Call>): seq<bool>
    decreases |calls|
  {
    if calls == [] then []
    else
      var next := Performed(c, calls[0]);
      (if calls[0].Update? then [On(next, calls[0].now)] else []) + Outputs(next, calls[1..])
  }

  function SimplyPerformed(p: Phase, call: Call): Phase {
    match call
    case SetPeriod(period) =>
      if (if period < 1 then 1 else period) == p.period then p
      else p.(period := if period < 1 then 1 else period, origin := None)
    case SetDuty(duty) => p.(duty := Held(duty))
    case Restart => p.(origin := None)
    case Update(now) => if p.origin.None? then p.(origin := Some(now)) else p
  }

  predicate SimplyOn(p: Phase, now: nat)
    requires p.origin.Some? && p.period > 0
  {
    && p.duty > 0.0
    && (p.duty >= 1.0 || ((now - p.origin.value) % p.period) as real < p.duty * p.period as real)
  }

  function SimpleOutputs(p: Phase, calls: seq<Call>): seq<bool>
    requires p.period > 0
    decreases |calls|
  {
    if calls == [] then []
    else
      var next := SimplyPerformed(p, calls[0]);
      (if calls[0].Update? then [SimplyOn(next, calls[0].now)] else []) + SimpleOutputs(next, calls[1..])
  }

  predicate Forward(calls: seq<Call>, clock: nat) {
    calls == [] ||
    if calls[0].Update? then calls[0].now >= clock && Forward(calls[1..], calls[0].now)
    else Forward(calls[1..], clock)
  }

  /** The cycler's start lies `k` whole periods after the origin. */
  predicate InPhase(c: Cycler, p: Phase, clock: nat, k: nat) {
    && c.period == p.period > 0 && c.duty == p.duty
    && (c.started <==> p.origin.Some?)
    && (c.started ==> c.start == p.origin.value + k * p.period && c.start <= clock)
  }

  lemma Moved(origin: nat, start: nat, k: nat, now: nat, period: nat) returns (j: nat, r: nat)
    requires period > 0 && start == origin + k * period && start <= now
    ensures now - r == origin + j * period && r < period
    ensures r == (now - origin) % period == (now - start) % period
    ensures now - start < period ==> r == now - start
    ensures now >= r
  {
    hide *;
    var e := now - start;
    var q := e / period;
    r := e % period;
    j := k + q;
    Divided(e, period);
    Distribute(k, q, period);
    if e < period {
      Remainder(e, 0, e, period);
    }
    Remainder(now - origin, j, r, period);
  }

  lemma UpdateStaysInPhase(c: Cycler, p: Phase, clock: nat, k: nat, now: nat) returns (j: nat)
    requires InPhase(c, p, clock, k) && now >= clock
    ensures var next := SimplyPerformed(p, Update(now));
            && InPhase(Advanced(c, now), next, now, j)
            && (On(Advanced(c, now), now) <==> SimplyOn(next, now))
  {
    if c.started {
      var r: nat;
      j, r := Moved(p.origin.value, c.start, k, now, p.period);
      if now - c.start < p.period {
        j := k;
      }
      assert Advanced(c, now) == c.(start := if now - c.start < p.period then c.start else now - r);
    } else {
      j := 0;
      Remainder(0, 0, 0, p.period);
    }
  }

  /** Whatever calls came between, every update says what the simple form says: on for the first
      `duty` of each period since the phase began, and exactly off and on at the ends. */
  lemma {:induction false} RefinesSimpleForm(c: Cycler, p: Phase, calls: seq<Call>, clock: nat, k: nat)
    requires InPhase(c, p, clock, k) && Forward(calls, clock)
    ensures Outputs(c, calls) == SimpleOutputs(p, calls)
    decreases |calls|
  {
    if calls != [] {
      if calls[0].Update? {
        var j := UpdateStaysInPhase(c, p, clock, k, calls[0].now);
        RefinesSimpleForm(Advanced(c, calls[0].now), SimplyPerformed(p, calls[0]), calls[1..], calls[0].now, j);
      } else {
        RefinesSimpleForm(Performed(c, calls[0]), SimplyPerformed(p, calls[0]), calls[1..], clock, k);
      }
    }
  }

  /** From a new cycler on. */
  lemma NewCyclerIsSimple(calls: seq<Call>)
    requires Forward(calls, 0)
    ensures Outputs(NEW_CYCLER, calls) == SimpleOutputs(Phase(DEFAULT_PERIOD_MS, None, 0.0), calls)
  {
    RefinesSimpleForm(NEW_CYCLER, Phase(DEFAULT_PERIOD_MS, None, 0.0), calls, 0, 0);
  }

  class DutyCycler {
    var period: nat
    var start: nat
    var duty: real
    var started: bool

    function View(): Cycler
      reads this
    {
      Cycler(period, start, duty, started)
    }

    constructor ()
      ensures View() == NEW_CYCLER
    {
      period, start, duty, started := DEFAULT_PERIOD_MS, 0, 0.0, false;
    }

    method SetPeriod(ms: nat)
      modifies this
      ensures View() == WithPeriod(old(View()), ms)
    {
      var wanted := if ms < 1 then 1 else ms;
      if wanted == period {
        return;
      }
      period := wanted;
      started := false;
    }

    method SetDuty(wanted: Option<real>)
      modifies this
      ensures View() == WithDuty(old(View()), wanted)
    {
      if wanted.None? {
        duty := 0.0;
        return;
      }
      duty := if wanted.value < 0.0 then 0.0 else if wanted.value > 1.0 then 1.0 else wanted.value;
    }

    method Start(now: nat)
      modifies this
      ensures View() == old(View()).(start := now, started := true)
    {
      start := now;
      started := true;
    }

    method Reset()
      modifies this
      ensures View() == Rephased(old(View()))
    {
      started := false;
    }

    /** Refines `Advanced`, and answers with `On` of the phase it is then in. */
    method Update(now: nat) returns (on: bool)
      requires started ==> start <= now
      modifies this
      ensures View() == Advanced(old(View()), now)
      ensures on == On(View(), now)
    {
      if !started {
        Start(now);
      }
      var length := if period == 0 then 1 else period;
      var elapsed := now - start;
      if elapsed >= length {
        elapsed := elapsed % length;
        start := now - elapsed;
      }
      if duty <= 0.0 {
        return false;
      }
      if duty >= 1.0 {
        return true;
      }
      return elapsed as real < duty * length as real;
    }
  }
}
