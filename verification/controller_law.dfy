/** When the control loop runs its PID, and on what (components/climate_hub/controller_runtime.cpp): what
    a pass, a Save and a calibration's end do to what the law has learnt. */
module ControlLaws {
  import opened Options
  import opened PidCores
  import opened SampleWindows
  import opened Controllers

  datatype Law = Law(tuning: Tuning, pid: Pid)

  const NEW_LAW := Law(NEW_TUNING, UNLEARNT)

  /** Time passed since the pass before, in seconds; none on the first pass after a pause. */
  function Elapsed(s: Controller, now: nat): real {
    if s.controlled then (now - s.lastControl) as real / 1000.0 else 0.0
  }

  function ForgottenIf(first: bool, pid: Pid): Pid {
    if first then Forgotten(pid) else pid
  }

  /** One run of the law, and the effort it asks for. */
  function Ran(law: Law, s: Controller, now: nat): (Law, Option<real>) {
    if s.temperature.None? then (law, None)
    else
      var pid := ForgottenIf(!s.controlled, law.pid);
      var (after, effort) := Updated(law.tuning, pid, s.doc.setpoint, s.temperature.value, Elapsed(s, now));
      (law.(pid := after), Some(effort))
  }

  /** Nothing from before a calibration carries on. */
  function Restarted(law: Law, doc: Document): Law {
    var t := doc.tuning;
    Law(law.tuning.(kp := t.kp, ki := t.ki, kd := t.kd), UNLEARNT.(accumulated := doc.startingIntegral))
  }

  function RestartedIf(ended: bool, law: Law, doc: Document): Law {
    if ended then Restarted(law, doc) else law
  }

  function Configured(law: Law, doc: Document): Law {
    Law(doc.tuning, Limited(doc.tuning, law.pid))
  }

  /** A Save that keeps the law and the sensor keeps what was learnt, inside the new limits. */
  function Given(law: Law, doc: Document, keeps: bool): Law {
    if keeps then Configured(law, doc) else Law(doc.tuning, UNLEARNT.(accumulated := doc.startingIntegral))
  }

  function Controlled(law: Law, s: Controller, now: nat): (Law, Option<real>) {
    if s.doc.kind.Pid? then Ran(law, s, now) else (law, None)
  }

  function Acting(law: Law, s: Controller, now: nat): (Law, Option<real>) {
    if !StandsBy(s) && Due(s, now) then Controlled(law, s, now) else (law, None)
  }

  /** The law through one pass, and what it gives should the pass run it. */
  function PassedLaw(law: Law, s: Controller, now: nat): (Law, Option<real>) {
    if !s.running || !s.doc.enabled then (law, None)
    else
      var seen := Checked(s, now);
      Acting(RestartedIf(s.run.Some? && seen.run.None?, law, s.doc), seen, now)
  }

  /** A pass that stands by leaves the next one a first pass. */
  lemma PauseIsRemembered(s: Controller, output: Option<real>, now: nat)
    requires s.running && s.doc.enabled && StandsBy(Checked(s, now))
    ensures !Ticked(s, output, now).controlled
  {
    hide Checked, RelayAction;
  }

  /** After a pause of any length the integral is what it was, held to its limits, there is no derivative,
      and the effort is proportional term and integral, with no average over what came earlier. */
  lemma FirstPassStartsOver(law: Law, s: Controller, now: nat)
    requires !s.controlled && s.temperature.Some?
    ensures var (after, effort) := Ran(law, s, now);
            var error := s.doc.setpoint - s.temperature.value;
            && after.pid.accumulated == Clamped(law.tuning, law.pid.accumulated)
            && after.pid.derivative == 0.0
            && effort == Some(PidCores.Proportional(law.tuning, error) + Clamped(law.tuning, law.pid.accumulated))
  {
    var error := s.doc.setpoint - s.temperature.value;
    NothingIntegrated(law.tuning, law.pid.accumulated, error);
    AverageOfFirst(0.0, law.tuning.derivativeSamples);
    var terms := Proportional(law.tuning, error) + Clamped(law.tuning, law.pid.accumulated);
    AverageOfFirst(terms, law.tuning.outputSamples);
    AverageOfFirst(terms, law.tuning.deadbandSamples);
    Nothing(law.tuning.kd, law.tuning.kdMultiplier);
    hide Proportional, Integrated, Average, Pushed, Clamped;
  }

  lemma Nothing(k: real, m: real)
    ensures k * 0.0 == 0.0 && k * 0.0 * m == 0.0
  {}

  lemma MeanOfOne(value: real)
    ensures Mean([value]) == value
  {
    assert [value][..0] == [];
    assert Sum([value]) == Sum([]) + value == value;
    hide Sum;
  }

  lemma AverageOfFirst(value: real, samples: nat)
    ensures Average([], value, samples) == value
  {
    hide Mean;
    MeanOfOne(value);
    assert [] + [value] == [value];
    assert samples > 1 ==> Pushed([], value, samples) == [value];
    hide Pushed;
  }

  lemma NothingIntegrated(t: Tuning, accumulated: real, error: real)
    ensures Integrated(t, accumulated, error, 0.0) == Clamped(t, accumulated)
  {
    assert error * 0.0 * t.ki == 0.0;
    assert 0.0 * t.kiMultiplier == 0.0;
  }
}
