/** The relay-oscillation autotuner as functions on values
    (components/climate_hub/pid_autotuner.cpp): the relay function, the two detectors and the point
    where they stop. Temperatures and gains are real numbers. */
module RelayTuner {
  import opened Options

  const PI: real := 3.14159274
  const MAX_INTERVALS: nat := 64

  datatype Phase = Init | Positive | Negative

  datatype Extreme = Extreme(ms: nat, error: real)

  datatype Frequency = Frequency(state: Phase, crossed: bool, overflowed: bool, lastCrossing: nat, intervals: seq<nat>)

  /** The phase's extremes mean nothing before the first sample. */
  datatype Amplitude = Amplitude(last: Phase, low: Extreme, high: Extreme, mins: seq<real>, maxs: seq<real>)

  datatype Tuner = Tuner(
    noiseband: real, outputPositive: real, outputNegative: real,
    relay: Phase, phaseCount: nat, frequency: Frequency, amplitude: Amplitude, extremes: seq<Extreme>,
    ku: real, pu: real, finished: bool)

  function NewTuner(noiseband: real, outputMin: real, outputMax: real): Tuner {
    Tuner(noiseband, if outputMax < 1.0 then outputMax else 1.0, if outputMin > -1.0 then outputMin else -1.0,
          Init, 0, Frequency(Init, false, false, 0, []),
          Amplitude(Init, Extreme(0, 0.0), Extreme(0, 0.0), [], []), [], 0.0, 0.0, false)
  }

  /** A two-position switch with a band: where it is after a sample. */
  function Switched(state: Phase, band: real, error: real): Phase {
    var begun := if state.Init? then (if error > band then Positive else Negative) else state;
    if begun.Positive? && error < -band then Negative
    else if begun.Negative? && error > band then Positive
    else begun
  }

  /** Whether that sample switched it, the first sample's position aside. */
  predicate Switches(state: Phase, band: real, error: real) {
    var begun := if state.Init? then (if error > band then Positive else Negative) else state;
    Switched(state, band, error) != begun
  }

  function Crossing(f: Frequency, band: real, error: real, now: nat): Frequency {
    var next := f.(state := Switched(f.state, band, error));
    if !Switches(f.state, band, error) then next
    else
      var full := f.crossed && |f.intervals| >= MAX_INTERVALS;
      var interval := if now >= f.lastCrossing then now - f.lastCrossing else 0;
      next.(overflowed := f.overflowed || full,
            intervals := if f.crossed && !full then f.intervals + [interval] else f.intervals,
            crossed := true,
            lastCrossing := now)
  }

  function Peaked(a: Amplitude, error: real, relay: Phase, now: nat): Amplitude {
    var here := Extreme(now, error);
    var begun :=
      if relay == a.last then a
      else a.(maxs := if a.last.Positive? then a.maxs + [a.high.error] else a.maxs,
              mins := if a.last.Negative? then a.mins + [a.low.error] else a.mins,
              low := here, high := here);
    begun.(last := relay,
           low := if error < begun.low.error then here else begun.low,
           high := if error > begun.high.error then here else begun.high)
  }

  /** The extreme of the phase that a sample ends. */
  function Ended(a: Amplitude, relay: Phase): seq<Extreme> {
    if relay == a.last then []
    else if a.last.Positive? then [a.high]
    else if a.last.Negative? then [a.low]
    else []
  }

  function Pairs(a: Amplitude): nat {
    if |a.mins| < |a.maxs| then |a.mins| else |a.maxs|
  }

  predicate EnoughData(t: Tuner) {
    !t.frequency.overflowed && |t.frequency.intervals| >= 2 && Pairs(t.amplitude) >= 3
  }

  function Abs(x: real): real {
    if x < 0.0 then -x else x
  }

  /** The swings from each maximum to the next pair's minimum, the first pair left out. */
  function SwingSum(a: Amplitude, i: nat): real
    requires i < |a.maxs| && i + 1 < |a.mins|
    decreases i
  {
    if i == 0 then 0.0 else SwingSum(a, i - 1) + Abs(a.maxs[i] - a.mins[i + 1])
  }

  /** Half the mean peak-to-peak swing. */
  function MeanAmplitude(a: Amplitude): real
    requires Pairs(a) >= 3
  {
    SwingSum(a, Pairs(a) - 2) / (Pairs(a) - 2) as real / 2.0
  }

  function Sum(xs: seq<nat>): nat {
    if xs == [] then 0 else Sum(xs[..|xs| - 1]) + xs[|xs| - 1]
  }

  /** The mean period in seconds: a crossing comes twice in it, and intervals are in milliseconds. */
  function MeanPeriod(f: Frequency): real
    requires f.intervals != []
  {
    Sum(f.intervals) as real / |f.intervals| as real / 1000.0 * 2.0
  }

  function Sampled(t: Tuner, error: real, now: nat): Tuner {
    var relay := Switched(t.relay, t.noiseband, error);
    t.(relay := relay,
       phaseCount := if Switches(t.relay, t.noiseband, error) then t.phaseCount + 1 else t.phaseCount,
       frequency := Crossing(t.frequency, t.noiseband / 4.0, error, now),
       extremes := t.extremes + Ended(t.amplitude, relay),
       amplitude := Peaked(t.amplitude, error, relay, now))
  }

  /** The ultimate gain of a relay swinging over `span`, for oscillations of `amplitude`; `MeasuredSwing`
      shows that the amplitude is never 0. */
  function UltimateGain(span: real, amplitude: real): real {
    if amplitude == 0.0 then 0.0 else 4.0 * (span / 2.0) / (PI * amplitude)
  }

  function Measuring(t: Tuner): Tuner
    requires EnoughData(t)
  {
    t.(ku := UltimateGain(t.outputPositive - t.outputNegative, MeanAmplitude(t.amplitude)),
       pu := MeanPeriod(t.frequency),
       finished := true)
  }

  function Updated(t: Tuner, error: real, now: nat): Tuner {
    if t.finished then t
    else
      var s := Sampled(t, error, now);
      if EnoughData(s) then Measuring(s) else s
  }

  datatype Sample = Sample(error: real, ms: nat)

  function Run(t: Tuner, samples: seq<Sample>): Tuner {
    if samples == [] then t
    else
      var last := samples[|samples| - 1];
      Updated(Run(t, samples[..|samples| - 1]), last.error, last.ms)
  }

  // --- What every run keeps ---

  /** The crossings seen so far, as long as the store holds. */
  function Crossings(f: Frequency): nat {
    if f.crossed then |f.intervals| + 1 else 0
  }

  /** Phases alternate: each detector's lists share them out evenly. */
  predicate Alternates(t: Tuner) {
    && |t.amplitude.mins| + |t.amplitude.maxs| == t.phaseCount == |t.extremes|
    && t.amplitude.last == t.relay
    && (t.relay.Init? ==> t.phaseCount == 0 && t.frequency == Frequency(Init, false, false, 0, []))
    && (t.phaseCount % 2 == 0 ==> |t.amplitude.mins| == |t.amplitude.maxs|)
    && (t.phaseCount % 2 == 1 ==>
          if t.relay.Negative? then |t.amplitude.maxs| == |t.amplitude.mins| + 1
          else |t.amplitude.mins| == |t.amplitude.maxs| + 1)
  }

  /** Every peak but the first phase's lies beyond the band, on its side. */
  predicate Peaks(t: Tuner) {
    var a := t.amplitude;
    && (forall i :: 1 <= i < |a.maxs| ==> a.maxs[i] > t.noiseband)
    && (forall i :: 1 <= i < |a.mins| ==> a.mins[i] < -t.noiseband)
    && (t.phaseCount > 0 && t.relay.Positive? ==> a.high.error > t.noiseband)
    && (t.phaseCount > 0 && t.relay.Negative? ==> a.low.error < -t.noiseband)
  }

  /** The extremes in order: beyond the band from the second on, sides in turn. */
  predicate Zigzag(t: Tuner) {
    && (forall i :: 1 <= i < |t.extremes| ==> Abs(t.extremes[i].error) > t.noiseband)
    && (forall i :: 2 <= i < |t.extremes| ==> (t.extremes[i].error > 0.0) != (t.extremes[i - 1].error > 0.0))
    && (|t.extremes| >= 2 ==> (t.extremes[|t.extremes| - 1].error > 0.0) == t.relay.Negative?)
  }

  /** Between two relay switches the error crosses the detector's narrower band at least once. */
  predicate Crosses(t: Tuner, now: nat) {
    var f := t.frequency;
    && (t.relay.Init? <==> f.state.Init?)
    && (!f.overflowed ==>
          Crossings(f) + 1 >= t.phaseCount + if f.state != t.relay then 1 else 0)
    && (f.crossed ==> f.lastCrossing <= now)
    && (forall i :: 0 <= i < |f.intervals| ==> f.intervals[i] > 0)
  }

  predicate Sound(t: Tuner, now: nat) {
    && t.noiseband > 0.0 && Alternates(t) && Peaks(t) && Zigzag(t) && Crosses(t, now)
    && (t.finished ==> t.phaseCount == 6 && EnoughData(t))
    && (!t.finished && !t.frequency.overflowed ==> t.phaseCount < 6)
  }

  /** A sample comes after the one before it; the first may come at once. */
  predicate After(t: Tuner, before: nat, now: nat) {
    before <= now && (t.relay.Init? || before < now)
  }

  lemma SampledAlternates(t: Tuner, error: real, now: nat)
    requires Alternates(t) && t.noiseband > 0.0
    ensures Alternates(Sampled(t, error, now))
  {}

  lemma SampledPeaks(t: Tuner, error: real, now: nat)
    requires Alternates(t) && Peaks(t) && t.noiseband > 0.0
    ensures Peaks(Sampled(t, error, now))
  {}

  lemma SampledZigzag(t: Tuner, error: real, now: nat)
    requires Alternates(t) && Peaks(t) && Zigzag(t) && t.noiseband > 0.0
    ensures Zigzag(Sampled(t, error, now))
  {}

  lemma SampledCrosses(t: Tuner, error: real, before: nat, now: nat)
    requires Alternates(t) && Crosses(t, before) && t.noiseband > 0.0 && After(t, before, now)
    ensures Crosses(Sampled(t, error, now), now)
  {}

  /** Six phases and no overflow are enough data; fewer never are. */
  lemma SixPhasesSuffice(t: Tuner, now: nat)
    requires Alternates(t) && Crosses(t, now)
    ensures !t.frequency.overflowed ==> (EnoughData(t) <==> t.phaseCount >= 6)
  {}

  lemma UpdatedKeeps(t: Tuner, error: real, before: nat, now: nat)
    requires Sound(t, before) && After(t, before, now)
    ensures Sound(Updated(t, error, now), now)
    ensures Updated(t, error, now).finished && !t.finished ==> t.phaseCount == 5
  {
    if !t.finished {
      SampledAlternates(t, error, now);
      SampledPeaks(t, error, now);
      SampledZigzag(t, error, now);
      SampledCrosses(t, error, before, now);
      SixPhasesSuffice(Sampled(t, error, now), now);
    }
  }

  predicate Forward(samples: seq<Sample>) {
    forall i :: 0 < i < |samples| ==> samples[i - 1].ms < samples[i].ms
  }

  function Last(samples: seq<Sample>): nat {
    if samples == [] then 0 else samples[|samples| - 1].ms
  }

  lemma {:induction false} RunIsSound(t: Tuner, samples: seq<Sample>)
    requires Sound(t, 0) && t.relay.Init? && Forward(samples)
    ensures Sound(Run(t, samples), Last(samples))
    decreases |samples|
  {
    if samples != [] {
      var rest := samples[..|samples| - 1];
      RunIsSound(t, rest);
      UpdatedKeeps(Run(t, rest), samples[|samples| - 1].error, Last(rest), Last(samples));
    }
  }

  /** A run whose interval store holds has finished exactly when its relay has switched six times, and
      it is the sixth switch that finishes it. */
  lemma StopsAtTheSixthSwitch(noiseband: real, outputMin: real, outputMax: real, samples: seq<Sample>, next: Sample)
    requires noiseband > 0.0 && Forward(samples + [next])
    ensures var before := Run(NewTuner(noiseband, outputMin, outputMax), samples);
            var after := Run(NewTuner(noiseband, outputMin, outputMax), samples + [next]);
            && (!after.frequency.overflowed ==> (after.finished <==> after.phaseCount == 6))
            && (!before.finished && after.finished ==> before.phaseCount == 5 && after.phaseCount == 6)
  {
    var t := NewTuner(noiseband, outputMin, outputMax);
    var all := samples + [next];
    forall i | 0 < i < |samples| ensures samples[i - 1].ms < samples[i].ms {
      assert all[i - 1].ms < all[i].ms;
    }
    RunIsSound(t, samples);
    RunIsSound(t, all);
    assert all[..|samples|] == samples;
    assert samples != [] ==> all[|samples| - 1].ms < all[|samples|].ms;
    UpdatedKeeps(Run(t, samples), next.error, Last(samples), next.ms);
  }

  // --- What a finished run measured ---

  lemma MeasuredSwing(t: Tuner, now: nat)
    requires Sound(t, now) && EnoughData(t) && t.phaseCount == 6
    ensures MeanAmplitude(t.amplitude) > t.noiseband
  {
    var a := t.amplitude;
    assert Pairs(a) == 3 && SwingSum(a, 1) == SwingSum(a, 0) + Abs(a.maxs[1] - a.mins[2]);
    assert a.maxs[1] > t.noiseband && a.mins[2] < -t.noiseband;
  }

  lemma {:induction false} PositiveSum(xs: seq<nat>)
    requires forall i :: 0 <= i < |xs| ==> xs[i] > 0
    ensures Sum(xs) >= |xs|
  {
    if xs != [] {
      PositiveSum(xs[..|xs| - 1]);
    }
  }

  lemma GainBounds(span: real, amplitude: real, noiseband: real)
    requires span > 0.0 && amplitude > noiseband > 0.0
    ensures 0.0 < UltimateGain(span, amplitude) < UltimateGain(span, noiseband)
  {
    var n := 4.0 * (span / 2.0);
    assert PI * amplitude > PI * noiseband > 0.0;
    Dividing(n, PI * noiseband, PI * amplitude);
  }

  lemma Dividing(n: real, small: real, large: real)
    requires n > 0.0 && 0.0 < small < large
    ensures 0.0 < n / large < n / small
  {
    var q := n / large;
    assert q * large == n;
    assert q > 0.0;
    assert q * small < q * large;
    assert n / small * small == n;
  }

  function Span(t: Tuner): real {
    t.outputPositive - t.outputNegative
  }

  /** A finished run has its gain between zero and what the band itself would give, and a period. */
  predicate Measured(t: Tuner) {
    t.finished ==> t.pu > 0.0 && 0.0 < t.ku < UltimateGain(Span(t), t.noiseband)
  }

  lemma MeasuredPeriod(f: Frequency)
    requires f.intervals != [] && forall i :: 0 <= i < |f.intervals| ==> f.intervals[i] > 0
    ensures MeanPeriod(f) > 0.0
  {
    PositiveSum(f.intervals);
    var sum, n := Sum(f.intervals) as real, |f.intervals| as real;
    assert sum > 0.0 && n > 0.0;
    assert sum / n > 0.0;
  }

  lemma UpdatedMeasures(t: Tuner, error: real, before: nat, now: nat)
    requires Sound(t, before) && After(t, before, now) && Measured(t) && Span(t) > 0.0
    ensures Measured(Updated(t, error, now)) && Span(Updated(t, error, now)) == Span(t)
    ensures Updated(t, error, now).noiseband == t.noiseband
  {
    var s := Sampled(t, error, now);
    UpdatedKeeps(t, error, before, now);
    if !t.finished && EnoughData(s) {
      var u := Updated(t, error, now);
      assert Sound(u, now) && u.finished;
      MeasuredSwing(u, now);
      MeasuredPeriod(s.frequency);
      GainBounds(Span(s), MeanAmplitude(s.amplitude), s.noiseband);
    }
  }

  lemma {:induction false} RunMeasures(t: Tuner, samples: seq<Sample>)
    requires Sound(t, 0) && t.relay.Init? && Forward(samples) && Measured(t) && Span(t) > 0.0
    ensures var r := Run(t, samples);
            Measured(r) && Span(r) == Span(t) && r.noiseband == t.noiseband
    decreases |samples|
  {
    if samples != [] {
      var rest := samples[..|samples| - 1];
      RunMeasures(t, rest);
      RunIsSound(t, rest);
      UpdatedMeasures(Run(t, rest), samples[|samples| - 1].error, Last(rest), Last(samples));
    }
  }

  /** Gains of one tuning rule, from the ultimate gain and period. */
  datatype Gains = Gains(kp: real, ki: real, kd: real)

  function GainsOf(t: Tuner, kp: real, ki: real, kd: real): Gains
    requires t.pu > 0.0
  {
    Gains(kp * t.ku, ki * t.ku / t.pu, kd * t.ku * t.pu)
  }

  /** The relay of one direction, fully on or off around the target: every finished run gives an
      ultimate gain and period no gain divides by zero with, the swing it measured larger than the
      band it switched at. */
  lemma FinishedRunMeasures(noiseband: real, outputMin: real, samples: seq<Sample>)
    requires noiseband > 0.0 && (outputMin == 0.0 || outputMin == -1.0) && Forward(samples)
    requires Run(NewTuner(noiseband, outputMin, outputMin + 1.0), samples).finished
    ensures var t := Run(NewTuner(noiseband, outputMin, outputMin + 1.0), samples);
            && t.pu > 0.0 && 0.0 < t.ku < 2.0 / (PI * noiseband)
            && Pairs(t.amplitude) >= 3 && MeanAmplitude(t.amplitude) > noiseband
            && forall kp, ki, kd :: kp > 0.0 && ki > 0.0 && kd > 0.0 ==>
                 GainsOf(t, kp, ki, kd).kp > 0.0 && GainsOf(t, kp, ki, kd).ki > 0.0 && GainsOf(t, kp, ki, kd).kd > 0.0
  {
    var begin := NewTuner(noiseband, outputMin, outputMin + 1.0);
    assert Sound(begin, 0) && Span(begin) == 1.0;
    RunIsSound(begin, samples);
    RunMeasures(begin, samples);
    var t := Run(begin, samples);
    MeasuredSwing(t, Last(samples));
    forall kp, ki, kd | kp > 0.0 && ki > 0.0 && kd > 0.0
      ensures GainsOf(t, kp, ki, kd).kp > 0.0 && GainsOf(t, kp, ki, kd).ki > 0.0 && GainsOf(t, kp, ki, kd).kd > 0.0
    {
      Times(kp, t.ku);
      Times(ki, t.ku);
      Times(kd, t.ku);
      Times(kd * t.ku, t.pu);
      Over(ki * t.ku, t.pu);
    }
  }

  lemma Times(x: real, y: real)
    requires x > 0.0 && y > 0.0
    ensures x * y > 0.0
  {}

  lemma Over(x: real, y: real)
    requires x > 0.0 && y > 0.0
    ensures x / y > 0.0
  {}

  // --- How even the swings were ---

  function SwingAt(xs: seq<Extreme>, i: nat): real
    requires 1 <= i < |xs|
  {
    Abs(xs[i].error - xs[i - 1].error)
  }

  /** The smallest of the swings 2..n. */
  function Smallest(xs: seq<Extreme>, n: nat): real
    requires 2 <= n < |xs|
  {
    if n == 2 then SwingAt(xs, 2)
    else
      var rest := Smallest(xs, n - 1);
      if SwingAt(xs, n) < rest then SwingAt(xs, n) else rest
  }

  function Largest(xs: seq<Extreme>, n: nat): real
    requires 2 <= n < |xs|
  {
    if n == 2 then SwingAt(xs, 2)
    else
      var rest := Largest(xs, n - 1);
      if SwingAt(xs, n) > rest then SwingAt(xs, n) else rest
  }

  /** Absent before there are two swings. */
  function SwingRatio(t: Tuner): Option<real> {
    if |t.extremes| < 3 then None
    else
      var n := |t.extremes| - 1;
      if Largest(t.extremes, n) > 0.0 then Some(Smallest(t.extremes, n) / Largest(t.extremes, n)) else None
  }

  lemma {:induction false} SwingsBeyondBand(t: Tuner, n: nat)
    requires t.noiseband > 0.0 && Zigzag(t) && 2 <= n < |t.extremes|
    ensures 2.0 * t.noiseband < Smallest(t.extremes, n) <= Largest(t.extremes, n)
    decreases n
  {
    assert Abs(t.extremes[n].error) > t.noiseband && Abs(t.extremes[n - 1].error) > t.noiseband;
    assert (t.extremes[n].error > 0.0) != (t.extremes[n - 1].error > 0.0);
    if n > 2 {
      SwingsBeyondBand(t, n - 1);
    }
  }

  /** In any run there is a ratio once there are two swings: the smallest is a positive share of the
      largest, at most all of it. */
  lemma SwingRatioInRange(noiseband: real, outputMin: real, outputMax: real, samples: seq<Sample>)
    requires noiseband > 0.0 && Forward(samples)
    ensures var t := Run(NewTuner(noiseband, outputMin, outputMax), samples);
            && (SwingRatio(t).Some? <==> |t.extremes| >= 3)
            && (SwingRatio(t).Some? ==> 0.0 < SwingRatio(t).value <= 1.0)
  {
    var t := Run(NewTuner(noiseband, outputMin, outputMax), samples);
    RunIsSound(NewTuner(noiseband, outputMin, outputMax), samples);
    NoisebandKept(NewTuner(noiseband, outputMin, outputMax), samples);
    if |t.extremes| >= 3 {
      var n := |t.extremes| - 1;
      SwingsBeyondBand(t, n);
      Share(Smallest(t.extremes, n), Largest(t.extremes, n));
    }
  }

  lemma Share(small: real, large: real)
    requires 0.0 < small <= large
    ensures 0.0 < small / large <= 1.0
  {
    if small < large {
      Dividing(small, small, large);
      assert small / small == 1.0;
    } else {
      assert small / large == 1.0;
    }
  }

  lemma {:induction false} NoisebandKept(t: Tuner, samples: seq<Sample>)
    ensures Run(t, samples).noiseband == t.noiseband
    decreases |samples|
  {
    if samples != [] {
      NoisebandKept(t, samples[..|samples| - 1]);
    }
  }

  // --- The autotuner, in place ---

  class PidAutotuner {
    const noiseband: real
    const outputPositive: real
    const outputNegative: real
    var relay: Phase
    var phaseCount: nat
    var frequency: Frequency
    var last: Phase
    var low: Extreme
    var high: Extreme
    var mins: seq<real>
    var maxs: seq<real>
    var extremes: seq<Extreme>
    var ku: real
    var pu: real
    var finished: bool

    function View(): Tuner
      reads this
    {
      Tuner(noiseband, outputPositive, outputNegative, relay, phaseCount, frequency,
            Amplitude(last, low, high, mins, maxs), extremes, ku, pu, finished)
    }

    constructor (noiseband: real, outputMin: real, outputMax: real)
      ensures View() == NewTuner(noiseband, outputMin, outputMax)
    {
      this.noiseband := noiseband;
      outputPositive := if outputMax < 1.0 then outputMax else 1.0;
      outputNegative := if outputMin > -1.0 then outputMin else -1.0;
      relay, phaseCount, frequency := Init, 0, Frequency(Init, false, false, 0, []);
      last, low, high, mins, maxs := Init, Extreme(0, 0.0), Extreme(0, 0.0), [], [];
      extremes, ku, pu, finished := [], 0.0, 0.0, false;
    }

    method UpdateRelay(error: real)
      modifies this`relay, this`phaseCount
      ensures relay == Switched(old(relay), noiseband, error)
      ensures phaseCount == old(phaseCount) + if Switches(old(relay), noiseband, error) then 1 else 0
    {
      if relay.Init? {
        relay := if error > noiseband then Positive else Negative;
      }
      if relay.Positive? && error < -noiseband {
        relay := Negative;
        phaseCount := phaseCount + 1;
      } else if relay.Negative? && error > noiseband {
        relay := Positive;
        phaseCount := phaseCount + 1;
      }
    }

    method UpdateFrequency(error: real, now: nat)
      requires frequency.crossed ==> frequency.lastCrossing <= now
      modifies this`frequency
      ensures frequency == Crossing(old(frequency), noiseband / 4.0, error, now)
    {
      var band := noiseband / 4.0;
      var crossing := Switches(frequency.state, band, error);
      frequency := frequency.(state := Switched(frequency.state, band, error));
      if !crossing {
        return;
      }
      if frequency.crossed && |frequency.intervals| >= MAX_INTERVALS {
        frequency := frequency.(overflowed := true);
      } else if frequency.crossed {
        frequency := frequency.(intervals := frequency.intervals + [now - frequency.lastCrossing]);
      }
      frequency := frequency.(crossed := true, lastCrossing := now);
    }

    method UpdateAmplitude(error: real, now: nat)
      modifies this`last, this`low, this`high, this`mins, this`maxs, this`extremes
      ensures Amplitude(last, low, high, mins, maxs)
           == Peaked(Amplitude(old(last), old(low), old(high), old(mins), old(maxs)), error, relay, now)
      ensures extremes
           == old(extremes) + Ended(Amplitude(old(last), old(low), old(high), old(mins), old(maxs)), relay)
    {
      if relay != last {
        if last.Positive? {
          maxs := maxs + [high.error];
          extremes := extremes + [high];
        } else if last.Negative? {
          mins := mins + [low.error];
          extremes := extremes + [low];
        }
        low := Extreme(now, error);
        high := Extreme(now, error);
      }
      last := relay;
      if error < low.error {
        low := Extreme(now, error);
      }
      if error > high.error {
        high := Extreme(now, error);
      }
    }

    method MeasureAmplitude() returns (mean: real)
      requires Pairs(View().amplitude) >= 3
      ensures mean == MeanAmplitude(View().amplitude)
    {
      var a := View().amplitude;
      var total, n := 0.0, 0;
      var pairs := Pairs(a);
      for i := 1 to pairs - 1
        invariant total == SwingSum(a, i - 1) && n == i - 1
      {
        total := total + Abs(maxs[i] - mins[i + 1]);
        n := n + 1;
      }
      return total / n as real / 2.0;
    }

    method MeasurePeriod() returns (seconds: real)
      requires frequency.intervals != []
      ensures seconds == MeanPeriod(frequency)
    {
      var sum := 0;
      var intervals := frequency.intervals;
      for i := 0 to |intervals|
        invariant sum == Sum(intervals[..i])
      {
        assert intervals[..i + 1][..i] == intervals[..i];
        sum := sum + intervals[i];
      }
      assert intervals[..|intervals|] == intervals;
      return sum as real / |intervals| as real / 1000.0 * 2.0;
    }

    method Sample(error: real, now: nat)
      requires frequency.crossed ==> frequency.lastCrossing <= now
      modifies this
      ensures View() == Sampled(old(View()), error, now)
    {
      hide Switched, Switches, Crossing, Peaked, Ended;
      UpdateRelay(error);
      UpdateFrequency(error, now);
      UpdateAmplitude(error, now);
    }

    method Finish()
      requires EnoughData(View())
      modifies this`ku, this`pu, this`finished
      ensures View() == Measuring(old(View()))
    {
      var amplitude := MeasureAmplitude();
      ku := UltimateGain(outputPositive - outputNegative, amplitude);
      pu := MeasurePeriod();
      finished := true;
    }

    /** Refines `Updated`, detector by detector; a finished tuner answers 0. */
    method Update(setpoint: real, value: real, now: nat) returns (output: real)
      requires frequency.crossed ==> frequency.lastCrossing <= now
      modifies this
      ensures View() == Updated(old(View()), setpoint - value, now)
      ensures output == if old(finished) then 0.0 else if relay.Positive? then outputPositive else outputNegative
    {
      hide Sampled, Measuring;
      if finished {
        return 0.0;
      }
      Sample(setpoint - value, now);
      output := if relay.Positive? then outputPositive else outputNegative;
      if !frequency.overflowed && |frequency.intervals| >= 2 && Pairs(View().amplitude) >= 3 {
        Finish();
      }
    }
  }
}
