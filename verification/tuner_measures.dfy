/** What a calibration measures (components/climate_hub/pid_autotuner.cpp), in terms of the readings it was
    fed and nothing the tuner remembers: when the room crossed the target, and how far each phase went. */
module TunerMeasures {
  import opened RelayTuner

  // --- The readings alone ---

  /** The room lies under the target: its latest reading beyond the band was one that asks for heat. */
  predicate Under(band: real, samples: seq<Sample>) {
    exists i :: 0 <= i < |samples| && samples[i].error > band && StayedUnder(band, samples, i)
  }

  predicate StayedUnder(band: real, samples: seq<Sample>, i: nat) {
    forall j :: i < j < |samples| ==> samples[j].error >= -band
  }

  /** The latest reading took the room to the other side. */
  predicate Crosses(band: real, samples: seq<Sample>) {
    |samples| > 1 && Under(band, samples) != Under(band, samples[..|samples| - 1])
  }

  /** When the room changed sides. */
  function CrossingTimes(band: real, samples: seq<Sample>): seq<nat> {
    if samples == [] then []
    else
      var n := |samples| - 1;
      CrossingTimes(band, samples[..n]) + if Crosses(band, samples) then [samples[n].ms] else []
  }

  /** The readings, cut where the room changed sides. */
  function Phases(band: real, samples: seq<Sample>): (r: seq<seq<Sample>>)
    ensures samples != [] ==> r != []
  {
    if samples == [] then []
    else
      var n := |samples| - 1;
      var before := Phases(band, samples[..n]);
      if n == 0 || Crosses(band, samples) then before + [[samples[n]]]
      else before[..|before| - 1] + [before[|before| - 1] + [samples[n]]]
  }

  /** The sides come in turn, from that of the first reading on. */
  predicate UnderIn(band: real, samples: seq<Sample>, i: nat)
    requires samples != []
  {
    (samples[0].error > band) == (i % 2 == 0)
  }

  /** A reading of the phase furthest from the target on the phase's side. */
  predicate IsPeak(phase: seq<Sample>, under: bool, x: Extreme) {
    && Sample(x.error, x.ms) in phase
    && forall k :: 0 <= k < |phase| ==> if under then phase[k].error <= x.error else phase[k].error >= x.error
  }

  // --- The tuner against them ---

  lemma StaysUnder(band: real, samples: seq<Sample>, next: Sample)
    requires band > 0.0
    ensures Under(band, samples + [next]) <==> next.error > band || (Under(band, samples) && next.error >= -band)
  {
    var all, n := samples + [next], |samples|;
    if next.error > band {
      assert all[n].error > band && StayedUnder(band, all, n);
    }
    if Under(band, samples) && next.error >= -band {
      var i :| 0 <= i < n && samples[i].error > band && StayedUnder(band, samples, i);
      assert all[i].error > band && StayedUnder(band, all, i);
    }
    if Under(band, all) && next.error <= band {
      var i :| 0 <= i <= n && all[i].error > band && StayedUnder(band, all, i);
      assert samples[i].error > band;
      assert StayedUnder(band, samples, i) by {
        forall j | i < j < n ensures samples[j].error >= -band {
          assert all[j] == samples[j];
        }
      }
      assert all[n].error >= -band;
    }
  }

  /** A two-position switch remembers the side. */
  predicate Remembers(state: Phase, band: real, samples: seq<Sample>) {
    && (state.Init? <==> samples == [])
    && (state.Positive? <==> Under(band, samples))
  }

  lemma SwitchRemembers(state: Phase, band: real, samples: seq<Sample>, next: Sample)
    requires band > 0.0 && Remembers(state, band, samples)
    ensures Remembers(Switched(state, band, next.error), band, samples + [next])
    ensures Switches(state, band, next.error) <==> Crosses(band, samples + [next])
  {
    StaysUnder(band, samples, next);
    assert (samples + [next])[..|samples|] == samples;
    hide Under;
  }

  /** The intervals are those between crossings, as long as the store holds. */
  predicate Times(f: Frequency, times: seq<nat>) {
    && (f.crossed <==> times != [])
    && (times != [] ==> f.lastCrossing == times[|times| - 1])
    && (f.overflowed <==> |times| > MAX_INTERVALS + 1)
    && (if |times| == 0 then f.intervals == []
        else |f.intervals| == if f.overflowed then MAX_INTERVALS else |times| - 1)
    && forall i :: 0 <= i < |f.intervals| ==> times[i] + f.intervals[i] == times[i + 1]
  }

  lemma CrossingIsTimed(f: Frequency, band: real, samples: seq<Sample>, next: Sample)
    requires band > 0.0 && Remembers(f.state, band, samples) && Times(f, CrossingTimes(band, samples))
    requires f.crossed ==> f.lastCrossing <= next.ms
    ensures var g := Crossing(f, band, next.error, next.ms);
            && Remembers(g.state, band, samples + [next])
            && Times(g, CrossingTimes(band, samples + [next]))
            && (g.crossed ==> g.lastCrossing <= next.ms)
  {
    SwitchRemembers(f.state, band, samples, next);
    assert (samples + [next])[..|samples|] == samples;
    hide Remembers, Crosses, Switches, Switched;
  }

  /** Each phase that ended left its peak. */
  predicate Peaked(t: Tuner, samples: seq<Sample>)
    requires samples != []
  {
    var band := t.noiseband;
    var phases := Phases(band, samples);
    var n := |phases| - 1;
    && |t.extremes| == n
    && (Under(band, samples) <==> UnderIn(band, samples, n))
    && IsPeak(phases[n], true, t.amplitude.high)
    && IsPeak(phases[n], false, t.amplitude.low)
    && forall i :: 0 <= i < n ==> IsPeak(phases[i], UnderIn(band, samples, i), t.extremes[i])
  }

  /** The peaks shared out: one list for the phases under the target, one for those over it. */
  predicate SharedOut(t: Tuner, under: bool) {
    var m := |t.extremes|;
    var evens, odds :=
      if under then t.amplitude.maxs else t.amplitude.mins, if under then t.amplitude.mins else t.amplitude.maxs;
    && |evens| == (m + 1) / 2 && |odds| == m / 2
    && (forall k :: 0 <= k < |evens| ==> evens[k] == t.extremes[2 * k].error)
    && (forall k :: 0 <= k < |odds| ==> odds[k] == t.extremes[2 * k + 1].error)
  }

  /** What the tuner holds, said of its readings alone. */
  predicate Observes(t: Tuner, samples: seq<Sample>)
    requires samples != []
  {
    && Remembers(t.relay, t.noiseband, samples) && t.amplitude.last == t.relay
    && Remembers(t.frequency.state, t.noiseband / 4.0, samples)
    && Times(t.frequency, CrossingTimes(t.noiseband / 4.0, samples))
    && (t.frequency.crossed ==> t.frequency.lastCrossing <= Last(samples))
    && Peaked(t, samples)
    && SharedOut(t, samples[0].error > t.noiseband)
  }

  lemma OnePeak(x: Extreme, under: bool)
    ensures IsPeak([Sample(x.error, x.ms)], under, x)
  {}

  lemma PeakGrows(phase: seq<Sample>, under: bool, x: Extreme, next: Sample)
    requires IsPeak(phase, under, x)
    ensures var beyond := if under then next.error > x.error else next.error < x.error;
            IsPeak(phase + [next], under, if beyond then Extreme(next.ms, next.error) else x)
  {}

  lemma FirstIsObserved(t: Tuner, next: Sample)
    requires t.noiseband > 0.0 && t == NewTuner(t.noiseband, t.outputNegative, t.outputPositive)
    ensures Observes(RelayTuner.Sampled(t, next.error, next.ms), [next])
  {
    var s := RelayTuner.Sampled(t, next.error, next.ms);
    assert [next] == [] + [next];
    assert [next][..0] == [];
    SwitchRemembers(t.relay, t.noiseband, [], next);
    CrossingIsTimed(t.frequency, t.noiseband / 4.0, [], next);
    OnePeak(s.amplitude.high, true);
    OnePeak(s.amplitude.low, false);
    StaysUnder(t.noiseband, [], next);
    hide Under, IsPeak, CrossingTimes;
    assert Phases(t.noiseband, [next]) == [[next]];
  }

  lemma NextPeaks(t: Tuner, samples: seq<Sample>, next: Sample)
    requires samples != [] && t.noiseband > 0.0 && t.amplitude.last == t.relay
    requires Remembers(t.relay, t.noiseband, samples) && Peaked(t, samples)
    ensures Peaked(RelayTuner.Sampled(t, next.error, next.ms), samples + [next])
  {
    var s := RelayTuner.Sampled(t, next.error, next.ms);
    var band, all := t.noiseband, samples + [next];
    assert all[..|samples|] == samples;
    SwitchRemembers(t.relay, band, samples, next);
    var before, after := Phases(band, samples), Phases(band, all);
    var n := |before| - 1;
    OnePeak(Extreme(next.ms, next.error), true);
    OnePeak(Extreme(next.ms, next.error), false);
    PeakGrows(before[n], true, t.amplitude.high, next);
    PeakGrows(before[n], false, t.amplitude.low, next);
    hide Under, IsPeak, Switched, Switches;
    forall i | 0 <= i < |after| - 1
      ensures i < |s.extremes| && IsPeak(after[i], UnderIn(band, all, i), s.extremes[i])
    {
      assert after[i] == before[i];
    }
  }

  lemma NextShared(t: Tuner, samples: seq<Sample>, next: Sample)
    requires samples != [] && t.noiseband > 0.0 && t.amplitude.last == t.relay
    requires Remembers(t.relay, t.noiseband, samples) && Peaked(t, samples)
    requires SharedOut(t, samples[0].error > t.noiseband)
    ensures SharedOut(RelayTuner.Sampled(t, next.error, next.ms), samples[0].error > t.noiseband)
  {
    hide Under, IsPeak, Phases;
  }

  lemma NextIsObserved(t: Tuner, samples: seq<Sample>, next: Sample)
    requires samples != [] && t.noiseband > 0.0 && Observes(t, samples) && Last(samples) <= next.ms
    ensures Observes(RelayTuner.Sampled(t, next.error, next.ms), samples + [next])
  {
    SwitchRemembers(t.relay, t.noiseband, samples, next);
    CrossingIsTimed(t.frequency, t.noiseband / 4.0, samples, next);
    NextPeaks(t, samples, next);
    NextShared(t, samples, next);
    hide Remembers, Times, Peaked, SharedOut, CrossingTimes;
  }

  /** Until it finishes, a tuner holds exactly what its readings say. */
  lemma {:induction false} RunObserves(t: Tuner, samples: seq<Sample>)
    requires t.noiseband > 0.0 && t == NewTuner(t.noiseband, t.outputNegative, t.outputPositive)
    requires Forward(samples) && samples != [] && !Run(t, samples[..|samples| - 1]).finished
    ensures var last := samples[|samples| - 1];
            Observes(RelayTuner.Sampled(Run(t, samples[..|samples| - 1]), last.error, last.ms), samples)
    decreases |samples|
  {
    var n := |samples| - 1;
    var before := samples[..n];
    assert samples == before + [samples[n]];
    if n == 0 {
      FirstIsObserved(t, samples[0]);
    } else {
      RunObserves(t, before);
      NoisebandKept(t, before);
      hide Observes;
      NextIsObserved(Run(t, before), before, samples[n]);
    }
  }

  // --- The period and the gain ---

  lemma {:induction false} IntervalsSumUp(xs: seq<nat>, times: seq<nat>)
    requires |times| > |xs| && forall i :: 0 <= i < |xs| ==> times[i] + xs[i] == times[i + 1]
    ensures times[0] + Sum(xs) == times[|xs|]
    decreases |xs|
  {
    if xs != [] {
      IntervalsSumUp(xs[..|xs| - 1], times);
    }
  }

  function Lasted(times: seq<nat>): int
    requires times != []
  {
    var first: int, last: int := times[0], times[|times| - 1];
    last - first
  }

  /** Twice the time from the first crossing to the last over their number less one, in seconds. */
  lemma PeriodOfTimes(f: Frequency, times: seq<nat>)
    requires Times(f, times) && f.intervals != [] && !f.overflowed
    ensures |times| == |f.intervals| + 1
    ensures MeanPeriod(f) * (|times| - 1) as real == 2.0 * Lasted(times) as real / 1000.0
  {
    IntervalsSumUp(f.intervals, times);
    var sum, n := Sum(f.intervals) as real, |f.intervals| as real;
    assert n > 0.0;
    Divided(sum, n);
  }

  lemma Divided(sum: real, n: real)
    requires n > 0.0
    ensures sum / n / 1000.0 * 2.0 * n == 2.0 * sum / 1000.0
  {
    var q := sum / n;
    assert q * n == sum;
    assert q / 1000.0 * 2.0 * n == (q * n) / 1000.0 * 2.0;
  }

  predicate EvenlySpaced(times: seq<nat>, ms: nat) {
    forall i :: 0 <= i < |times| - 1 ==> times[i + 1] == times[i] + ms
  }

  lemma {:induction false} EvenlyFarApart(times: seq<nat>, ms: nat, n: nat)
    requires EvenlySpaced(times, ms) && n < |times|
    ensures times[n] == times[0] + n * ms
    decreases n
  {
    if n > 0 {
      EvenlyFarApart(times, ms, n - 1);
      assert (n - 1) * ms + ms == n * ms;
    }
  }

  lemma EvenPeriod(period: real, times: seq<nat>, ms: nat)
    requires |times| > 1 && EvenlySpaced(times, ms)
    requires period * (|times| - 1) as real == 2.0 * Lasted(times) as real / 1000.0
    ensures period == 2.0 * ms as real / 1000.0
  {
    var n := |times| - 1;
    EvenlyFarApart(times, ms, n);
    var exact := 2.0 * ms as real / 1000.0;
    assert (n * ms) as real == n as real * ms as real;
    assert exact * n as real == period * n as real;
    Cancels(exact, period, n as real);
  }

  lemma Cancels(x: real, y: real, n: real)
    requires n > 0.0 && x * n == y * n
    ensures x == y
  {
    assert (x - y) * n == 0.0;
  }

  /** One swing measures the amplitude: half of what lies between the peaks of two phases, neither the
      first. */
  lemma OneSwing(t: Tuner, under: bool)
    requires SharedOut(t, under) && |t.extremes| == 6
    ensures Pairs(t.amplitude) == 3
    ensures t.amplitude.maxs[1] == t.extremes[if under then 2 else 3].error
    ensures t.amplitude.mins[2] == t.extremes[if under then 5 else 4].error
    ensures MeanAmplitude(t.amplitude) == Abs(t.amplitude.maxs[1] - t.amplitude.mins[2]) / 2.0
  {
    var a := t.amplitude;
    if under {
      assert a.maxs[1] == t.extremes[2 * 1].error && a.mins[2] == t.extremes[2 * 2 + 1].error;
    } else {
      assert a.maxs[1] == t.extremes[2 * 1 + 1].error && a.mins[2] == t.extremes[2 * 2].error;
    }
    assert SwingSum(a, 1) == SwingSum(a, 0) + Abs(a.maxs[1] - a.mins[2]);
  }

  /** The sixth phase ended: the peaks of all six, in order. */
  predicate SixPeaks(t: Tuner, samples: seq<Sample>)
    requires samples != []
  {
    var phases := Phases(t.noiseband, samples);
    && |phases| == 7 && |t.extremes| == 6
    && forall i :: 0 <= i < 6 ==> IsPeak(phases[i], UnderIn(t.noiseband, samples, i), t.extremes[i])
  }

  /** The swing that is measured: from the last peak but one under the target to the last one over it. */
  function Swing(t: Tuner, samples: seq<Sample>): real
    requires samples != [] && |t.extremes| == 6
  {
    if UnderIn(t.noiseband, samples, 0) then t.extremes[2].error - t.extremes[5].error
    else t.extremes[3].error - t.extremes[4].error
  }

  lemma SwingIsPositive(t: Tuner, samples: seq<Sample>, now: nat)
    requires samples != [] && Observes(t, samples) && Sound(t, now) && t.phaseCount == 6
    ensures |t.extremes| == 6 && Pairs(t.amplitude) == 3
    ensures Swing(t, samples) > 0.0 && MeanAmplitude(t.amplitude) == Swing(t, samples) / 2.0
  {
    hide Remembers, Times, Peaked, Crosses, Zigzag;
    var a := t.amplitude;
    var under := samples[0].error > t.noiseband;
    OneSwing(t, under);
    assert a.maxs[1] > t.noiseband && a.mins[2] < -t.noiseband;
  }

  /** A finished tuner in terms of its readings. */
  predicate Measures(t: Tuner, samples: seq<Sample>)
    requires samples != []
  {
    var times := CrossingTimes(t.noiseband / 4.0, samples);
    && 2 < |times| <= MAX_INTERVALS + 1
    && t.pu * (|times| - 1) as real == 2.0 * Lasted(times) as real / 1000.0
    && SixPeaks(t, samples)
    && Swing(t, samples) > 0.0
    && t.ku == 4.0 * (Span(t) / 2.0) / (PI * (Swing(t, samples) / 2.0))
  }

  lemma MeasuringMeasures(s: Tuner, samples: seq<Sample>, now: nat)
    requires samples != [] && Observes(s, samples) && EnoughData(s) && Sound(Measuring(s), now)
    ensures Measures(Measuring(s), samples)
  {
    hide Remembers, Under, IsPeak, Phases, CrossingTimes, Zigzag, Peaks;
    var t := Measuring(s);
    assert Observes(t, samples);
    SwingIsPositive(t, samples, now);
    PeriodOfTimes(s.frequency, CrossingTimes(s.noiseband / 4.0, samples));
  }

  /** The reading that finishes a calibration gives, whatever the readings were: a period twice the time
      between the first crossing of the target and the last over their number less one, and the gain
      4d / (PI a), where d is what the relay swings from its middle and a what the readings do: half of what lies
      between two of their peaks. */
  lemma FinishedRunMeasuresItsReadings(
    noiseband: real, outputMin: real, outputMax: real, samples: seq<Sample>, next: Sample)
    requires noiseband > 0.0 && Forward(samples + [next])
    requires !Run(NewTuner(noiseband, outputMin, outputMax), samples).finished
    requires Run(NewTuner(noiseband, outputMin, outputMax), samples + [next]).finished
    ensures var t := Run(NewTuner(noiseband, outputMin, outputMax), samples + [next]);
            t.noiseband == noiseband && Measures(t, samples + [next])
  {
    var t, all := NewTuner(noiseband, outputMin, outputMax), samples + [next];
    assert all[..|samples|] == samples;
    RunObserves(t, all);
    RunIsSound(t, all);
    NoisebandKept(t, all);
    hide Observes, Sound, Measures, RelayTuner.Sampled;
    MeasuringMeasures(RelayTuner.Sampled(Run(t, samples), next.error, next.ms), all, Last(all));
  }

  /** Crossings every `ms`, a half period apart, give the period exactly, and peaks of constant height on
      either side the swing between them. */
  lemma EvenSwingIsMeasuredExactly(t: Tuner, samples: seq<Sample>, ms: nat, under: real, over: real)
    requires samples != [] && Measures(t, samples) && EvenlySpaced(CrossingTimes(t.noiseband / 4.0, samples), ms)
    requires forall i :: 0 < i < 6 ==> t.extremes[i].error == if UnderIn(t.noiseband, samples, i) then under else over
    ensures t.pu == 2.0 * ms as real / 1000.0
    ensures under > over && t.ku == 4.0 * (Span(t) / 2.0) / (PI * ((under - over) / 2.0))
  {
    hide CrossingTimes, IsPeak, Phases;
    EvenPeriod(t.pu, CrossingTimes(t.noiseband / 4.0, samples), ms);
  }
}
