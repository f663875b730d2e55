/** The legacy potentiostatic generators (`src/pyBEEP/waveforms_pot.py`),
    which return bare sample arrays rather than waveform outputs.  They, and
    the mode-switched generators of `src/pyBEEP/waveforms.py`, sample at one
    of two periods that their modules import from `constants.py` but that
    the current `constants.py` no longer defines; the model therefore knows
    of them only that they are positive. */
module LegacyWaveformsPot {
  import opened Common
  import opened Sampling
  import WaveformsPot

  /** Sample period of the legacy potentiostatic mode (value not defined). */
  const POINT_INTERVAL_POT: PositiveReal

  /** Sample period of the legacy galvanostatic mode (value not defined). */
  const POINT_INTERVAL_GAL: PositiveReal

  /** `np.full(int(duration / interval), value)`: one value held for the
      duration; a negative count fails. */
  function HeldValues(value: real, duration: real, interval: PositiveReal): (r: Result<seq<real>, WaveError>)
    ensures r.Ok? <==> CountWith(duration, interval) >= 0
    ensures r.Err? ==> r.error == NegativeDimension
    ensures r.Ok? ==> |r.value| == CountWith(duration, interval)
    ensures r.Ok? ==> forall i | 0 <= i < |r.value| :: r.value[i] == value
  {
    Full(CountWith(duration, interval), value)
  }

  /** `linspace(start, end, int(abs(end - start) / scan_rate / interval))`:
      a zero scan rate raises before numpy is reached, a negative count fails
      inside numpy. */
  function SweepValues(start: real, end: real, scanRate: real, interval: PositiveReal): (r: Result<seq<real>, WaveError>)
    ensures scanRate == 0.0 ==> r == Err(ZeroDivision)
    ensures scanRate > 0.0 ==> r.Ok?
  {
    if scanRate == 0.0 then Err(ZeroDivision)
    else
      var duration := Abs(end - start) / scanRate;
      assert scanRate > 0.0 ==> duration >= 0.0;
      Linspace(start, end, CountWith(duration, interval))
  }

  /** A sweep with a positive scan rate never fails; it starts at `start`,
      ends at `end` once it has two samples, stays between the two, in
      order, when `start <= end`, and is empty when they are equal. */
  lemma SweepShape(start: real, end: real, scanRate: real, interval: PositiveReal)
    requires scanRate > 0.0
    ensures var r := SweepValues(start, end, scanRate, interval);
      r.Ok? && |r.value| == CountWith(Abs(end - start) / scanRate, interval) &&
      (|r.value| >= 1 ==> r.value[0] == start) &&
      (|r.value| >= 2 ==> r.value[|r.value| - 1] == end) &&
      (start <= end ==> forall i, j | 0 <= i <= j < |r.value| :: start <= r.value[i] <= r.value[j] <= end) &&
      (start == end ==> r.value == [])
  {
    var n := CountWith(Abs(end - start) / scanRate, interval);
    assert Abs(end - start) / scanRate >= 0.0;
    if start <= end {
      LinspaceOrdered(start, end, n);
    }
    if start == end {
      assert Abs(end - start) / scanRate == 0.0;
      CountZero(interval);
    }
  }

  /** The samples of a cyclic voltammogram in closed form: `cycles` copies of
      the sweep start -> vertex followed by the sweep vertex -> end.  With no
      cycle the list of segments is empty and concatenating it fails
      whatever the other arguments; otherwise the first sweep that fails, in
      the order the loop computes them, decides the error. */
  function CyclicSpec(start: real, vertex: real, end: real, scanRate: real, cycles: int,
                      interval: PositiveReal): (r: Result<seq<real>, WaveError>)
    ensures cycles <= 0 ==> r == Err(EmptyConcatenation)
    ensures cycles > 0 && scanRate == 0.0 ==> r == Err(ZeroDivision)
    ensures cycles > 0 && scanRate > 0.0 ==> r.Ok?
  {
    var up := SweepValues(start, vertex, scanRate, interval);
    var down := SweepValues(vertex, end, scanRate, interval);
    if cycles <= 0 then Err(EmptyConcatenation)
    else if up.Err? then Err(up.error)
    else if down.Err? then Err(down.error)
    else Ok(Copies(up.value + down.value, cycles))
  }

  /** The loop shared by both legacy `cyclic_voltammetry` functions: per
      cycle it appends the sweep to the vertex and the sweep to the end to a
      list of segments, then concatenates the list. */
  method CyclicSweeps(start: real, vertex: real, end: real, scanRate: real, cycles: int,
                      interval: PositiveReal) returns (r: Result<seq<real>, WaveError>)
    ensures r == CyclicSpec(start, vertex, end, scanRate, cycles, interval)
  {
    var segments: seq<seq<real>> := [];
    ghost var pair: seq<real> := [];
    var i := 0;
    while i < cycles
      invariant 0 <= i && (cycles >= 0 ==> i <= cycles) && (cycles < 0 ==> i == 0)
      invariant segments == [] <==> i == 0
      invariant i > 0 ==> (SweepValues(start, vertex, scanRate, interval).Ok? &&
        SweepValues(vertex, end, scanRate, interval).Ok? &&
        pair == SweepValues(start, vertex, scanRate, interval).value + SweepValues(vertex, end, scanRate, interval).value)
      invariant Flatten(segments) == Copies(pair, i)
      decreases cycles - i
    {
      var up := SweepValues(start, vertex, scanRate, interval);
      if up.Err? {
        return Err(up.error);
      }
      var down := SweepValues(vertex, end, scanRate, interval);
      if down.Err? {
        return Err(down.error);
      }
      pair := up.value + down.value;
      FlattenPush(segments, up.value);
      FlattenPush(segments + [up.value], down.value);
      AppendAssoc(Copies(pair, i), up.value, down.value);
      segments := segments + [up.value] + [down.value];
      i := i + 1;
    }
    if segments == [] {
      return Err(EmptyConcatenation);
    }
    r := Ok(Flatten(segments));
  }

  /** `constant_waveform`, sampled at the legacy potentiostatic period. */
  function ConstantWaveform(potential: real, duration: real): Result<seq<real>, WaveError>
  {
    HeldValues(potential, duration, POINT_INTERVAL_POT)
  }

  /** `potential_steps`: every potential held for `int(step_duration /
      interval)` samples, one after the other.  With no potential the
      concatenation fails; otherwise a negative step length fails first. */
  function PotentialSteps(potentials: seq<real>, stepDuration: real): (r: Result<seq<real>, WaveError>)
    ensures r.Ok? <==> potentials != [] && CountWith(stepDuration, POINT_INTERVAL_POT) >= 0
    ensures potentials == [] ==> r == Err(EmptyConcatenation)
    ensures potentials != [] && CountWith(stepDuration, POINT_INTERVAL_POT) < 0 ==> r == Err(NegativeDimension)
    ensures r.Ok? ==> |r.value| == |potentials| * CountWith(stepDuration, POINT_INTERVAL_POT)
  {
    var length := CountWith(stepDuration, POINT_INTERVAL_POT);
    if potentials == [] then Err(EmptyConcatenation)
    else if length < 0 then Err(NegativeDimension)
    else Ok(Repeat(potentials, length))
  }

  /** Sample `k` of step `i` carries the `i`-th potential. */
  lemma PotentialStepsAt(potentials: seq<real>, stepDuration: real, i: int, k: int)
    requires PotentialSteps(potentials, stepDuration).Ok?
    requires 0 <= i < |potentials| && 0 <= k < CountWith(stepDuration, POINT_INTERVAL_POT)
    ensures var L := CountWith(stepDuration, POINT_INTERVAL_POT);
      i * L + k < |PotentialSteps(potentials, stepDuration).value| &&
      PotentialSteps(potentials, stepDuration).value[i * L + k] == potentials[i]
  {
    RepeatAt(potentials, CountWith(stepDuration, POINT_INTERVAL_POT), i, k);
  }

  /** `linear_sweep`, sampled at the legacy potentiostatic period. */
  function LinearSweep(start: real, end: real, scanRate: real): Result<seq<real>, WaveError>
  {
    SweepValues(start, end, scanRate, POINT_INTERVAL_POT)
  }

  /** `cyclic_voltammetry`, sampled at the legacy potentiostatic period. */
  method CyclicVoltammetry(start: real, vertex: real, end: real, scanRate: real, cycles: int)
    returns (r: Result<seq<real>, WaveError>)
    ensures r == CyclicSpec(start, vertex, end, scanRate, cycles, POINT_INTERVAL_POT)
  {
    r := CyclicSweeps(start, vertex, end, scanRate, cycles, POINT_INTERVAL_POT);
  }

  /** A voltammogram of `cycles` cycles has `cycles * (L1 + L2)` samples,
      where L1 and L2 are the counts of its two sweeps. */
  lemma CyclicLength(start: real, vertex: real, end: real, scanRate: real, cycles: int,
                     interval: PositiveReal)
    requires scanRate > 0.0 && cycles > 0
    ensures |CyclicSpec(start, vertex, end, scanRate, cycles, interval).value| ==
      cycles * (|SweepValues(start, vertex, scanRate, interval).value| + |SweepValues(vertex, end, scanRate, interval).value|)
  {
    var up := SweepValues(start, vertex, scanRate, interval).value;
    var down := SweepValues(vertex, end, scanRate, interval).value;
    CopiesLength(up + down, cycles);
  }

  /** Sample `i` of cycle `m` is sample `i` of the sweep pair. */
  lemma CyclicSampleAt(start: real, vertex: real, end: real, scanRate: real, cycles: int,
                       interval: PositiveReal, m: int, i: int)
    requires scanRate > 0.0 && 0 <= m < cycles
    requires 0 <= i < |SweepValues(start, vertex, scanRate, interval).value| + |SweepValues(vertex, end, scanRate, interval).value|
    ensures var up := SweepValues(start, vertex, scanRate, interval).value;
      var down := SweepValues(vertex, end, scanRate, interval).value;
      var v := CyclicSpec(start, vertex, end, scanRate, cycles, interval).value;
      0 <= m * (|up| + |down|) + i < |v| && v[m * (|up| + |down|) + i] == (up + down)[i]
  {
    var up := SweepValues(start, vertex, scanRate, interval).value;
    var down := SweepValues(vertex, end, scanRate, interval).value;
    CopiesAt(up + down, cycles, m, i);
  }

  /** Every cycle starts at `start` and, once its second sweep has two
      samples, finishes at `end`; the next cycle then starts again at
      `start`: the legacy generator never sweeps from `end` back to
      `start`, so consecutive cycles jump when the two differ. */
  lemma CyclicJump(start: real, vertex: real, end: real, scanRate: real, cycles: int,
                   interval: PositiveReal, m: int)
    requires scanRate > 0.0 && 0 <= m < cycles - 1
    requires |SweepValues(start, vertex, scanRate, interval).value| >= 1
    requires |SweepValues(vertex, end, scanRate, interval).value| >= 2
    ensures var p := |SweepValues(start, vertex, scanRate, interval).value| + |SweepValues(vertex, end, scanRate, interval).value|;
      var v := CyclicSpec(start, vertex, end, scanRate, cycles, interval).value;
      0 <= m * p < (m + 1) * p < |v| &&
      v[m * p] == start && v[(m + 1) * p - 1] == end && v[(m + 1) * p] == start
  {
    var up := SweepValues(start, vertex, scanRate, interval).value;
    var down := SweepValues(vertex, end, scanRate, interval).value;
    var p := |up| + |down|;
    SweepShape(start, vertex, scanRate, interval);
    SweepShape(vertex, end, scanRate, interval);
    CyclicSampleAt(start, vertex, end, scanRate, cycles, interval, m, 0);
    CyclicSampleAt(start, vertex, end, scanRate, cycles, interval, m, p - 1);
    CyclicSampleAt(start, vertex, end, scanRate, cycles, interval, m + 1, 0);
    assert m * p + (p - 1) == (m + 1) * p - 1;
    assert (m + 1) * p == (m + 1) * p + 0;
  }

  /** Were the legacy potentiostatic period the current one, the legacy
      step and sweep generators would produce the samples the current ones
      carry in their outputs. */
  lemma AgreesWithCurrentGenerators(potentials: seq<real>, stepDuration: real,
                                    start: real, end: real, scanRate: real)
    requires POINT_INTERVAL_POT == POINT_INTERVAL
    ensures PotentialSteps(potentials, stepDuration).Ok? <==> WaveformsPot.PotentialSteps(potentials, stepDuration).Ok?
    ensures PotentialSteps(potentials, stepDuration).Ok? ==>
      PotentialSteps(potentials, stepDuration).value == WaveformsPot.PotentialSteps(potentials, stepDuration).value.appliedPotential
    ensures LinearSweep(start, end, scanRate) == WaveformsPot.SweepValues(start, end, scanRate)
  {
  }
}
