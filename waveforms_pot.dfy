/** Potentiostatic waveform generators of the current driver: a held
    potential, a staircase of potential steps, a linear sweep, and cyclic
    voltammetry assembled from linear sweeps. */
module WaveformsPot {
  import opened Common
  import opened Sampling
  import opened WaveformOutputs

  /** `constant_waveform`: `int(duration / POINT_INTERVAL)` samples of one potential. */
  function ConstantWaveform(potential: real, duration: real): (r: Result<Waveform, WaveError>)
    ensures r.Ok? <==> Count(duration) >= 0
    ensures r.Err? ==> r.error == NegativeDimension
    ensures r.Ok? ==> r.value.Poten? && WellFormed(r.value, POINT_INTERVAL)
    ensures r.Ok? ==> |r.value.time| == Count(duration)
    ensures r.Ok? ==> forall i | 0 <= i < |r.value.appliedPotential| :: r.value.appliedPotential[i] == potential
  {
    match Full(Count(duration), potential)
    case Err(e) => Err(e)
    case Ok(p) => Ok(Poten(TimeAxis(|p|, POINT_INTERVAL), p))
  }

  /** `0, 1, ..., n - 1`: Python's `range(n)`. */
  function Range(n: nat): (r: seq<int>)
    ensures |r| == n && forall i | 0 <= i < n :: r[i] == i
  {
    seq(n, i => i)
  }

  /** `potential_steps`: each potential held for `int(step_duration / POINT_INTERVAL)`
      samples, labelled with its 0-based step index.  Concatenating no steps
      fails, and so does a negative step length. */
  function PotentialSteps(potentials: seq<real>, stepDuration: real): (r: Result<Waveform, WaveError>)
    ensures r.Ok? <==> |potentials| > 0 && Count(stepDuration) >= 0
    ensures potentials == [] ==> r == Err(EmptyConcatenation)
    ensures potentials != [] && Count(stepDuration) < 0 ==> r == Err(NegativeDimension)
    ensures r.Ok? ==> r.value.SteppedPoten? && WellFormed(r.value, POINT_INTERVAL)
    ensures r.Ok? ==> |r.value.time| == |potentials| * Count(stepDuration)
  {
    var length := Count(stepDuration);
    if potentials == [] then Err(EmptyConcatenation)
    else if length < 0 then Err(NegativeDimension)
    else
      var applied := Repeat(potentials, length);
      Ok(SteppedPoten(TimeAxis(|applied|, POINT_INTERVAL), applied, Repeat(Range(|potentials|), length)))
  }

  /** Sample `r` of step `i` carries potential `i` and step label `i`. */
  lemma PotentialStepsAt(potentials: seq<real>, stepDuration: real, i: int, r: int)
    requires PotentialSteps(potentials, stepDuration).Ok?
    requires 0 <= i < |potentials| && 0 <= r < Count(stepDuration)
    ensures var w := PotentialSteps(potentials, stepDuration).value;
      i * Count(stepDuration) + r < |w.time| &&
      w.appliedPotential[i * Count(stepDuration) + r] == potentials[i] &&
      w.step[i * Count(stepDuration) + r] == i
  {
    RepeatAt(potentials, Count(stepDuration), i, r);
    RepeatAt(Range(|potentials|), Count(stepDuration), i, r);
  }

  /** The number of samples of a sweep: `int(abs(end - start) / scan_rate / POINT_INTERVAL)`.
      Dividing by a zero scan rate raises. */
  function SweepLength(start: real, end: real, scanRate: real): (r: Result<int, WaveError>)
    ensures r.Err? <==> scanRate == 0.0
    ensures r.Err? ==> r.error == ZeroDivision
    ensures scanRate > 0.0 ==> r.Ok? && r.value >= 0
  {
    if scanRate == 0.0 then Err(ZeroDivision) else Ok(Count(Abs(end - start) / scanRate))
  }

  /** The samples of `linear_sweep`: a numpy linspace from `start` to `end`
      over the samples the scan rate needs; it fails on a zero scan rate and
      on a negative count (a negative scan rate over a non-trivial range). */
  function SweepValues(start: real, end: real, scanRate: real): (r: Result<seq<real>, WaveError>)
    ensures scanRate == 0.0 ==> r == Err(ZeroDivision)
    ensures scanRate > 0.0 ==> r.Ok?
  {
    match SweepLength(start, end, scanRate)
    case Err(e) => Err(e)
    case Ok(n) => Linspace(start, end, n)
  }

  /** A sweep fails only on a zero scan rate or a negative sample count; when
      it succeeds it has the count's length, starts at `start` and ends at
      `end`. */
  lemma SweepShape(start: real, end: real, scanRate: real)
    ensures var r := SweepValues(start, end, scanRate);
      (r.Ok? <==> SweepLength(start, end, scanRate).Ok? && SweepLength(start, end, scanRate).value >= 0) &&
      (r.Err? ==> r.error == ZeroDivision || r.error == NegativeDimension) &&
      (r.Ok? ==> |r.value| == SweepLength(start, end, scanRate).value) &&
      (r.Ok? && |r.value| >= 1 ==> r.value[0] == start) &&
      (r.Ok? && |r.value| >= 2 ==> r.value[|r.value| - 1] == end)
  {
  }

  /** Sweeping a range backwards takes as many samples as sweeping it
      forwards, so the return sweep of a cycle fails exactly when the
      forward one does. */
  lemma SweepSymmetric(a: real, b: real, scanRate: real)
    ensures SweepValues(a, b, scanRate).Ok? <==> SweepValues(b, a, scanRate).Ok?
    ensures SweepValues(a, b, scanRate).Ok? ==> |SweepValues(a, b, scanRate).value| == |SweepValues(b, a, scanRate).value|
  {
    assert Abs(b - a) == Abs(a - b);
  }

  /** `linear_sweep`: the sweep's samples on their time axis. */
  function LinearSweep(start: real, end: real, scanRate: real): (r: Result<Waveform, WaveError>)
    ensures r.Ok? <==> SweepValues(start, end, scanRate).Ok?
    ensures r.Err? ==> r.error == SweepValues(start, end, scanRate).error
    ensures r.Ok? ==> r.value.Poten? && WellFormed(r.value, POINT_INTERVAL)
    ensures r.Ok? ==> r.value.appliedPotential == SweepValues(start, end, scanRate).value
  {
    match SweepValues(start, end, scanRate)
    case Err(e) => Err(e)
    case Ok(p) => Ok(Poten(TimeAxis(|p|, POINT_INTERVAL), p))
  }

  /** Cycle labels of a voltammogram: `head` opening samples of cycle 1, a
      block of `pairLen` samples for each cycle 2..cycles, then `closingLen`
      closing samples labelled `cycles`. */
  function CvLabels(head: nat, cycles: int, pairLen: nat, closingLen: nat): seq<int>
  {
    Fill(head, 1) + LabelBlocks(2, cycles, pairLen) + Fill(closingLen, cycles)
  }

  /** The waveform `cyclic_voltammetry` returns, in closed form: the opening
      sweeps start -> vertex1 -> vertex2 labelled 1, `cycles - 1` copies of
      the sweep pair vertex2 -> vertex1 -> vertex2 labelled 2, 3, ...,
      cycles, and, when `end` differs from vertex2, a closing sweep
      vertex2 -> end labelled `cycles`.  The first sweep that fails, in the
      order the source computes them, decides the error. */
  function CyclicVoltammetrySpec(start: real, vertex1: real, vertex2: real, end: real,
                                 scanRate: real, cycles: int): (r: Result<Waveform, WaveError>)
    ensures r.Ok? ==> r.value.CyclicPoten? && WellFormed(r.value, POINT_INTERVAL)
    ensures scanRate == 0.0 ==> r == Err(ZeroDivision)
    ensures scanRate > 0.0 ==> r.Ok?
  {
    var opening := SweepValues(start, vertex1, scanRate);
    var second := SweepValues(vertex1, vertex2, scanRate);
    var back := SweepValues(vertex2, vertex1, scanRate);
    var extra := SweepValues(vertex2, end, scanRate);
    if opening.Err? then Err(opening.error)
    else if second.Err? then Err(second.error)
    else if end != vertex2 && extra.Err? then Err(extra.error)
    else
      SweepSymmetric(vertex1, vertex2, scanRate);
      var pair := if cycles >= 2 then back.value + second.value else [];
      var closing := if end != vertex2 then extra.value else [];
      var values := opening.value + second.value + Copies(pair, cycles - 1) + closing;
      var labels := CvLabels(|opening.value| + |second.value|, cycles, |pair|, |closing|);
      LabelBlocksLength(pair, 2, cycles);
      Ok(CyclicPoten(TimeAxis(|values|, POINT_INTERVAL), values, labels))
  }

  /** `cyclic_voltammetry`: the two opening sweeps, the loop over cycles
      `2..cycles`, the optional closing sweep, then the time axis. */
  method CyclicVoltammetry(start: real, vertex1: real, vertex2: real, end: real,
                           scanRate: real, cycles: int) returns (r: Result<Waveform, WaveError>)
    ensures r == CyclicVoltammetrySpec(start, vertex1, vertex2, end, scanRate, cycles)
  {
    var seg1 := SweepValues(start, vertex1, scanRate);
    var seg2 := SweepValues(vertex1, vertex2, scanRate);
    if seg1.Err? {
      return Err(seg1.error);
    }
    if seg2.Err? {
      return Err(seg2.error);
    }
    var segments := seg1.value + seg2.value;
    var cycle := Fill(|seg1.value| + |seg2.value|, 1);
    SweepSymmetric(vertex1, vertex2, scanRate);
    ghost var pair: seq<real> := [];
    var n := 2;
    while n <= cycles
      invariant 2 <= n && (cycles >= 2 ==> n <= cycles + 1) && (cycles < 2 ==> n == 2)
      invariant n == 2 ==> pair == []
      invariant n > 2 ==> (SweepValues(vertex2, vertex1, scanRate).Ok? &&
        pair == SweepValues(vertex2, vertex1, scanRate).value + seg2.value)
      invariant segments == seg1.value + seg2.value + Copies(pair, n - 2)
      invariant cycle == Fill(|seg1.value| + |seg2.value|, 1) + LabelBlocks(2, n - 1, |pair|)
      decreases cycles - n
    {
      var segUp := SweepValues(vertex2, vertex1, scanRate);
      var segDown := SweepValues(vertex1, vertex2, scanRate);
      pair := segUp.value + segDown.value;
      CopiesStep(seg1.value + seg2.value, pair, n - 2);
      LabelBlocksStep(Fill(|seg1.value| + |seg2.value|, 1), 2, n - 1, |pair|);
      segments := segments + (segUp.value + segDown.value);
      cycle := cycle + Fill(|segUp.value| + |segDown.value|, n);
      n := n + 1;
    }
    assert Copies(pair, n - 2) == Copies(pair, cycles - 1);
    assert LabelBlocks(2, n - 1, |pair|) == LabelBlocks(2, cycles, |pair|);
    var closing: seq<real> := [];
    if end != vertex2 {
      var segExtra := SweepValues(vertex2, end, scanRate);
      if segExtra.Err? {
        return Err(segExtra.error);
      }
      closing := segExtra.value;
    }
    segments := segments + closing;
    cycle := cycle + Fill(|closing|, cycles);
    r := Ok(CyclicPoten(TimeAxis(|segments|, POINT_INTERVAL), segments, cycle));
  }

  /** The sample count of a voltammogram with a positive scan rate, where
      `L(a, b)` is the count of a sweep from `a` to `b`: the opening sweeps,
      two sweeps of the vertex range per middle cycle, and the closing sweep. */
  lemma CvLength(start: real, vertex1: real, vertex2: real, end: real, scanRate: real, cycles: int)
    requires scanRate > 0.0
    ensures var w := CyclicVoltammetrySpec(start, vertex1, vertex2, end, scanRate, cycles).value;
      |w.time| == Count(Abs(vertex1 - start) / scanRate) + Count(Abs(vertex2 - vertex1) / scanRate)
        + (if cycles >= 2 then (cycles - 1) * (2 * Count(Abs(vertex2 - vertex1) / scanRate)) else 0)
        + (if end != vertex2 then Count(Abs(end - vertex2) / scanRate) else 0)
  {
    SweepSymmetric(vertex1, vertex2, scanRate);
    var second := SweepValues(vertex1, vertex2, scanRate).value;
    var back := SweepValues(vertex2, vertex1, scanRate).value;
    CopiesLength(if cycles >= 2 then back + second else [], cycles - 1);
  }

  lemma CvLabelsBounds(head: nat, cycles: int, pairLen: nat, closingLen: nat)
    requires cycles >= 1
    ensures var c := CvLabels(head, cycles, pairLen, closingLen);
      NonDecreasing(c) && forall i | 0 <= i < |c| :: 1 <= c[i] <= cycles
  {
    LabelBlocksBounds(2, cycles, pairLen);
    FillBounds(head, 1);
    FillBounds(closingLen, cycles);
    ConcatOrdered(Fill(head, 1), LabelBlocks(2, cycles, pairLen), 1, 1, cycles);
    ConcatOrdered(Fill(head, 1) + LabelBlocks(2, cycles, pairLen), Fill(closingLen, cycles), 1, cycles, cycles);
  }

  /** With at least one cycle the cycle labels run from 1 to `cycles` in order. */
  lemma CvLabelsOrdered(start: real, vertex1: real, vertex2: real, end: real, scanRate: real, cycles: int)
    requires CyclicVoltammetrySpec(start, vertex1, vertex2, end, scanRate, cycles).Ok?
    requires cycles >= 1
    ensures var c := CyclicVoltammetrySpec(start, vertex1, vertex2, end, scanRate, cycles).value.cycle;
      NonDecreasing(c) && forall i | 0 <= i < |c| :: 1 <= c[i] <= cycles
  {
    var opening := SweepValues(start, vertex1, scanRate).value;
    var second := SweepValues(vertex1, vertex2, scanRate).value;
    var back := SweepValues(vertex2, vertex1, scanRate);
    var pair := if cycles >= 2 then back.value + second else [];
    var closing := if end != vertex2 then SweepValues(vertex2, end, scanRate).value else [];
    CvLabelsBounds(|opening| + |second|, cycles, |pair|, |closing|);
  }

  /** The voltammogram opens with the sweep from `start` to vertex1, labelled
      cycle 1, and so begins at `start`. */
  lemma CvOpening(start: real, vertex1: real, vertex2: real, end: real, scanRate: real, cycles: int)
    requires CyclicVoltammetrySpec(start, vertex1, vertex2, end, scanRate, cycles).Ok?
    ensures var w := CyclicVoltammetrySpec(start, vertex1, vertex2, end, scanRate, cycles).value;
      var opening := SweepValues(start, vertex1, scanRate).value;
      |opening| <= |w.time| && w.appliedPotential[..|opening|] == opening &&
      w.cycle[..|opening|] == Fill(|opening|, 1) &&
      (|opening| >= 1 ==> w.appliedPotential[0] == start)
  {
    var w := CyclicVoltammetrySpec(start, vertex1, vertex2, end, scanRate, cycles).value;
    var opening := SweepValues(start, vertex1, scanRate).value;
    SweepShape(start, vertex1, scanRate);
    assert w.appliedPotential[..|opening|] == opening;
    assert w.cycle[..|opening|] == Fill(|opening|, 1);
  }

  /** When `end` differs from vertex2 the voltammogram closes with the sweep
      from vertex2 to `end`, labelled with the cycle count itself, and so
      finishes at `end` once that sweep has two samples. */
  lemma CvClosing(start: real, vertex1: real, vertex2: real, end: real, scanRate: real, cycles: int)
    requires CyclicVoltammetrySpec(start, vertex1, vertex2, end, scanRate, cycles).Ok?
    requires end != vertex2
    ensures var w := CyclicVoltammetrySpec(start, vertex1, vertex2, end, scanRate, cycles).value;
      var closing := SweepValues(vertex2, end, scanRate).value;
      var n := |w.time|;
      |closing| <= n && w.appliedPotential[n - |closing|..] == closing &&
      w.cycle[n - |closing|..] == Fill(|closing|, cycles) &&
      (|closing| >= 2 ==> w.appliedPotential[n - 1] == end)
  {
    var w := CyclicVoltammetrySpec(start, vertex1, vertex2, end, scanRate, cycles).value;
    var closing := SweepValues(vertex2, end, scanRate).value;
    SweepShape(vertex2, end, scanRate);
    var n := |w.time|;
    assert w.appliedPotential[n - |closing|..] == closing;
    assert w.cycle[n - |closing|..] == Fill(|closing|, cycles);
  }

  /** With no cycles requested but a closing sweep, that sweep is labelled
      `cycles` (0 or less) after the opening sweeps' label 1, so the labels
      are out of order. */
  lemma CvNoCyclesLabelsOutOfOrder(start: real, vertex1: real, vertex2: real, end: real, scanRate: real, cycles: int)
    requires CyclicVoltammetrySpec(start, vertex1, vertex2, end, scanRate, cycles).Ok?
    requires cycles <= 0 && end != vertex2
    requires |SweepValues(start, vertex1, scanRate).value| > 0 && |SweepValues(vertex2, end, scanRate).value| > 0
    ensures !NonDecreasing(CyclicVoltammetrySpec(start, vertex1, vertex2, end, scanRate, cycles).value.cycle)
  {
    var c := CyclicVoltammetrySpec(start, vertex1, vertex2, end, scanRate, cycles).value.cycle;
    CvOpening(start, vertex1, vertex2, end, scanRate, cycles);
    CvClosing(start, vertex1, vertex2, end, scanRate, cycles);
    var k := |SweepValues(vertex2, end, scanRate).value|;
    assert c[..1][0] == 1 by {
      assert c[..|SweepValues(start, vertex1, scanRate).value|][0] == 1;
    }
    assert c[|c| - k..][k - 1] == cycles;
    assert c[0] == 1 && c[|c| - 1] == cycles;
  }
}
