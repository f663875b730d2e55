/** The legacy mode-switched generators (`src/pyBEEP/waveforms.py`): the
    same held value and sweeps as the legacy potentiostatic generators, but
    sampled at the potentiostatic period only in the `pid_inactive` mode and
    at the galvanostatic period in every other mode. */
module LegacyWaveforms {
  import opened Common
  import opened Sampling
  import opened LegacyWaveformsPot

  /** The sample period a mode name selects; any string other than
      `pid_inactive`, including a misspelt one, selects the galvanostatic
      period. */
  function IntervalFor(mode: string): (interval: PositiveReal)
    ensures mode == "pid_inactive" ==> interval == POINT_INTERVAL_POT
    ensures mode != "pid_inactive" ==> interval == POINT_INTERVAL_GAL
  {
    if mode == "pid_inactive" then POINT_INTERVAL_POT else POINT_INTERVAL_GAL
  }

  /** `constant_waveform(mode, value, duration)`. */
  function ConstantWaveform(mode: string, value: real, duration: real): Result<seq<real>, WaveError>
  {
    HeldValues(value, duration, IntervalFor(mode))
  }

  /** `linear_sweep(mode, start, end, scan_rate)`. */
  function LinearSweep(mode: string, start: real, end: real, scanRate: real): Result<seq<real>, WaveError>
  {
    SweepValues(start, end, scanRate, IntervalFor(mode))
  }

  /** `cyclic_voltammetry(mode, ...)`: the legacy cycle loop at the mode's
      sample period. */
  method CyclicVoltammetry(mode: string, start: real, vertex: real, end: real, scanRate: real, cycles: int)
    returns (r: Result<seq<real>, WaveError>)
    ensures r == CyclicSpec(start, vertex, end, scanRate, cycles, IntervalFor(mode))
  {
    r := CyclicSweeps(start, vertex, end, scanRate, cycles, IntervalFor(mode));
  }

  /** In the `pid_inactive` mode the mode-switched generators produce
      exactly what the legacy potentiostatic ones do. */
  lemma PotentiostaticModeAgrees(value: real, start: real, vertex: real, end: real,
                                 scanRate: real, duration: real, cycles: int)
    ensures ConstantWaveform("pid_inactive", value, duration) == LegacyWaveformsPot.ConstantWaveform(value, duration)
    ensures LinearSweep("pid_inactive", start, end, scanRate) == LegacyWaveformsPot.LinearSweep(start, end, scanRate)
    ensures CyclicSpec(start, vertex, end, scanRate, cycles, IntervalFor("pid_inactive")) ==
      CyclicSpec(start, vertex, end, scanRate, cycles, POINT_INTERVAL_POT)
  {
  }

  /** A held value lasts `int(duration / interval)` samples of the mode's
      period: the same duration gives a different sample count in the two
      modes whenever their periods divide it differently. */
  lemma ConstantLength(mode: string, value: real, duration: real)
    requires duration >= 0.0
    ensures ConstantWaveform(mode, value, duration).Ok?
    ensures |ConstantWaveform(mode, value, duration).value| ==
      CountWith(duration, if mode == "pid_inactive" then POINT_INTERVAL_POT else POINT_INTERVAL_GAL)
  {
  }
}
