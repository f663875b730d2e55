/** The open-circuit-potential generator: no stimulus, only the time base
    over which the cell potential is recorded. */
module WaveformsOcp {
  import opened Common
  import opened Sampling
  import opened WaveformOutputs
  import WaveformsPot

  /** `ocp_waveform`: `np.arange(int(duration / POINT_INTERVAL)) * POINT_INTERVAL`.
      `np.arange` of a negative count is empty rather than an error, so this
      generator never fails. */
  function OcpWaveform(duration: real): (w: Waveform)
    ensures w.Base? && WellFormed(w, POINT_INTERVAL)
  {
    var n := Count(duration);
    Base(TimeAxis(if n < 0 then 0 else n, POINT_INTERVAL))
  }

  /** A non-negative duration yields `int(duration / POINT_INTERVAL)` time
      stamps, starting at zero and strictly increasing by one sample period;
      a negative duration yields none, and so does any duration shorter than
      one sample period. */
  lemma OcpShape(duration: real)
    ensures var t := OcpWaveform(duration).time;
      (duration >= 0.0 ==> |t| == Count(duration)) &&
      (duration < 0.0 ==> t == []) &&
      (duration < POINT_INTERVAL ==> t == []) &&
      (|t| > 0 ==> t[0] == 0.0) &&
      (forall i | 0 <= i < |t| - 1 :: t[i + 1] - t[i] == POINT_INTERVAL) &&
      (forall i, j | 0 <= i < j < |t| :: t[i] < t[j])
  {
    var t := OcpWaveform(duration).time;
    TimeAxisProperties(|t|, POINT_INTERVAL);
    if duration < POINT_INTERVAL {
      assert duration / POINT_INTERVAL < 1.0;
      assert Count(duration) <= 0;
    }
  }

  /** The recording time base is the one a held potential of the same
      duration is applied on: the potentiostatic `constant_waveform` carries
      the same time vector whenever it succeeds. */
  lemma OcpMatchesConstant(potential: real, duration: real)
    requires WaveformsPot.ConstantWaveform(potential, duration).Ok?
    ensures OcpWaveform(duration).time == WaveformsPot.ConstantWaveform(potential, duration).value.time
  {
  }
}
