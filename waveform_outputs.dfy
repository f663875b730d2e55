/** The waveform generators' outputs: a time vector plus the applied
    stimulus and, depending on the mode, per-sample step or cycle labels, or
    the description of the current steps the PID loop is driven with. */
module WaveformOutputs {
  import opened Common
  import opened Sampling

  datatype Waveform =
    | Base(time: seq<real>)
    | Poten(time: seq<real>, appliedPotential: seq<real>)
    | SteppedPoten(time: seq<real>, appliedPotential: seq<real>, step: seq<int>)
    | CyclicPoten(time: seq<real>, appliedPotential: seq<real>, cycle: seq<int>)
    | Galvano(time: seq<real>, appliedCurrent: seq<real>,
              currentSteps: seq<real>, durationSteps: seq<real>, lengthSteps: seq<nat>)
    | CyclicGalvano(time: seq<real>, appliedCurrent: seq<real>,
                    currentSteps: seq<real>, durationSteps: seq<real>, lengthSteps: seq<nat>,
                    cycle: seq<int>)

  /** The shape every output promises: one time stamp per sample spaced by
      the sample period, per-sample arrays of the same length, and for the
      galvanostatic outputs step arrays of one common length whose
      expansion (`length_steps[i]` copies of `current_steps[i]`) is exactly
      the per-sample current. */
  predicate WellFormed(w: Waveform, interval: real)
  {
    IsTimeAxis(w.time, interval) &&
    match w
    case Base(_) => true
    case Poten(t, p) => |p| == |t|
    case SteppedPoten(t, p, s) => |p| == |t| && |s| == |t|
    case CyclicPoten(t, p, c) => |p| == |t| && |c| == |t|
    case Galvano(t, a, cs, ds, ls) =>
      |a| == |t| && |cs| == |ds| == |ls| && Expand(cs, ls) == a
    case CyclicGalvano(t, a, cs, ds, ls, c) =>
      |a| == |t| && |c| == |t| && |cs| == |ds| == |ls| && Expand(cs, ls) == a
  }
}
