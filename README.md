# pyBEEP potentiostat driver: a Dafny model

pyBEEP drives a small potentiostat over Modbus. A measurement mode, such as
cyclic voltammetry or chrono-potentiometry, turns its parameters into a
waveform: a sample-by-sample potential or current stimulus with a time axis.
The controller sends the instrument its setup commands. It then streams the
stimulus and reads the ADC output back as float32 pairs of potential and
current. A consumer thread writes those pairs to a CSV file, and a
post-processing pipeline cuts the recording into ramps, cleans and smooths
them, and looks for peaks.

This project models that core and proves what it promises:

- **Register words** (`words.dfy`): every float32 travels as two 16-bit
  words, low word first. Joining and splitting are inverse, and a read
  decodes into rows of two floats.
- **Waveform generators** (`sampling.dfy`, `waveform_outputs.dfy`,
  `waveforms_pot.dfy`, `waveforms_gal.dfy`, `waveforms_ocp.dfy`): each is
  stated by its length, its values, its labels and its error cases. The
  cyclic generators are loops proved equal to closed-form definitions.
- **Legacy generators** (`legacy_waveforms_pot.dfy`, `legacy_waveforms_gal.dfy`,
  `legacy_waveforms.dfy`): the older generators, and how they agree with the
  current ones.
- **CSV consumer** (`logger.dfy`): `DataLogger` as a class. It takes exactly
  the blocks before the sentinel, writes every row once and in order, and
  flushes after every 21 blocks and once at the end.
- **Instrument** (`device.dfy`): the instrument is a scripted oracle. Every
  register operation takes the next scripted reply and every clock reading
  the next scripted time. The log records each operation with its reply.
- **Mode table** (`registry.dfy`): the nine techniques, the
  case-insensitive lookup, and the parameter validation.
- **Acquisition procedures** (`acquisition.dfy`, `controller.dfy`): stated as
  transitions of the bus, with `PotentiostatController` methods written as
  the source's loops and proved to compute those transitions. What they
  promise:
  - the retry ceilings;
  - the stimulus is written once and in order;
  - the instrument is stopped exactly on a normal end;
  - a read error is raised exactly after more than 16 failed reads;
  - the setup commands come first and the teardown commands last.
- **First-generation controller** (`legacy_controller.dfy`): its
  reducing-factor block partition and its two loops.
- **Peak-detection index bookkeeping** (`signal_processing.dfy`) and **ramp
  pipeline** (`data_processing.dfy`).

Messages, queues and files are sequences. An exception is a `Result` or
`Option` error value. Sample values are exact reals.

## Model

| member | source | states |
|---|---|---|
| Words.Join | src/pyBEEP/utils.py:40-43 | the float32 read from a low and a high word has exactly that low word as its low 16 bits and that high word as its high 16 bits |
| Words.FloatToWords | src/pyBEEP/utils.py:37-38 | `float_to_uint16_list` yields exactly two words, which join back to the same float32 bit pattern |
| Words.WordsFloatRoundTrip | src/pyBEEP/utils.py:37-43 | splitting a float32 that two words joined into gives back those two words, low half first |
| Words.CastWords | src/pyBEEP/utils.py:41 | the `uint16` cast keeps the length, and each word is its integer modulo 2^16 |
| Words.WordsToFloats | src/pyBEEP/utils.py:42-43 | `frombuffer` succeeds exactly on an even word count and raises a buffer-size error otherwise; float `k` joins words `2k` and `2k+1` |
| Words.Reshape | src/pyBEEP/utils.py:44 | `reshape(-1, 2)` succeeds exactly on an even float count and raises otherwise; row `k` is floats `2k`, `2k+1` |
| Words.ConvertWords | src/pyBEEP/utils.py:40-44 | `convert_uint16_to_float32`: the cast, the float32 reinterpretation and the reshape into rows of two, each stage with its error; its properties are stated by `Words.ConvertWordsSpec` |
| Words.ConvertWordsSpec | src/pyBEEP/utils.py:40-44 | the conversion succeeds iff the word count is a multiple of 4; an odd count fails in `frombuffer`, 2 mod 4 fails in `reshape`; on success there are `n/4` rows and row `k` joins words `4k..4k+3` |
| Words.PackRoundTrip | src/pyBEEP/utils.py:37-44 | the words of `a` followed by those of `b` convert to exactly the one row `[a, b]`, bit for bit |
| Words.ConvertLowBitsOnly | src/pyBEEP/utils.py:41 | two word lists that agree modulo 2^16 convert to the same result |
| Words.FloatsToWords | src/pyBEEP/utils.py:37-38 | a float sequence becomes twice as many words, and words `2k, 2k+1` are the two words of float `k` |
| Words.AsInts | src/pyBEEP/utils.py:40-41 | the words read back are the same numbers as Python integers |
| Words.NatToString | src/pyBEEP/utils.py:21 | `str(n)` of a natural number is a non-empty run of decimal digits |
| Words.NatToStringValue | src/pyBEEP/utils.py:21 | reading the decimal digits of `str(n)` back gives `n` |
| Words.DefaultFilename | src/pyBEEP/utils.py:20-21 | the name is the stamp, then `_` and the mode, then `_tia` and the gain, then `.csv`, and its length is the sum of the parts plus 9 |
| Words.DefaultFilenameGain | src/pyBEEP/utils.py:21 | the gain part of the name is the decimal spelling of the gain |
| Common.Trunc | src/pyBEEP/driver/measurement_modes/waveforms_pot.py:24 | Python's `int(x)` on a float truncates toward zero: the result lies within one of `x` on the side of zero |
| Common.FloorOf | src/controller.py:285 | `int(x // y)` on floats is the floor of the quotient |
| Sampling.CountWith | src/pyBEEP/driver/measurement_modes/waveforms_pot.py:24 | `int(duration / interval)` is non-negative for a non-negative duration, and non-negative exactly when the quotient exceeds -1 |
| Sampling.TimeAxis | src/pyBEEP/driver/measurement_modes/waveforms_pot.py:26 | `np.arange(n) * interval` has `n` entries and entry `i` is `i * interval` |
| Sampling.TimeAxisProperties | src/pyBEEP/measurement_modes/waveforms_ocp.py:18 | the time axis starts at 0, consecutive entries differ by exactly the interval, and it is strictly increasing |
| Sampling.Full | src/pyBEEP/driver/measurement_modes/waveforms_pot.py:25 | `np.full(n, x)` succeeds exactly for `n >= 0` with `n` copies of `x` |
| Sampling.Linspace | src/pyBEEP/driver/measurement_modes/waveforms_pot.py:82 | `np.linspace(a, b, n)` fails exactly on a negative `n` with a negative-dimension error; otherwise it has `n` points, the first is `a` and, from two points on, the last is `b` |
| Sampling.LinspaceOrdered | src/pyBEEP/driver/measurement_modes/waveforms_pot.py:82 | for `a <= b` every point lies between `a` and `b` and the points are non-decreasing |
| Sampling.RepeatOrFail | src/pyBEEP/driver/measurement_modes/waveforms_gal.py:56 | `np.repeat(xs, k)` fails exactly on a negative `k`; otherwise it repeats every element `k` times |
| Sampling.RepeatAt | src/pyBEEP/driver/measurement_modes/waveforms_gal.py:56 | copy `r` of element `i` sits at position `i * k + r` of the repeated sequence |
| Sampling.RepeatIsExpand | src/pyBEEP/driver/measurement_modes/waveforms_gal.py:56-65 | repeating every element `k` times equals expanding with all step lengths equal to `k` |
| Sampling.Expand | src/pyBEEP/driver/measurement_modes/waveforms_gal.py:56-65 | expanding per-step values by per-step lengths yields `sum(lengths)` samples |
| Sampling.CopiesLength | src/pyBEEP/driver/measurement_modes/waveforms_pot.py:129-133 | `c` copies of a segment have `c` times its length, and none when `c <= 0` |
| Sampling.CopiesAt | src/pyBEEP/waveforms_pot.py:71-75 | element `i` of copy `m` sits at position `m * |x| + i` |
| Sampling.LabelBlocksBounds | src/pyBEEP/driver/measurement_modes/waveforms_pot.py:129-133 | per-sample labels of blocks numbered `first..last` stay within `first..last` and are non-decreasing |
| Sampling.LabelBlocksLength | src/pyBEEP/driver/measurement_modes/waveforms_pot.py:129-133 | the labels of blocks `first..last` are as long as `last - first + 1` copies of one block |
| Sampling.RepeatCopies | src/pyBEEP/driver/measurement_modes/waveforms_gal.py:146-154 | repeating the elements of `c` copies of a segment is `c` copies of the repeated segment |
| WaveformsPot.ConstantWaveform | src/pyBEEP/driver/measurement_modes/waveforms_pot.py:24-30 | succeeds exactly when the sample count is non-negative, with a negative-dimension error otherwise; the output has `Count(duration)` samples, all equal to the potential, on the sample-period time axis |
| WaveformsPot.Range | src/pyBEEP/driver/measurement_modes/waveforms_pot.py:57 | `range(n)` is `0, 1, ..., n-1` |
| WaveformsPot.PotentialSteps | src/pyBEEP/driver/measurement_modes/waveforms_pot.py:50-63 | an empty potential list fails in `np.concatenate`, and a negative step count fails in `np.full`; otherwise the output is well formed with `len(potentials) * L` samples |
| WaveformsPot.PotentialStepsAt | src/pyBEEP/driver/measurement_modes/waveforms_pot.py:50-58 | sample `r` of step `i` (position `i * L + r`) carries `potentials[i]` and step label `i` |
| WaveformsPot.SweepLength | src/pyBEEP/driver/measurement_modes/waveforms_pot.py:80-81 | the sample count of a sweep fails exactly on a zero scan rate (division by zero) and is non-negative for a positive scan rate |
| WaveformsPot.SweepValues | src/pyBEEP/driver/measurement_modes/waveforms_pot.py:80-82 | a zero scan rate fails with a division-by-zero error and a positive one succeeds |
| WaveformsPot.SweepShape | src/pyBEEP/driver/measurement_modes/waveforms_pot.py:80-84 | a sweep fails only on division by zero or a negative count; on success it has the count's length, starts at `start` and, from two samples on, ends at `end` |
| WaveformsPot.SweepSymmetric | src/pyBEEP/driver/measurement_modes/waveforms_pot.py:80-131 | a sweep and its reverse fail together and have the same length |
| WaveformsPot.LinearSweep | src/pyBEEP/driver/measurement_modes/waveforms_pot.py:66-87 | succeeds exactly when the sweep does, with the same error otherwise; the potential is the sweep, on a time axis of the same length |
| WaveformsPot.CyclicVoltammetrySpec | src/pyBEEP/driver/measurement_modes/waveforms_pot.py:119-154 | the closed form is a well-formed cyclic output; a zero scan rate fails and a positive one succeeds |
| WaveformsPot.CyclicVoltammetry | src/pyBEEP/driver/measurement_modes/waveforms_pot.py:90-154 | the loop over cycles `2..cycles` and the optional closing sweep return exactly the closed form |
| WaveformsPot.CvLength | src/pyBEEP/driver/measurement_modes/waveforms_pot.py:122-147 | the length is `L(s,v1) + L(v1,v2) + (cycles-1) * 2 * L(v1,v2)` plus `L(v2,end)` when `end != vertex2` |
| WaveformsPot.CvLabelsBounds | src/pyBEEP/driver/measurement_modes/waveforms_pot.py:126-143 | cycle labels built from the opening block, the middle blocks and the closing block are non-decreasing and within `1..cycles` |
| WaveformsPot.CvLabelsOrdered | src/pyBEEP/driver/measurement_modes/waveforms_pot.py:122-143 | with at least one cycle the cycle labels are non-decreasing and within `1..cycles` |
| WaveformsPot.CvOpening | src/pyBEEP/driver/measurement_modes/waveforms_pot.py:123-126 | the waveform opens with the sweep `start -> vertex1`, labelled 1, and so starts at `start` |
| WaveformsPot.CvClosing | src/pyBEEP/driver/measurement_modes/waveforms_pot.py:136-143 | when `end != vertex2` it closes with the sweep `vertex2 -> end`, labelled `cycles` (no new label), and ends at `end` |
| WaveformsPot.CvNoCyclesLabelsOutOfOrder | src/pyBEEP/driver/measurement_modes/waveforms_pot.py:126-143 | with `cycles <= 0` and a closing sweep, the closing label `cycles` follows label 1, so the labels are out of order |
| WaveformsGal.SinglePoint | src/pyBEEP/driver/measurement_modes/waveforms_gal.py:26-36 | fails exactly on a negative sample count; otherwise `N = Count(duration)` samples all equal to the current, with one-element step arrays `[current]`, `[duration]`, `[N]`, and `sum(length_steps)` equals the sample count |
| WaveformsGal.CurrentSteps | src/pyBEEP/driver/measurement_modes/waveforms_gal.py:55-66 | fails exactly on a negative per-step count; otherwise the step currents are the given currents, every duration is `step_duration`, every length is `k`, and expanding the steps gives the applied current |
| WaveformsGal.CurrentStepsAt | src/pyBEEP/driver/measurement_modes/waveforms_gal.py:56 | sample `i * k + r` carries `currents[i]` |
| WaveformsGal.SinglePointIsOneStep | src/pyBEEP/driver/measurement_modes/waveforms_gal.py:26-66 | a single point is exactly the step list of one current |
| WaveformsGal.LinearGalvanostaticSweep | src/pyBEEP/driver/measurement_modes/waveforms_gal.py:89-100 | fails exactly on a negative step count or per-step count; otherwise the step currents are `np.linspace(start, end, num_steps)` and the output is well formed |
| WaveformsGal.LinearSweepIsSteps | src/pyBEEP/driver/measurement_modes/waveforms_gal.py:89-100 | the sweep is `current_steps` applied to the linspace currents |
| WaveformsGal.LinearSweepBounded | src/pyBEEP/driver/measurement_modes/waveforms_gal.py:89-91 | for `start <= end` every applied current lies between them and the step currents are in order |
| WaveformsGal.CycleEnds | src/pyBEEP/driver/measurement_modes/waveforms_gal.py:147 | one cycle has three legs |
| WaveformsGal.CycleLegs | src/pyBEEP/driver/measurement_modes/waveforms_gal.py:147-148 | one cycle has three lists of leg step currents |
| WaveformsGal.CyclicGalvanostaticSpec | src/pyBEEP/driver/measurement_modes/waveforms_gal.py:138-177 | the closed form fails iff there is no leg at all (`cycles < 1` and no final leg: an empty concatenation) or a count is negative (negative dimension); otherwise the output is well formed |
| WaveformsGal.CyclicAssemble | src/pyBEEP/driver/measurement_modes/waveforms_gal.py:166-177 | the assembled output is well formed: time axis, labels and current of one length, and the steps expand to the current |
| WaveformsGal.CollectLeg | src/pyBEEP/driver/measurement_modes/waveforms_gal.py:148-154 | appending one leg keeps the five accumulator lists describing the steps so far plus the leg |
| WaveformsGal.CollectedIsAssembled | src/pyBEEP/driver/measurement_modes/waveforms_gal.py:166-177 | lists that describe all cycles and the final leg concatenate to the closed-form output |
| WaveformsGal.AppendLeg | src/pyBEEP/driver/measurement_modes/waveforms_gal.py:148-164 | one leg appends its linspace steps, repeated `k` times, with durations, lengths and labels; a negative count is a negative-dimension error |
| WaveformsGal.CollectCycles | src/pyBEEP/driver/measurement_modes/waveforms_gal.py:146-154 | the nested loops fail iff there is a cycle and a count is negative; otherwise no segment is collected iff `cycles < 1`, and the lists describe `cycles` copies of the cycle labelled `1..cycles` |
| WaveformsGal.CyclicGalvanostatic | src/pyBEEP/driver/measurement_modes/waveforms_gal.py:103-177 | the loops, the optional final leg and the concatenation return exactly the closed form |
| WaveformsGal.CycleStepsShape | src/pyBEEP/driver/measurement_modes/waveforms_gal.py:147-151 | a cycle's step currents are the legs `start->v1`, `v1->v2`, `v2->start` back to back, `3 * num_steps` in all |
| WaveformsGal.CycleTurningPoints | src/pyBEEP/driver/measurement_modes/waveforms_gal.py:147-148 | with two or more steps per leg every cycle starts at `start`, turns at vertex1 and vertex2, and ends at `start` |
| WaveformsGal.CgStepCount | src/pyBEEP/driver/measurement_modes/waveforms_gal.py:151-168 | there are `3 * cycles * num_steps` step entries, plus `num_steps` for the final leg, and the sample count is the step count times `k` |
| WaveformsGal.CgCycleStepAt | src/pyBEEP/driver/measurement_modes/waveforms_gal.py:146-151 | step `i` of cycle `m` is step `i` of the cycle |
| WaveformsGal.CgLabelsBounds | src/pyBEEP/driver/measurement_modes/waveforms_gal.py:154-164 | the labels are non-decreasing and lie between 1 (or `cycles + 1` with no cycle) and `cycles + 1` |
| WaveformsGal.CgLabelsOrdered | src/pyBEEP/driver/measurement_modes/waveforms_gal.py:146-167 | the cycle array is non-decreasing, from label 1 up to the final leg's label `cycles + 1` |
| WaveformsGal.CgFinalLeg | src/pyBEEP/driver/measurement_modes/waveforms_gal.py:157-164 | with the final leg, the output ends with the `start -> end` step currents, their repeated samples, and label `cycles + 1` |
| WaveformsOcp.OcpWaveform | src/pyBEEP/measurement_modes/waveforms_ocp.py:6-22 | the output carries only a time vector, with no stimulus array, spaced by the sample period; it never fails |
| WaveformsOcp.OcpShape | src/pyBEEP/measurement_modes/waveforms_ocp.py:17-18 | a non-negative duration gives `int(duration / POINT_INTERVAL)` stamps, a negative duration or one under one sample period gives none, and the stamps start at 0 and increase by exactly one period |
| WaveformsOcp.OcpMatchesConstant | src/pyBEEP/measurement_modes/waveforms_ocp.py:17-18 | the recording time base equals the time vector of a held potential of the same duration |
| LegacyWaveformsPot.HeldValues | src/pyBEEP/waveforms_pot.py:17-18 | `np.full(int(duration / interval), value)` succeeds exactly on a non-negative count, with that many copies of the value; otherwise a negative-dimension error |
| LegacyWaveformsPot.SweepValues | src/pyBEEP/waveforms_pot.py:52-54 | a zero scan rate fails with a division-by-zero error and a positive one succeeds |
| LegacyWaveformsPot.SweepShape | src/pyBEEP/waveforms_pot.py:52-54 | for a positive scan rate the sweep has `int(abs(end-start)/scan_rate/interval)` samples, starts at `start`, ends at `end` from two samples on, lies in order between them when `start <= end`, and is empty when `start == end` |
| LegacyWaveformsPot.CyclicSpec | src/pyBEEP/waveforms_pot.py:71-75 | `cycles <= 0` fails in `np.concatenate` of an empty list; otherwise a zero scan rate fails, and a positive one succeeds |
| LegacyWaveformsPot.CyclicSweeps | src/pyBEEP/waveforms_pot.py:71-75 | the loop appending `sweep(start, vertex)` and `sweep(vertex, end)` per cycle returns exactly the closed form |
| LegacyWaveformsPot.PotentialSteps | src/pyBEEP/waveforms_pot.py:33-37 | fails in `np.concatenate` on an empty list and on a negative step count otherwise; on success it has `len(potentials) * L` samples |
| LegacyWaveformsPot.PotentialStepsAt | src/pyBEEP/waveforms_pot.py:34-36 | sample `i * L + k` is `potentials[i]` |
| LegacyWaveformsPot.CyclicVoltammetry | src/pyBEEP/waveforms_pot.py:56-75 | the legacy voltammogram at the potentiostatic period is the closed form |
| LegacyWaveformsPot.CyclicLength | src/pyBEEP/waveforms_pot.py:71-75 | `cycles` cycles have `cycles * (L1 + L2)` samples |
| LegacyWaveformsPot.CyclicSampleAt | src/pyBEEP/waveforms_pot.py:72-74 | sample `i` of cycle `m` is sample `i` of the sweep pair |
| LegacyWaveformsPot.CyclicJump | src/pyBEEP/waveforms_pot.py:72-74 | each cycle starts at `start` and ends at `end`, and the next cycle starts at `start` again: there is no sweep from `end` back to `start` |
| LegacyWaveformsPot.AgreesWithCurrentGenerators | src/pyBEEP/waveforms_pot.py:33-54 | with the current sample period, the legacy step and sweep generators equal the samples of the current generators |
| LegacyWaveformsGal.ColumnStack | src/pyBEEP/waveforms_gal.py:28-45 | `np.column_stack` gives one two-column row per entry |
| LegacyWaveformsGal.ColumnStackColumns | src/pyBEEP/waveforms_gal.py:28-45 | splitting a stacked table into its columns gives back both columns |
| LegacyWaveformsGal.CurrentSteps | src/pyBEEP/waveforms_gal.py:27-28 | row `i` is `[currents[i], step_duration]`: the first column is the currents, the second all `step_duration` |
| LegacyWaveformsGal.SinglePoint | src/pyBEEP/waveforms_gal.py:3-14 | `single_point`: the one-row table `[[current, duration]]`; `LegacyWaveformsGal.SinglePointIsOneStep` relates it to `current_steps` |
| LegacyWaveformsGal.SinglePointIsOneStep | src/pyBEEP/waveforms_gal.py:14-28 | the single point is exactly the one-row table of one current step |
| LegacyWaveformsGal.LinearSweep | src/pyBEEP/waveforms_gal.py:43-45 | fails exactly on a negative step count; otherwise `num_steps` rows whose currents are the linspace and whose durations are all `step_duration` |
| LegacyWaveformsGal.LinearSweepBounded | src/pyBEEP/waveforms_gal.py:43 | for `start <= end` the currents lie in order between them, starting at `start` and ending at `end` |
| LegacyWaveformsGal.CyclicSpec | src/pyBEEP/waveforms_gal.py:64-68 | succeeds iff `cycles > 0` and `num_steps >= 0`; no cycle fails in `np.vstack` of an empty list, a negative step count in `np.linspace` |
| LegacyWaveformsGal.CyclicGalvanostatic | src/pyBEEP/waveforms_gal.py:47-68 | the loop stacking the two sweeps per cycle returns exactly the closed form |
| LegacyWaveformsGal.CyclicShape | src/pyBEEP/waveforms_gal.py:61-68 | the table has `cycles * 2 * num_steps` rows and every row holds for `step_duration` |
| LegacyWaveformsGal.CyclicRowAt | src/pyBEEP/waveforms_gal.py:65-67 | row `i` of cycle `m` is row `i` of the pair `start -> vertex`, `vertex -> end` |
| LegacyWaveforms.IntervalFor | src/pyBEEP/waveforms.py:7-12 | the sample period is the potentiostatic one exactly for the mode string `pid_inactive`, and the galvanostatic one for any other string |
| LegacyWaveforms.CyclicVoltammetry | src/pyBEEP/waveforms.py:17-22 | the loop over cycles at the mode's period returns the legacy closed form, so zero cycles fail |
| LegacyWaveforms.PotentiostaticModeAgrees | src/pyBEEP/waveforms.py:6-22 | in mode `pid_inactive` the three generators equal the legacy potentiostatic ones |
| LegacyWaveforms.ConstantWaveform | src/pyBEEP/waveforms.py:6-9 | the legacy `constant_waveform`: the value held for `int(duration / interval)` samples at the mode's period; its length is stated by `LegacyWaveforms.ConstantLength` |
| LegacyWaveforms.LinearSweep | src/pyBEEP/waveforms.py:11-15 | the legacy `linear_sweep`: the sweep from start to end at the mode's period; `LegacyWaveforms.PotentiostaticModeAgrees` relates it to the potentiostatic generator |
| LegacyWaveforms.ConstantLength | src/pyBEEP/waveforms.py:7-9 | a non-negative duration gives `int(duration / interval)` samples at the mode's period |
| Logger.Batches | src/pyBEEP/logger.py:15-19 | the blocks the consumer takes are no more than the queued items |
| Logger.SentinelAt | src/pyBEEP/logger.py:16-18 | the first sentinel is a `None` inside the queue, and every item before it is a block |
| Logger.BatchesBeforeSentinel | src/pyBEEP/logger.py:15-19 | the taken blocks are exactly the items before the first `None`, in order and each once; the sentinel and everything after it are not taken |
| Logger.FlushSizesProperties | src/pyBEEP/logger.py:19-26 | the writes carry `n` blocks in total, each write carries between 1 and 21 blocks, and every write but the last carries exactly 21 |
| Logger.FlattenRowCount | src/pyBEEP/logger.py:38-40 | writing blocks row by row writes one CSV row per block row |
| Logger.DataLogger.constructor | src/pyBEEP/logger.py:7-9 | the logger keeps the queue and the path; the file still holds what it held before |
| Logger.DataLogger.SaveBatch | src/pyBEEP/logger.py:29-40 | every row of every block is appended to the file, in order, and nothing else changes |
| Logger.DataLogger.WriteBuffer | src/pyBEEP/logger.py:21-26 | the buffer's rows are appended to the file and one flush carrying the buffer's block count is recorded |
| Logger.DataLogger.Run | src/pyBEEP/logger.py:11-27 | opening with `"w"` discards prior content, and no header is written; the file ends as exactly the rows of the blocks before the sentinel, in order; the flushes are 21 blocks each and then the rest; the sentinel is consumed and the items after it stay queued |
| Logger.TakeBlock | src/pyBEEP/logger.py:16-23 | taking a block keeps the loop invariant: it joins the buffer, and the 21st block in the buffer sends the whole buffer to the file and empties it |
| Logger.TakeQueued | src/pyBEEP/logger.py:16-19 | a taken block is the next item before the sentinel, and the rest of the queue is what follows it |
| Logger.TakeBuffered | src/pyBEEP/logger.py:19-23 | the buffer keeps holding the last `taken mod 21` blocks, the file holds the rows of all the others, and every flush so far carried 21 blocks |
| Logger.Finish | src/pyBEEP/logger.py:17-26 | at the sentinel every block before it has been taken, and writing what the buffer still holds completes the file and the flushes |
| Logger.FinishQueue | src/pyBEEP/logger.py:16-18 | at the sentinel the taken blocks are all the blocks before it, and the queue holds exactly the items after it |
| Logger.FinishFile | src/pyBEEP/logger.py:24-26 | an empty buffer means the file already holds every taken row; otherwise writing the buffer completes it, with one last flush of the rest |
| Device.Issue | src/pyBEEP/device.py:36-42 | a register operation is logged with the reply it got and consumes that reply; the clock is untouched |
| Device.Tick | src/pyBEEP/controller.py:417 | a clock reading consumes one scripted reading and leaves replies and log alone; past the script the reading is later than the busy delay |
| Device.Command | src/pyBEEP/device.py:13-34 | `send_command` writes `[command, parameter]` to `0x4F00`; it succeeds exactly on an answer; a SlaveReportedException calls `exit()`, whose SystemExit ends the producer thread, and any other failure propagates |
| Device.Ops | src/pyBEEP/device.py:36-42 | the operations of a log, one per event, in order |
| Device.PotentiostatDevice.constructor | src/pyBEEP/device.py:8-11 | a fresh instrument has the given script and an empty log |
| Device.PotentiostatDevice.WriteData | src/pyBEEP/device.py:36-38 | `write_data` issues one register write and returns its reply |
| Device.PotentiostatDevice.ReadData | src/pyBEEP/device.py:40-42 | `read_data` issues one register read and returns its reply |
| Device.PotentiostatDevice.SendCommand | src/pyBEEP/device.py:13-34 | the method's new state and result are those of `Command` |
| Device.PotentiostatDevice.MonotonicNs | src/pyBEEP/controller.py:600 | `monotonic_ns()` returns the next scripted reading and advances the script, as `Tick` states |
| Registry.AvailableModes | src/pyBEEP/controller.py:160-167 | `get_available_modes` lists the code of every table key, in the table's order |
| Registry.TableShape | src/pyBEEP/controller.py:77-132 | the table has nine entries covering every technique, nine distinct codes, and every code is already upper case |
| Registry.Listed | src/pyBEEP/controller.py:77-167 | every technique is in the table and its code is listed |
| Registry.UpperFixesCodes | src/pyBEEP/controller.py:228 | upper-casing a technique code leaves it unchanged |
| Registry.PidExactlyGalvanostatic | src/pyBEEP/controller.py:77-132 | `pid` is true exactly for the GAL entries, which are CP, GS, GCV and STEPSEQ |
| Registry.CodeInjective | src/pyBEEP/controller.py:77-132 | distinct techniques have distinct codes |
| Registry.UpperChar | src/pyBEEP/controller.py:228 | `str.upper` on one character: an ASCII lower-case letter becomes its capital, and `ß`, `ı`, `ſ` and the ligatures U+FB00-FB06 become their ASCII capitals of one to three letters; the result is plain ASCII exactly for ASCII and those ten characters |
| Registry.Upper | src/pyBEEP/controller.py:228 | upper-casing maps each character to its upper case in order, so the result is at least as long as the name and at most three times as long; it is plain ASCII exactly when every character's upper case is |
| Registry.UpperAppend | src/pyBEEP/controller.py:228 | the upper case of a concatenation is the concatenation of the upper cases |
| Registry.UpperOfFixed | src/pyBEEP/controller.py:228 | a string whose characters are their own upper case is its own upper case |
| Registry.UpperFixed | src/pyBEEP/controller.py:228 | every character of an upper-cased string is its own upper case |
| Registry.UpperIdempotent | src/pyBEEP/controller.py:228 | upper-casing twice changes nothing more |
| Registry.ModeFor | src/pyBEEP/controller.py:228 | `ModeName(value)` finds the member with exactly that code, and finds none when no code matches |
| Registry.GetMode | src/pyBEEP/controller.py:214-232 | `_get_mode`: the entry of the upper-cased name, or the `ValueError` listing the codes; its properties are stated by `Registry.GetModeSpec` and the lemmas after it |
| Registry.GetModeSpec | src/pyBEEP/controller.py:214-232 | `_get_mode` succeeds exactly when the upper-cased name is an available code, and then returns that code's entry; otherwise the `ValueError` carries the name as given and the list of available codes |
| Registry.GetModeIgnoresCase | src/pyBEEP/controller.py:228 | a name and its upper-case form find the same entry |
| Registry.GetModeLongS | src/pyBEEP/controller.py:228-232 | `"gſ"` names GS, because the long `ſ` upper-cases to `S` |
| Registry.GetModeLigature | src/pyBEEP/controller.py:228-232 | the four-character `"pﬆep"` names PSTEP, because the ligature `ﬆ` upper-cases to `ST` |
| Registry.GetModeAccented | src/pyBEEP/controller.py:228-232 | `"é"`, whose upper case lies outside ASCII, names no mode and raises the `ValueError` listing the codes |
| Registry.GetModeNeedsAsciiUpper | src/pyBEEP/controller.py:228-232 | a name is found only when each of its characters upper-cases to plain ASCII |
| Registry.IsPidActive | src/pyBEEP/controller.py:202-212 | `is_pid_active` is the entry's `pid` flag, or the lookup's error |
| Registry.GetWaveformFunc | src/pyBEEP/controller.py:190-200 | `get_waveform_func` is the entry's generator, or the lookup's error |
| Registry.GetModeParams | src/pyBEEP/controller.py:169-188 | `get_mode_params` is the entry's parameter fields with their annotations, or the lookup's error |
| Registry.IsPidActiveSpec | src/pyBEEP/controller.py:202-232 | the lookup succeeds iff the upper-cased name is an available code, and the answer is true iff it is CP, GS, GCV or STEPSEQ |
| Registry.AsFloatList | src/pyBEEP/driver/measurement_modes/waveform_params.py:11-34 | a `List[float]` field accepts a list iff every element is a number, and keeps the elements in order as floats |
| Registry.Coerce | src/pyBEEP/driver/measurement_modes/waveform_params.py:6-54 | a field that validates has the annotated kind |
| Registry.ValidateFields | src/pyBEEP/controller.py:324-326 | validation succeeds iff every declared field is present and coerces; the arguments are then the coerced fields in declaration order, and undeclared keys are ignored |
| Registry.FieldNames | src/pyBEEP/controller.py:328 | the expected-field list is the class's field names in declaration order |
| Registry.Validate | src/pyBEEP/controller.py:324-331 | the parameter object is built iff every field validates; otherwise the error lists the expected field names |
| Registry.Lift | src/pyBEEP/controller.py:334 | a generator's own failure is never a signature mismatch |
| Registry.EntrySignature | src/pyBEEP/controller.py:77-132 | every entry's generator accepts the validated object of that entry's parameter class |
| Registry.Generate | src/pyBEEP/controller.py:334 | the generator of an entry called with the fields of the parameter object; `Registry.GenerateAccepts` and `Registry.EntryOutputs` state what it accepts and returns |
| Registry.GenerateAccepts | src/pyBEEP/controller.py:334 | a parameter object of the entry's own class reaches that entry's generator |
| Registry.BuildMatches | src/pyBEEP/controller.py:326 | the parameter object built for a class has that class's constructor and no other |
| Registry.EntryOutputs | src/pyBEEP/controller.py:345-361 | a successful generator output has the attribute its control mode's procedure reads: the applied potential for POT, the current steps for GAL, the time for OCP; and it is well formed |
| Acquisition.ReadOperation | src/pyBEEP/controller.py:370-391 | no read while the clock reading is within the busy delay; past it exactly one read of 120 words at the read register; an answer is returned with the counters untouched; a failure counts one more read error, and the error is re-raised exactly when the count passes 16 |
| Acquisition.ReadAndQueue | src/pyBEEP/controller.py:417-423 | one read of a loop body: `_read_operation`, then the conversion, the queue put, the transfer count and the cleared error count; its properties are stated by `Acquisition.ReadAndQueueSteps` and `Acquisition.ReadAndQueueFacts` |
| Acquisition.ReadAndQueueSteps | src/pyBEEP/controller.py:417-423 | a read turn never reads the clock or touches the write counters, only grows `rd_tx_reg`, keeps the counters within their limits, does nothing within the busy delay, otherwise consumes a reply or (the instrument silent) counts one more error, and cannot raise while fewer than 16 errors are counted |
| Acquisition.Drain | src/pyBEEP/controller.py:416-423 | the read loop ends normally only once `rd_tx_reg` has reached its bound, with the counters within their limits |
| Acquisition.ReadAndQueueFacts | src/pyBEEP/controller.py:417-423 | one read issues at most a read: it does not stop the instrument, writes no stimulus and no PID target, and keeps the retry counter in step with the log and the transfer count in step with the queue |
| Acquisition.DrainFacts | src/pyBEEP/controller.py:416-423 | the read loop issues reads only, `rd_tx_reg` only grows, the retry counter and the row count stay in step with the log and the queue, and it ends normally, by a read error or by a reply that cannot be converted |
| Acquisition.Chunk | src/pyBEEP/controller.py:602 | the chunk at index `i` is the next 1 to 120 words of the write list from `i`; a full 120 unless the list ends first, and then exactly the rest of the list |
| Acquisition.PotWrite | src/pyBEEP/controller.py:601-616 | the write half of a potentiostatic turn; its properties are stated by `Acquisition.PotWriteSteps` and `Acquisition.PotWriteFacts` |
| Acquisition.PotWriteSteps | src/pyBEEP/controller.py:601-616 | the write half never reads the clock or touches the read counters, never moves the index back, does nothing when every word is written or within the busy delay, otherwise consumes a reply or (the instrument silent) counts one more write error without advancing |
| Acquisition.PotReads | src/pyBEEP/controller.py:618-624 | the two reads of a potentiostatic turn; its properties are stated by `Acquisition.PotReadsSteps` and `Acquisition.PotReadsFacts` |
| Acquisition.PotReadsSteps | src/pyBEEP/controller.py:618-624 | the two reads of a turn touch no write counter, do nothing within the busy delay, otherwise consume a reply or count read errors, add at most two errors, and cannot raise while fewer than 15 errors are counted |
| Acquisition.PotTurn | src/pyBEEP/controller.py:597-626 | one turn of the potentiostatic loop: clock reading, write half, two reads and the post-write count; `Acquisition.PotTurnProgress` and `Acquisition.PotTurnFacts` state its progress and frame |
| Acquisition.PotTurnProgress | src/pyBEEP/controller.py:597-626 | every turn of the potentiostatic loop that does not raise keeps the counters within their limits and decreases the loop's measure, so the loop ends |
| Acquisition.AppendEvent | src/pyBEEP/device.py:36-42 | what one more logged operation does to the summaries of a log: the failed reads since the last data, whether the instrument was stopped, the stimulus words accepted and the PID targets written |
| Acquisition.ExtendsTrans | src/pyBEEP/device.py:36-42 | a log that continues a continuation of a log continues that log |
| Acquisition.PidSegment | src/pyBEEP/controller.py:486-507 | a segment ends normally only with the counters within their limits and `rd_tx_reg` at or past the segment's length |
| Acquisition.PidSteps | src/pyBEEP/controller.py:483-507 | the loop over the segments keeps the counters within their limits on a normal end |
| Acquisition.PidSegmentFacts | src/pyBEEP/controller.py:486-507 | a segment only extends the log, never stops the instrument, never writes the potentiostatic register, only grows `rd_tx_reg`, and keeps the retry counter and the row count in step |
| Acquisition.PidSegmentWrites | src/pyBEEP/controller.py:486-497 | a segment that ends normally logged its target write exactly once; a failed target write is the last PID write of the log |
| Acquisition.PidTargets | src/pyBEEP/controller.py:486-497 | the target writes of the segments: one per segment, `[PID_START]` and the segment's current as two words, in order |
| Acquisition.PidStepsFrame | src/pyBEEP/controller.py:483-507 | the PID segments only extend the log, never stop the instrument and never write the potentiostatic register |
| Acquisition.PidStepsLog | src/pyBEEP/controller.py:483-507 | on a normal end every segment's target was written once, in order |
| Acquisition.PidStepsWriteFailure | src/pyBEEP/controller.py:495-497 | a failed target write is not retried: it ends the segments and is the last PID write of the log |
| Acquisition.PidStepsCounts | src/pyBEEP/controller.py:483-507 | `rd_tx_reg` only grows and stays in step with the queue; on a normal end it has reached every segment's length, since it is never reset between segments |
| Acquisition.PotWriteFacts | src/pyBEEP/controller.py:601-616 | the write half only extends the log, stops nothing, writes no PID target, leaves the failed-read count and the queue alone, and keeps the loop's bookkeeping (index, `wr_tx_reg` and the words accepted so far) |
| Acquisition.PotReadsFacts | src/pyBEEP/controller.py:618-624 | the two reads issue reads only, leave `wr_tx_reg` alone, keep the retry counter and the word count in step, and end normally, by a read error or by an unconvertible reply |
| Acquisition.PotTurnFacts | src/pyBEEP/controller.py:600-626 | a turn only extends the log, stops nothing, writes no PID target, keeps the retry counter, the word count and the write bookkeeping in step, and fails only by a write, read or conversion error |
| Acquisition.PotLoopFrame | src/pyBEEP/controller.py:597-626 | the potentiostatic loop only extends the log, stops nothing, writes no PID target, and keeps the retry counter and the word count in step |
| Acquisition.PotLoop | src/pyBEEP/controller.py:597-626 | the potentiostatic `while` loop with its drain condition; `Acquisition.PotLoopEnd` and `Acquisition.PotLoopFrame` state how it ends |
| Acquisition.PotLoopEnd | src/pyBEEP/controller.py:597-626 | a normal end had every word of the stimulus accepted once, in order; `wr_tx_reg` is a multiple of 120 within 120 above the stimulus length; at least twice that many words have been read; a division by zero happens only for an empty stimulus; no other failure than a write, read, conversion or division error |
| Acquisition.EmptyStimulusDivides | src/pyBEEP/controller.py:597-599 | with an empty stimulus no word is written, so after three post-write turns the drain test divides by zero, unless an unconvertible reply ends the run first |
| Acquisition.SetupCommands | src/pyBEEP/controller.py:234-251 | the setup ends with SET_SWITCH 1 and never sends TEST_STOP or PID_START |
| Acquisition.CommandOps | src/pyBEEP/device.py:13-34 | a command sequence's operations are one write of `[command, parameter]` to the command register per command, in order |
| Acquisition.SendAll | src/pyBEEP/controller.py:245-251 | commands sent one after another, the first failure ending the sequence; its properties are stated by `Acquisition.SendAllFrame`, `Acquisition.SendAllNoStop` and `Acquisition.SendAllOps` |
| Acquisition.SendAllFrame | src/pyBEEP/controller.py:245-251 | a command sequence only extends the log, writes no stimulus and no PID target, leaves the failed-read count alone, and fails only by the `exit()` of `send_command` or a command error |
| Acquisition.SendAllNoStop | src/pyBEEP/controller.py:245-251 | a command sequence without TEST_STOP does not change whether the instrument is stopped |
| Acquisition.SendAllOps | src/pyBEEP/controller.py:245-251 | a command sequence that ends normally issued exactly its commands, in order |
| Acquisition.TeardownStops | src/pyBEEP/controller.py:284-289 | the teardown stops the instrument when it ends normally and otherwise leaves the stopped state as it was |
| Acquisition.RunShapeOfLoop | src/pyBEEP/controller.py:278-289 | once the setup succeeded, a loop that keeps the retry counter in step gives a run of the common shape: stopped exactly on a normal end, a read error exactly after more than 16 failed reads, the setup commands first and the teardown commands last |
| Acquisition.TeardownShape | src/pyBEEP/controller.py:284-289 | the teardown after a normal loop end gives the common run shape and writes no stimulus and no PID target |
| Acquisition.TeardownEnds | src/pyBEEP/controller.py:284-289 | the teardown after a normal loop end leaves the instrument stopped exactly when it ends normally, with the retry counter in step |
| Acquisition.TeardownOps | src/pyBEEP/controller.py:284-289 | when the teardown ends normally the run's operations begin with the setup commands and end with SET_SWITCH 0 and TEST_STOP |
| Acquisition.RunShapeOfSetupFailure | src/pyBEEP/controller.py:245-251 | a failed setup command gives a run of the common shape that writes nothing else and fails by the `exit()` of `send_command` or a command error |
| Acquisition.WriteList | src/pyBEEP/controller.py:579-582 | the write list has two words per applied float32 |
| Acquisition.OcpRun | src/pyBEEP/controller.py:393-425 | `_read_write_ocp`: setup, the read loop, teardown; its properties are stated by `Acquisition.OcpRunProperties` |
| Acquisition.OcpRunProperties | src/pyBEEP/controller.py:393-425 | the open-circuit run has the common shape with FIFO cleared and started, writes no stimulus and no PID target, and a normal end queued at least `2 * len(time)` rows |
| Acquisition.PidActiveRun | src/pyBEEP/controller.py:434-509 | `_read_write_data_pid_active`: setup, the segments, teardown; its properties are stated by `Acquisition.PidActiveRunShape` and `Acquisition.PidActiveRunResult` |
| Acquisition.PidActiveRunShape | src/pyBEEP/controller.py:434-509 | the PID-regulated run has the common shape with the FIFO cleared but not started, and never writes the potentiostatic register |
| Acquisition.PidActiveRunResult | src/pyBEEP/controller.py:483-509 | a normal end wrote every segment's target once, in order, and queued at least as many rows as each segment's length; a failed target write is the last PID write |
| Acquisition.PidInactiveRun | src/pyBEEP/controller.py:523-628 | `_read_write_data_pid_inactive`: setup, the write-and-read loop, teardown; its properties are stated by `Acquisition.PidInactiveRunShape` and `Acquisition.PidInactiveRunResult` |
| Acquisition.PidInactiveRunShape | src/pyBEEP/controller.py:523-628 | the potentiostatic run has the common shape with the FIFO cleared and started, and never writes a PID target |
| Acquisition.PidInactiveRunResult | src/pyBEEP/controller.py:578-628 | a normal end had every stimulus word accepted once, in order, and queued at least one row per applied sample; a division by zero only for an empty stimulus; an empty stimulus never ends normally, by a read error or by a write error |
| Controller.ZipSteps | src/pyBEEP/controller.py:483-492 | `zip` stops at the shortest of the three step lists; step `k` pairs the float32 of the `k`-th current with the `k`-th length |
| Controller.CastAll | src/pyBEEP/controller.py:579 | the applied potentials as float32, one per sample, in order |
| Controller.PlanSpec | src/pyBEEP/controller.py:321-363 | an unknown mode fails with the lookup's error; invalid parameters fail with the mode and the class's field names; a generator failure is passed on; otherwise the procedure matches the mode's control type (PID-regulated exactly for GAL, open circuit exactly for OCP), with one setpoint per current step, every applied potential, or every time stamp |
| Controller.QueueItems | src/pyBEEP/controller.py:278-281 | the queue receives every block the producer put, in order, then the `None` sentinel |
| Controller.QueueBatches | src/pyBEEP/controller.py:269-282 | the consumer of that queue takes exactly the producer's blocks |
| Controller.PotentiostatController.constructor | src/pyBEEP/controller.py:64-76 | a new controller holds the given device and default folder and no last plot path |
| Controller.PotentiostatController.SetDefaultFolder | src/pyBEEP/controller.py:136-147 | the default folder becomes the given one when it is neither None nor empty, else the dialog's choice; the last plot path is untouched |
| Controller.PotentiostatController.GetDefaultFolder | src/pyBEEP/controller.py:149-158 | a set default folder is returned unchanged; otherwise the dialog's choice is stored and returned |
| Controller.PotentiostatController.RunMeasurement | src/pyBEEP/controller.py:253-282 | the device ends in the state the procedure leaves, the file holds the rows of every block put on the queue, and the procedure's exception is reported |
| Controller.PotentiostatController.ApplyMeasurement | src/pyBEEP/controller.py:291-368 | a failing plan returns its error with the device, folder and last plot path untouched; otherwise the procedure runs on the device, its rows and failure are returned, and the file path `folder/filename` (given folder, else default folder, else dialog; given name, else the default name) becomes the last plot path; the default folder is kept when a folder was given or a default was set, and otherwise becomes the dialog's choice, as `get_default_folder` stores it |
| Controller.PotentiostatController.SetupMeasurement | src/pyBEEP/controller.py:234-251 | the device state and result are those of sending `SetupCommands` in order, stopping at the first failure |
| Controller.PotentiostatController.Send | src/pyBEEP/device.py:13-34 | one command of a sequence: a failure ends the sequence with that failure, a success leaves the rest to send |
| Controller.PotentiostatController.TeardownMeasurement | src/pyBEEP/controller.py:284-289 | the device state and result are those of sending SET_SWITCH 0 then TEST_STOP 1 |
| Controller.PotentiostatController.ReadOperation | src/pyBEEP/controller.py:370-391 | the method's device state, counters and result are those of `Acquisition.ReadOperation` |
| Controller.PotentiostatController.ReadAndPut | src/pyBEEP/controller.py:417-423 | the method's device state, counters, queued blocks and failure are those of `Acquisition.ReadAndQueue` |
| Controller.PotentiostatController.Collect | src/pyBEEP/controller.py:416-423 | the `while` loop is proved equal to `Acquisition.Drain` |
| Controller.PotentiostatController.ReadWriteOcp | src/pyBEEP/controller.py:393-425 | the method is proved equal to `Acquisition.OcpRun`, whose properties `Acquisition.OcpRunProperties` states |
| Controller.PotentiostatController.ReadWriteDataPidActive | src/pyBEEP/controller.py:434-509 | the nested loops are proved equal to `Acquisition.PidActiveRun`, whose properties `Acquisition.PidActiveRunShape` and `Acquisition.PidActiveRunResult` state |
| Controller.PotentiostatController.WriteChunk | src/pyBEEP/controller.py:601-616 | the method is proved equal to the write half `Acquisition.PotWrite` |
| Controller.PotentiostatController.ReadTwice | src/pyBEEP/controller.py:618-624 | the `for` loop of two reads is proved equal to `Acquisition.PotReads` |
| Controller.PotentiostatController.PotTurnStep | src/pyBEEP/controller.py:600-626 | one loop body is proved equal to `Acquisition.PotTurn` |
| Controller.PotentiostatController.ReadWriteDataPidInactive | src/pyBEEP/controller.py:523-628 | the loop is proved equal to `Acquisition.PidInactiveRun`, whose properties `Acquisition.PidInactiveRunShape` and `Acquisition.PidInactiveRunResult` state |
| LegacyController.BlockBounds | src/controller.py:327-332 | block `k` of `pkg_num` starts at `k * pkg_len` and is not empty; every block but the last is `pkg_len` wide, the last ends at `n` and also takes the remainder |
| LegacyController.PartitionProperties | src/controller.py:325-335 | the blocks exist exactly when the factor is positive and at most `n` (otherwise `pkg_num` or the factor is zero and the division raises); there are `n // rf` of them, starting at 0, ending at `n`, each starting where the previous one ends, all `n // pkg_num` wide but the last |
| LegacyController.PartitionCovers | src/controller.py:325-335 | every row of the read lies in exactly one block |
| LegacyController.Averages | src/controller.py:325-335 | `reduce`'s result: each block of the partition averaged by the abstract `np.mean`; its properties are stated by `LegacyController.AveragesSpec` |
| LegacyController.AveragesSpec | src/controller.py:325-335 | averaging yields one row per block, `n // rf` in all, row `k` the mean of block `k`; a zero factor or a read shorter than the factor divides by zero |
| LegacyController.Reduce | src/controller.py:325-335 | the `for i in range(pkg_num)` loop computes `Averages`, and leaves `pkg_num - 1` in `i` |
| LegacyController.BlockMean | src/controller.py:329-334 | one turn of that loop appends the mean of block `i` |
| LegacyController.BlockMeansAt | src/controller.py:329-334 | the first `i` means are those of the first `i` blocks, in order |
| LegacyController.ReadOnce | src/controller.py:316-335 | with a reducing factor, a read that yields rows had at least as many rows as the factor; a SlaveReportedException is caught exactly when the instrument reports it; an exception is raised by no reply, or by words that cannot be converted or averaged |
| LegacyController.EmptyReadDivides | src/controller.py:325-328 | an empty answer averaged with any reducing factor divides by zero |
| LegacyController.PidWrite | src/controller.py:189-195 | the write of a PID turn takes at most one more clock reading and queues nothing |
| LegacyController.PidReads | src/controller.py:197-225 | the `for r in range(0, 2)` reads of a PID turn never take more clock readings than the script holds; `LegacyController.PidReadsIdle`, `LegacyController.PidReadsFacts` and `LegacyController.PidReadsCount` state the rest |
| LegacyController.PidReadsIdle | src/controller.py:198-222 | no read is issued once the two reads are used up or while the read delay has not passed since the last refused read (the `break`) |
| LegacyController.PidTurn | src/controller.py:186-226 | every PID turn takes at least one clock reading |
| LegacyController.PidLoop | src/controller.py:186-226 | the PID loop ends normally only once the summed turn durations reach `time` |
| LegacyController.PotWrite | src/controller.py:302-311 | the write of a potentiostatic turn queues nothing and advances the index by `n_register` or not at all |
| LegacyController.PotReads | src/controller.py:312-344 | the reads of a turn consume no more clock readings and replies than there were |
| LegacyController.PotReadsIdle | src/controller.py:314-341 | no read is issued once the reads are used up or while the reading is within the busy delay (the `break`) |
| LegacyController.PotTurn | src/controller.py:300-344 | a turn that does not raise keeps the index non-negative and uses up a clock reading or, once the clock script is exhausted, a reply |
| LegacyController.PotTurnAsWritten | src/controller.py:300-344 | the turn as written does the same to the instrument and the queue as the corrected one and differs only in the write index |
| LegacyController.ShadowedIndexRestarts | src/controller.py:302-335 | as written, a turn whose first chunk is accepted and whose read of two rows is averaged with factor 2 leaves 0 in the write index, where the corrected turn has 120 |
| LegacyController.PotLoop | src/controller.py:300-344 | the loop ends normally only once the index has passed the end of the write list |
| LegacyController.Stimulus | src/controller.py:284-290 | the potentiostatic stimulus `np.full(int(time // t_point), potential)` as words; its properties are stated by `LegacyController.StimulusSpec` |
| LegacyController.StimulusSpec | src/controller.py:284-290 | the stimulus exists exactly for a non-negative time and is `int(time // 0.00036)` copies of the potential's two float32 words |
| LegacyController.PotWriteFacts | src/controller.py:302-311 | a write issues only a stimulus chunk; a raised write is logged as the event that raised; the words accepted stay equal to the stimulus up to the index |
| LegacyController.PotReadsFacts | src/controller.py:312-344 | the reads issue reads only, add no accepted stimulus words, and a raise is logged as the event that raised |
| LegacyController.PotReadsOnly | src/controller.py:312-344 | the reads of a turn issue nothing but reads |
| LegacyController.PotReadsRaised | src/controller.py:312-344 | reads that raise end with the event that raised |
| LegacyController.PotReadsRowsStep | src/controller.py:316-339 | a read that yields rows queues them and leaves the rest of the reads to a run with one more block |
| LegacyController.PotReadsRaisedHere | src/controller.py:316-335 | a read that raises ends the reads with that fault, logged |
| LegacyController.PotTurnFacts | src/controller.py:300-344 | a turn issues only stimulus writes and reads, keeps the accepted words equal to the stimulus up to the index, and a raise is logged as the event that raised |
| LegacyController.PotLoopFacts | src/controller.py:298-344 | the potentiostatic loop issues only stimulus writes and reads, ends early only on a reply that is not a SlaveReportedException, and a normal end has had the whole stimulus accepted, once, in order |
| LegacyController.PidWriteFacts | src/controller.py:189-195 | a PID write issues only the target write, leaves the read error count and the refused reads alone, and a raise is logged as the event that raised |
| LegacyController.PidReadsFacts | src/controller.py:197-225 | the PID reads issue reads only, every refused read adds one to `rd_err_cnt`, and a raise is logged as the event that raised |
| LegacyController.PidReadsOnly | src/controller.py:197-225 | the PID reads issue nothing but reads |
| LegacyController.PidReadsRaised | src/controller.py:197-225 | PID reads that raise end with the event that raised |
| LegacyController.PidReadsCount | src/controller.py:223-225 | every refused read adds one to `rd_err_cnt`, and nothing resets it |
| LegacyController.PidTurnFacts | src/controller.py:186-226 | a PID turn writes only its target and otherwise reads; a raise is logged; `rd_err_cnt` follows the refused reads |
| LegacyController.PidLoopFacts | src/controller.py:186-226 | the PID loop writes only its target and otherwise reads, ends early only on a reply that is not a SlaveReportedException or where the clock script ends, and its read error count grows by one per refused read and is never reset |
| LegacyController.FinishShape | src/controller.py:346-348 | after a successful setup and a loop that issued only its writes, switching off gives the run its shape: stopped exactly on a normal end, setup commands first, teardown commands last, nothing but the loop's operations between |
| LegacyController.FinishEnds | src/controller.py:346-348 | switching off after a normal loop stops the instrument exactly when both commands succeed, and fails only by a command failure |
| LegacyController.FinishOps | src/controller.py:346-348 | after a normal switch-off the run's operations are the setup commands, the loop's operations, then the teardown commands |
| LegacyController.LogsBetween | src/controller.py:293-348 | a log of setup commands, then allowed loop operations, then teardown commands has the procedure's shape |
| LegacyController.PidActiveRun | src/controller.py:128-230 | the legacy `_read_write_data_pid_active`: setup, the PID loop, teardown; its properties are stated by `LegacyController.PidActiveRunShape` |
| LegacyController.PidActiveRunShape | src/controller.py:128-230 | the PID procedure sends gain, CLEAR_FIFO and SET_SWITCH 1, then writes nothing but the target current and otherwise reads, then switches off; its `rd_err_cnt` is the number of refused reads |
| LegacyController.PidInactiveRun | src/controller.py:235-348 | the legacy `_read_write_data_pid_inactive`: the stimulus, setup, the corrected potentiostatic loop, teardown; its properties are stated by `LegacyController.PidInactiveRunShape` |
| LegacyController.PidInactiveRunShape | src/controller.py:235-348 | a negative duration raises before any command; otherwise the run sends gain, FIFO_START and SET_SWITCH 1, writes only stimulus chunks, then switches off, and a normal end has delivered the whole stimulus, in order, exactly once |
| LegacyController.LegacyPotentiostatController.constructor | src/controller.py:32-34 | a new controller holds the device and an empty data queue |
| LegacyController.LegacyPotentiostatController.SendCommands | src/controller.py:172-174 | consecutive `send_command` calls: the device state and result are those of `Acquisition.SendAll` |
| LegacyController.LegacyPotentiostatController.Take | src/controller.py:316-335 | one read of 120 words at `0x100`, then conversion and averaging, as `ReadOnce` states |
| LegacyController.LegacyPotentiostatController.Put | src/controller.py:337 | `data_queue.put` appends the rows to the queue |
| LegacyController.LegacyPotentiostatController.PidWriteStep | src/controller.py:189-195 | the method is proved equal to `PidWrite` |
| LegacyController.LegacyPotentiostatController.PidReadOnce | src/controller.py:199-222 | one read either ends the reads as `PidReads` does or hands the remaining reads on |
| LegacyController.LegacyPotentiostatController.PidReadsStep | src/controller.py:197-225 | the `for r in range(0, 2)` loop is proved equal to `PidReads`, and the queue grows by the blocks it yields |
| LegacyController.LegacyPotentiostatController.PidTurnStep | src/controller.py:187-226 | one turn of the PID loop is proved equal to `PidTurn` |
| LegacyController.LegacyPotentiostatController.ReadWriteDataPidActive | src/controller.py:128-233 | the method is proved equal to `PidActiveRun`, whose properties `PidActiveRunShape` states |
| LegacyController.LegacyPotentiostatController.PotWriteStep | src/controller.py:301-311 | the method is proved equal to `PotWrite` |
| LegacyController.LegacyPotentiostatController.PotReadOnce | src/controller.py:315-339 | one read either ends the reads as `PotReads` does or hands the remaining reads on |
| LegacyController.LegacyPotentiostatController.PotReadsStep | src/controller.py:312-344 | the two reads are proved equal to `PotReads`, with the averaging kept off the write index |
| LegacyController.LegacyPotentiostatController.PotTurnStep | src/controller.py:301-344 | one turn of `while i < n_items` is proved equal to the corrected `PotTurn` |
| LegacyController.LegacyPotentiostatController.ReadWriteDataPidInactive | src/controller.py:235-351 | the method is proved equal to `PidInactiveRun`, whose properties `PidInactiveRunShape` states |
| LegacyController.Partition | src/controller.py:325-335 | every block of the partition lies within the read's `n` rows and is not empty |
| SignalProcessing.MinOf | src/pyBEEP/datapipeline/signal_processing.py:358-360 | Python's `min` of two values: at most both, and one of them |
| SignalProcessing.MaxOf | src/pyBEEP/datapipeline/signal_processing.py:365-367 | Python's `max` of two values: at least both, and one of them |
| SignalProcessing.StoreThenPopEntry | src/pyBEEP/datapipeline/signal_processing.py:357-369 | the update as written raises `KeyError` exactly when an entry is missing or the two indices are equal; otherwise the keys become the old ones plus the midpoint minus both merged indices (so a midpoint equal to the left index is lost), the midpoint holds the picked value when it is new, and every other entry is unchanged |
| SignalProcessing.PopThenStoreEntry | src/pyBEEP/datapipeline/signal_processing.py:357-369 | the intended update raises only for a missing entry; the keys become the old ones minus both merged indices plus the midpoint, which holds the `min` (dict1) or `max` (dict2) of the two entries; every other entry is unchanged |
| SignalProcessing.MergeAt | src/pyBEEP/datapipeline/signal_processing.py:371-374 | each merge shrinks the list by one |
| SignalProcessing.MergeFrom | src/pyBEEP/datapipeline/signal_processing.py:350-378 | the merge never lengthens the list and never empties a non-empty one |
| SignalProcessing.StoreThenPopUpdate | src/pyBEEP/datapipeline/signal_processing.py:357-369 | the two `if dictN is not None:` blocks as a method, proved equal to the as-written update |
| SignalProcessing.MergeNeighborIdx | src/pyBEEP/datapipeline/signal_processing.py:323-378 | the `while cpt < tmp_len` loop, with the list and the dictionaries it updates in place, is proved equal to `MergeFrom` with the update as written |
| SignalProcessing.MergeAtOrdered | src/pyBEEP/datapipeline/signal_processing.py:355-372 | the floor midpoint lies between the two entries it replaces, so a merge keeps an ascending list ascending and leaves the other entries in place |
| SignalProcessing.MergeOrdered | src/pyBEEP/datapipeline/signal_processing.py:350-378 | for an ascending list the result is ascending and every two neighbours lie more than `distance` apart |
| SignalProcessing.MergeAtStrict | src/pyBEEP/datapipeline/signal_processing.py:355-372 | a merge keeps a strictly increasing list strictly increasing, and the midpoint replaces exactly the two entries it came from |
| SignalProcessing.MergeSafe | src/pyBEEP/datapipeline/signal_processing.py:350-378 | with the intended update, merging a strictly increasing list whose entries all have dictionary entries never raises, and every entry of the result keeps entries in both dictionaries |
| SignalProcessing.MergeAsWrittenLosesEntry | src/pyBEEP/datapipeline/signal_processing.py:357-369 | as written, `[5, 6]` with distance 2 merges to `[5]` without an error, but both dictionaries lose every entry for 5 and 6, so the merged index has no entry; the intended update stores the merged entry under 5 |
| SignalProcessing.MergeAsWrittenRaises | src/pyBEEP/datapipeline/signal_processing.py:357-369 | with two distinct dictionaries keyed 5, 6 and 7, `[5, 6, 7]` with distance 2 raises `KeyError` as written, and merges to `[6]` with the intended update |
| SignalProcessing.GapBeforeMembers | src/pyBEEP/datapipeline/signal_processing.py:405 | a label is selected by `diff() > 1` exactly when it lies more than one above its predecessor |
| SignalProcessing.GapAfterMembers | src/pyBEEP/datapipeline/signal_processing.py:406 | a label is selected by `diff(periods=-1) < -1` exactly when its successor lies more than one above it |
| SignalProcessing.InsertMultiset | src/pyBEEP/datapipeline/signal_processing.py:409 | insertion adds exactly the one element |
| SignalProcessing.InsertOrdered | src/pyBEEP/datapipeline/signal_processing.py:409 | insertion into an ascending list keeps it ascending |
| SignalProcessing.SortInts | src/pyBEEP/datapipeline/signal_processing.py:409 | `list.sort()` gives an ascending permutation of its input |
| SignalProcessing.NonConsecutiveIdx | src/pyBEEP/datapipeline/signal_processing.py:381-411 | the result is ascending, holds only labels of the input, and is empty for an empty input |
| SignalProcessing.NonConsecutiveMembers | src/pyBEEP/datapipeline/signal_processing.py:398-406 | a label is in the result exactly when it is the first label, the last of two or more, or a label on either side of a gap wider than one |
| SignalProcessing.NonConsecutiveDuplicates | src/pyBEEP/datapipeline/signal_processing.py:398-411 | labels are not deduplicated: `[1, 3]` gives 1 and 3 twice each |
| SignalProcessing.LastBeforeSpec | src/pyBEEP/datapipeline/signal_processing.py:466-473 | on an ascending list the scan finds an index exactly when one lies before `zero` within `width_max_idx`, and then finds the latest one |
| SignalProcessing.FirstAfterSpec | src/pyBEEP/datapipeline/signal_processing.py:476-484 | on an ascending list the scan finds an index exactly when one lies at or after `zero` within `width_max_idx`, and then finds the earliest one |
| SignalProcessing.Candidate | src/pyBEEP/datapipeline/signal_processing.py:486-494 | a zero is a candidate exactly when at least one side has a crossing in its window |
| SignalProcessing.FindInPeaks | src/pyBEEP/datapipeline/signal_processing.py:460-514 | the peaks are exactly the zeros that pass the sign-mean test |
| SignalProcessing.FindInDicts | src/pyBEEP/datapipeline/signal_processing.py:460-494 | both dictionaries hold exactly the candidate zeros, with the lower and upper boundary of each |
| SignalProcessing.FindInOrdered | src/pyBEEP/datapipeline/signal_processing.py:460-516 | for strictly increasing zeros the peaks are strictly increasing and drawn from the zeros |
| SignalProcessing.ScanBefore | src/pyBEEP/datapipeline/signal_processing.py:462-473 | the `for idx1` loop sets `b_valid_idx1` exactly when `LastBefore` finds an index, and records that index in `dict1` |
| SignalProcessing.ScanAfter | src/pyBEEP/datapipeline/signal_processing.py:463-484 | the `for idx2` loop sets `b_valid_idx2` exactly when `FirstAfter` finds an index, and records that index in `dict2` |
| SignalProcessing.FindCandidateExtremum | src/pyBEEP/datapipeline/signal_processing.py:414-516 | the method is proved equal to `FindIn`, whose properties `FindInPeaks`, `FindInDicts` and `FindInOrdered` state |
| SignalProcessing.PeakDetectionChecksSpec | src/pyBEEP/datapipeline/signal_processing.py:59-109 | `peak_detection` raises the first check, in source order, whose condition holds, and only then; otherwise it looks for maxima exactly for "Max" or "Both" and minima exactly for "Min" or "Both" |
| SignalProcessing.ExtremumIndices | src/pyBEEP/datapipeline/signal_processing.py:154-203 | the index stage, with the merge's dictionary update as a parameter (as written or as intended): a kind of extremum is computed only when asked for, and an error comes only from the merge of a kind asked for, when zeros and crossings exist |
| SignalProcessing.FoundAndMerged | src/pyBEEP/datapipeline/signal_processing.py:157-167 | the peaks found for one kind of extremum, merged as intended, never raise, ascend more than `half_width_min_idx` apart, and each keeps both boundaries |
| SignalProcessing.ExtremumIndicesSafe | src/pyBEEP/datapipeline/signal_processing.py:154-192 | with the intended merge and strictly increasing zeros, the index stage never raises and yields indices for exactly the kinds of extrema asked for, when zeros and crossings exist, each list ascending with neighbours more than `half_width_min_idx` apart |
| SignalProcessing.MergeAsWrittenRaisesOn | src/pyBEEP/datapipeline/signal_processing.py:357-369 | the as-written merge of `[5, 6, 7]` at distance 2 raises `KeyError` for any dictionaries that hold the three indices |
| SignalProcessing.ExampleCandidates | src/pyBEEP/datapipeline/signal_processing.py:460-516 | zeros 5, 6 and 7, each followed within the window by a decreasing crossing at 8 and passing the sign-mean test, are all peaks, with boundaries `zero - 2` and 8 |
| SignalProcessing.ExtremumIndicesAsWrittenRaises | src/pyBEEP/datapipeline/signal_processing.py:154-192 | with the merge as written, the index stage for those zeros raises `KeyError`, and with the intended merge it succeeds |
| DataProcessing.FirstAt | src/pyBEEP/datapipeline/data_processing.py:227 | the first position whose label is `lab`, or none exactly when no row carries it |
| DataProcessing.Completed | src/pyBEEP/datapipeline/data_processing.py:223-253 | a ramp without rows or without anomalies raises `IndexError`; otherwise the anomalies gain at most the ramp's first label in front and at most its last label behind |
| DataProcessing.Paired | src/pyBEEP/datapipeline/data_processing.py:257-258 | the anomalies keep an even count: an odd list loses exactly its last label, an even one is unchanged |
| DataProcessing.DropWindowMembers | src/pyBEEP/datapipeline/data_processing.py:266-274 | a drop keeps exactly the rows labelled outside its window |
| DataProcessing.DropWindowOrder | src/pyBEEP/datapipeline/data_processing.py:266-274 | the rows a drop keeps stay in their order |
| DataProcessing.DropPairsSpec | src/pyBEEP/datapipeline/data_processing.py:261-274 | the drops of the pairs, one after another, keep exactly the rows outside every pair's window `a .. b + (b - a) // 2`, in their order |
| DataProcessing.Cleaned | src/pyBEEP/datapipeline/data_processing.py:197-280 | cleaning fails only with `IndexError` |
| DataProcessing.CleanedSpec | src/pyBEEP/datapipeline/data_processing.py:215-280 | a ramp without rows or anomalies raises `IndexError`; a cleaned ramp holds, in their order, exactly the rows outside the windows of the paired anomalies |
| DataProcessing.DropAnomalyPairs | src/pyBEEP/datapipeline/data_processing.py:261-274 | the `for i in range(len(idx_anomalies) // 2)` loop of in-place drops is proved equal to `DropPairs` |
| DataProcessing.CleaningRaw | src/pyBEEP/datapipeline/data_processing.py:197-280 | the method is proved equal to `Cleaned`, whose properties `CleanedSpec` states |
| DataProcessing.RampWindowMembers | src/pyBEEP/datapipeline/data_processing.py:100 | a ramp holds exactly the raw rows labelled from `start` up to, and not including, `end` |
| DataProcessing.RampWindowOrder | src/pyBEEP/datapipeline/data_processing.py:100 | a ramp keeps the order of the raw rows |
| DataProcessing.SavgolWindow | src/pyBEEP/datapipeline/data_processing.py:106 | `int(pct * len)` truncates toward zero: the largest integer not above a non-negative product, the smallest not below a negative one |
| DataProcessing.SmoothRamp | src/pyBEEP/datapipeline/data_processing.py:106-114 | both columns are smoothed over the window `int(pct * len(ramp))`; smoothing fails only when the filter fails or returns a column of the wrong length |
| DataProcessing.SmoothRampShape | src/pyBEEP/datapipeline/data_processing.py:106-114 | smoothing keeps the number of rows and their labels, and numbers every row with its ramp |
| DataProcessing.ProcessRamp | src/pyBEEP/datapipeline/data_processing.py:96-114 | one ramp fails only with a cleaning or a smoothing error |
| DataProcessing.UntilErrorFails | src/pyBEEP/datapipeline/data_processing.py:94-117 | once a ramp raises, the loop ends with its error |
| DataProcessing.RampResults | src/pyBEEP/datapipeline/data_processing.py:94 | there is one result for each of the `len(index_list) - 1` ramps |
| DataProcessing.SmoothAndLabel | src/pyBEEP/datapipeline/data_processing.py:106-114 | the method is proved equal to `SmoothRamp` |
| DataProcessing.ProcessOneRamp | src/pyBEEP/datapipeline/data_processing.py:96-117 | one pass of the loop is proved equal to `ProcessRamp` |
| DataProcessing.ProcessRaw | src/pyBEEP/datapipeline/data_processing.py:75-120 | the method is proved equal to `ProcessRawSpec`, whose properties `ProcessRawSpecShape` states |
| DataProcessing.ProcessRampShape | src/pyBEEP/datapipeline/data_processing.py:96-114 | every row of ramp `k` carries `k` and comes from the raw rows between the start of ramp `k` and one label before the start of ramp `k + 1` |
| DataProcessing.AppendRamp | src/pyBEEP/datapipeline/data_processing.py:117 | appending ramp `n - 1` after the ramps before it keeps the ramp numbers in order |
| DataProcessing.UntilErrorShape | src/pyBEEP/datapipeline/data_processing.py:94-117 | the concatenated ramps list their rows by ramp, in order, each from its own window |
| DataProcessing.ProcessRawSpec | src/pyBEEP/datapipeline/data_processing.py:75-120 | `process_raw`: the argument checks, the ramp starts of the slicer, then each ramp cleaned and smoothed until one raises; its properties are stated by `DataProcessing.ProcessRawSpecShape` and `DataProcessing.UntilErrorShape` |
| DataProcessing.ProcessRawSpecShape | src/pyBEEP/datapipeline/data_processing.py:75-120 | `process_raw` raises `TypeError` exactly for a non-DataFrame and `ValueError` exactly for a missing Voltage or Current column, otherwise only the errors of cleaning and smoothing; its rows are numbered by ramp in order and each comes from its ramp's window |
| DataProcessing.UntilErrorErrors | src/pyBEEP/datapipeline/data_processing.py:94-117 | the loop fails only with an error of one of its ramps |
| DataProcessing.RampRows | src/pyBEEP/datapipeline/data_processing.py:168-170 | `df_proc[df_proc["Ramp"] == n]` holds exactly the rows numbered `n` |
| DataProcessing.DetectFrom | src/pyBEEP/datapipeline/data_processing.py:168-186 | every peak list kept is non-empty |
| DataProcessing.PrependTwice | src/pyBEEP/datapipeline/data_processing.py:184 | concatenating the peak frames one after another is concatenating them at once |
| DataProcessing.DetectFromStep | src/pyBEEP/datapipeline/data_processing.py:168-186 | a ramp with rows is searched; its error ends the loop, otherwise its peaks, when there are any, come before those of the following ramps |
| DataProcessing.DetectRamp | src/pyBEEP/datapipeline/data_processing.py:170-181 | `peak_detection` on one ramp with the extremum its voltage trend selects; its properties are stated by `DataProcessing.DetectRampExtremum` |
| DataProcessing.DetectOneRamp | src/pyBEEP/datapipeline/data_processing.py:170-181 | the method is proved equal to `DetectRamp` |
| DataProcessing.PeakDetectionProc | src/pyBEEP/datapipeline/data_processing.py:123-189 | the `while` loop over the ramp numbers is proved equal to `PeakDetectionProcSpec` |
| DataProcessing.RampsBelow | src/pyBEEP/datapipeline/data_processing.py:168 | the rows of the ramps below `k`: the same rows for every ramp below `k`, none above |
| DataProcessing.DetectIgnoresAfterGap | src/pyBEEP/datapipeline/data_processing.py:168 | the loop stops at the first ramp number without rows, so ramps numbered after that gap are never examined |
| DataProcessing.DetectRampExtremum | src/pyBEEP/datapipeline/data_processing.py:172-181 | with valid parameters a ramp shorter than `width_max` is refused, and a longer one is searched for maxima when its Voltage ends above its start and for minima otherwise |
| DataProcessing.DetectFromErrors | src/pyBEEP/datapipeline/data_processing.py:168-186 | the ramp loop fails only with what `peak_detection` raises |
| DataProcessing.PeakDetectionProcSpec | src/pyBEEP/datapipeline/data_processing.py:123-189 | `peak_detection_proc`: the argument checks, then every ramp in turn; its properties are stated by `DataProcessing.PeakDetectionProcChecks` |
| DataProcessing.PeakDetectionProcChecks | src/pyBEEP/datapipeline/data_processing.py:144-186 | `peak_detection_proc` raises `TypeError` exactly for a frame or parameters of the wrong type, `ValueError` exactly for a missing Voltage, Current or Ramp column, and otherwise only what `peak_detection` raises on a ramp |

## Left out

- Threads, the device lock and the queue (`src/pyBEEP/controller.py:76,269-282,365`, `src/controller.py:69-77`): the producer runs to completion and then the consumer reads its blocks. Interleavings are not modelled, and neither is an exception raised by the consumer thread.
- The Modbus transport (`src/pyBEEP/device.py`): minimalmodbus is replaced by the scripted reply sequence. `Device.Command` models the `exit()` of `send_command`, whose SystemExit ends the producer thread (`src/pyBEEP/controller.py:269-282`), as the `CommandExit` failure.
- Clock readings: they are scripted inputs. Past the end of its script the clock reads later than the busy delay, so every loop ends.
- The closing clock readings and the data-rate computation (`src/pyBEEP/controller.py:410,414,426-428`, `478,481,511-513`, `575,594,630-631`, and in the legacy driver `src/controller.py:177,231-233,281,299,349-351`): not modelled. `LegacyController` takes no `transmission_st` reading and no closing reading either. In the legacy `_read_write_data_pid_active`, `rx_tx_reg` stays 0, so its division is `0 / 0.0` when the two readings are equal. In `_read_write_data_pid_inactive` it is a positive count divided by `0.0`. Both raise ZeroDivisionError. `Acquisition` takes none of these readings. `_read_write_ocp`, `_read_write_data_pid_active` and `_read_write_data_pid_inactive` divide by the elapsed time after the teardown. When the start and end readings are equal, that division raises ZeroDivisionError and ends the producer thread. The model does not capture this case. For such a run, `Acquisition.OcpRun`, `Acquisition.PidActiveRun`, `Acquisition.PidInactiveRun` report `failure.None?` with the instrument stopped, and `Controller.PotentiostatController.ApplyMeasurement` reports no failure where the thread raised. The count log messages are left out too; they do not influence control flow or data.
- Acquisition.OcpRunProperties, Acquisition.PidActiveRunShape, Acquisition.PidInactiveRunShape: their `failure.None? <==> Stopped(log)` clause counts a run whose closing data-rate division raises ZeroDivisionError (the line above) as a normal end.
- LegacyController.FinishShape: its `fault.None? <==> Stopped(log)` clause counts a run whose closing data-rate division (`src/controller.py:231-232,349-350`) raises ZeroDivisionError after the teardown as a normal end, because the closing readings are not modelled (the line above).
- LegacyController.PidActiveRunShape: through `FinishShape`, a run whose division at `src/controller.py:232` raises counts as a normal end. An example is `_read_write_data_pid_active` with duration 0, which skips its loop, on a clock that returns the same value across the two teardown commands.
- LegacyController.PidInactiveRunShape: through `FinishShape`, a run whose division at `src/controller.py:350` raises counts as a normal end.
- The clock readings stored in `rd_dly_st` after a failed read and in `wr_dly_st` after a failed write (`src/pyBEEP/controller.py:384,610`): `Acquisition` takes no reading there. The busy gates multiply these values by 0 (lines 377 and 606), so they decide nothing, but those readings are not drawn from the clock script. The legacy model does take the matching readings of `src/controller.py` from the script, as a `Tick` after a caught SlaveReportedException.
- Float arithmetic: samples are exact reals, and float32 values are 32-bit patterns given by a caller-supplied cast (`toF32`). The values `np.linspace` produces are modelled as exact reals.
- `np.mean`, `savgol_filter` and `peak_detection` are parameters of the functions that call them (`mean`, `smooth`, `detect`). The model states what is done with their results, not the numbers they compute.
- Sampling.CountWith: models `int(duration / interval)` on exact reals, so a float rounding that moves a quotient across an integer is not captured.
- Words: words and float32 values are integer ranges (`0 .. 0xFFFF`, `0 .. 0xFFFFFFFF`), not bit-vectors. Packing is `lo + 0x10000 * hi`, which is the little-endian byte order of the source.
- `slicing_ramp` and `_extract_row_extremum` (`src/pyBEEP/datapipeline/signal_processing.py:209-315,519-597`): they are pandas label-window and `argmax` heuristics over float thresholds. `slicing_ramp` is an input of `DataProcessing.ProcessRawSpec` (`slicing`), and the row extraction is part of `detect`.
- `select_folder` and the time stamp of `default_filename`: both are inputs (`dialogFolder`, `stamp`).
- The GUI, plotting, the CLI, the scripts and the examples: left out because they are not part of the core.
- `apply_cp` and `apply_ca` of `src/controller.py:36-126`: they only build a default file path with `default_filepath` (from `src/utils.py`, which is not part of this model), start the two threads and optionally plot. The loops they start are modelled.
- Controller.PotentiostatController.ApplyMeasurement: `sampling_interval` is not modelled. `src/pyBEEP/controller.py:270` calls a four-argument `DataLogger`, but the `DataLogger` of `src/pyBEEP/logger.py` takes two arguments. The model feeds the two-argument logger.
- Controller.PotentiostatController.ApplyMeasurement: an exception of the producer thread does not reach the caller, and the file path is remembered anyway. The result reports that exception in `failure`.
- Registry.Coerce: pydantic coercion is modelled for numbers and lists of numbers only. A string parameter is rejected; pydantic would try to parse it.
- LegacyWaveformsPot.POINT_INTERVAL_POT and LegacyWaveformsPot.POINT_INTERVAL_GAL: the current `constants.py` no longer defines them. The model knows only that they are positive, so their lemmas hold for every positive period.
- LegacyController.PidLoop: the loop runs until the summed durations of its turns reach `time`. It is followed only as far as the clock script reaches, and a shorter script ends it with the `ClockExhausted` fault. That fault is a horizon of the model, not a behaviour of the source.
- Registry.UpperChar: a character outside ASCII is kept as it is, unless it is `ß`, `ı`, `ſ` or one of the ligatures U+FB00-FB06. Python maps such a character to its Unicode upper case (`é` becomes `É`). Both the kept character and its real upper case contain a character outside ASCII, so neither can spell a mode code. The lookup therefore agrees with `_get_mode` (see `Registry.GetModeNeedsAsciiUpper`), but `Registry.Upper` is not `str.upper` on those characters.
- ExtremumIndicesSafe: stated for the intended merge only. With the merge as `_merge_neighbor_idx` is written, the index stage of `peak_detection` (`src/pyBEEP/datapipeline/signal_processing.py:166,189`) merges two peak indices one apart without an error but leaves the merged index without a dictionary entry (`SignalProcessing.MergeAsWrittenLosesEntry`); the `KeyError` then comes from `dict1[str(i)]` in `_extract_row_extremum` (line 558), which is left out above. The index stage itself raises `KeyError` only when a merged index is merged again, as for three peaks one apart (`SignalProcessing.ExtremumIndicesAsWrittenRaises`). The second finding below covers this.
- SignalProcessing.IndexDict: the dictionaries keyed by `str(index)` are keyed by the index itself, which is equivalent because `str` is injective on integers. The dictionaries are values, so a call that passes one dict as both `dict1` and `dict2` (aliasing) is not modelled; `peak_detection` always passes two distinct dicts (`src/pyBEEP/datapipeline/signal_processing.py:157-167`).
- `df.dropna`, NaN values and the `fillna(0).ne(0)` zero extraction: left out, because they are float concerns. The zeros, the crossings and the sign means enter `FindIn` as inputs, with NaN as `None`.
- Controller.PotentiostatController.ReadWriteOcp: `tia_gain` is optional in the procedures, but `apply_measurement` always passes an integer, so the plan's procedures always set the gain.

## Findings

| source | as written | input that shows it | evidently intended | confidence | as-written member | corrected member |
|---|---|---|---|---|---|---|
| src/controller.py:296-335 | the reducing loop `for i in range(pkg_num)` reuses `i`, the write index of the potentiostatic loop, so an averaged read leaves `pkg_num - 1` in it | the first chunk is accepted, then a read of eight words (two rows) is averaged with reducing factor 2: the index goes from 120 back to 0 and the stimulus is sent again from its start | the write index moves only with the writes | not executed; latent, since no caller passes a reducing factor to `_read_write_data_pid_inactive` | LegacyController.ShadowedIndexRestarts | LegacyController.PotLoopFacts |
| src/pyBEEP/datapipeline/signal_processing.py:357-369 | the merged entry is stored before both old keys are popped, so when the midpoint equals the left index (indices one apart) the fresh entry is popped again | `_merge_neighbor_idx([5, 6], 2, d1, d2)`, with distinct dicts `d1` and `d2` keyed `'5'` and `'6'` as `peak_detection` passes them, returns `[5]` and leaves no key `'5'`, so `_extract_row_extremum` raises `KeyError` at line 558; `_merge_neighbor_idx([5, 6, 7], 2, d1, d2)` with both dicts keyed `'5'`, `'6'`, `'7'` merges 5 and 6 into 5, loses key 5, then looks up key 5 to merge it with 7 and raises `KeyError` | pop both old keys, then store the merged entry: `[5, 6, 7]` merges to `[6]` | not executed | SignalProcessing.MergeAsWrittenRaises | SignalProcessing.MergeSafe |

