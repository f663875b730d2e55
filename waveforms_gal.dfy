/** Galvanostatic waveform generators: the current the PID loop is to drive
    through the cell, described both sample by sample and as a list of
    current steps with their durations and lengths in samples. */
module WaveformsGal {
  import opened Common
  import opened Sampling
  import opened WaveformOutputs

  /** `single_point`: one constant-current step of `Count(duration)` samples. */
  function SinglePoint(current: real, duration: real): (r: Result<Waveform, WaveError>)
    ensures r.Ok? <==> Count(duration) >= 0
    ensures r.Err? ==> r.error == NegativeDimension
    ensures r.Ok? ==> r.value.Galvano? && WellFormed(r.value, POINT_INTERVAL)
    ensures r.Ok? ==> (|r.value.time| == Count(duration) &&
      (forall i | 0 <= i < |r.value.time| :: r.value.appliedCurrent[i] == current) &&
      r.value.currentSteps == [current] && r.value.durationSteps == [duration] &&
      r.value.lengthSteps == [Count(duration)])
  {
    var n := Count(duration);
    if n < 0 then Err(NegativeDimension)
    else
      var n: nat := n;
      assert Expand([current], [n]) == Fill(n, current) + [];
      Ok(Galvano(TimeAxis(n, POINT_INTERVAL), Fill(n, current), [current], [duration], [n]))
  }

  /** `current_steps`: each current held for `Count(stepDuration)` samples. */
  function CurrentSteps(currents: seq<real>, stepDuration: real): (r: Result<Waveform, WaveError>)
    ensures r.Ok? <==> Count(stepDuration) >= 0
    ensures r.Err? ==> r.error == NegativeDimension
    ensures r.Ok? ==> r.value.Galvano? && WellFormed(r.value, POINT_INTERVAL)
    ensures r.Ok? ==> (r.value.currentSteps == currents &&
      r.value.durationSteps == Fill(|currents|, stepDuration) &&
      r.value.lengthSteps == Fill<nat>(|currents|, Count(stepDuration)))
  {
    var k := Count(stepDuration);
    if k < 0 then Err(NegativeDimension)
    else
      var k: nat := k;
      var applied := Repeat(currents, k);
      RepeatIsExpand(currents, k);
      Ok(Galvano(TimeAxis(|applied|, POINT_INTERVAL), applied, currents,
                 Fill(|currents|, stepDuration), Fill(|currents|, k)))
  }

  /** Sample `r` of step `i` carries the current of step `i`. */
  lemma CurrentStepsAt(currents: seq<real>, stepDuration: real, i: int, r: int)
    requires CurrentSteps(currents, stepDuration).Ok?
    requires 0 <= i < |currents| && 0 <= r < Count(stepDuration)
    ensures var w := CurrentSteps(currents, stepDuration).value;
      i * Count(stepDuration) + r < |w.time| &&
      w.appliedCurrent[i * Count(stepDuration) + r] == currents[i]
  {
    RepeatAt(currents, Count(stepDuration), i, r);
  }

  /** A single point is a list of one current step. */
  lemma SinglePointIsOneStep(current: real, duration: real)
    ensures SinglePoint(current, duration) == CurrentSteps([current], duration)
  {
    var n := Count(duration);
    if n >= 0 {
      var n: nat := n;
      assert Repeat([current], n) == Fill(n, current) + Repeat([current][1..], n);
      assert Repeat([current], n) == Fill(n, current);
      assert Fill(1, duration) == [duration] && Fill(1, n) == [n];
    }
  }

  /** `linear_galvanostatic_sweep`: `numSteps` evenly spaced currents from
      `start` to `end`, each held for `Count(stepDuration)` samples. */
  function LinearGalvanostaticSweep(start: real, end: real, numSteps: int, stepDuration: real): (r: Result<Waveform, WaveError>)
    ensures r.Ok? <==> numSteps >= 0 && Count(stepDuration) >= 0
    ensures r.Err? ==> r.error == NegativeDimension
    ensures r.Ok? ==> (r.value.Galvano? && WellFormed(r.value, POINT_INTERVAL) &&
      r.value.currentSteps == Linspace(start, end, numSteps).value)
  {
    match Linspace(start, end, numSteps)
    case Err(e) => Err(e)
    case Ok(currents) =>
      var k := Count(stepDuration);
      if k < 0 then Err(NegativeDimension)
      else
        var k: nat := k;
        var applied := Repeat(currents, k);
        RepeatIsExpand(currents, k);
        Ok(Galvano(TimeAxis(|applied|, POINT_INTERVAL), applied, currents,
                   Fill(numSteps, stepDuration), Fill(numSteps, k)))
  }

  /** A linear sweep is the list of steps `np.linspace` produces. */
  lemma LinearSweepIsSteps(start: real, end: real, numSteps: int, stepDuration: real)
    requires numSteps >= 0
    ensures LinearGalvanostaticSweep(start, end, numSteps, stepDuration)
         == CurrentSteps(Linspace(start, end, numSteps).value, stepDuration)
  {
  }

  /** An increasing sweep applies only currents between `start` and `end`,
      in order of the steps. */
  lemma LinearSweepBounded(start: real, end: real, numSteps: int, stepDuration: real)
    requires LinearGalvanostaticSweep(start, end, numSteps, stepDuration).Ok?
    requires start <= end
    ensures var w := LinearGalvanostaticSweep(start, end, numSteps, stepDuration).value;
      (forall i | 0 <= i < |w.appliedCurrent| :: start <= w.appliedCurrent[i] <= end) &&
      (forall i, j | 0 <= i <= j < |w.currentSteps| :: w.currentSteps[i] <= w.currentSteps[j])
  {
    var currents := Linspace(start, end, numSteps).value;
    LinspaceOrdered(start, end, numSteps);
    RepeatElements(currents, Count(stepDuration));
  }

  /** The step currents one leg contributes: `np.linspace(a, b, numSteps)`,
      empty for a count that makes `np.linspace` fail. */
  function LegSteps(a: real, b: real, numSteps: int): seq<real>
  {
    if numSteps < 0 then [] else Linspace(a, b, numSteps).value
  }

  /** The end points of the three legs of one cycle:
      start -> vertex1 -> vertex2 -> start. */
  function CycleEnds(start: real, vertex1: real, vertex2: real): (ends: seq<(real, real)>)
    ensures |ends| == 3
  {
    [(start, vertex1), (vertex1, vertex2), (vertex2, start)]
  }

  /** The step currents of each leg of one cycle. */
  function CycleLegs(start: real, vertex1: real, vertex2: real, numSteps: int): (legs: seq<seq<real>>)
    ensures |legs| == 3
  {
    var ends := CycleEnds(start, vertex1, vertex2);
    seq(3, j requires 0 <= j < 3 => LegSteps(ends[j].0, ends[j].1, numSteps))
  }

  function CycleSteps(start: real, vertex1: real, vertex2: real, numSteps: int): seq<real>
  {
    Flatten(CycleLegs(start, vertex1, vertex2, numSteps))
  }

  /** Whether `cyclic_galvanostatic` appends the final sweep start -> end. */
  predicate HasFinalLeg(start: real, end: Option<real>)
  {
    end.Some? && end.value != start
  }

  /** The waveform `cyclic_galvanostatic` returns, in closed form: `cycles`
      copies of the cycle's step currents, then the optional final sweep;
      every step held `Count(stepDuration)` samples; cycle `m` labelled `m`
      and the final sweep `cycles + 1`.  With no leg at all the
      concatenation fails; otherwise a negative step count or step length
      fails. */
  function CyclicGalvanostaticSpec(start: real, vertex1: real, vertex2: real, numSteps: int,
                                   stepDuration: real, cycles: int, end: Option<real>): (r: Result<Waveform, WaveError>)
    ensures r.Ok? ==> r.value.CyclicGalvano? && WellFormed(r.value, POINT_INTERVAL)
    ensures r.Err? <==> (cycles < 1 && !HasFinalLeg(start, end)) || numSteps < 0 || Count(stepDuration) < 0
    ensures cycles < 1 && !HasFinalLeg(start, end) ==> r == Err(EmptyConcatenation)
    ensures r.Err? && (cycles >= 1 || HasFinalLeg(start, end)) ==> r.error == NegativeDimension
  {
    var k := Count(stepDuration);
    if cycles < 1 && !HasFinalLeg(start, end) then Err(EmptyConcatenation)
    else if numSteps < 0 || k < 0 then Err(NegativeDimension)
    else
      var closing := if HasFinalLeg(start, end) then LegSteps(start, end.value, numSteps) else [];
      Ok(CyclicAssemble(CycleSteps(start, vertex1, vertex2, numSteps), closing, cycles, k, stepDuration))
  }

  /** Labels of the samples: a block of `block` samples for each cycle
      `1..cycles`, then `tailLen` samples of the final leg, labelled
      `cycles + 1`. */
  function CgLabels(cycles: int, block: nat, tailLen: nat): seq<int>
  {
    LabelBlocks(1, cycles, block) + Fill(tailLen, cycles + 1)
  }

  /** A cyclic galvanostatic output from the step currents of one cycle and
      of the final leg: `cycles` copies of the cycle then the final leg,
      every step `k` samples long, cycle `m` labelled `m` and the final leg
      `cycles + 1`. */
  function CyclicAssemble(cyc: seq<real>, closing: seq<real>, cycles: int, k: nat, stepDuration: real): (w: Waveform)
    ensures w.CyclicGalvano? && WellFormed(w, POINT_INTERVAL)
  {
    var steps := Copies(cyc, cycles) + closing;
    var applied := Repeat(steps, k);
    var labels := CgLabels(cycles, |Repeat(cyc, k)|, |Repeat(closing, k)|);
    LabelBlocksLength(Repeat(cyc, k), 1, cycles);
    RepeatCopies(cyc, cycles, k);
    RepeatAppend(Copies(cyc, cycles), closing, k);
    RepeatIsExpand(steps, k);
    CyclicGalvano(TimeAxis(|applied|, POINT_INTERVAL), applied, steps,
                  Fill(|steps|, stepDuration), Fill(|steps|, k), labels)
  }

  lemma FlattenPrefixStep<T>(ss: seq<seq<T>>, j: nat)
    requires j < |ss|
    ensures Flatten(ss[..j + 1]) == Flatten(ss[..j]) + ss[j]
  {
    assert ss[..j + 1] == ss[..j] + [ss[j]];
    FlattenPush(ss[..j], ss[j]);
  }

  /** The five lists `cyclic_galvanostatic` collects: the step currents,
      durations and lengths, and the per-leg sample and label segments. */
  datatype Lists = Lists(currentSteps: seq<real>, durationSteps: seq<real>, lengthSteps: seq<nat>,
                         segments: seq<seq<real>>, cycleSegments: seq<seq<int>>)

  /** The lists after one leg with step currents `leg`, each held `k`
      samples and labelled `tag`, is appended. */
  function Push(lists: Lists, leg: seq<real>, k: nat, stepDuration: real, tag: int): Lists
  {
    Lists(lists.currentSteps + leg, lists.durationSteps + Fill(|leg|, stepDuration),
          lists.lengthSteps + Fill(|leg|, k), lists.segments + [Repeat(leg, k)],
          lists.cycleSegments + [Fill(|Repeat(leg, k)|, tag)])
  }

  /** What the lists describe: their step currents are `steps`, the sample
      segments concatenate to the steps' samples, every step has the
      duration `stepDuration` and `k` samples, and the label segments
      concatenate to `labels`. */
  ghost predicate Collected(lists: Lists, steps: seq<real>, k: nat, stepDuration: real, labels: seq<int>)
  {
    lists.currentSteps == steps &&
    Flatten(lists.segments) == Repeat(steps, k) &&
    lists.durationSteps == Fill(|steps|, stepDuration) &&
    lists.lengthSteps == Fill(|steps|, k) &&
    Flatten(lists.cycleSegments) == labels
  }

  /** Appending a leg extends what the lists describe: its currents extend
      the steps, and its labels the running block `tag` that `partial`
      began. */
  lemma CollectLeg(lists: Lists, steps: seq<real>, k: nat, stepDuration: real,
                   head: seq<int>, partial: seq<real>, leg: seq<real>, tag: int)
    requires Collected(lists, steps, k, stepDuration, head + Fill(|Repeat(partial, k)|, tag))
    ensures Collected(Push(lists, leg, k, stepDuration, tag), steps + leg, k, stepDuration,
                      head + Fill(|Repeat(partial + leg, k)|, tag))
  {
    FlattenPush(lists.segments, Repeat(leg, k));
    RepeatAppend(steps, leg, k);
    RepeatAppend(partial, leg, k);
    FillAppend(|Repeat(partial, k)|, |Repeat(leg, k)|, tag);
    FlattenPush(lists.cycleSegments, Fill(|Repeat(leg, k)|, tag));
    FillAppend(|steps|, |leg|, stepDuration);
    FillAppend(|steps|, |leg|, k);
  }

  /** Lists that describe all cycles and the final leg concatenate to the
      closed-form output. */
  lemma CollectedIsAssembled(lists: Lists, cyc: seq<real>, closing: seq<real>, cycles: int, k: nat, stepDuration: real)
    requires Collected(lists, Copies(cyc, cycles) + closing, k, stepDuration,
                       LabelBlocks(1, cycles, |Repeat(cyc, k)|) + Fill(|Repeat(closing, k)|, cycles + 1))
    ensures CyclicGalvano(TimeAxis(|Flatten(lists.segments)|, POINT_INTERVAL), Flatten(lists.segments),
                          lists.currentSteps, lists.durationSteps, lists.lengthSteps, Flatten(lists.cycleSegments))
         == CyclicAssemble(cyc, closing, cycles, k, stepDuration)
  {
  }

  /** One leg of `cyclic_galvanostatic`: `np.linspace(a, b, numSteps)`
      repeated `k` times, with its steps, durations, lengths and labels
      appended to the lists; `np.linspace` fails first on a negative count,
      then `np.repeat` on a negative `k`. */
  method AppendLeg(lists: Lists, a: real, b: real, numSteps: int, k: int, stepDuration: real, tag: int)
    returns (r: Result<Lists, WaveError>)
    ensures numSteps >= 0 && k >= 0 ==> r == Ok(Push(lists, LegSteps(a, b, numSteps), k, stepDuration, tag))
    ensures numSteps < 0 || k < 0 ==> r == Err(NegativeDimension)
  {
    var stepCurrents := Linspace(a, b, numSteps);
    if stepCurrents.Err? {
      return Err(stepCurrents.error);
    }
    var segment := RepeatOrFail(stepCurrents.value, k);
    if segment.Err? {
      return Err(segment.error);
    }
    var n: nat := numSteps;
    var kn: nat := k;
    r := Ok(Lists(lists.currentSteps + stepCurrents.value,
                  lists.durationSteps + Fill(n, stepDuration),
                  lists.lengthSteps + Fill(n, kn),
                  lists.segments + [segment.value],
                  lists.cycleSegments + [Fill(|segment.value|, tag)]));
  }

  function NonNeg(k: int): nat
  {
    if k >= 0 then k else 0
  }

  /** The loops of `cyclic_galvanostatic` over cycles `1..cycles` and, in
      each, over its three legs, appending each leg to the lists. */
  method CollectCycles(start: real, vertex1: real, vertex2: real, numSteps: int, k: int,
                       stepDuration: real, cycles: int) returns (r: Result<Lists, WaveError>)
    ensures r.Err? <==> cycles >= 1 && (numSteps < 0 || k < 0)
    ensures r.Err? ==> r.error == NegativeDimension
    ensures r.Ok? ==> (r.value.segments == [] <==> cycles < 1)
    ensures r.Ok? ==>
      var cyc := CycleSteps(start, vertex1, vertex2, numSteps);
      Collected(r.value, Copies(cyc, cycles), NonNeg(k), stepDuration, LabelBlocks(1, cycles, |Repeat(cyc, NonNeg(k))|))
  {
    var lists := Lists([], [], [], [], []);
    ghost var kk := NonNeg(k);
    ghost var legSteps := CycleLegs(start, vertex1, vertex2, numSteps);
    ghost var cyc := CycleSteps(start, vertex1, vertex2, numSteps);
    ghost var block := |Repeat(cyc, kk)|;
    var legs := CycleEnds(start, vertex1, vertex2);
    var cycleNum := 1;
    while cycleNum <= cycles
      invariant 1 <= cycleNum && (cycles >= 1 ==> cycleNum <= cycles + 1) && (cycles < 1 ==> cycleNum == 1)
      invariant cycleNum > 1 ==> numSteps >= 0 && k >= 0 && lists.segments != []
      invariant cycleNum == 1 ==> lists.segments == []
      invariant Collected(lists, Copies(cyc, cycleNum - 1), kk, stepDuration, LabelBlocks(1, cycleNum - 1, block))
      decreases cycles - cycleNum
    {
      ghost var done, head := Copies(cyc, cycleNum - 1), LabelBlocks(1, cycleNum - 1, block);
      ghost var partial: seq<real> := [];
      assert done + partial == done && head + Fill(|Repeat(partial, kk)|, cycleNum) == head;
      var j := 0;
      while j < 3
        invariant 0 <= j <= 3
        invariant cycleNum > 1 || j > 0 ==> numSteps >= 0 && k >= 0 && lists.segments != []
        invariant partial == Flatten(legSteps[..j])
        invariant Collected(lists, done + partial, kk, stepDuration, head + Fill(|Repeat(partial, kk)|, cycleNum))
      {
        var (a, b) := legs[j];
        var next := AppendLeg(lists, a, b, numSteps, k, stepDuration, cycleNum);
        if next.Err? {
          return Err(next.error);
        }
        CollectLeg(lists, done + partial, kk, stepDuration, head, partial, legSteps[j], cycleNum);
        AppendAssoc(done, partial, legSteps[j]);
        FlattenPrefixStep(legSteps, j);
        lists := next.value;
        partial := partial + legSteps[j];
        j := j + 1;
      }
      assert legSteps[..3] == legSteps;
      cycleNum := cycleNum + 1;
    }
    assert Copies(cyc, cycleNum - 1) == Copies(cyc, cycles);
    assert LabelBlocks(1, cycleNum - 1, block) == LabelBlocks(1, cycles, block);
    r := Ok(lists);
  }

  /** `cyclic_galvanostatic`: the cycles, then the optional final leg; the
      segments are concatenated at the end, which fails when there are
      none. */
  method CyclicGalvanostatic(start: real, vertex1: real, vertex2: real, numSteps: int,
                             stepDuration: real, cycles: int, end: Option<real>) returns (r: Result<Waveform, WaveError>)
    ensures r == CyclicGalvanostaticSpec(start, vertex1, vertex2, numSteps, stepDuration, cycles, end)
  {
    var k := Count(stepDuration);
    var collected := CollectCycles(start, vertex1, vertex2, numSteps, k, stepDuration, cycles);
    if collected.Err? {
      return Err(collected.error);
    }
    var lists := collected.value;
    ghost var kk := NonNeg(k);
    ghost var cyc := CycleSteps(start, vertex1, vertex2, numSteps);
    ghost var labels := LabelBlocks(1, cycles, |Repeat(cyc, kk)|);
    ghost var closing: seq<real> := [];
    assert Copies(cyc, cycles) + closing == Copies(cyc, cycles);
    assert labels + Fill(|Repeat(closing, kk)|, cycles + 1) == labels;
    if end.Some? && end.value != start {
      var next := AppendLeg(lists, start, end.value, numSteps, k, stepDuration, cycles + 1);
      if next.Err? {
        return Err(next.error);
      }
      closing := LegSteps(start, end.value, numSteps);
      CollectLeg(lists, Copies(cyc, cycles), kk, stepDuration, labels, [], closing, cycles + 1);
      assert [] + closing == closing;
      lists := next.value;
    }
    if lists.segments == [] {
      assert cycles < 1 && !HasFinalLeg(start, end);
      return Err(EmptyConcatenation);
    }
    assert numSteps >= 0 && k >= 0 && (cycles >= 1 || HasFinalLeg(start, end));
    assert closing == if HasFinalLeg(start, end) then LegSteps(start, end.value, numSteps) else [];
    CollectedIsAssembled(lists, cyc, closing, cycles, kk, stepDuration);
    var applied := Flatten(lists.segments);
    var cycle := Flatten(lists.cycleSegments);
    r := Ok(CyclicGalvano(TimeAxis(|applied|, POINT_INTERVAL), applied, lists.currentSteps,
                          lists.durationSteps, lists.lengthSteps, cycle));
  }

  /** A cycle's step currents are its three legs back to back. */
  lemma CycleStepsShape(start: real, vertex1: real, vertex2: real, numSteps: int)
    requires numSteps >= 0
    ensures var cyc := CycleSteps(start, vertex1, vertex2, numSteps);
      cyc == Linspace(start, vertex1, numSteps).value + Linspace(vertex1, vertex2, numSteps).value
             + Linspace(vertex2, start, numSteps).value &&
      |cyc| == 3 * numSteps
  {
    var legs := CycleLegs(start, vertex1, vertex2, numSteps);
    assert Flatten(legs[3..]) == [];
    assert Flatten(legs[2..]) == legs[2] + Flatten(legs[3..]);
    assert Flatten(legs[1..]) == legs[1] + Flatten(legs[2..]);
    assert Flatten(legs) == legs[0] + Flatten(legs[1..]);
  }

  /** Every cycle runs start -> vertex1 -> vertex2 and back to start. */
  lemma CycleTurningPoints(start: real, vertex1: real, vertex2: real, numSteps: int)
    requires numSteps >= 2
    ensures var cyc := CycleSteps(start, vertex1, vertex2, numSteps);
      |cyc| == 3 * numSteps &&
      cyc[0] == start && cyc[numSteps - 1] == vertex1 && cyc[numSteps] == vertex1 &&
      cyc[2 * numSteps - 1] == vertex2 && cyc[2 * numSteps] == vertex2 && cyc[3 * numSteps - 1] == start
  {
    CycleStepsShape(start, vertex1, vertex2, numSteps);
  }

  /** The number of current steps: three legs per cycle plus the final leg.
      Every step contributes `Count(stepDuration)` samples. */
  lemma CgStepCount(start: real, vertex1: real, vertex2: real, numSteps: int,
                    stepDuration: real, cycles: int, end: Option<real>)
    requires CyclicGalvanostaticSpec(start, vertex1, vertex2, numSteps, stepDuration, cycles, end).Ok?
    ensures var w := CyclicGalvanostaticSpec(start, vertex1, vertex2, numSteps, stepDuration, cycles, end).value;
      |w.currentSteps| == (if cycles >= 1 then cycles * (3 * numSteps) else 0)
                          + (if HasFinalLeg(start, end) then numSteps else 0) &&
      |w.time| == |w.currentSteps| * Count(stepDuration)
  {
    CycleStepsShape(start, vertex1, vertex2, numSteps);
    CopiesLength(CycleSteps(start, vertex1, vertex2, numSteps), cycles);
  }

  /** Step `i` of cycle `m` (counting from 0) is step `i` of the cycle. */
  lemma CgCycleStepAt(start: real, vertex1: real, vertex2: real, numSteps: int,
                      stepDuration: real, cycles: int, end: Option<real>, m: int, i: int)
    requires CyclicGalvanostaticSpec(start, vertex1, vertex2, numSteps, stepDuration, cycles, end).Ok?
    requires 0 <= m < cycles && 0 <= i < 3 * numSteps
    ensures var w := CyclicGalvanostaticSpec(start, vertex1, vertex2, numSteps, stepDuration, cycles, end).value;
      |CycleSteps(start, vertex1, vertex2, numSteps)| == 3 * numSteps &&
      0 <= m * (3 * numSteps) + i < |w.currentSteps| &&
      w.currentSteps[m * (3 * numSteps) + i] == CycleSteps(start, vertex1, vertex2, numSteps)[i]
  {
    var cyc := CycleSteps(start, vertex1, vertex2, numSteps);
    CycleStepsShape(start, vertex1, vertex2, numSteps);
    CopiesAt(cyc, cycles, m, i);
  }

  lemma CgLabelsBounds(cycles: int, block: nat, tailLen: nat)
    ensures var c := CgLabels(cycles, block, tailLen);
      NonDecreasing(c) && forall i | 0 <= i < |c| :: (if cycles >= 0 then 1 else cycles + 1) <= c[i] <= cycles + 1
  {
    LabelBlocksBounds(1, cycles, block);
    FillBounds(tailLen, cycles + 1);
    if cycles >= 0 {
      ConcatOrdered(LabelBlocks(1, cycles, block), Fill(tailLen, cycles + 1), 1, cycles + 1, cycles + 1);
    } else {
      assert LabelBlocks(1, cycles, block) == [];
      assert CgLabels(cycles, block, tailLen) == Fill(tailLen, cycles + 1);
    }
  }

  /** The cycle labels run in order, from 1 up to the final leg's label
      `cycles + 1`; with no cycle at all only the final leg is left, and
      its label `cycles + 1` is then below 1. */
  lemma CgLabelsOrdered(start: real, vertex1: real, vertex2: real, numSteps: int,
                        stepDuration: real, cycles: int, end: Option<real>)
    requires CyclicGalvanostaticSpec(start, vertex1, vertex2, numSteps, stepDuration, cycles, end).Ok?
    ensures var c := CyclicGalvanostaticSpec(start, vertex1, vertex2, numSteps, stepDuration, cycles, end).value.cycle;
      NonDecreasing(c) && forall i | 0 <= i < |c| :: (if cycles >= 0 then 1 else cycles + 1) <= c[i] <= cycles + 1
  {
    var k := Count(stepDuration);
    var cyc := CycleSteps(start, vertex1, vertex2, numSteps);
    var closing := if HasFinalLeg(start, end) then LegSteps(start, end.value, numSteps) else [];
    CgLabelsBounds(cycles, |Repeat(cyc, k)|, |Repeat(closing, k)|);
  }

  /** With the final leg, the output ends with the sweep start -> end,
      labelled `cycles + 1`. */
  lemma CgFinalLeg(start: real, vertex1: real, vertex2: real, numSteps: int,
                   stepDuration: real, cycles: int, end: Option<real>)
    requires CyclicGalvanostaticSpec(start, vertex1, vertex2, numSteps, stepDuration, cycles, end).Ok?
    requires HasFinalLeg(start, end)
    ensures var w := CyclicGalvanostaticSpec(start, vertex1, vertex2, numSteps, stepDuration, cycles, end).value;
      var closing := Linspace(start, end.value, numSteps).value;
      var tail := |Repeat(closing, Count(stepDuration))|;
      numSteps <= |w.currentSteps| && tail <= |w.cycle| &&
      w.currentSteps[|w.currentSteps| - numSteps..] == closing &&
      w.cycle[|w.cycle| - tail..] == Fill(tail, cycles + 1) &&
      w.appliedCurrent[|w.appliedCurrent| - tail..] == Repeat(closing, Count(stepDuration))
  {
    var k := Count(stepDuration);
    var cyc := CycleSteps(start, vertex1, vertex2, numSteps);
    var closing := Linspace(start, end.value, numSteps).value;
    RepeatAppend(Copies(cyc, cycles), closing, k);
    var w := CyclicGalvanostaticSpec(start, vertex1, vertex2, numSteps, stepDuration, cycles, end).value;
    assert w.currentSteps == Copies(cyc, cycles) + closing;
    assert w.appliedCurrent == Repeat(Copies(cyc, cycles), k) + Repeat(closing, k);
  }
}

