/** The legacy galvanostatic generators (`src/pyBEEP/waveforms_gal.py`):
    each returns a two-column table whose rows are `[current, duration]`,
    one row per current step the PID loop is driven with. */
module LegacyWaveformsGal {
  import opened Common
  import opened Sampling

  /** One row of the table: a current and how long it is held. */
  type Row = (real, real)

  /** `np.column_stack((currents, durations))`. */
  function ColumnStack(currents: seq<real>, durations: seq<real>): (rows: seq<Row>)
    requires |currents| == |durations|
    ensures |rows| == |currents|
  {
    seq(|currents|, i requires 0 <= i < |currents| => (currents[i], durations[i]))
  }

  /** The first column of a table. */
  function Currents(rows: seq<Row>): (c: seq<real>)
    ensures |c| == |rows|
  {
    seq(|rows|, i requires 0 <= i < |rows| => rows[i].0)
  }

  /** The second column of a table. */
  function Durations(rows: seq<Row>): (d: seq<real>)
    ensures |d| == |rows|
  {
    seq(|rows|, i requires 0 <= i < |rows| => rows[i].1)
  }

  /** Splitting a stacked table into its columns gives back the columns. */
  lemma ColumnStackColumns(currents: seq<real>, durations: seq<real>)
    requires |currents| == |durations|
    ensures Currents(ColumnStack(currents, durations)) == currents
    ensures Durations(ColumnStack(currents, durations)) == durations
  {
  }

  /** `single_point`: the one-row table `[[current, duration]]`. */
  function SinglePoint(current: real, duration: real): seq<Row>
  {
    [(current, duration)]
  }

  /** `current_steps`: one row per current, all with the same duration. */
  function CurrentSteps(currents: seq<real>, stepDuration: real): (rows: seq<Row>)
    ensures Currents(rows) == currents
    ensures Durations(rows) == Fill(|currents|, stepDuration)
  {
    ColumnStack(currents, Fill(|currents|, stepDuration))
  }

  /** A single point is the table of one current step. */
  lemma SinglePointIsOneStep(current: real, duration: real)
    ensures SinglePoint(current, duration) == CurrentSteps([current], duration)
  {
    assert Fill(1, duration) == [duration];
  }

  /** `linear_galvanostatic_sweep`: `num_steps` rows whose currents are the
      numpy linspace from `start` to `end`, all with the step duration; a
      negative step count fails. */
  function LinearSweep(start: real, end: real, numSteps: int, stepDuration: real): (r: Result<seq<Row>, WaveError>)
    ensures r.Ok? <==> numSteps >= 0
    ensures r.Err? ==> r.error == NegativeDimension
    ensures r.Ok? ==> |r.value| == numSteps
    ensures r.Ok? ==> Currents(r.value) == Linspace(start, end, numSteps).value
    ensures r.Ok? ==> Durations(r.value) == Fill(numSteps, stepDuration)
  {
    match Linspace(start, end, numSteps)
    case Err(e) => Err(e)
    case Ok(currents) =>
      match Full(numSteps, stepDuration)
      case Err(e) => Err(e)
      case Ok(durations) => Ok(ColumnStack(currents, durations))
  }

  /** A sweep with `start <= end` has its currents between the two, in order,
      from `start` to `end`. */
  lemma LinearSweepBounded(start: real, end: real, numSteps: int, stepDuration: real)
    requires numSteps >= 0 && start <= end
    ensures var c := Currents(LinearSweep(start, end, numSteps, stepDuration).value);
      (forall i, j | 0 <= i <= j < numSteps :: start <= c[i] <= c[j] <= end) &&
      (numSteps >= 1 ==> c[0] == start) && (numSteps >= 2 ==> c[numSteps - 1] == end)
  {
    LinspaceOrdered(start, end, numSteps);
  }

  /** The table of a cyclic galvanostatic run in closed form: `cycles`
      copies of the sweep start -> vertex followed by the sweep vertex -> end.
      With no cycle the list of segments is empty and stacking it fails
      whatever the other arguments; otherwise a negative step count fails
      in the first sweep. */
  function CyclicSpec(start: real, vertex: real, end: real, numSteps: int, stepDuration: real,
                      cycles: int): (r: Result<seq<Row>, WaveError>)
    ensures r.Ok? <==> cycles > 0 && numSteps >= 0
    ensures cycles <= 0 ==> r == Err(EmptyConcatenation)
    ensures cycles > 0 && numSteps < 0 ==> r == Err(NegativeDimension)
  {
    var up := LinearSweep(start, vertex, numSteps, stepDuration);
    var down := LinearSweep(vertex, end, numSteps, stepDuration);
    if cycles <= 0 then Err(EmptyConcatenation)
    else if up.Err? then Err(up.error)
    else Ok(Copies(up.value + down.value, cycles))
  }

  /** `cyclic_galvanostatic`: per cycle it appends the sweep to the vertex
      and the sweep to the end to a list of tables, then stacks the list. */
  method CyclicGalvanostatic(start: real, vertex: real, end: real, numSteps: int, stepDuration: real,
                             cycles: int) returns (r: Result<seq<Row>, WaveError>)
    ensures r == CyclicSpec(start, vertex, end, numSteps, stepDuration, cycles)
  {
    var segments: seq<seq<Row>> := [];
    ghost var pair: seq<Row> := [];
    var i := 0;
    while i < cycles
      invariant 0 <= i && (cycles >= 0 ==> i <= cycles) && (cycles < 0 ==> i == 0)
      invariant segments == [] <==> i == 0
      invariant i > 0 ==> (numSteps >= 0 &&
        pair == LinearSweep(start, vertex, numSteps, stepDuration).value + LinearSweep(vertex, end, numSteps, stepDuration).value)
      invariant Flatten(segments) == Copies(pair, i)
      decreases cycles - i
    {
      var up := LinearSweep(start, vertex, numSteps, stepDuration);
      if up.Err? {
        return Err(up.error);
      }
      // the sweep back has the same step count, so it cannot fail here
      var down := LinearSweep(vertex, end, numSteps, stepDuration);
      pair := up.value + down.value;
      FlattenPush(segments, up.value);
      FlattenPush(segments + [up.value], down.value);
      AppendAssoc(Copies(pair, i), up.value, down.value);
      segments := segments + [up.value] + [down.value];
      i := i + 1;
    }
    if segments == [] {
      return Err(EmptyConcatenation);
    }
    r := Ok(Flatten(segments));
  }

  /** The table has `cycles * 2 * num_steps` rows, as the generator
      documents, and every row holds its current for the step duration. */
  lemma CyclicShape(start: real, vertex: real, end: real, numSteps: int, stepDuration: real, cycles: int)
    requires cycles > 0 && numSteps >= 0
    ensures var rows := CyclicSpec(start, vertex, end, numSteps, stepDuration, cycles).value;
      |rows| == cycles * 2 * numSteps &&
      forall i | 0 <= i < |rows| :: rows[i].1 == stepDuration
  {
    var up := LinearSweep(start, vertex, numSteps, stepDuration).value;
    var down := LinearSweep(vertex, end, numSteps, stepDuration).value;
    var rows: seq<Row> := Copies(up + down, cycles);
    CopiesLength(up + down, cycles);
    MulAssociates(cycles, 2, numSteps);
    CopiesElements(up + down, cycles);
    forall i | 0 <= i < |rows| ensures rows[i].1 == stepDuration {
      var j :| 0 <= j < |up + down| && (up + down)[j] == rows[i];
      if j < |up| {
        assert Durations(up)[j] == stepDuration;
      } else {
        assert Durations(down)[j - |up|] == stepDuration;
      }
    }
  }

  /** Row `i` of cycle `m` is row `i` of the sweep pair: each cycle runs from
      `start` to the vertex over `num_steps` rows and from the vertex to
      `end` over the next `num_steps`. */
  lemma CyclicRowAt(start: real, vertex: real, end: real, numSteps: int, stepDuration: real,
                    cycles: int, m: int, i: int)
    requires numSteps >= 0 && 0 <= m < cycles && 0 <= i < 2 * numSteps
    ensures var rows := CyclicSpec(start, vertex, end, numSteps, stepDuration, cycles).value;
      var up := LinearSweep(start, vertex, numSteps, stepDuration).value;
      var down := LinearSweep(vertex, end, numSteps, stepDuration).value;
      0 <= m * (2 * numSteps) + i < |rows| && rows[m * (2 * numSteps) + i] == (up + down)[i]
  {
    var up := LinearSweep(start, vertex, numSteps, stepDuration).value;
    var down := LinearSweep(vertex, end, numSteps, stepDuration).value;
    CopiesAt(up + down, cycles, m, i);
  }
}
