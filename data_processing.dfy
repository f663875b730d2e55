/** The ramp bookkeeping of the processing pipeline
    (`src/pyBEEP/datapipeline/data_processing.py`): the removal of the
    artefacts of a ramp, the cutting of a raw acquisition into labelled
    ramps, and the ramp-by-ramp peak detection.  A DataFrame is its set of
    column names and its rows in order; a row is its integer label and its
    Voltage and Current. */
module DataProcessing {
  import opened Common
  import opened SignalProcessing

  datatype Sample = Sample(index: int, voltage: real, current: real)

  datatype RawFrame = RawFrame(columns: set<string>, rows: seq<Sample>)

  /** A row of the processed frame: a sample and the number of its ramp. */
  datatype ProcRow = ProcRow(index: int, voltage: real, current: real, ramp: int)

  datatype ProcFrame = ProcFrame(columns: set<string>, rows: seq<ProcRow>)

  datatype ProcessError =
    | NotADataFrame            // TypeError: the frame argument
    | NotParameters            // TypeError: the parameters argument
    | MissingColumns           // ValueError: a required column is absent
    | IndexError               // an empty ramp, or a ramp without anomalies
    | SmoothingFailed          // savgol_filter raised
    | LengthMismatch           // a smoothed column of another length
    | Detection(e: CheckError) // peak_detection rejected its inputs
    | DetectionFailed          // peak_detection raised after its checks

  /** `a` occurs in `b` in order, possibly with gaps. */
  predicate Subsequence<T(==)>(a: seq<T>, b: seq<T>)
    decreases |b|
  {
    a == [] || (b != [] && if a[0] == b[0] then Subsequence(a[1..], b[1..]) else Subsequence(a, b[1..]))
  }

  lemma {:induction false} SubsequenceSkip<T>(a: seq<T>, b: seq<T>, x: T)
    requires Subsequence(a, b)
    ensures Subsequence(a, [x] + b)
    decreases |b|, 1
  {
    assert ([x] + b)[1..] == b;
    if a != [] && a[0] == x {
      SubsequenceDrop(a, b);
    }
  }

  lemma {:induction false} SubsequenceDrop<T>(a: seq<T>, b: seq<T>)
    requires a != [] && Subsequence(a, b)
    ensures Subsequence(a[1..], b)
    decreases |b|, 0
  {
    assert b == [b[0]] + b[1..];
    if a[0] == b[0] {
      SubsequenceSkip(a[1..], b[1..], b[0]);
    } else {
      SubsequenceDrop(a, b[1..]);
      SubsequenceSkip(a[1..], b[1..], b[0]);
    }
  }

  // ---------------------------------------------------------------------
  // _cleaning_raw
  // ---------------------------------------------------------------------

  /** The default `voltage_threshold` of `_cleaning_raw`. */
  const VOLTAGE_THRESHOLD: real := 0.04

  function Abs(x: real): real
  {
    if x < 0.0 then -x else x
  }

  /** `series_voltage_diff` at position `p`: NaN (`None`) at the first row. */
  function VoltageDiff(rows: seq<Sample>, p: nat): Option<real>
    requires p < |rows|
  {
    if p == 0 then None else Some(rows[p].voltage - rows[p - 1].voltage)
  }

  /** The labels of the first `k` rows whose voltage jumps by at least
      `threshold` from the row before (NaN never does). */
  function AnomaliesIn(rows: seq<Sample>, threshold: real, k: nat): seq<int>
    requires k <= |rows|
  {
    if k == 0 then []
    else
      var d := VoltageDiff(rows, k - 1);
      AnomaliesIn(rows, threshold, k - 1) + (if d.Some? && Abs(d.value) >= threshold then [rows[k - 1].index] else [])
  }

  /** `idx_anomalies` as first extracted (lines 219-221 of `data_processing.py`). */
  function Anomalies(rows: seq<Sample>, threshold: real): seq<int>
  {
    AnomaliesIn(rows, threshold, |rows|)
  }

  /** The first position carrying `lab`. */
  function FirstAt(rows: seq<Sample>, lab: int): (r: Option<nat>)
    ensures r.Some? ==> r.value < |rows| && rows[r.value].index == lab
    ensures r.None? <==> forall p | 0 <= p < |rows| :: rows[p].index != lab
  {
    if rows == [] then None
    else if rows[0].index == lab then Some(0)
    else match FirstAt(rows[1..], lab)
      case None => None
      case Some(p) => Some(p + 1)
  }

  /** `series_voltage_diff[series_voltage_diff.index == lab].iloc[0]`. */
  function DiffAtLabel(rows: seq<Sample>, lab: int): Result<Option<real>, ProcessError>
  {
    match FirstAt(rows, lab)
    case None => Err(IndexError)
    case Some(p) => Ok(VoltageDiff(rows, p))
  }

  predicate Negative(d: Option<real>) { d.Some? && d.value < 0.0 }
  predicate Positive(d: Option<real>) { d.Some? && d.value > 0.0 }

  /** Lines 223-253: an anomaly pattern cut off by either end of the ramp
      is completed with the first or the last label.  A ramp is decreasing
      when its first voltage exceeds its last; there the pattern is cut off
      at the start when the first jump goes down, and at the end when the
      last jump goes up; an increasing ramp is the mirror image. */
  function Completed(rows: seq<Sample>, anomalies: seq<int>): (r: Result<seq<int>, ProcessError>)
    ensures rows == [] || anomalies == [] ==> r == Err(IndexError)
    ensures r.Ok? ==> exists pre, post ::
      |pre| <= 1 && |post| <= 1 && r.value == pre + anomalies + post &&
      (pre != [] ==> pre[0] == rows[0].index) && (post != [] ==> post[0] == rows[|rows| - 1].index)
  {
    if rows == [] || anomalies == [] then Err(IndexError)
    else
      var decreasing := rows[0].voltage - rows[|rows| - 1].voltage > 0.0;
      match DiffAtLabel(rows, anomalies[0])
      case Err(e) => Err(e)
      case Ok(d0) =>
        var pre := if (decreasing && Negative(d0)) || (!decreasing && Positive(d0)) then [rows[0].index] else [];
        var a1 := pre + anomalies;
        match DiffAtLabel(rows, a1[|a1| - 1])
        case Err(e) => Err(e)
        case Ok(dl) =>
          var post := if (decreasing && Positive(dl)) || (!decreasing && Negative(dl)) then [rows[|rows| - 1].index] else [];
          assert a1 + post == pre + anomalies + post;
          Ok(a1 + post)
  }

  /** Lines 257-258: an odd count loses its last label. */
  function Paired(anomalies: seq<int>): (r: seq<int>)
    ensures |anomalies| - 1 <= |r| <= |anomalies| && |r| % 2 == 0 && r == anomalies[..|r|]
  {
    if |anomalies| % 2 != 0 then anomalies[..|anomalies| - 1] else anomalies
  }

  /** The last label a pair `(a, b)` removes: `b + (b - a) // 2` (Python's
      `//` by 2 is Dafny's `/` by 2). */
  function Reach(a: int, b: int): int
  {
    b + (b - a) / 2
  }

  /** The label lies in the window of pair `i`. */
  predicate InPair(x: int, pairs: seq<int>, i: int)
    requires 0 <= i && 2 * i + 1 < |pairs|
  {
    pairs[2 * i] <= x <= Reach(pairs[2 * i], pairs[2 * i + 1])
  }

  /** The label lies in the window of one of the first `n` pairs. */
  predicate Removed(x: int, pairs: seq<int>, n: nat)
    requires 2 * n <= |pairs|
  {
    exists i :: 0 <= i < n && InPair(x, pairs, i)
  }

  /** `df_raw.drop(idx_remove, inplace=True)` for the rows labelled from
      `lo` to `hi`. */
  function DropWindow(rows: seq<Sample>, lo: int, hi: int): seq<Sample>
  {
    if rows == [] then []
    else
      var rest := DropWindow(rows[1..], lo, hi);
      if lo <= rows[0].index <= hi then rest else [rows[0]] + rest
  }

  /** A drop keeps exactly the rows outside its window. */
  lemma {:induction false} DropWindowMembers(rows: seq<Sample>, lo: int, hi: int)
    ensures forall s :: s in DropWindow(rows, lo, hi) <==> s in rows && !(lo <= s.index <= hi)
  {
    if rows != [] {
      DropWindowMembers(rows[1..], lo, hi);
      assert rows == [rows[0]] + rows[1..];
    }
  }

  /** The rows a drop keeps stay in their order. */
  lemma {:induction false} DropWindowOrder(rows: seq<Sample>, lo: int, hi: int)
    ensures Subsequence(DropWindow(rows, lo, hi), rows)
  {
    if rows != [] {
      var rest := DropWindow(rows[1..], lo, hi);
      DropWindowOrder(rows[1..], lo, hi);
      assert rows == [rows[0]] + rows[1..];
      if lo <= rows[0].index <= hi {
        SubsequenceSkip(rest, rows[1..], rows[0]);
      } else {
        assert ([rows[0]] + rest)[1..] == rest;
      }
    }
  }

  /** The rows after the drops of the first `n` pairs, one after another. */
  function DropPairs(rows: seq<Sample>, pairs: seq<int>, n: nat): seq<Sample>
    requires 2 * n <= |pairs|
  {
    if n == 0 then rows
    else DropWindow(DropPairs(rows, pairs, n - 1), pairs[2 * (n - 1)], Reach(pairs[2 * (n - 1)], pairs[2 * (n - 1) + 1]))
  }

  lemma DropPairsStep(rows: seq<Sample>, pairs: seq<int>, i: nat)
    requires 2 * i + 1 < |pairs|
    ensures DropPairs(rows, pairs, i + 1) ==
      DropWindow(DropPairs(rows, pairs, i), pairs[2 * i], pairs[2 * i + 1] + (pairs[2 * i + 1] - pairs[2 * i]) / 2)
  {
    assert 2 * (i + 1 - 1) == 2 * i;
  }

  lemma {:induction false} SubsequenceTrans<T>(a: seq<T>, b: seq<T>, c: seq<T>)
    requires Subsequence(a, b) && Subsequence(b, c)
    ensures Subsequence(a, c)
    decreases |c|
  {
    if a != [] {
      assert b != [] && c != [];
      if b[0] == c[0] {
        if a[0] == b[0] {
          SubsequenceTrans(a[1..], b[1..], c[1..]);
        } else {
          SubsequenceTrans(a, b[1..], c[1..]);
        }
      } else {
        SubsequenceTrans(a, b, c[1..]);
        if a[0] == c[0] {
          SubsequenceDrop(a, c[1..]);
        }
      }
    }
  }

  /** The drops one after another keep exactly the rows outside every
      window, in their order. */
  lemma {:induction false} DropPairsSpec(rows: seq<Sample>, pairs: seq<int>, n: nat)
    requires 2 * n <= |pairs|
    ensures forall s :: s in DropPairs(rows, pairs, n) <==> s in rows && !Removed(s.index, pairs, n)
    ensures Subsequence(DropPairs(rows, pairs, n), rows)
  {
    if n == 0 {
      assert forall s: Sample :: !Removed(s.index, pairs, 0);
      if rows != [] {
        assert rows == [rows[0]] + rows[1..];
        SubsequenceRefl(rows);
      }
    } else {
      var prev := DropPairs(rows, pairs, n - 1);
      DropPairsSpec(rows, pairs, n - 1);
      forall s: Sample ensures Removed(s.index, pairs, n) <==> Removed(s.index, pairs, n - 1) || InPair(s.index, pairs, n - 1) {
        if Removed(s.index, pairs, n) {
          var i :| 0 <= i < n && InPair(s.index, pairs, i);
          if i < n - 1 {
            assert Removed(s.index, pairs, n - 1);
          }
        }
      }
      DropWindowOrder(prev, pairs[2 * (n - 1)], Reach(pairs[2 * (n - 1)], pairs[2 * (n - 1) + 1]));
      DropWindowMembers(prev, pairs[2 * (n - 1)], Reach(pairs[2 * (n - 1)], pairs[2 * (n - 1) + 1]));
      SubsequenceTrans(DropPairs(rows, pairs, n), prev, rows);
    }
  }

  lemma {:induction false} SubsequenceRefl<T>(a: seq<T>)
    ensures Subsequence(a, a)
  {
    if a != [] {
      SubsequenceRefl(a[1..]);
    }
  }

  /** `_cleaning_raw(df_raw)` as a function of the rows. */
  function Cleaned(rows: seq<Sample>, threshold: real): (r: Result<seq<Sample>, ProcessError>)
    ensures r.Err? ==> r.error == IndexError
  {
    match Completed(rows, Anomalies(rows, threshold))
    case Err(e) => Err(e)
    case Ok(c) => Ok(DropPairs(rows, Paired(c), |Paired(c)| / 2))
  }

  /** The cleaned ramp holds, in their order, exactly the rows outside the
      windows of the anomaly pairs; a ramp without rows or without
      anomalies raises `IndexError`. */
  lemma CleanedSpec(rows: seq<Sample>, threshold: real)
    ensures var r := Cleaned(rows, threshold);
      (rows == [] || Anomalies(rows, threshold) == [] ==> r == Err(IndexError)) &&
      (r.Ok? ==> Subsequence(r.value, rows)) &&
      (r.Ok? ==> var pairs := Paired(Completed(rows, Anomalies(rows, threshold)).value);
         forall s :: s in r.value <==> s in rows && !Removed(s.index, pairs, |pairs| / 2))
  {
    var c := Completed(rows, Anomalies(rows, threshold));
    if c.Ok? {
      DropPairsSpec(rows, Paired(c.value), |Paired(c.value)| / 2);
    }
  }

  /** Lines 261-274: the window of each pair of anomaly labels is dropped
      in turn. */
  method DropAnomalyPairs(dfRaw: seq<Sample>, idxAnomalies: seq<int>) returns (rows: seq<Sample>)
    requires |idxAnomalies| % 2 == 0
    ensures rows == DropPairs(dfRaw, idxAnomalies, |idxAnomalies| / 2)
  {
    rows := dfRaw;
    for i := 0 to |idxAnomalies| / 2
      invariant rows == DropPairs(dfRaw, idxAnomalies, i)
    {
      var currentPatternSize := (idxAnomalies[2 * i + 1] - idxAnomalies[2 * i]) / 2;
      DropPairsStep(dfRaw, idxAnomalies, i);
      rows := DropWindow(rows, idxAnomalies[2 * i], idxAnomalies[2 * i + 1] + currentPatternSize);
    }
  }

  /** `_cleaning_raw(df_raw, voltage_threshold)`: the anomalies are found
      and completed (lines 215-253), an odd count loses its last label
      (lines 257-258), and the windows of the pairs are dropped. */
  method CleaningRaw(dfRaw: seq<Sample>, voltageThreshold: real) returns (r: Result<seq<Sample>, ProcessError>)
    ensures r == Cleaned(dfRaw, voltageThreshold)
  {
    var completed := Completed(dfRaw, Anomalies(dfRaw, voltageThreshold));
    if completed.Err? {
      return Err(completed.error);
    }
    var idxAnomalies := completed.value;
    if |idxAnomalies| % 2 != 0 {
      idxAnomalies := idxAnomalies[..|idxAnomalies| - 1];
    }
    var rows := DropAnomalyPairs(dfRaw, idxAnomalies);
    return Ok(rows);
  }

  // ---------------------------------------------------------------------
  // process_raw
  // ---------------------------------------------------------------------

  /** `slicing_ramp(df_raw, "Voltage")`: the labels at which the ramps
      start. */
  type Slicer = seq<Sample> -> seq<int>

  /** `savgol_filter(values, window_length, 2)` for a column and a window
      length: the smoothed column, or `None` where it raises (a window too
      long for the column or not above the polynomial order). */
  type Smoother = (seq<real>, int) -> Option<seq<real>>

  /** `df_raw.loc[(df_raw.index >= start) & (df_raw.index < end)]`. */
  function RampWindow(rows: seq<Sample>, start: int, end: int): seq<Sample>
  {
    if rows == [] then []
    else
      var rest := RampWindow(rows[1..], start, end);
      if start <= rows[0].index < end then [rows[0]] + rest else rest
  }

  /** A ramp holds exactly the raw rows labelled from `start` up to, and
      not including, `end`. */
  lemma {:induction false} RampWindowMembers(rows: seq<Sample>, start: int, end: int)
    ensures forall s :: s in RampWindow(rows, start, end) <==> s in rows && start <= s.index < end
  {
    if rows != [] {
      RampWindowMembers(rows[1..], start, end);
      assert rows == [rows[0]] + rows[1..];
    }
  }

  /** A ramp keeps the order of the raw rows. */
  lemma {:induction false} RampWindowOrder(rows: seq<Sample>, start: int, end: int)
    ensures Subsequence(RampWindow(rows, start, end), rows)
  {
    if rows != [] {
      var rest := RampWindow(rows[1..], start, end);
      RampWindowOrder(rows[1..], start, end);
      assert rows == [rows[0]] + rows[1..];
      if start <= rows[0].index < end {
        assert ([rows[0]] + rest)[1..] == rest;
      } else {
        SubsequenceSkip(rest, rows[1..], rows[0]);
      }
    }
  }

  function Voltages(rows: seq<Sample>): seq<real>
  {
    seq(|rows|, j requires 0 <= j < |rows| => rows[j].voltage)
  }

  function Currents(rows: seq<Sample>): seq<real>
  {
    seq(|rows|, j requires 0 <= j < |rows| => rows[j].current)
  }

  /** The cleaned rows with their smoothed columns and the ramp number. */
  function Labelled(rows: seq<Sample>, current: seq<real>, voltage: seq<real>, k: int): seq<ProcRow>
    requires |current| == |rows| && |voltage| == |rows|
  {
    seq(|rows|, j requires 0 <= j < |rows| => ProcRow(rows[j].index, voltage[j], current[j], k))
  }

  /** `window_savgol = int(smoothing_window_percentage * len(df_proc_ramp))`
      (line 106 of `data_processing.py`): the product truncated toward zero. */
  function SavgolWindow(pct: real, len: nat): (w: int)
    ensures pct >= 0.0 ==> 0 <= w && w as real <= pct * len as real < w as real + 1.0
    ensures pct < 0.0 && len > 0 ==> w <= 0 && w as real - 1.0 < pct * len as real <= w as real
  {
    Trunc(pct * len as real)
  }

  /** Lines 106-114: the Current is smoothed and then the Voltage, both over
      the window `SavgolWindow(pct, len(ramp))`, and the rows are labelled
      with the ramp number. */
  function SmoothRamp(clean: seq<Sample>, k: int, pct: real, smooth: Smoother): (r: Result<seq<ProcRow>, ProcessError>)
    ensures r.Err? ==> r.error == SmoothingFailed || r.error == LengthMismatch
  {
    var window := SavgolWindow(pct, |clean|);
    match smooth(Currents(clean), window)
    case None => Err(SmoothingFailed)
    case Some(current) =>
      if |current| != |clean| then Err(LengthMismatch)
      else match smooth(Voltages(clean), window)
        case None => Err(SmoothingFailed)
        case Some(voltage) =>
          if |voltage| != |clean| then Err(LengthMismatch)
          else Ok(Labelled(clean, current, voltage, k))
  }

  /** Smoothing keeps the rows and their labels, and numbers them. */
  lemma SmoothRampShape(clean: seq<Sample>, k: int, pct: real, smooth: Smoother)
    ensures var r := SmoothRamp(clean, k, pct, smooth);
      r.Ok? ==> |r.value| == |clean| && forall j | 0 <= j < |clean| :: r.value[j].index == clean[j].index && r.value[j].ramp == k
  {
  }

  /** Lines 96-114 for ramp `k`: its rows are cleaned and smoothed. */
  function ProcessRamp(rows: seq<Sample>, indexList: seq<int>, k: nat, pct: real, smooth: Smoother): (r: Result<seq<ProcRow>, ProcessError>)
    requires k + 1 < |indexList|
    ensures r.Err? ==> r.error == IndexError || r.error == SmoothingFailed || r.error == LengthMismatch
  {
    match Cleaned(RampWindow(rows, indexList[k], indexList[k + 1] - 1), VOLTAGE_THRESHOLD)
    case Err(e) => Err(e)
    case Ok(clean) => SmoothRamp(clean, k, pct, smooth)
  }

  /** The first `n` blocks of a run concatenated; the first error among
      them ends the run. */
  function UntilError<T, E>(results: seq<Result<seq<T>, E>>, n: nat): Result<seq<T>, E>
    requires n <= |results|
  {
    if n == 0 then Ok([])
    else match UntilError(results, n - 1)
      case Err(e) => Err(e)
      case Ok(done) =>
        match results[n - 1]
        case Err(e) => Err(e)
        case Ok(block) => Ok(done + block)
  }

  /** Once a block fails, the run ends with its error. */
  lemma {:induction false} UntilErrorFails<T, E>(results: seq<Result<seq<T>, E>>, k: nat, n: nat)
    requires k <= n <= |results| && UntilError(results, k).Err?
    ensures UntilError(results, n) == UntilError(results, k)
    decreases n - k
  {
    if k < n {
      UntilErrorFails(results, k, n - 1);
    }
  }

  /** The number of ramps `process_raw` cuts: one fewer than the starts. */
  function RampCount(indexList: seq<int>): nat
  {
    if |indexList| == 0 then 0 else |indexList| - 1
  }

  /** The result of every ramp, in order. */
  function RampResults(rows: seq<Sample>, indexList: seq<int>, pct: real, smooth: Smoother): (r: seq<Result<seq<ProcRow>, ProcessError>>)
    ensures |r| == RampCount(indexList)
  {
    seq(RampCount(indexList), k requires 0 <= k < RampCount(indexList) => ProcessRamp(rows, indexList, k, pct, smooth))
  }

  /** `process_raw(df_raw, smoothing_window_percentage)`, the frame after
      `dropna`. */
  function ProcessRawSpec(dfRaw: Arg<RawFrame>, pct: real, slicing: Slicer, smooth: Smoother): Result<seq<ProcRow>, ProcessError>
  {
    if dfRaw.Other? then Err(NotADataFrame)
    else if "Voltage" !in dfRaw.value.columns || "Current" !in dfRaw.value.columns then Err(MissingColumns)
    else
      var indexList := slicing(dfRaw.value.rows);
      var results := RampResults(dfRaw.value.rows, indexList, pct, smooth);
      UntilError(results, |results|)
  }

  /** Lines 106-114 on the cleaned rows of ramp `numRamp`. */
  method SmoothAndLabel(dfProcRamp: seq<Sample>, numRamp: int, smoothingWindowPercentage: real, smooth: Smoother)
    returns (r: Result<seq<ProcRow>, ProcessError>)
    ensures r == SmoothRamp(dfProcRamp, numRamp, smoothingWindowPercentage, smooth)
  {
    var windowSavgol := SavgolWindow(smoothingWindowPercentage, |dfProcRamp|);
    var current := smooth(Currents(dfProcRamp), windowSavgol);
    if current.None? {
      return Err(SmoothingFailed);
    }
    if |current.value| != |dfProcRamp| {
      return Err(LengthMismatch);
    }
    var voltage := smooth(Voltages(dfProcRamp), windowSavgol);
    if voltage.None? {
      return Err(SmoothingFailed);
    }
    if |voltage.value| != |dfProcRamp| {
      return Err(LengthMismatch);
    }
    var ramp := seq(|dfProcRamp|, j requires 0 <= j < |dfProcRamp| => ProcRow(dfProcRamp[j].index, voltage.value[j], current.value[j], numRamp));
    return Ok(ramp);
  }

  /** Lines 96-114, one pass of the ramp loop. */
  method ProcessOneRamp(rows: seq<Sample>, indexList: seq<int>, numRamp: nat, smoothingWindowPercentage: real, smooth: Smoother)
    returns (ramp: Result<seq<ProcRow>, ProcessError>)
    requires numRamp + 1 < |indexList|
    ensures ramp == ProcessRamp(rows, indexList, numRamp, smoothingWindowPercentage, smooth)
  {
    var startIdx := indexList[numRamp];
    var endIdx := indexList[numRamp + 1] - 1;
    var dfRawRamp := RampWindow(rows, startIdx, endIdx);
    var dfProcRamp := CleaningRaw(dfRawRamp, VOLTAGE_THRESHOLD);
    if dfProcRamp.Err? {
      return Err(dfProcRamp.error);
    }
    ramp := SmoothAndLabel(dfProcRamp.value, numRamp, smoothingWindowPercentage, smooth);
  }

  /** `process_raw`: the ramps are taken in order, each cleaned, smoothed
      and labelled with its number. */
  method ProcessRaw(dfRaw: Arg<RawFrame>, smoothingWindowPercentage: real, slicing: Slicer, smooth: Smoother)
    returns (r: Result<seq<ProcRow>, ProcessError>)
    ensures r == ProcessRawSpec(dfRaw, smoothingWindowPercentage, slicing, smooth)
  {
    if dfRaw.Other? {
      return Err(NotADataFrame);
    }
    if "Voltage" !in dfRaw.value.columns || "Current" !in dfRaw.value.columns {
      return Err(MissingColumns);
    }
    var rows := dfRaw.value.rows;
    var indexList := slicing(rows);
    ghost var results := RampResults(rows, indexList, smoothingWindowPercentage, smooth);
    var dfProc: seq<ProcRow> := [];
    for numRamp := 0 to RampCount(indexList)
      invariant UntilError(results, numRamp) == Ok(dfProc)
    {
      var ramp := ProcessOneRamp(rows, indexList, numRamp, smoothingWindowPercentage, smooth);
      assert ramp == results[numRamp];
      if ramp.Err? {
        UntilErrorFails(results, numRamp + 1, |results|);
        return Err(ramp.error);
      }
      dfProc := dfProc + ramp.value;
    }
    return Ok(dfProc);
  }

  function RampNumbers(rows: seq<ProcRow>): seq<int>
  {
    seq(|rows|, j requires 0 <= j < |rows| => rows[j].ramp)
  }

  /** A processed row of ramp `k` comes from a raw row between the start
      of ramp `k` and one label before the start of ramp `k + 1`. */
  predicate FromRamp(x: ProcRow, rows: seq<Sample>, indexList: seq<int>, n: nat)
  {
    0 <= x.ramp < n && x.ramp + 1 < |indexList| &&
    indexList[x.ramp] <= x.index < indexList[x.ramp + 1] - 1 &&
    exists s :: s in rows && s.index == x.index
  }

  /** The rows of ramp `k` as the ramp loop produces them. */
  predicate RampBlock(block: seq<ProcRow>, rows: seq<Sample>, indexList: seq<int>, k: nat)
  {
    forall j | 0 <= j < |block| :: block[j].ramp == k && FromRamp(block[j], rows, indexList, k + 1)
  }

  lemma RampBlockFrom(window: seq<Sample>, clean: seq<Sample>, block: seq<ProcRow>, rows: seq<Sample>, indexList: seq<int>, k: nat)
    requires k + 1 < |indexList|
    requires forall s | s in window :: s in rows && indexList[k] <= s.index < indexList[k + 1] - 1
    requires forall s | s in clean :: s in window
    requires |block| == |clean| && forall j | 0 <= j < |clean| :: block[j].index == clean[j].index && block[j].ramp == k
    ensures RampBlock(block, rows, indexList, k)
  {
    forall j | 0 <= j < |block|
      ensures block[j].ramp == k && FromRamp(block[j], rows, indexList, k + 1)
    {
      assert clean[j] in clean;
    }
  }

  /** One ramp's rows all carry its number and come from its window. */
  lemma ProcessRampShape(rows: seq<Sample>, indexList: seq<int>, k: nat, pct: real, smooth: Smoother)
    requires k + 1 < |indexList|
    ensures var r := ProcessRamp(rows, indexList, k, pct, smooth);
      r.Ok? ==> RampBlock(r.value, rows, indexList, k)
  {
    var window := RampWindow(rows, indexList[k], indexList[k + 1] - 1);
    var c := Cleaned(window, VOLTAGE_THRESHOLD);
    if c.Ok? {
      var r := SmoothRamp(c.value, k, pct, smooth);
      if r.Ok? {
        RampWindowMembers(rows, indexList[k], indexList[k + 1] - 1);
        CleanedSpec(window, VOLTAGE_THRESHOLD);
        SmoothRampShape(c.value, k, pct, smooth);
        RampBlockFrom(window, c.value, r.value, rows, indexList, k);
      }
    }
  }

  /** Appending the rows of ramp `n - 1` to those of the ramps before it
      keeps the ramps in order. */
  lemma AppendRamp(done: seq<ProcRow>, ramp: seq<ProcRow>, rows: seq<Sample>, indexList: seq<int>, n: nat)
    requires n > 0
    requires NonDecreasing(RampNumbers(done)) && forall j | 0 <= j < |done| :: FromRamp(done[j], rows, indexList, n - 1)
    requires RampBlock(ramp, rows, indexList, n - 1)
    ensures NonDecreasing(RampNumbers(done + ramp))
    ensures forall j | 0 <= j < |done + ramp| :: FromRamp((done + ramp)[j], rows, indexList, n)
  {
    var all := done + ramp;
    forall j | 0 <= j < |all|
      ensures FromRamp(all[j], rows, indexList, n) && all[j].ramp <= n - 1
    {
      if j < |done| {
        assert all[j] == done[j];
      } else {
        assert all[j] == ramp[j - |done|];
      }
    }
    forall i, j | 0 <= i <= j < |all|
      ensures RampNumbers(all)[i] <= RampNumbers(all)[j]
    {
      if j < |done| {
        assert RampNumbers(done)[i] <= RampNumbers(done)[j];
      } else {
        assert all[j] == ramp[j - |done|];
      }
    }
  }

  /** Concatenating ramp blocks lists the ramps in order. */
  lemma {:induction false} UntilErrorShape(results: seq<Result<seq<ProcRow>, ProcessError>>, rows: seq<Sample>, indexList: seq<int>, n: nat)
    requires n <= |results|
    requires forall k | 0 <= k < n :: results[k].Ok? ==> RampBlock(results[k].value, rows, indexList, k)
    ensures var r := UntilError(results, n);
      r.Ok? ==> NonDecreasing(RampNumbers(r.value)) && forall j | 0 <= j < |r.value| :: FromRamp(r.value[j], rows, indexList, n)
  {
    var r := UntilError(results, n);
    if n > 0 && r.Ok? {
      UntilErrorShape(results, rows, indexList, n - 1);
      AppendRamp(UntilError(results, n - 1).value, results[n - 1].value, rows, indexList, n);
    }
  }

  /** `process_raw` rejects a non-DataFrame and a frame without Voltage or
      Current, raises otherwise only the errors of cleaning and smoothing,
      and labels every row with its ramp, the ramps in order. */
  lemma ProcessRawSpecShape(dfRaw: Arg<RawFrame>, pct: real, slicing: Slicer, smooth: Smoother)
    ensures var r := ProcessRawSpec(dfRaw, pct, slicing, smooth);
      (r == Err(NotADataFrame) <==> dfRaw.Other?) &&
      (r == Err(MissingColumns) <==> dfRaw.Is? && ("Voltage" !in dfRaw.value.columns || "Current" !in dfRaw.value.columns)) &&
      (r.Err? && dfRaw.Is? && "Voltage" in dfRaw.value.columns && "Current" in dfRaw.value.columns ==>
         r.error == IndexError || r.error == SmoothingFailed || r.error == LengthMismatch) &&
      (r.Ok? ==> NonDecreasing(RampNumbers(r.value))) &&
      (r.Ok? ==> var indexList := slicing(dfRaw.value.rows);
         forall j | 0 <= j < |r.value| :: FromRamp(r.value[j], dfRaw.value.rows, indexList, RampCount(indexList)))
  {
    if dfRaw.Is? && "Voltage" in dfRaw.value.columns && "Current" in dfRaw.value.columns {
      var rows := dfRaw.value.rows;
      var indexList := slicing(rows);
      var results := RampResults(rows, indexList, pct, smooth);
      forall k | 0 <= k < |results|
        ensures results[k].Ok? ==> RampBlock(results[k].value, rows, indexList, k)
        ensures results[k].Err? ==> results[k].error == IndexError || results[k].error == SmoothingFailed || results[k].error == LengthMismatch
      {
        ProcessRampShape(rows, indexList, k, pct, smooth);
      }
      UntilErrorShape(results, rows, indexList, |results|);
      UntilErrorErrors(results, |results|);
    }
  }

  /** The run fails only with an error of one of its blocks. */
  lemma {:induction false} UntilErrorErrors(results: seq<Result<seq<ProcRow>, ProcessError>>, n: nat)
    requires n <= |results|
    requires forall k | 0 <= k < n :: results[k].Err? ==> results[k].error == IndexError || results[k].error == SmoothingFailed || results[k].error == LengthMismatch
    ensures var r := UntilError(results, n);
      r.Err? ==> r.error == IndexError || r.error == SmoothingFailed || r.error == LengthMismatch
  {
    if n > 0 {
      UntilErrorErrors(results, n - 1);
    }
  }

  // ---------------------------------------------------------------------
  // peak_detection_proc
  // ---------------------------------------------------------------------

  /** `series_peak_detection`. */
  const SERIES_PEAK_DETECTION: seq<string> := ["Voltage", "Current"]

  /** The computation `peak_detection` does after its checks: the peaks of
      a ramp, or `None` where it raises. */
  type Detector<P> = (seq<ProcRow>, Extremum) -> Option<seq<P>>

  /** One past the largest ramp number present. */
  function RampBound(rows: seq<ProcRow>): nat
  {
    if rows == [] then 0
    else
      var rest := RampBound(rows[1..]);
      if rows[0].ramp + 1 > rest then rows[0].ramp + 1 else rest
  }

  /** `df_proc.loc[df_proc["Ramp"] == n]`. */
  function RampRows(rows: seq<ProcRow>, n: int): (r: seq<ProcRow>)
    ensures |r| > 0 ==> n < RampBound(rows)
    ensures forall x :: x in r <==> x in rows && x.ramp == n
  {
    if rows == [] then []
    else
      var rest := RampRows(rows[1..], n);
      assert rows == [rows[0]] + rows[1..];
      if rows[0].ramp == n then [rows[0]] + rest else rest
  }

  /** `"Max"` on a ramp whose Voltage ends above where it starts, `"Min"`
      otherwise. */
  function RampExtremum(ramp: seq<ProcRow>): string
    requires |ramp| > 0
  {
    if ramp[|ramp| - 1].voltage - ramp[0].voltage > 0.0 then "Max" else "Min"
  }

  /** Lines 170-181: `peak_detection` on one ramp. */
  function DetectRamp<P>(columns: set<string>, ramp: seq<ProcRow>, parameters: PeakParameters, detect: Detector<P>): Result<seq<P>, ProcessError>
    requires |ramp| > 0
  {
    match PeakDetectionChecks(Is(Table(columns, |ramp|)), Is(SERIES_PEAK_DETECTION), Is(parameters), Is(RampExtremum(ramp)))
    case Err(e) => Err(Detection(e))
    case Ok(extremum) =>
      match detect(ramp, extremum)
      case None => Err(DetectionFailed)
      case Some(peaks) => Ok(peaks)
  }

  /** The peaks of ramps `n`, `n + 1`, ... up to the first number with no
      rows, keeping the non-empty ones; the first error ends the run. */
  function DetectFrom<P>(columns: set<string>, rows: seq<ProcRow>, n: nat, parameters: PeakParameters, detect: Detector<P>): (r: Result<seq<seq<P>>, ProcessError>)
    ensures r.Ok? ==> forall j | 0 <= j < |r.value| :: |r.value[j]| > 0
    decreases RampBound(rows) - n
  {
    var ramp := RampRows(rows, n);
    if |ramp| == 0 then Ok([])
    else match DetectRamp(columns, ramp, parameters, detect)
      case Err(e) => Err(e)
      case Ok(peaks) =>
        match DetectFrom(columns, rows, n + 1, parameters, detect)
        case Err(e) => Err(e)
        case Ok(rest) => Ok((if |peaks| > 0 then [peaks] else []) + rest)
  }

  /** `peak_detection_proc(df_proc, parameters)`. */
  function PeakDetectionProcSpec<P>(dfProc: Arg<ProcFrame>, parameters: Arg<PeakParameters>, detect: Detector<P>): Result<seq<seq<P>>, ProcessError>
  {
    if dfProc.Other? then Err(NotADataFrame)
    else if parameters.Other? then Err(NotParameters)
    else if "Voltage" !in dfProc.value.columns || "Current" !in dfProc.value.columns || "Ramp" !in dfProc.value.columns then Err(MissingColumns)
    else DetectFrom(dfProc.value.columns, dfProc.value.rows, 0, parameters.value, detect)
  }

  function Prepend<P>(done: seq<seq<P>>, r: Result<seq<seq<P>>, ProcessError>): Result<seq<seq<P>>, ProcessError>
  {
    match r
    case Err(e) => Err(e)
    case Ok(rest) => Ok(done + rest)
  }

  lemma PrependNothing<P>(r: Result<seq<seq<P>>, ProcessError>)
    ensures Prepend([], r) == r
  {
    if r.Ok? {
      assert [] + r.value == r.value;
    }
  }

  lemma PrependTwice<P>(done: seq<seq<P>>, block: seq<seq<P>>, r: Result<seq<seq<P>>, ProcessError>)
    ensures Prepend(done, Prepend(block, r)) == Prepend(done + block, r)
  {
    if r.Ok? {
      assert done + (block + r.value) == (done + block) + r.value;
    }
  }

  /** The peak lists a ramp contributes: none when it found no peak. */
  function Kept<P>(peaks: seq<P>): seq<seq<P>>
  {
    if |peaks| > 0 then [peaks] else []
  }

  lemma DetectFromStep<P>(columns: set<string>, rows: seq<ProcRow>, n: nat, parameters: PeakParameters, detect: Detector<P>)
    requires |RampRows(rows, n)| > 0
    ensures DetectFrom(columns, rows, n, parameters, detect) ==
      match DetectRamp(columns, RampRows(rows, n), parameters, detect)
      case Err(e) => Err(e)
      case Ok(peaks) => Prepend(Kept(peaks), DetectFrom(columns, rows, n + 1, parameters, detect))
  {
  }

  /** Lines 168-181, one pass of the ramp loop. */
  method DetectOneRamp<P>(columns: set<string>, dfProcRamp: seq<ProcRow>, parameters: PeakParameters, detect: Detector<P>)
    returns (r: Result<seq<P>, ProcessError>)
    requires |dfProcRamp| > 0
    ensures r == DetectRamp(columns, dfProcRamp, parameters, detect)
  {
    var typeExtremum := "Min";
    if dfProcRamp[|dfProcRamp| - 1].voltage - dfProcRamp[0].voltage > 0.0 {
      typeExtremum := "Max";
    }
    var checks := PeakDetectionChecks(Is(Table(columns, |dfProcRamp|)), Is(SERIES_PEAK_DETECTION), Is(parameters), Is(typeExtremum));
    if checks.Err? {
      return Err(Detection(checks.error));
    }
    var dfPeakRamp := detect(dfProcRamp, checks.value);
    if dfPeakRamp.None? {
      return Err(DetectionFailed);
    }
    return Ok(dfPeakRamp.value);
  }

  /** `peak_detection_proc`: ramps 0, 1, ... are examined while one has
      rows, and the non-empty peak lists are kept in ramp order. */
  method PeakDetectionProc<P>(dfProc: Arg<ProcFrame>, parameters: Arg<PeakParameters>, detect: Detector<P>)
    returns (r: Result<seq<seq<P>>, ProcessError>)
    ensures r == PeakDetectionProcSpec(dfProc, parameters, detect)
  {
    if dfProc.Other? {
      return Err(NotADataFrame);
    }
    if parameters.Other? {
      return Err(NotParameters);
    }
    var columns := dfProc.value.columns;
    if "Voltage" !in columns || "Current" !in columns || "Ramp" !in columns {
      return Err(MissingColumns);
    }
    var rows := dfProc.value.rows;
    ghost var all := DetectFrom(columns, rows, 0, parameters.value, detect);
    var dfPeak: seq<seq<P>> := [];
    var numRamp: nat := 0;
    PrependNothing(all);
    while |RampRows(rows, numRamp)| > 0
      invariant all == Prepend(dfPeak, DetectFrom(columns, rows, numRamp, parameters.value, detect))
      decreases RampBound(rows) - numRamp
    {
      var dfProcRamp := RampRows(rows, numRamp);
      var dfPeakRamp := DetectOneRamp(columns, dfProcRamp, parameters.value, detect);
      DetectFromStep(columns, rows, numRamp, parameters.value, detect);
      if dfPeakRamp.Err? {
        return Err(dfPeakRamp.error);
      }
      PrependTwice(dfPeak, Kept(dfPeakRamp.value), DetectFrom(columns, rows, numRamp + 1, parameters.value, detect));
      if |dfPeakRamp.value| > 0 {
        dfPeak := dfPeak + [dfPeakRamp.value];
      } else {
        assert dfPeak + Kept(dfPeakRamp.value) == dfPeak;
      }
      numRamp := numRamp + 1;
    }
    assert dfPeak + [] == dfPeak;
    return Ok(dfPeak);
  }

  /** The ramp loop fails only inside `peak_detection`. */
  lemma {:induction false} DetectFromErrors<P>(columns: set<string>, rows: seq<ProcRow>, n: nat, parameters: PeakParameters, detect: Detector<P>)
    ensures var r := DetectFrom(columns, rows, n, parameters, detect);
      r.Err? ==> r.error.Detection? || r.error == DetectionFailed
    decreases RampBound(rows) - n
  {
    if |RampRows(rows, n)| > 0 {
      DetectFromErrors(columns, rows, n + 1, parameters, detect);
    }
  }

  /** `peak_detection_proc` raises `TypeError` exactly for a frame or
      parameters of the wrong type, `ValueError` exactly for a missing
      Voltage, Current or Ramp column, and otherwise only what
      `peak_detection` raises on one of the ramps. */
  lemma PeakDetectionProcChecks<P>(dfProc: Arg<ProcFrame>, parameters: Arg<PeakParameters>, detect: Detector<P>)
    ensures var r := PeakDetectionProcSpec(dfProc, parameters, detect);
      (r == Err(NotADataFrame) <==> dfProc.Other?) &&
      (r == Err(NotParameters) <==> dfProc.Is? && parameters.Other?) &&
      (r == Err(MissingColumns) <==>
         dfProc.Is? && parameters.Is? &&
         ("Voltage" !in dfProc.value.columns || "Current" !in dfProc.value.columns || "Ramp" !in dfProc.value.columns)) &&
      (r.Err? ==>
         r.error.NotADataFrame? || r.error.NotParameters? || r.error.MissingColumns? ||
         r.error.Detection? || r.error.DetectionFailed?)
  {
    if dfProc.Is? && parameters.Is? {
      DetectFromErrors(dfProc.value.columns, dfProc.value.rows, 0, parameters.value, detect);
    }
  }

  /** The rows of the ramps numbered below `k`. */
  function RampsBelow(rows: seq<ProcRow>, k: int): (r: seq<ProcRow>)
    ensures forall n | n < k :: RampRows(r, n) == RampRows(rows, n)
    ensures forall n | n >= k :: RampRows(r, n) == []
  {
    if rows == [] then []
    else
      var rest := RampsBelow(rows[1..], k);
      var r := if rows[0].ramp < k then [rows[0]] + rest else rest;
      assert forall n | n < k :: RampRows(r, n) == RampRows(rows, n) by {
        forall n | n < k ensures RampRows(r, n) == RampRows(rows, n) {
          if rows[0].ramp < k {
            assert r[1..] == rest;
          }
        }
      }
      assert forall n | n >= k :: RampRows(r, n) == [] by {
        forall n | n >= k ensures RampRows(r, n) == [] {
          if rows[0].ramp < k {
            assert r[1..] == rest;
          }
        }
      }
      r
  }

  /** The loop stops at the first ramp number without rows: the ramps
      numbered after that gap are never examined. */
  lemma {:induction false} DetectIgnoresAfterGap<P>(columns: set<string>, rows: seq<ProcRow>, n: nat, k: nat, parameters: PeakParameters, detect: Detector<P>)
    requires n <= k && |RampRows(rows, k)| == 0
    ensures DetectFrom(columns, rows, n, parameters, detect) == DetectFrom(columns, RampsBelow(rows, k), n, parameters, detect)
    decreases k - n
  {
    var below := RampsBelow(rows, k);
    assert RampRows(below, n) == RampRows(rows, n);
    if n < k && |RampRows(rows, n)| > 0 {
      DetectIgnoresAfterGap(columns, rows, n + 1, k, parameters, detect);
    }
  }

  /** With valid parameters, a ramp shorter than `width_max` is refused by
      `peak_detection` and a longer one is searched for maxima when its
      Voltage rises and for minima otherwise. */
  lemma DetectRampExtremum<P>(columns: set<string>, ramp: seq<ProcRow>, parameters: PeakParameters, detect: Detector<P>)
    requires |ramp| > 0 && "Voltage" in columns && "Current" in columns
    requires parameters.widthMax > 0.0 && parameters.halfWidthMin > 0.0 && parameters.derivationWidth > 0.0
    requires parameters.derivationSensitivity >= 0.0 && parameters.widthMax >= parameters.halfWidthMin
    ensures (|ramp| as real) < parameters.widthMax ==> DetectRamp(columns, ramp, parameters, detect) == Err(Detection(TooFewRows))
    ensures (|ramp| as real) >= parameters.widthMax ==>
      var rising := ramp[|ramp| - 1].voltage > ramp[0].voltage;
      DetectRamp(columns, ramp, parameters, detect) ==
        match detect(ramp, Extremum(rising, !rising))
        case None => Err(DetectionFailed)
        case Some(peaks) => Ok(peaks)
  {
  }
}
