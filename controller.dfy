/** `PotentiostatController` (`src/pyBEEP/controller.py`) as a class over
    the scripted instrument: the setup and teardown command sequences, the
    register read with its retry counter, and the three acquisition
    procedures, written as the loops of the source and each proved to
    compute the transition of the bus that `Acquisition` defines for it.
    The `params` dictionary of a procedure is its `Counters` value, and the
    blocks put on the data queue are the procedure's `blocks`. */
module Controller {
  import opened Common
  import opened Words
  import opened Device
  import opened Acquisition
  import opened WaveformOutputs
  import Registry
  import Logger

  /** The acquisition procedure `apply_measurement` hands to the producer
      thread, with the inputs it reads from the waveform: the number of
      time stamps, the (target, length) pairs of the current steps, or the
      applied potential as float32 bit patterns. */
  datatype Procedure =
    | OcpProcedure(samples: nat)
    | PidActiveProcedure(steps: seq<(F32, int)>)
    | PidInactiveProcedure(applied: seq<F32>)

  /** Why `apply_measurement` raises before any command is sent. */
  datatype MeasurementError =
    | ModeFailed(error: Registry.ModeError)
    | ParameterError(mode: string, expected: seq<string>)
    | WaveformFailed(cause: Registry.GenerateError)
    | MissingAttribute

  /** The steps `zip(current_steps, duration_steps, length_steps)` walks,
      each current cast to float32 by `toF32`. */
  function ZipSteps(cs: seq<real>, ds: seq<real>, ls: seq<nat>, toF32: real -> F32): (steps: seq<(F32, int)>)
    ensures |steps| == Min(|cs|, Min(|ds|, |ls|))
    ensures forall k | 0 <= k < |steps| :: steps[k] == (toF32(cs[k]), ls[k] as int)
  {
    var n := Min(|cs|, Min(|ds|, |ls|));
    seq(n, k requires 0 <= k < n => (toF32(cs[k]), ls[k] as int))
  }

  function CastAll(xs: seq<real>, toF32: real -> F32): (fs: seq<F32>)
    ensures |fs| == |xs| && forall k | 0 <= k < |xs| :: fs[k] == toF32(xs[k])
  {
    seq(|xs|, k requires 0 <= k < |xs| => toF32(xs[k]))
  }

  /** The `match mode_config.mode_type` of `apply_measurement`, with the
      waveform attributes each procedure reads. */
  function Dispatch(t: Registry.ControlMode, w: Waveform, toF32: real -> F32): Result<Procedure, MeasurementError>
  {
    match t
    case Galvanostatic =>
      if w.Galvano? || w.CyclicGalvano? then
        Ok(PidActiveProcedure(ZipSteps(w.currentSteps, w.durationSteps, w.lengthSteps, toF32)))
      else Err(MissingAttribute)
    case Potentiostatic =>
      if w.Poten? || w.SteppedPoten? || w.CyclicPoten? then
        Ok(PidInactiveProcedure(CastAll(w.appliedPotential, toF32)))
      else Err(MissingAttribute)
    case OpenCircuit => Ok(OcpProcedure(|w.time|))
  }

  /** What `apply_measurement` does before the device is touched: the mode
      lookup, the parameter validation, the waveform, and the procedure. */
  function Plan(mode: string, params: map<string, Registry.ParamValue>, toF32: real -> F32): Result<Procedure, MeasurementError>
  {
    match Registry.GetMode(mode)
    case Err(e) => Err(ModeFailed(e))
    case Ok(entry) =>
      match Registry.Validate(entry.paramClass, params)
      case Err(fields) => Err(ParameterError(mode, fields))
      case Ok(p) =>
        match Registry.Generate(entry.waveformFunc, p)
        case Err(g) => Err(WaveformFailed(g))
        case Ok(w) => Dispatch(entry.modeType, w, toF32)
  }

  /** The plan follows the mode table: an unknown mode, a parameter error
      listing the class's fields, or a failing generator are the only ways
      it fails; otherwise the procedure is the one of the mode's control
      type, driven by the generated waveform: a PID setpoint per current
      step for GAL, every applied potential for POT, every time stamp for
      OCP. */
  lemma PlanSpec(mode: string, params: map<string, Registry.ParamValue>, toF32: real -> F32)
    ensures var r := Plan(mode, params, toF32);
      (Registry.GetMode(mode).Err? ==> r == Err(ModeFailed(Registry.GetMode(mode).error))) &&
      (Registry.GetMode(mode).Ok? ==>
        var entry := Registry.GetMode(mode).value;
        (Registry.Validate(entry.paramClass, params).Err? ==>
          r == Err(ParameterError(mode, Registry.FieldNames(entry.paramClass)))) &&
        (Registry.Validate(entry.paramClass, params).Ok? ==>
          var g := Registry.Generate(entry.waveformFunc, Registry.Validate(entry.paramClass, params).value);
          g != Err(Registry.SignatureMismatch) &&
          (g.Err? ==> r == Err(WaveformFailed(g.error))) &&
          (g.Ok? ==> (r.Ok? &&
            (entry.modeType == Registry.Galvanostatic <==> r.value.PidActiveProcedure?) &&
            (entry.modeType == Registry.OpenCircuit <==> r.value.OcpProcedure?) &&
            (r.value.PidActiveProcedure? ==> |r.value.steps| == |g.value.lengthSteps|) &&
            (r.value.PidInactiveProcedure? ==> |r.value.applied| == |g.value.time|) &&
            (r.value.OcpProcedure? ==> r.value.samples == |g.value.time|)))))
  {
    if Registry.GetMode(mode).Ok? {
      var entry := Registry.GetMode(mode).value;
      var m := Registry.ModeFor(Registry.Upper(mode)).value;
      assert entry == Registry.Entry(m);
      if Registry.Validate(entry.paramClass, params).Ok? {
        var p := Registry.Validate(entry.paramClass, params).value;
        Registry.EntrySignature(m, params);
        Registry.EntryOutputs(m, p);
      }
    }
  }

  /** The transition of the bus a procedure makes, with the gain
      `apply_measurement` passes. */
  function Execute(b: Bus, tiaGain: int, proc: Procedure): Outcome
  {
    match proc
    case OcpProcedure(samples) => OcpRun(b, Some(tiaGain), samples)
    case PidActiveProcedure(steps) => PidActiveRun(b, Some(tiaGain), steps)
    case PidInactiveProcedure(applied) => PidInactiveRun(b, Some(tiaGain), applied)
  }

  /** The items the data queue receives: every block the producer put, then
      the sentinel `_run_measurement` adds in `finally`. */
  function QueueItems(blocks: seq<seq<Pair>>): (items: seq<Option<Logger.Block>>)
    ensures |items| == |blocks| + 1 && items[|blocks|] == None
    ensures forall k | 0 <= k < |blocks| :: items[k] == Some(blocks[k])
  {
    seq(|blocks|, k requires 0 <= k < |blocks| => Some(blocks[k])) + [None]
  }

  /** The consumer takes exactly the producer's blocks. */
  lemma {:induction false} QueueBatches(blocks: seq<seq<Pair>>)
    ensures None in QueueItems(blocks) && Logger.Batches(QueueItems(blocks)) == blocks
  {
    var items := QueueItems(blocks);
    assert items[|blocks|] == None;
    if blocks != [] {
      assert items[1..] == QueueItems(blocks[1..]);
      QueueBatches(blocks[1..]);
    }
  }

  /** Python truthiness of an optional string: neither None nor empty. */
  predicate Truthy(s: Option<string>)
  {
    s.Some? && s.value != ""
  }

  /** What a measurement leaves behind: the file written, its rows, and the
      exception, if any, that ended the producer thread (the thread reports
      it; `apply_measurement` does not see it). */
  datatype Measured = Measured(filepath: string, rows: seq<Logger.Row>, failure: Option<Failure>)

  class PotentiostatController {
    const device: PotentiostatDevice
    var defaultFolder: Option<string>
    var lastPlotPath: Option<string>

    constructor (device: PotentiostatDevice, defaultFolder: Option<string>)
      ensures this.device == device && this.defaultFolder == defaultFolder && lastPlotPath == None
    {
      this.device := device;
      this.defaultFolder := defaultFolder;
      lastPlotPath := None;
    }

    /** `set_default_folder`: the folder given, or else the one the folder
        dialog returns. */
    method SetDefaultFolder(folder: Option<string>, dialogFolder: string)
      modifies this
      ensures defaultFolder == if Truthy(folder) then folder else Some(dialogFolder)
      ensures lastPlotPath == old(lastPlotPath)
    {
      if Truthy(folder) {
        defaultFolder := folder;
      } else {
        defaultFolder := Some(dialogFolder);
      }
    }

    /** `get_default_folder`: the default folder, asking for one with the
        dialog when none is set. */
    method GetDefaultFolder(dialogFolder: string) returns (folder: string)
      modifies this
      ensures Truthy(old(defaultFolder)) ==> folder == old(defaultFolder).value && defaultFolder == old(defaultFolder)
      ensures !Truthy(old(defaultFolder)) ==> folder == dialogFolder && defaultFolder == Some(dialogFolder)
      ensures lastPlotPath == old(lastPlotPath)
    {
      if !Truthy(defaultFolder) {
        SetDefaultFolder(None, dialogFolder);
      }
      folder := defaultFolder.value;
    }

    /** `_run_measurement`, with the producer run to completion before the
        consumer: the procedure's blocks, then the sentinel, go to a
        two-argument `DataLogger` writing the file. */
    method RunMeasurement(proc: Procedure, tiaGain: int, filepath: string)
      returns (rows: seq<Logger.Row>, failure: Option<Failure>)
      modifies device
      ensures var o := Execute(old(device.State()), tiaGain, proc);
        device.State() == o.acq.bus && rows == Flatten(o.acq.blocks) && failure == o.failure
    {
      var c: Counters;
      var blocks: seq<seq<Pair>>;
      match proc {
        case OcpProcedure(samples) =>
          c, blocks, failure := ReadWriteOcp(Some(tiaGain), samples);
        case PidActiveProcedure(steps) =>
          c, blocks, failure := ReadWriteDataPidActive(Some(tiaGain), steps);
        case PidInactiveProcedure(applied) =>
          c, blocks, failure := ReadWriteDataPidInactive(Some(tiaGain), applied);
      }
      var items := QueueItems(blocks);
      QueueBatches(blocks);
      var writer := new Logger.DataLogger(items, filepath, []);
      writer.Run();
      rows := writer.file;
    }

    /** `apply_measurement`: nothing reaches the device unless the mode is
        known, the parameters validate and the waveform is generated; then
        the file name and folder are settled (the folder dialog's choice
        becomes the default folder when neither folder is set), the procedure
        runs, and the file path is remembered, whether or not the procedure
        raised. */
    method ApplyMeasurement(mode: string, params: map<string, Registry.ParamValue>, tiaGain: int,
                            filename: Option<string>, folder: Option<string>,
                            stamp: string, dialogFolder: string, toF32: real -> F32)
      returns (r: Result<Measured, MeasurementError>)
      modifies this, device
      ensures Plan(mode, params, toF32).Err? ==>
        r == Err(Plan(mode, params, toF32).error) && device.State() == old(device.State()) &&
        lastPlotPath == old(lastPlotPath) && defaultFolder == old(defaultFolder)
      ensures Plan(mode, params, toF32).Ok? ==>
        var o := Execute(old(device.State()), tiaGain, Plan(mode, params, toF32).value);
        r.Ok? && device.State() == o.acq.bus &&
        r.value.rows == Flatten(o.acq.blocks) && r.value.failure == o.failure &&
        lastPlotPath == Some(r.value.filepath) &&
        defaultFolder ==
          (if Truthy(folder) || Truthy(old(defaultFolder)) then old(defaultFolder) else Some(dialogFolder)) &&
        r.value.filepath ==
          (if Truthy(folder) then folder.value
           else if Truthy(old(defaultFolder)) then old(defaultFolder).value else dialogFolder) + "/" +
          (if Truthy(filename) then filename.value else DefaultFilename(stamp, mode, tiaGain))
    {
      PlanSpec(mode, params, toF32);
      var entry := Registry.GetMode(mode);
      if entry.Err? {
        return Err(ModeFailed(entry.error));
      }
      var paramObj := Registry.Validate(entry.value.paramClass, params);
      if paramObj.Err? {
        return Err(ParameterError(mode, paramObj.error));
      }
      var waveform := Registry.Generate(entry.value.waveformFunc, paramObj.value);
      if waveform.Err? {
        return Err(WaveformFailed(waveform.error));
      }
      var name := if Truthy(filename) then filename.value else DefaultFilename(stamp, mode, tiaGain);
      var dir: string;
      if Truthy(folder) {
        dir := folder.value;
      } else {
        dir := GetDefaultFolder(dialogFolder);
      }
      var filepath := dir + "/" + name;
      var proc := Dispatch(entry.value.modeType, waveform.value, toF32).value;
      var rows, failure := RunMeasurement(proc, tiaGain, filepath);
      lastPlotPath := Some(filepath);
      r := Ok(Measured(filepath, rows, failure));
    }

    /** `_setup_measurement`: the gain when one is given, CLEAR_FIFO and
        FIFO_START when asked for, then SET_SWITCH 1; a failing command
        ends the sequence. */
    method SetupMeasurement(tiaGain: Option<int>, clearFifo: bool, fifoStart: bool) returns (f: Option<Failure>)
      modifies device
      ensures (device.State(), f) == SendAll(old(device.State()), SetupCommands(tiaGain, clearFifo, fifoStart))
    {
      var gain := if tiaGain.Some? then [(CMD_SET_TIA_GAIN, tiaGain.value)] else [];
      var clear := if clearFifo then [(CMD_CLEAR_FIFO, 1)] else [];
      var start := if fifoStart then [(CMD_FIFO_START, 1)] else [];
      ghost var rest := SetupCommands(tiaGain, clearFifo, fifoStart);
      ghost var o := SendAll(device.State(), rest);
      assert rest == gain + (clear + (start + [(CMD_SET_SWITCH, 1)]));
      if tiaGain.Some? {
        f := Send(CMD_SET_TIA_GAIN, tiaGain.value, rest);
        if f.Some? {
          assert o == (device.State(), f);
          return;
        }
        rest := rest[1..];
      }
      assert rest == clear + (start + [(CMD_SET_SWITCH, 1)]) && o == SendAll(device.State(), rest);
      if clearFifo {
        f := Send(CMD_CLEAR_FIFO, 1, rest);
        if f.Some? {
          assert o == (device.State(), f);
          return;
        }
        rest := rest[1..];
      }
      assert rest == start + [(CMD_SET_SWITCH, 1)] && o == SendAll(device.State(), rest);
      if fifoStart {
        f := Send(CMD_FIFO_START, 1, rest);
        if f.Some? {
          assert o == (device.State(), f);
          return;
        }
        rest := rest[1..];
      }
      assert rest == [(CMD_SET_SWITCH, 1)] && o == SendAll(device.State(), rest);
      f := Send(CMD_SET_SWITCH, 1, rest);
      assert o == (device.State(), f);
    }

    /** `send_command` as a step of a command sequence `rest` that starts
        with it: a failure is the outcome of the whole sequence, a success
        leaves the rest of the sequence to send. */
    method Send(command: int, parameter: int, ghost rest: seq<(int, int)>) returns (f: Option<Failure>)
      requires rest != [] && rest[0] == (command, parameter)
      modifies device
      ensures f.Some? ==> SendAll(old(device.State()), rest) == (device.State(), f)
      ensures f.None? ==> SendAll(old(device.State()), rest) == SendAll(device.State(), rest[1..])
      ensures f.None? && |rest| == 1 ==> SendAll(old(device.State()), rest) == (device.State(), None)
    {
      f := device.SendCommand(command, parameter);
      assert |rest| == 1 ==> rest[1..] == [];
    }

    /** `_teardown_measurement`: SET_SWITCH 0, then TEST_STOP 1. */
    method TeardownMeasurement() returns (f: Option<Failure>)
      modifies device
      ensures (device.State(), f) == SendAll(old(device.State()), TEARDOWN_COMMANDS)
    {
      f := device.SendCommand(CMD_SET_SWITCH, 0);
      if f.Some? {
        return;
      }
      ghost var before := device.State();
      f := device.SendCommand(CMD_TEST_STOP, 1);
      assert TEARDOWN_COMMANDS[1..][1..] == [];
      assert SendAll(before, TEARDOWN_COMMANDS[1..]) == (device.State(), f);
    }

    /** `_read_operation(st, params, n_register)`. */
    method ReadOperation(st: int, c0: Counters) returns (c: Counters, res: ReadResult)
      modifies device
      ensures (device.State(), c, res) == Acquisition.ReadOperation(old(device.State()), st, c0)
    {
      c, res := c0, NoData;
      if st > BUSY_DELAY_NS {
        var r := device.ReadData(REG_READ_ADDR, N_REGISTER);
        if r.Answer? {
          res := Data(r.words);
        } else {
          c := c.(rdErrCnt := c.rdErrCnt + 1);
          if c.rdErrCnt > READ_ERROR_LIMIT {
            res := Raised;
          }
        }
      }
    }

    /** The read step every loop body repeats: `_read_operation`, then for
        a non-empty answer `convert_uint16_to_float32`, `data_queue.put`,
        the transfer count advanced (by the words read when `countWords`,
        by the rows otherwise) and `rd_err_cnt = 0`. */
    method ReadAndPut(st: int, c0: Counters, blocks0: seq<seq<Pair>>, countWords: bool)
      returns (c: Counters, blocks: seq<seq<Pair>>, f: Option<Failure>)
      modifies device
      ensures (Acq(device.State(), c, blocks), f) == ReadAndQueue(Acq(old(device.State()), c0, blocks0), st, countWords)
    {
      var res;
      c, res := ReadOperation(st, c0);
      blocks, f := blocks0, None;
      if res.Raised? {
        f := Some(ReadError);
      } else if res.Data? && res.words != [] {
        var rd := res.words;
        var converted := ConvertWords(rd);
        if converted.Err? {
          f := Some(ConversionError);
        } else {
          var rows := converted.value;
          blocks := blocks + [rows];
          c := c.(rdTxReg := c.rdTxReg + if countWords then |rd| else |rows|, rdErrCnt := 0);
        }
      }
    }

    /** `while params["rd_tx_reg"] < bound`: one clock reading and one read
        step per turn. */
    method Collect(bound: int, c0: Counters, blocks0: seq<seq<Pair>>)
      returns (c: Counters, blocks: seq<seq<Pair>>, f: Option<Failure>)
      requires Bounded(c0)
      modifies device
      ensures Drain(Acq(old(device.State()), c0, blocks0), bound) == Outcome(Acq(device.State(), c, blocks), f)
    {
      c, blocks, f := c0, blocks0, None;
      ghost var a0 := Acq(device.State(), c, blocks);
      while c.rdTxReg < bound
        invariant Bounded(c) && f.None?
        invariant Drain(Acq(device.State(), c, blocks), bound) == Drain(a0, bound)
        decreases |device.clock|, |device.replies|, READ_ERROR_LIMIT - c.rdErrCnt
      {
        ghost var a := Acq(device.State(), c, blocks);
        var st := device.MonotonicNs();
        ReadAndQueueSteps(a.(bus := Tick(a.bus)), st, false);
        c, blocks, f := ReadAndPut(st, c, blocks, false);
        if f.Some? {
          assert Drain(a, bound) == Outcome(Acq(device.State(), c, blocks), f);
          return;
        }
      }
    }

    /** `_read_write_ocp`: setup with the FIFO cleared and started, reads
        until the rows read reach `2 * len(time)`, then teardown. */
    method ReadWriteOcp(tiaGain: Option<int>, samples: nat)
      returns (c: Counters, blocks: seq<seq<Pair>>, f: Option<Failure>)
      modifies device
      ensures OcpRun(old(device.State()), tiaGain, samples) == Outcome(Acq(device.State(), c, blocks), f)
    {
      f := SetupMeasurement(tiaGain, true, true);
      c, blocks := FRESH, [];
      if f.Some? {
        return;
      }
      var nItems := samples * 2;
      c, blocks, f := Collect(nItems, c, blocks);
      if f.Some? {
        return;
      }
      f := TeardownMeasurement();
    }

    /** `_read_write_data_pid_active`: setup with the FIFO cleared, then
        for each segment the unretried write of `[PID_START]` and the
        target words, and reads until the rows read reach the segment's
        length; then teardown. */
    method ReadWriteDataPidActive(tiaGain: Option<int>, steps: seq<(F32, int)>)
      returns (c: Counters, blocks: seq<seq<Pair>>, f: Option<Failure>)
      modifies device
      ensures PidActiveRun(old(device.State()), tiaGain, steps) == Outcome(Acq(device.State(), c, blocks), f)
    {
      f := SetupMeasurement(tiaGain, true, false);
      c, blocks := FRESH, [];
      if f.Some? {
        return;
      }
      ghost var a0 := Acq(device.State(), c, blocks);
      var k := 0;
      while k < |steps|
        invariant 0 <= k <= |steps| && Bounded(c)
        invariant PidSteps(Acq(device.State(), c, blocks), steps[k..]) == PidSteps(a0, steps)
      {
        ghost var a := Acq(device.State(), c, blocks);
        var (current, length) := steps[k];
        var r := device.WriteData(REG_WRITE_ADDR_PID, PidTarget(current));
        if !r.Answer? {
          f := Some(PidWriteError);
          return;
        }
        c, blocks, f := Collect(length, c, blocks);
        if f.Some? {
          return;
        }
        assert steps[k..][1..] == steps[k + 1..];
        k := k + 1;
      }
      f := TeardownMeasurement();
    }

    /** The write half of a potentiostatic turn (`if i < n_items`). */
    method WriteChunk(st: int, c0: Counters, i0: nat, wl: seq<int>, ghost blocks: seq<seq<Pair>>)
      returns (c: Counters, i: nat, f: Option<Failure>)
      modifies device
      ensures PotWrite(Acq(old(device.State()), c0, blocks), st, i0, wl) == (Acq(device.State(), c, blocks), i, f)
    {
      c, i, f := c0, i0, None;
      if i < |wl| {
        var data := wl[i .. if i + N_REGISTER <= |wl| then i + N_REGISTER else |wl|];
        if st > BUSY_DELAY_NS {
          var r := device.WriteData(REG_WRITE_ADDR_POT, data);
          if r.Answer? {
            c := c.(wrErrCnt := 0, wrTxReg := c.wrTxReg + N_REGISTER);
            i := i + N_REGISTER;
          } else {
            c := c.(wrErrCnt := c.wrErrCnt + 1);
            if c.wrErrCnt > WRITE_ERROR_LIMIT {
              f := Some(WriteError);
            }
          }
        }
      }
    }

    /** The two reads of a potentiostatic turn (`for _ in range(0, 2)`),
        both with the turn's clock reading, counting the words read. */
    method ReadTwice(st: int, c0: Counters, blocks0: seq<seq<Pair>>)
      returns (c: Counters, blocks: seq<seq<Pair>>, f: Option<Failure>)
      modifies device
      ensures PotReads(Acq(old(device.State()), c0, blocks0), st) == (Acq(device.State(), c, blocks), f)
    {
      c, blocks, f := c0, blocks0, None;
      ghost var a0 := Acq(device.State(), c, blocks);
      var k := 0;
      while k < 2
        invariant 0 <= k <= 2 && f.None?
        invariant k == 0 ==> Acq(device.State(), c, blocks) == a0
        invariant k == 1 ==> (Acq(device.State(), c, blocks), None) == ReadAndQueue(a0, st, true)
        invariant k == 2 ==> (Acq(device.State(), c, blocks), None) == PotReads(a0, st)
      {
        ghost var a := Acq(device.State(), c, blocks);
        c, blocks, f := ReadAndPut(st, c, blocks, true);
        if f.Some? {
          assert k == 0 ==> PotReads(a0, st) == (Acq(device.State(), c, blocks), f);
          assert k == 1 ==> PotReads(a0, st) == ReadAndQueue(a, st, true);
          return;
        }
        k := k + 1;
      }
    }

    /** One turn of the potentiostatic loop: a clock reading, the write
        half, the two reads, and one more post-write turn counted once every
        word has been written. */
    method PotTurnStep(c0: Counters, blocks0: seq<seq<Pair>>, i0: nat, post0: int, writeList: seq<int>)
      returns (c: Counters, blocks: seq<seq<Pair>>, i: nat, postReadAttempts: int, f: Option<Failure>)
      requires PotBounded(PotState(Acq(device.State(), c0, blocks0), i0, post0))
      modifies device
      ensures PotTurn(PotState(Acq(old(device.State()), c0, blocks0), i0, post0), writeList) ==
        (PotState(Acq(device.State(), c, blocks), i, postReadAttempts), f)
    {
      var st := device.MonotonicNs();
      blocks, postReadAttempts := blocks0, post0;
      c, i, f := WriteChunk(st, c0, i0, writeList, blocks);
      if f.Some? {
        return;
      }
      c, blocks, f := ReadTwice(st, c, blocks);
      if f.Some? {
        return;
      }
      if i >= |writeList| {
        postReadAttempts := postReadAttempts + 1;
      }
    }

    /** `_read_write_data_pid_inactive`: setup with the FIFO cleared and
        started, then `while post_read_attempts < 3 or rd_tx_reg / wr_tx_reg
        / 2 < 1.0` one clock reading, the write half and the two reads per
        turn, then teardown. */
    method ReadWriteDataPidInactive(tiaGain: Option<int>, applied: seq<F32>)
      returns (c: Counters, blocks: seq<seq<Pair>>, f: Option<Failure>)
      modifies device
      ensures PidInactiveRun(old(device.State()), tiaGain, applied) == Outcome(Acq(device.State(), c, blocks), f)
    {
      c, blocks := FRESH, [];
      var writeList := AsInts(FloatsToWords(applied));
      f := SetupMeasurement(tiaGain, true, true);
      if f.Some? {
        return;
      }
      var i: nat := 0;
      var postReadAttempts := 0;
      ghost var s0 := PotState(Acq(device.State(), c, blocks), i, postReadAttempts);
      while true
        invariant PotBounded(PotState(Acq(device.State(), c, blocks), i, postReadAttempts))
        invariant PotLoop(PotState(Acq(device.State(), c, blocks), i, postReadAttempts), writeList) == PotLoop(s0, writeList)
        decreases |device.clock|, |device.replies|, Max0(|writeList| - i),
          WRITE_ERROR_LIMIT - c.wrErrCnt, Max0(POST_READ_ATTEMPTS - postReadAttempts),
          READ_ERROR_LIMIT - c.rdErrCnt
      {
        if postReadAttempts >= POST_READ_ATTEMPTS {
          if c.wrTxReg == 0 {
            f := Some(ZeroDivisionError);
            return;
          }
          if c.rdTxReg >= 2 * c.wrTxReg {
            break;
          }
        }
        ghost var s := PotState(Acq(device.State(), c, blocks), i, postReadAttempts);
        PotTurnProgress(s, writeList);
        c, blocks, i, postReadAttempts, f := PotTurnStep(c, blocks, i, postReadAttempts, writeList);
        if f.Some? {
          return;
        }
      }
      f := TeardownMeasurement();
    }
  }
}
