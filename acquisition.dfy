/** The acquisition procedures of `PotentiostatController`
    (`src/pyBEEP/controller.py`) as transitions of the scripted bus: the
    register read with its retry counter, the setup and teardown command
    sequences, the read-only loop of the open-circuit and PID-regulated
    modes, and the write-and-read loop of the potentiostatic mode.  The
    `params` dictionary of the source is the `Counters` record; only the
    entries that decide the control flow are kept. */
module Acquisition {
  import opened Common
  import opened Words
  import opened Device

  /** `rd_err_cnt` may reach this many; one more failure re-raises. */
  const READ_ERROR_LIMIT: int := 16
  /** `wr_err_cnt` may reach this many; one more failure re-raises. */
  const WRITE_ERROR_LIMIT: int := 10
  /** Loop iterations after the last write before the drain test applies. */
  const POST_READ_ATTEMPTS: int := 3

  datatype Counters = Counters(wrErrCnt: int, rdErrCnt: int, wrTxReg: int, rdTxReg: int)

  /** The counters as every procedure initialises them. */
  const FRESH: Counters := Counters(0, 0, 0, 0)

  /** A run in progress: the bus, the counters, and the blocks put on the
      data queue so far. */
  datatype Acq = Acq(bus: Bus, counters: Counters, blocks: seq<seq<Pair>>)

  /** Where a procedure stopped: normally, or with the failure it raised.
      The blocks queued before a failure stay queued. */
  datatype Outcome = Outcome(acq: Acq, failure: Option<Failure>)

  /** What `_read_operation` returns, or that it re-raised. */
  datatype ReadResult = Data(words: seq<int>) | NoData | Raised

  /** The counters every loop keeps within their limits. */
  predicate Bounded(c: Counters)
  {
    0 <= c.wrErrCnt <= WRITE_ERROR_LIMIT && 0 <= c.rdErrCnt <= READ_ERROR_LIMIT &&
    0 <= c.wrTxReg && 0 <= c.rdTxReg
  }

  /** `_read_operation(st, params, n_register)`: once the reading `st` is
      past the busy delay one read of `N_REGISTER` words is issued; a failed
      read counts one more error and re-raises once the count exceeds 16. */
  function ReadOperation(b: Bus, st: int, c: Counters): (r: (Bus, Counters, ReadResult))
    ensures st <= BUSY_DELAY_NS ==> r == (b, c, NoData)
    ensures st > BUSY_DELAY_NS ==> r.0 == Issue(b, ReadRegisters(REG_READ_ADDR, N_REGISTER))
    ensures r.2.Data? ==> st > BUSY_DELAY_NS && Next(b) == Answer(r.2.words) && r.1 == c
    ensures r.2.Raised? <==> st > BUSY_DELAY_NS && !Next(b).Answer? && c.rdErrCnt >= READ_ERROR_LIMIT
    ensures st > BUSY_DELAY_NS && !Next(b).Answer? ==> r.1 == c.(rdErrCnt := c.rdErrCnt + 1)
  {
    if st > BUSY_DELAY_NS then
      var b' := Issue(b, ReadRegisters(REG_READ_ADDR, N_REGISTER));
      match Next(b)
      case Answer(ws) => (b', c, Data(ws))
      case _ =>
        var c' := c.(rdErrCnt := c.rdErrCnt + 1);
        (b', c', if c'.rdErrCnt > READ_ERROR_LIMIT then Raised else NoData)
    else
      (b, c, NoData)
  }

  /** One read of a loop body: `_read_operation`, then, for a non-empty
      answer, the conversion to rows, the rows put on the queue, the
      transfer count advanced and the error count cleared.  The
      potentiostatic loop counts the words read, the other loops the rows. */
  function ReadAndQueue(a: Acq, st: int, countWords: bool): (r: (Acq, Option<Failure>))
  {
    var (b, c, res) := ReadOperation(a.bus, st, a.counters);
    match res
    case Raised => (Acq(b, c, a.blocks), Some(ReadError))
    case NoData => (Acq(b, c, a.blocks), None)
    case Data(ws) =>
      if ws == [] then (Acq(b, c, a.blocks), None)
      else match ConvertWords(ws)
        case Err(_) => (Acq(b, c, a.blocks), Some(ConversionError))
        case Ok(rows) =>
          var n := if countWords then |ws| else |rows|;
          (Acq(b, c.(rdTxReg := c.rdTxReg + n, rdErrCnt := 0), a.blocks + [rows]), None)
  }

  /** What a read leaves alone and how it makes progress: the clock is not
      read, and either a reply is consumed, or the script is exhausted and
      the error count grew, or `st` was within the busy delay and nothing
      happened. */
  lemma ReadAndQueueSteps(a: Acq, st: int, countWords: bool)
    requires Bounded(a.counters)
    ensures var (a', f) := ReadAndQueue(a, st, countWords);
      a'.bus.clock == a.bus.clock && a'.counters.wrErrCnt == a.counters.wrErrCnt &&
      a'.counters.wrTxReg == a.counters.wrTxReg &&
      a'.counters.rdTxReg >= a.counters.rdTxReg &&
      (f.None? ==> Bounded(a'.counters)) &&
      (st <= BUSY_DELAY_NS ==> ReadAndQueue(a, st, countWords) == (a, None)) &&
      (st > BUSY_DELAY_NS && a.bus.replies != [] ==> |a'.bus.replies| < |a.bus.replies|) &&
      (st > BUSY_DELAY_NS && a.bus.replies == [] ==>
        a'.bus.replies == [] && a'.counters.rdErrCnt == a.counters.rdErrCnt + 1) &&
      a'.counters.rdErrCnt <= a.counters.rdErrCnt + 1 &&
      (a.counters.rdErrCnt < READ_ERROR_LIMIT ==> f != Some(ReadError))
  {
  }

  /** The read loop of the open-circuit and PID-regulated procedures:
      `while rd_tx_reg < bound`, one clock reading and one read per turn. */
  function Drain(a: Acq, bound: int): (o: Outcome)
    requires Bounded(a.counters)
    ensures o.failure.None? ==> Bounded(o.acq.counters) && o.acq.counters.rdTxReg >= bound
    decreases |a.bus.clock|, |a.bus.replies|, READ_ERROR_LIMIT - a.counters.rdErrCnt
  {
    if a.counters.rdTxReg >= bound then Outcome(a, None)
    else
      var st := Reading(a.bus);
      var a0 := a.(bus := Tick(a.bus));
      ReadAndQueueSteps(a0, st, false);
      var (a1, f) := ReadAndQueue(a0, st, false);
      if f.Some? then Outcome(a1, f) else Drain(a1, bound)
  }

  /** The potentiostatic loop's own state: the index of the next word to
      write and the turns taken since the last word was written. */
  datatype PotState = PotState(acq: Acq, i: int, post: int)

  predicate PotBounded(s: PotState)
  {
    Bounded(s.acq.counters) && s.i >= 0 && s.post >= 0
  }

  function Max0(x: int): nat
  {
    if x < 0 then 0 else x
  }

  /** The chunk written at index `i`: `write_list[i : i + n_register]`. */
  function Chunk(wl: seq<int>, i: nat): (data: seq<int>)
    requires i < |wl|
    ensures 1 <= |data| <= N_REGISTER && i + |data| <= |wl| && data == wl[i .. i + |data|]
    ensures i + N_REGISTER <= |wl| ==> |data| == N_REGISTER
    ensures i + N_REGISTER > |wl| ==> i + |data| == |wl|
  {
    wl[i .. if i + N_REGISTER <= |wl| then i + N_REGISTER else |wl|]
  }

  /** The write half of one turn: while words remain and the reading is
      past the busy delay, the next chunk is written; success clears the
      write error count and advances both the index and `wr_tx_reg` by
      `N_REGISTER`, a short last chunk included; a failure counts an error
      and re-raises once the count exceeds 10. */
  function PotWrite(a: Acq, st: int, i: nat, wl: seq<int>): (r: (Acq, nat, Option<Failure>))
  {
    if i < |wl| && st > BUSY_DELAY_NS then
      var b := Issue(a.bus, WriteRegisters(REG_WRITE_ADDR_POT, Chunk(wl, i)));
      var c := a.counters;
      if Next(a.bus).Answer? then
        (Acq(b, c.(wrErrCnt := 0, wrTxReg := c.wrTxReg + N_REGISTER), a.blocks), i + N_REGISTER, None)
      else
        var c' := c.(wrErrCnt := c.wrErrCnt + 1);
        (Acq(b, c', a.blocks), i, if c'.wrErrCnt > WRITE_ERROR_LIMIT then Some(WriteError) else None)
    else
      (a, i, None)
  }

  /** What the write half leaves alone and how it makes progress, in the
      manner of `ReadAndQueueSteps`. */
  lemma PotWriteSteps(a: Acq, st: int, i: nat, wl: seq<int>)
    requires Bounded(a.counters)
    ensures var (a', i', f) := PotWrite(a, st, i, wl);
      a'.bus.clock == a.bus.clock && a'.counters.rdErrCnt == a.counters.rdErrCnt &&
      a'.counters.rdTxReg == a.counters.rdTxReg && i' >= i &&
      (f.None? ==> Bounded(a'.counters)) &&
      (!(i < |wl| && st > BUSY_DELAY_NS) ==> PotWrite(a, st, i, wl) == (a, i, None)) &&
      (i < |wl| && st > BUSY_DELAY_NS && a.bus.replies != [] ==> |a'.bus.replies| < |a.bus.replies|) &&
      (i < |wl| && st > BUSY_DELAY_NS && a.bus.replies == [] ==>
        a'.bus.replies == [] && i' == i && a'.counters.wrErrCnt == a.counters.wrErrCnt + 1)
  {
  }

  /** The two reads of a turn, both with the turn's clock reading. */
  function PotReads(a: Acq, st: int): (r: (Acq, Option<Failure>))
  {
    var (a1, f1) := ReadAndQueue(a, st, true);
    if f1.Some? then (a1, f1) else ReadAndQueue(a1, st, true)
  }

  /** One turn of the potentiostatic loop: a clock reading, the write half,
      the two reads, and one more post-write turn counted once every word
      has been written. */
  function PotTurn(s: PotState, wl: seq<int>): (r: (PotState, Option<Failure>))
    requires PotBounded(s)
  {
    var st := Reading(s.acq.bus);
    var a0 := s.acq.(bus := Tick(s.acq.bus));
    var (a1, i1, f1) := PotWrite(a0, st, s.i, wl);
    if f1.Some? then (PotState(a1, i1, s.post), f1)
    else
      var (a2, f2) := PotReads(a1, st);
      if f2.Some? then (PotState(a2, i1, s.post), f2)
      else (PotState(a2, i1, if i1 >= |wl| then s.post + 1 else s.post), None)
  }

  /** The measure of the potentiostatic loop, compared lexicographically. */
  predicate PotDecreases(s: PotState, s': PotState, wl: seq<int>)
  {
    var b, b' := s.acq.bus, s'.acq.bus;
    var c, c' := s.acq.counters, s'.acq.counters;
    |b'.clock| < |b.clock| ||
    (|b'.clock| == |b.clock| &&
     (|b'.replies| < |b.replies| ||
      (|b'.replies| == |b.replies| &&
       (Max0(|wl| - s'.i) < Max0(|wl| - s.i) ||
        (Max0(|wl| - s'.i) == Max0(|wl| - s.i) &&
         (c'.wrErrCnt > c.wrErrCnt ||
          (c'.wrErrCnt == c.wrErrCnt &&
           (Max0(POST_READ_ATTEMPTS - s'.post) < Max0(POST_READ_ATTEMPTS - s.post) ||
            (Max0(POST_READ_ATTEMPTS - s'.post) == Max0(POST_READ_ATTEMPTS - s.post) &&
             c'.rdErrCnt > c.rdErrCnt)))))))))
  }

  lemma PotReadsSteps(a: Acq, st: int)
    requires Bounded(a.counters)
    ensures var (a', f) := PotReads(a, st);
      a'.bus.clock == a.bus.clock && a'.counters.wrErrCnt == a.counters.wrErrCnt &&
      a'.counters.wrTxReg == a.counters.wrTxReg &&
      (f.None? ==> Bounded(a'.counters)) &&
      (st <= BUSY_DELAY_NS ==> PotReads(a, st) == (a, None)) &&
      (st > BUSY_DELAY_NS && a.bus.replies != [] ==> |a'.bus.replies| < |a.bus.replies|) &&
      (st > BUSY_DELAY_NS && a.bus.replies == [] && f.None? ==>
        a'.bus.replies == [] && a'.counters.rdErrCnt > a.counters.rdErrCnt) &&
      a'.counters.rdErrCnt <= a.counters.rdErrCnt + 2 &&
      (a.counters.rdErrCnt < READ_ERROR_LIMIT - 1 ==> f != Some(ReadError))
  {
    ReadAndQueueSteps(a, st, true);
    var (a1, f1) := ReadAndQueue(a, st, true);
    if f1.None? {
      ReadAndQueueSteps(a1, st, true);
    }
  }

  /** Every turn that does not raise keeps the counters bounded and makes
      progress: it uses up a clock reading, or else a reply, or else (with
      the instrument silent) a write error, a post-write turn or read
      errors. */
  lemma PotTurnProgress(s: PotState, wl: seq<int>)
    requires PotBounded(s)
    ensures var (s', f) := PotTurn(s, wl);
      f.None? ==> PotBounded(s') && PotDecreases(s, s', wl)
  {
    var st := Reading(s.acq.bus);
    var a0 := s.acq.(bus := Tick(s.acq.bus));
    PotWriteSteps(a0, st, s.i, wl);
    var (a1, i1, f1) := PotWrite(a0, st, s.i, wl);
    if f1.None? {
      PotReadsSteps(a1, st);
    }
  }

  /** The potentiostatic loop: `while post_read_attempts < 3 or
      rd_tx_reg / wr_tx_reg / 2 < 1.0`.  The test divides only once three
      post-write turns have passed, and then fails on a zero write count;
      with a positive write count it asks whether twice as many words have
      been read as written. */
  function PotLoop(s: PotState, wl: seq<int>): (o: Outcome)
    requires PotBounded(s)
    decreases |s.acq.bus.clock|, |s.acq.bus.replies|, Max0(|wl| - s.i),
      WRITE_ERROR_LIMIT - s.acq.counters.wrErrCnt, Max0(POST_READ_ATTEMPTS - s.post),
      READ_ERROR_LIMIT - s.acq.counters.rdErrCnt
  {
    var c := s.acq.counters;
    if s.post >= POST_READ_ATTEMPTS && c.wrTxReg == 0 then Outcome(s.acq, Some(ZeroDivisionError))
    else if s.post >= POST_READ_ATTEMPTS && c.rdTxReg >= 2 * c.wrTxReg then Outcome(s.acq, None)
    else
      PotTurnProgress(s, wl);
      var (s', f) := PotTurn(s, wl);
      if f.Some? then Outcome(s'.acq, f) else PotLoop(s', wl)
  }

  // Summaries of a log, each computed from its last event backwards.

  /** The failed reads since the last read that returned data: reads with
      an empty answer and all writes leave it as it is. */
  function TrailingReadFailures(log: seq<Event>): nat
  {
    if log == [] then 0
    else
      var e := log[|log| - 1];
      var before := TrailingReadFailures(log[..|log| - 1]);
      if !e.op.ReadRegisters? then before
      else if !e.reply.Answer? then before + 1
      else if e.reply.words == [] then before
      else 0
  }

  /** The command that ends an acquisition. */
  const STOP_OP: Op := WriteRegisters(COMMAND_ADDR, [CMD_TEST_STOP, 1])

  /** Whether the instrument acknowledged a TEST_STOP command. */
  ghost predicate Stopped(log: seq<Event>)
  {
    exists k | 0 <= k < |log| :: log[k].op == STOP_OP && log[k].reply.Answer?
  }

  /** The words the instrument accepted at the potentiostatic write
      register, in order. */
  function PotPayload(log: seq<Event>): seq<int>
  {
    if log == [] then []
    else
      var e := log[|log| - 1];
      PotPayload(log[..|log| - 1]) +
        (if e.op.WriteRegisters? && e.op.address == REG_WRITE_ADDR_POT && e.reply.Answer? then e.op.values else [])
  }

  /** Whether an operation is a PID target write: `[PID_START] + target`
      at the PID register. */
  predicate IsPidWrite(op: Op)
  {
    op.WriteRegisters? && op.address == REG_WRITE_ADDR_PID && |op.values| > 0 && op.values[0] == CMD_PID_START
  }

  /** The last operation was a PID target write that got no answer. */
  predicate LastPidWriteFailed(log: seq<Event>)
  {
    |log| > 0 && IsPidWrite(log[|log| - 1].op) && !log[|log| - 1].reply.Answer?
  }

  /** The PID target writes issued, answered or not, in order. */
  function PidWrites(log: seq<Event>): seq<seq<int>>
  {
    if log == [] then []
    else
      var e := log[|log| - 1];
      PidWrites(log[..|log| - 1]) + (if IsPidWrite(e.op) then [e.op.values] else [])
  }

  lemma AppendEvent(log: seq<Event>, e: Event)
    ensures TrailingReadFailures(log + [e]) ==
      if !e.op.ReadRegisters? then TrailingReadFailures(log)
      else if !e.reply.Answer? then TrailingReadFailures(log) + 1
      else if e.reply.words == [] then TrailingReadFailures(log)
      else 0
    ensures Stopped(log + [e]) <==> Stopped(log) || (e.op == STOP_OP && e.reply.Answer?)
    ensures PotPayload(log + [e]) == PotPayload(log) +
      (if e.op.WriteRegisters? && e.op.address == REG_WRITE_ADDR_POT && e.reply.Answer? then e.op.values else [])
    ensures PidWrites(log + [e]) == PidWrites(log) + (if IsPidWrite(e.op) then [e.op.values] else [])
  {
    var l := log + [e];
    assert l[..|l| - 1] == log;
    if Stopped(l) && !(e.op == STOP_OP && e.reply.Answer?) {
      var k :| 0 <= k < |l| && l[k].op == STOP_OP && l[k].reply.Answer?;
      assert log[k] == l[k];
    }
    if Stopped(log) {
      var k :| 0 <= k < |log| && log[k].op == STOP_OP && log[k].reply.Answer?;
      assert l[k] == log[k];
    }
    if e.op == STOP_OP && e.reply.Answer? {
      assert l[|log|] == e;
    }
  }

  /** `log'` continues `log`. */
  predicate Extends(log': seq<Event>, log: seq<Event>)
  {
    |log| <= |log'| && log'[..|log|] == log
  }

  lemma ExtendsTrans(l3: seq<Event>, l2: seq<Event>, l1: seq<Event>)
    requires Extends(l3, l2) && Extends(l2, l1)
    ensures Extends(l3, l1)
  {
    assert l3[..|l1|] == l3[..|l2|][..|l1|];
  }

  /** The retry counter agrees with the log: it is the number of failed
      reads since the last read that returned data. */
  ghost predicate Tracked(a: Acq)
  {
    a.counters.rdErrCnt == TrailingReadFailures(a.bus.log)
  }

  /** The retry counter at the end of a procedure: in step with the log
      after a normal end, and a read error raised exactly when the failed
      reads since the last data exceed 16. */
  ghost predicate TrackedOutcome(o: Outcome)
  {
    (o.failure.None? ==> Tracked(o.acq)) &&
    (o.failure == Some(ReadError) <==> TrailingReadFailures(o.acq.bus.log) > READ_ERROR_LIMIT) &&
    TrailingReadFailures(o.acq.bus.log) <= READ_ERROR_LIMIT + 1
  }

  /** The transfer count agrees with the queue: rows in the open-circuit and
      PID-regulated loops, words (four per row) in the potentiostatic one. */
  ghost predicate Counted(a: Acq, countWords: bool)
  {
    a.counters.rdTxReg == (if countWords then 4 else 1) * |Flatten(a.blocks)|
  }

  /** What a read does to the summaries: it issues at most a read, so only
      the retry count can change, and it keeps the counters in step with
      the log and the queue. */
  lemma ReadAndQueueFacts(a: Acq, st: int, countWords: bool)
    requires Bounded(a.counters)
    ensures var (a', f) := ReadAndQueue(a, st, countWords);
      Extends(a'.bus.log, a.bus.log) && Stopped(a'.bus.log) == Stopped(a.bus.log) &&
      PotPayload(a'.bus.log) == PotPayload(a.bus.log) && PidWrites(a'.bus.log) == PidWrites(a.bus.log) &&
      (Tracked(a) ==> TrackedOutcome(Outcome(a', f))) &&
      (Counted(a, countWords) ==> Counted(a', countWords))
  {
    var (a', f) := ReadAndQueue(a, st, countWords);
    if st > BUSY_DELAY_NS {
      var e := Event(ReadRegisters(REG_READ_ADDR, N_REGISTER), Next(a.bus));
      AppendEvent(a.bus.log, e);
      assert a'.bus.log == a.bus.log + [e];
      if f.None? && e.reply.Answer? && e.reply.words != [] {
        var ws := e.reply.words;
        ConvertWordsSpec(ws);
        FlattenPush(a.blocks, ConvertWords(ws).value);
      }
    }
  }

  /** The read loop issues reads only, and keeps the retry counter and the
      transfer count in step with the log and the queue. */
  lemma {:induction false} DrainFacts(a: Acq, bound: int)
    requires Bounded(a.counters)
    ensures var o := Drain(a, bound);
      Extends(o.acq.bus.log, a.bus.log) && Stopped(o.acq.bus.log) == Stopped(a.bus.log) &&
      PotPayload(o.acq.bus.log) == PotPayload(a.bus.log) && PidWrites(o.acq.bus.log) == PidWrites(a.bus.log) &&
      o.acq.counters.rdTxReg >= a.counters.rdTxReg &&
      (Tracked(a) ==> TrackedOutcome(o)) && (Counted(a, false) ==> Counted(o.acq, false)) &&
      (o.failure.None? || o.failure == Some(ReadError) || o.failure == Some(ConversionError))
    decreases |a.bus.clock|, |a.bus.replies|, READ_ERROR_LIMIT - a.counters.rdErrCnt
  {
    if a.counters.rdTxReg < bound {
      var st := Reading(a.bus);
      var a0 := a.(bus := Tick(a.bus));
      ReadAndQueueSteps(a0, st, false);
      ReadAndQueueFacts(a0, st, false);
      var (a1, f) := ReadAndQueue(a0, st, false);
      if f.None? {
        DrainFacts(a1, bound);
        ExtendsTrans(Drain(a1, bound).acq.bus.log, a1.bus.log, a.bus.log);
      }
    } else {
      assert a.bus.log[..|a.bus.log|] == a.bus.log;
    }
  }

  /** The words of a PID target write: `[PID_START]` and the float32
      target, low word first. */
  function PidTarget(target: F32): seq<int>
  {
    [CMD_PID_START] + AsInts(FloatToWords(target))
  }

  /** One segment of `_read_write_data_pid_active`: the target write, not
      retried, then reads until the count of rows read reaches the
      segment's length. */
  function PidSegment(a: Acq, target: F32, length: int): (o: Outcome)
    requires Bounded(a.counters)
    ensures o.failure.None? ==> Bounded(o.acq.counters) && o.acq.counters.rdTxReg >= length
  {
    var a1 := a.(bus := Issue(a.bus, WriteRegisters(REG_WRITE_ADDR_PID, PidTarget(target))));
    if !Next(a.bus).Answer? then Outcome(a1, Some(PidWriteError)) else Drain(a1, length)
  }

  /** The loop over the segments; the count of rows read is never reset
      between segments. */
  function PidSteps(a: Acq, steps: seq<(F32, int)>): (o: Outcome)
    requires Bounded(a.counters)
    ensures o.failure.None? ==> Bounded(o.acq.counters)
    decreases |steps|
  {
    if steps == [] then Outcome(a, None)
    else
      var o := PidSegment(a, steps[0].0, steps[0].1);
      if o.failure.Some? then o else PidSteps(o.acq, steps[1..])
  }

  /** A segment issues its target write first and reads only after it. */
  lemma PidSegmentFacts(a: Acq, target: F32, length: int)
    requires Bounded(a.counters)
    ensures var o := PidSegment(a, target, length);
      Extends(o.acq.bus.log, a.bus.log) && Stopped(o.acq.bus.log) == Stopped(a.bus.log) &&
      PotPayload(o.acq.bus.log) == PotPayload(a.bus.log) &&
      o.acq.counters.rdTxReg >= a.counters.rdTxReg &&
      (Tracked(a) ==> TrackedOutcome(o)) && (Counted(a, false) ==> Counted(o.acq, false))
  {
    var op := WriteRegisters(REG_WRITE_ADDR_PID, PidTarget(target));
    var a1 := a.(bus := Issue(a.bus, op));
    AppendEvent(a.bus.log, Event(op, Next(a.bus)));
    assert a1.bus.log[..|a.bus.log|] == a.bus.log;
    if Next(a.bus).Answer? {
      DrainFacts(a1, length);
      ExtendsTrans(Drain(a1, length).acq.bus.log, a1.bus.log, a.bus.log);
    }
  }

  /** A segment's target write is logged once, and a failed one is the
      last PID write of the log. */
  lemma PidSegmentWrites(a: Acq, target: F32, length: int)
    requires Bounded(a.counters)
    ensures var o := PidSegment(a, target, length);
      (o.failure.None? ==> PidWrites(o.acq.bus.log) == PidWrites(a.bus.log) + [PidTarget(target)]) &&
      (o.failure == Some(PidWriteError) ==> LastPidWriteFailed(o.acq.bus.log))
  {
    var op := WriteRegisters(REG_WRITE_ADDR_PID, PidTarget(target));
    AppendEvent(a.bus.log, Event(op, Next(a.bus)));
    if Next(a.bus).Answer? {
      DrainFacts(a.(bus := Issue(a.bus, op)), length);
    }
  }

  function PidTargets(steps: seq<(F32, int)>): (ts: seq<seq<int>>)
    ensures |ts| == |steps| && forall k | 0 <= k < |steps| :: ts[k] == PidTarget(steps[k].0)
  {
    seq(|steps|, k requires 0 <= k < |steps| => PidTarget(steps[k].0))
  }

  /** The PID segments touch neither the potentiostatic register nor the
      stop command, and only extend the log. */
  lemma {:induction false} PidStepsFrame(a: Acq, steps: seq<(F32, int)>)
    requires Bounded(a.counters)
    ensures var o := PidSteps(a, steps);
      Extends(o.acq.bus.log, a.bus.log) && Stopped(o.acq.bus.log) == Stopped(a.bus.log) &&
      PotPayload(o.acq.bus.log) == PotPayload(a.bus.log)
    decreases |steps|
  {
    if steps != [] {
      PidSegmentFacts(a, steps[0].0, steps[0].1);
      var o := PidSegment(a, steps[0].0, steps[0].1);
      if o.failure.None? {
        PidStepsFrame(o.acq, steps[1..]);
        ExtendsTrans(PidSteps(o.acq, steps[1..]).acq.bus.log, o.acq.bus.log, a.bus.log);
      }
    } else {
      assert a.bus.log[..|a.bus.log|] == a.bus.log;
    }
  }

  /** The PID segments, as the log shows them: on a normal end every
      target was written once, in order. */
  lemma {:induction false} PidStepsLog(a: Acq, steps: seq<(F32, int)>)
    requires Bounded(a.counters)
    ensures var o := PidSteps(a, steps);
      o.failure.None? ==> PidWrites(o.acq.bus.log) == PidWrites(a.bus.log) + PidTargets(steps)
    decreases |steps|
  {
    if steps != [] {
      PidSegmentWrites(a, steps[0].0, steps[0].1);
      var o := PidSegment(a, steps[0].0, steps[0].1);
      if o.failure.None? {
        PidStepsLog(o.acq, steps[1..]);
        assert PidTargets(steps) == [PidTarget(steps[0].0)] + PidTargets(steps[1..]);
        AppendAssoc(PidWrites(a.bus.log), [PidTarget(steps[0].0)], PidTargets(steps[1..]));
      }
    }
  }

  /** A failed target write ends the PID segments at once, without a
      second attempt: it is the last PID write of the log. */
  lemma {:induction false} PidStepsWriteFailure(a: Acq, steps: seq<(F32, int)>)
    requires Bounded(a.counters)
    ensures var o := PidSteps(a, steps);
      o.failure == Some(PidWriteError) ==> LastPidWriteFailed(o.acq.bus.log)
    decreases |steps|
  {
    if steps != [] {
      PidSegmentWrites(a, steps[0].0, steps[0].1);
      var o := PidSegment(a, steps[0].0, steps[0].1);
      if o.failure.None? {
        PidStepsWriteFailure(o.acq, steps[1..]);
      }
    }
  }

  /** The PID segments, as the counters show them: the count of rows read
      only grows, stays in step with the queue, and on a normal end has
      reached every segment's length. */
  lemma {:induction false} PidStepsCounts(a: Acq, steps: seq<(F32, int)>)
    requires Bounded(a.counters)
    ensures var o := PidSteps(a, steps);
      o.acq.counters.rdTxReg >= a.counters.rdTxReg &&
      (Tracked(a) ==> TrackedOutcome(o)) && (Counted(a, false) ==> Counted(o.acq, false)) &&
      (o.failure.None? ==> forall k | 0 <= k < |steps| :: o.acq.counters.rdTxReg >= steps[k].1)
    decreases |steps|
  {
    if steps != [] {
      PidSegmentFacts(a, steps[0].0, steps[0].1);
      var o := PidSegment(a, steps[0].0, steps[0].1);
      if o.failure.None? {
        PidStepsCounts(o.acq, steps[1..]);
        var o2 := PidSteps(o.acq, steps[1..]);
        if o2.failure.None? {
          assert o.acq.counters.rdTxReg >= steps[0].1;
          forall k | 0 <= k < |steps| ensures o2.acq.counters.rdTxReg >= steps[k].1 {
            if k > 0 {
              assert steps[k] == steps[1..][k - 1];
              assert o2.acq.counters.rdTxReg >= steps[1..][k - 1].1;
            } else {
              assert o2.acq.counters.rdTxReg >= o.acq.counters.rdTxReg;
            }
          }
        }
      }
    }
  }

  function Min(x: int, y: int): int
  {
    if x <= y then x else y
  }

  /** The potentiostatic loop's bookkeeping: the index and `wr_tx_reg`
      agree and are a whole number of chunks, the words accepted so far
      are the stimulus up to the index, and post-write turns are counted
      only once every word has been written. */
  ghost predicate PotInv(s: PotState, wl: seq<int>, base: seq<int>)
  {
    0 <= s.i == s.acq.counters.wrTxReg && s.i % N_REGISTER == 0 && s.i < |wl| + N_REGISTER &&
    PotPayload(s.acq.bus.log) == base + wl[..Min(s.i, |wl|)] &&
    (s.post > 0 ==> s.i >= |wl|)
  }

  /** The write half keeps the bookkeeping and touches nothing the reads
      look at. */
  lemma PotWriteFacts(a: Acq, st: int, i: nat, wl: seq<int>, base: seq<int>)
    requires Bounded(a.counters) && PotInv(PotState(a, i, 0), wl, base)
    ensures var (a', i', f) := PotWrite(a, st, i, wl);
      Extends(a'.bus.log, a.bus.log) && Stopped(a'.bus.log) == Stopped(a.bus.log) &&
      PidWrites(a'.bus.log) == PidWrites(a.bus.log) &&
      TrailingReadFailures(a'.bus.log) == TrailingReadFailures(a.bus.log) &&
      a'.blocks == a.blocks && PotInv(PotState(a', i', 0), wl, base)
  {
    PotWriteLog(a, st, i, wl);
    PotWriteInv(a, st, i, wl, base);
  }

  lemma PotWriteLog(a: Acq, st: int, i: nat, wl: seq<int>)
    ensures var a' := PotWrite(a, st, i, wl).0;
      Extends(a'.bus.log, a.bus.log) && Stopped(a'.bus.log) == Stopped(a.bus.log) &&
      PidWrites(a'.bus.log) == PidWrites(a.bus.log) &&
      TrailingReadFailures(a'.bus.log) == TrailingReadFailures(a.bus.log) &&
      a'.blocks == a.blocks
  {
    if i < |wl| && st > BUSY_DELAY_NS {
      var e := Event(WriteRegisters(REG_WRITE_ADDR_POT, Chunk(wl, i)), Next(a.bus));
      AppendEvent(a.bus.log, e);
      var a' := PotWrite(a, st, i, wl).0;
      assert a'.bus.log == a.bus.log + [e];
      assert a'.bus.log[..|a.bus.log|] == a.bus.log;
    } else {
      assert a.bus.log[..|a.bus.log|] == a.bus.log;
    }
  }

  lemma PotWriteInv(a: Acq, st: int, i: nat, wl: seq<int>, base: seq<int>)
    requires PotInv(PotState(a, i, 0), wl, base)
    ensures var (a', i', _) := PotWrite(a, st, i, wl);
      PotInv(PotState(a', i', 0), wl, base)
  {
    if i < |wl| && st > BUSY_DELAY_NS {
      var data := Chunk(wl, i);
      var e := Event(WriteRegisters(REG_WRITE_ADDR_POT, data), Next(a.bus));
      AppendEvent(a.bus.log, e);
      var (a', i', f) := PotWrite(a, st, i, wl);
      assert a'.bus.log == a.bus.log + [e];
      if Next(a.bus).Answer? {
        assert wl[..Min(i', |wl|)] == wl[..i] + data;
        AppendAssoc(base, wl[..i], data);
      }
    }
  }

  /** The two reads issue reads only and keep the counters in step. */
  lemma PotReadsFacts(a: Acq, st: int)
    requires Bounded(a.counters)
    ensures var (a', f) := PotReads(a, st);
      Extends(a'.bus.log, a.bus.log) && Stopped(a'.bus.log) == Stopped(a.bus.log) &&
      PotPayload(a'.bus.log) == PotPayload(a.bus.log) && PidWrites(a'.bus.log) == PidWrites(a.bus.log) &&
      a'.counters.wrTxReg == a.counters.wrTxReg &&
      (Tracked(a) ==> TrackedOutcome(Outcome(a', f))) &&
      (Counted(a, true) ==> Counted(a', true)) &&
      (f.None? || f == Some(ReadError) || f == Some(ConversionError))
  {
    ReadAndQueueSteps(a, st, true);
    ReadAndQueueFacts(a, st, true);
    var (a1, f1) := ReadAndQueue(a, st, true);
    if f1.None? {
      ReadAndQueueSteps(a1, st, true);
      ReadAndQueueFacts(a1, st, true);
      ExtendsTrans(ReadAndQueue(a1, st, true).0.bus.log, a1.bus.log, a.bus.log);
    }
  }

  /** A turn keeps the bookkeeping, the retry counter and the word count. */
  lemma PotTurnFacts(s: PotState, wl: seq<int>, base: seq<int>)
    requires PotBounded(s) && PotInv(s, wl, base)
    ensures var (s', f) := PotTurn(s, wl);
      Extends(s'.acq.bus.log, s.acq.bus.log) && Stopped(s'.acq.bus.log) == Stopped(s.acq.bus.log) &&
      PidWrites(s'.acq.bus.log) == PidWrites(s.acq.bus.log) &&
      (Tracked(s.acq) ==> TrackedOutcome(Outcome(s'.acq, f))) &&
      (Counted(s.acq, true) ==> Counted(s'.acq, true)) &&
      (f.None? ==> PotInv(s', wl, base)) &&
      (f.None? || f == Some(WriteError) || f == Some(ReadError) || f == Some(ConversionError))
  {
    PotTurnLog(s, wl);
    PotTurnCounters(s, wl);
    PotTurnInv(s, wl, base);
  }

  lemma PotTurnLog(s: PotState, wl: seq<int>)
    requires PotBounded(s)
    ensures var s' := PotTurn(s, wl).0;
      Extends(s'.acq.bus.log, s.acq.bus.log) && Stopped(s'.acq.bus.log) == Stopped(s.acq.bus.log) &&
      PidWrites(s'.acq.bus.log) == PidWrites(s.acq.bus.log)
  {
    var st := Reading(s.acq.bus);
    var a0 := s.acq.(bus := Tick(s.acq.bus));
    PotWriteSteps(a0, st, s.i, wl);
    PotWriteLog(a0, st, s.i, wl);
    var (a1, i1, f1) := PotWrite(a0, st, s.i, wl);
    var o := PotTurn(s, wl);
    if f1.None? {
      PotReadsFacts(a1, st);
      var a2 := PotReads(a1, st).0;
      ExtendsTrans(a2.bus.log, a1.bus.log, a0.bus.log);
      assert o.0.acq == a2;
    } else {
      assert o.0.acq == a1;
    }
  }

  lemma PotTurnCounters(s: PotState, wl: seq<int>)
    requires PotBounded(s)
    ensures var (s', f) := PotTurn(s, wl);
      (Tracked(s.acq) ==> TrackedOutcome(Outcome(s'.acq, f))) &&
      (Counted(s.acq, true) ==> Counted(s'.acq, true)) &&
      (f.None? || f == Some(WriteError) || f == Some(ReadError) || f == Some(ConversionError))
  {
    var st := Reading(s.acq.bus);
    var a0 := s.acq.(bus := Tick(s.acq.bus));
    PotWriteSteps(a0, st, s.i, wl);
    PotWriteLog(a0, st, s.i, wl);
    var (a1, i1, f1) := PotWrite(a0, st, s.i, wl);
    var o := PotTurn(s, wl);
    if f1.None? {
      PotReadsFacts(a1, st);
      var (a2, f2) := PotReads(a1, st);
      assert o.0.acq == a2 && o.1 == f2;
    } else {
      assert o.0.acq == a1 && o.1 == f1;
    }
  }

  lemma PotReadsKeep(a: Acq, st: int)
    requires Bounded(a.counters)
    ensures var a' := PotReads(a, st).0;
      PotPayload(a'.bus.log) == PotPayload(a.bus.log) && a'.counters.wrTxReg == a.counters.wrTxReg
  {
    PotReadsFacts(a, st);
  }

  lemma PotInvAfterReads(a1: Acq, a2: Acq, i: nat, post: nat, post': nat, wl: seq<int>, base: seq<int>)
    requires PotInv(PotState(a1, i, post), wl, base)
    requires PotPayload(a2.bus.log) == PotPayload(a1.bus.log) && a2.counters.wrTxReg == a1.counters.wrTxReg
    requires post' > 0 ==> i >= |wl|
    ensures PotInv(PotState(a2, i, post'), wl, base)
  {
  }

  lemma PotTurnInv(s: PotState, wl: seq<int>, base: seq<int>)
    requires PotBounded(s) && PotInv(s, wl, base)
    ensures var (s', f) := PotTurn(s, wl);
      f.None? ==> PotInv(s', wl, base)
  {
    var st := Reading(s.acq.bus);
    var a0 := s.acq.(bus := Tick(s.acq.bus));
    PotWriteSteps(a0, st, s.i, wl);
    PotWriteInv(a0, st, s.i, wl, base);
    var (a1, i1, f1) := PotWrite(a0, st, s.i, wl);
    var o := PotTurn(s, wl);
    if f1.None? {
      PotReadsKeep(a1, st);
      var (a2, f2) := PotReads(a1, st);
      if f2.None? {
        var post := if i1 >= |wl| then s.post + 1 else s.post;
        assert o == (PotState(a2, i1, post), None);
        PotInvAfterReads(a1, a2, i1, 0, post, wl, base);
      } else {
        assert o.1 == f2;
      }
    } else {
      assert o.1 == f1;
    }
  }

  /** The potentiostatic loop only extends the log, with reads and
      potentiostatic writes, and keeps the retry counter and the word count
      in step. */
  lemma {:induction false} PotLoopFrame(s: PotState, wl: seq<int>, base: seq<int>)
    requires PotBounded(s) && PotInv(s, wl, base)
    ensures var o := PotLoop(s, wl);
      Extends(o.acq.bus.log, s.acq.bus.log) && Stopped(o.acq.bus.log) == Stopped(s.acq.bus.log) &&
      PidWrites(o.acq.bus.log) == PidWrites(s.acq.bus.log) &&
      (Tracked(s.acq) ==> TrackedOutcome(o)) &&
      (Counted(s.acq, true) ==> Counted(o.acq, true))
    decreases |s.acq.bus.clock|, |s.acq.bus.replies|, Max0(|wl| - s.i),
      WRITE_ERROR_LIMIT - s.acq.counters.wrErrCnt, Max0(POST_READ_ATTEMPTS - s.post),
      READ_ERROR_LIMIT - s.acq.counters.rdErrCnt
  {
    var c := s.acq.counters;
    if s.post >= POST_READ_ATTEMPTS && (c.wrTxReg == 0 || c.rdTxReg >= 2 * c.wrTxReg) {
      assert s.acq.bus.log[..|s.acq.bus.log|] == s.acq.bus.log;
    } else {
      PotTurnProgress(s, wl);
      PotTurnFacts(s, wl, base);
      var (s', f) := PotTurn(s, wl);
      if f.None? {
        PotLoopFrame(s', wl, base);
        ExtendsTrans(PotLoop(s', wl).acq.bus.log, s'.acq.bus.log, s.acq.bus.log);
      }
    }
  }

  /** How the potentiostatic loop ends.  Normally: every word of the
      stimulus was accepted once, in order; `wr_tx_reg` is the stimulus
      length rounded up to whole chunks; and twice that many words have
      been read.  With a division by zero: only when the stimulus is empty. */
  lemma {:induction false} PotLoopEnd(s: PotState, wl: seq<int>, base: seq<int>)
    requires PotBounded(s) && PotInv(s, wl, base)
    ensures var o := PotLoop(s, wl); var c := o.acq.counters;
      (o.failure.None? ==>
        Bounded(c) && PotPayload(o.acq.bus.log) == base + wl &&
        c.wrTxReg % N_REGISTER == 0 && |wl| <= c.wrTxReg < |wl| + N_REGISTER &&
        c.rdTxReg >= 2 * c.wrTxReg) &&
      (o.failure == Some(ZeroDivisionError) ==> wl == []) &&
      (o.failure.None? || o.failure == Some(WriteError) || o.failure == Some(ReadError) ||
       o.failure == Some(ConversionError) || o.failure == Some(ZeroDivisionError))
    decreases |s.acq.bus.clock|, |s.acq.bus.replies|, Max0(|wl| - s.i),
      WRITE_ERROR_LIMIT - s.acq.counters.wrErrCnt, Max0(POST_READ_ATTEMPTS - s.post),
      READ_ERROR_LIMIT - s.acq.counters.rdErrCnt
  {
    var c := s.acq.counters;
    if s.post >= POST_READ_ATTEMPTS && (c.wrTxReg == 0 || c.rdTxReg >= 2 * c.wrTxReg) {
      if c.wrTxReg != 0 {
        assert wl[..Min(s.i, |wl|)] == wl;
      }
    } else {
      PotTurnProgress(s, wl);
      PotTurnFacts(s, wl, base);
      var (s', f) := PotTurn(s, wl);
      if f.None? {
        PotLoopEnd(s', wl, base);
      }
    }
  }

  /** A zero-length stimulus never ends normally: no word is ever written,
      so after three post-write turns the drain test divides by a zero
      write count, unless a read that cannot be converted ends the run
      first.  Too few read errors accumulate in three turns to reach the
      read limit. */
  lemma {:induction false} EmptyStimulusDivides(s: PotState)
    requires PotBounded(s) && s.acq.counters.wrTxReg == 0 && s.post <= POST_READ_ATTEMPTS
    requires s.acq.counters.rdErrCnt + 2 * (POST_READ_ATTEMPTS - s.post) <= READ_ERROR_LIMIT
    ensures PotLoop(s, []).failure == Some(ZeroDivisionError) || PotLoop(s, []).failure == Some(ConversionError)
    decreases POST_READ_ATTEMPTS - s.post
  {
    if s.post < POST_READ_ATTEMPTS {
      PotTurnProgress(s, []);
      var st := Reading(s.acq.bus);
      var a0 := s.acq.(bus := Tick(s.acq.bus));
      PotWriteSteps(a0, st, s.i, []);
      PotReadsSteps(a0, st);
      var (s', f) := PotTurn(s, []);
      if f.None? {
        EmptyStimulusDivides(s');
      }
    }
  }

  // Setup, teardown and the three procedures.

  /** The commands `_setup_measurement` sends, in order: the gain when one
      is given, CLEAR_FIFO and FIFO_START when asked for, then SET_SWITCH 1. */
  function SetupCommands(tiaGain: Option<int>, clearFifo: bool, fifoStart: bool): (cmds: seq<(int, int)>)
    ensures |cmds| >= 1 && cmds[|cmds| - 1] == (CMD_SET_SWITCH, 1)
    ensures forall k | 0 <= k < |cmds| :: cmds[k] != (CMD_TEST_STOP, 1) && cmds[k].0 != CMD_PID_START
  {
    (if tiaGain.Some? then [(CMD_SET_TIA_GAIN, tiaGain.value)] else []) +
    (if clearFifo then [(CMD_CLEAR_FIFO, 1)] else []) +
    (if fifoStart then [(CMD_FIFO_START, 1)] else []) +
    [(CMD_SET_SWITCH, 1)]
  }

  /** `_teardown_measurement`: switch off, then stop. */
  const TEARDOWN_COMMANDS: seq<(int, int)> := [(CMD_SET_SWITCH, 0), (CMD_TEST_STOP, 1)]

  /** Commands sent one after another; the first failure propagates and
      ends the sequence. */
  function SendAll(b: Bus, cmds: seq<(int, int)>): (r: (Bus, Option<Failure>))
    decreases |cmds|
  {
    if cmds == [] then (b, None)
    else
      var (b1, f) := Command(b, cmds[0].0, cmds[0].1);
      if f.Some? then (b1, f) else SendAll(b1, cmds[1..])
  }

  function CommandOps(cmds: seq<(int, int)>): (ops: seq<Op>)
    ensures |ops| == |cmds|
    ensures forall k | 0 <= k < |cmds| :: ops[k] == WriteRegisters(COMMAND_ADDR, [cmds[k].0, cmds[k].1])
  {
    seq(|cmds|, k requires 0 <= k < |cmds| => WriteRegisters(COMMAND_ADDR, [cmds[k].0, cmds[k].1]))
  }

  lemma OpsPrefix(log: seq<Event>, n: nat)
    requires n <= |log|
    ensures Ops(log)[..n] == Ops(log[..n])
  {
  }

  /** A command sequence never reads and reaches no register but the
      command register. */
  lemma {:induction false} SendAllFrame(b: Bus, cmds: seq<(int, int)>)
    requires forall k | 0 <= k < |cmds| :: cmds[k].0 != CMD_PID_START
    ensures var (b', f) := SendAll(b, cmds);
      Extends(b'.log, b.log) &&
      PotPayload(b'.log) == PotPayload(b.log) && PidWrites(b'.log) == PidWrites(b.log) &&
      TrailingReadFailures(b'.log) == TrailingReadFailures(b.log) &&
      (f.None? || f.value.CommandExit? || f.value.CommandError?)
    decreases |cmds|
  {
    if cmds == [] {
      assert b.log[..|b.log|] == b.log;
    } else {
      var op := WriteRegisters(COMMAND_ADDR, [cmds[0].0, cmds[0].1]);
      var (b1, f) := Command(b, cmds[0].0, cmds[0].1);
      AppendEvent(b.log, Event(op, Next(b)));
      assert b1.log[..|b.log|] == b.log;
      if f.None? {
        SendAllFrame(b1, cmds[1..]);
        ExtendsTrans(SendAll(b1, cmds[1..]).0.log, b1.log, b.log);
      }
    }
  }

  /** A command sequence without TEST_STOP leaves the stopped state alone. */
  lemma {:induction false} SendAllNoStop(b: Bus, cmds: seq<(int, int)>)
    requires forall k | 0 <= k < |cmds| :: cmds[k] != (CMD_TEST_STOP, 1)
    ensures Stopped(SendAll(b, cmds).0.log) == Stopped(b.log)
    decreases |cmds|
  {
    if cmds != [] {
      var op := WriteRegisters(COMMAND_ADDR, [cmds[0].0, cmds[0].1]);
      var (b1, f) := Command(b, cmds[0].0, cmds[0].1);
      AppendEvent(b.log, Event(op, Next(b)));
      if f.None? {
        assert forall k | 0 <= k < |cmds[1..]| :: cmds[1..][k] == cmds[k + 1];
        SendAllNoStop(b1, cmds[1..]);
      }
    }
  }

  /** A command sequence that ends normally issues exactly its commands, in
      order. */
  lemma {:induction false} SendAllOps(b: Bus, cmds: seq<(int, int)>)
    ensures var (b', f) := SendAll(b, cmds);
      f.None? ==> Ops(b'.log) == Ops(b.log) + CommandOps(cmds)
    decreases |cmds|
  {
    if cmds == [] {
      assert Ops(b.log) + CommandOps(cmds) == Ops(b.log);
    } else {
      var op := WriteRegisters(COMMAND_ADDR, [cmds[0].0, cmds[0].1]);
      var (b1, f) := Command(b, cmds[0].0, cmds[0].1);
      if f.None? {
        SendAllOps(b1, cmds[1..]);
        assert b1.log == b.log + [Event(op, Next(b))];
        OpsAppend(b.log, [Event(op, Next(b))]);
        assert Ops([Event(op, Next(b))]) == [op];
        CommandOpsCons(cmds);
        AppendAssoc(Ops(b.log), [op], CommandOps(cmds[1..]));
      }
    }
  }

  lemma CommandOpsCons(cmds: seq<(int, int)>)
    requires cmds != []
    ensures CommandOps(cmds) == [WriteRegisters(COMMAND_ADDR, [cmds[0].0, cmds[0].1])] + CommandOps(cmds[1..])
  {
  }

  /** The teardown stops the instrument exactly when it ends normally. */
  lemma TeardownStops(b: Bus)
    ensures var (b', f) := SendAll(b, TEARDOWN_COMMANDS);
      (f.None? ==> Stopped(b'.log)) && (f.Some? ==> Stopped(b'.log) == Stopped(b.log))
  {
    var td := TEARDOWN_COMMANDS;
    var (b1, f1) := Command(b, CMD_SET_SWITCH, 0);
    AppendEvent(b.log, Event(WriteRegisters(COMMAND_ADDR, [CMD_SET_SWITCH, 0]), Next(b)));
    assert SendAll(b, td) == if f1.Some? then (b1, f1) else SendAll(b1, td[1..]);
    if f1.None? {
      var (b2, f2) := Command(b1, CMD_TEST_STOP, 1);
      assert td[1..] == [(CMD_TEST_STOP, 1)] && td[1..][1..] == [];
      assert SendAll(b1, td[1..]) == if f2.Some? then (b2, f2) else SendAll(b2, []);
      AppendEvent(b1.log, Event(STOP_OP, Next(b1)));
    }
  }

  /** A procedure's normal end: `_teardown_measurement`.  On a failure the
      exception propagates and the teardown is skipped. */
  function Finish(o: Outcome): Outcome
  {
    if o.failure.Some? then o
    else
      var (b, f) := SendAll(o.acq.bus, TEARDOWN_COMMANDS);
      Outcome(o.acq.(bus := b), f)
  }

  /** What every procedure promises about its run: the instrument is
      stopped exactly when the run ends normally; a read error is raised
      exactly when more than 16 reads failed since the last data; and a
      normal run starts with the setup commands and ends with the teardown
      commands. */
  ghost predicate RunShape(b: Bus, setup: seq<(int, int)>, o: Outcome)
  {
    RunEnds(b, o) && RunOps(b, setup, o)
  }

  ghost predicate RunEnds(b: Bus, o: Outcome)
  {
    var log := o.acq.bus.log;
    Extends(log, b.log) &&
    (o.failure.None? <==> Stopped(log)) &&
    (o.failure == Some(ReadError) <==> TrailingReadFailures(log) > READ_ERROR_LIMIT)
  }

  ghost predicate RunOps(b: Bus, setup: seq<(int, int)>, o: Outcome)
  {
    var log := o.acq.bus.log;
    o.failure.None? ==>
      |log| >= |b.log| + |setup| + |TEARDOWN_COMMANDS| &&
      Ops(log)[..|b.log| + |setup|] == Ops(b.log) + CommandOps(setup) &&
      Ops(log)[|log| - |TEARDOWN_COMMANDS|..] == CommandOps(TEARDOWN_COMMANDS)
  }

  /** The shape of a run whose setup succeeded, from the facts of its loop. */
  lemma RunShapeOfLoop(b: Bus, setup: seq<(int, int)>, o: Outcome)
    requires forall k | 0 <= k < |setup| :: setup[k] != (CMD_TEST_STOP, 1) && setup[k].0 != CMD_PID_START
    requires !Stopped(b.log) && TrailingReadFailures(b.log) == 0
    requires SendAll(b, setup).1.None?
    requires var b1 := SendAll(b, setup).0;
      Extends(o.acq.bus.log, b1.log) && Stopped(o.acq.bus.log) == Stopped(b1.log) && TrackedOutcome(o)
    requires o.failure.None? ==> Bounded(o.acq.counters)
    ensures RunShape(b, setup, Finish(o))
    ensures PotPayload(Finish(o).acq.bus.log) == PotPayload(o.acq.bus.log)
    ensures PidWrites(Finish(o).acq.bus.log) == PidWrites(o.acq.bus.log)
    ensures Finish(o).acq.blocks == o.acq.blocks && Finish(o).acq.counters == o.acq.counters
  {
    var b1 := SendAll(b, setup).0;
    SendAllFrame(b, setup);
    SendAllNoStop(b, setup);
    SendAllOps(b, setup);
    ExtendsTrans(o.acq.bus.log, b1.log, b.log);
    if o.failure.None? {
      TeardownShape(b, b1, setup, o.acq);
    } else {
      assert o.acq.bus.log[..|o.acq.bus.log|] == o.acq.bus.log;
    }
  }

  /** The teardown after a normal loop end. */
  lemma TeardownShape(b: Bus, b1: Bus, setup: seq<(int, int)>, a: Acq)
    requires Extends(b1.log, b.log) && Ops(b1.log) == Ops(b.log) + CommandOps(setup)
    requires Extends(a.bus.log, b1.log) && !Stopped(a.bus.log)
    requires Tracked(a) && Bounded(a.counters)
    ensures RunShape(b, setup, Finish(Outcome(a, None)))
    ensures PotPayload(Finish(Outcome(a, None)).acq.bus.log) == PotPayload(a.bus.log)
    ensures PidWrites(Finish(Outcome(a, None)).acq.bus.log) == PidWrites(a.bus.log)
  {
    TeardownEnds(b, b1, a);
    TeardownOps(b, b1, setup, a);
  }

  lemma TeardownEnds(b: Bus, b1: Bus, a: Acq)
    requires Extends(b1.log, b.log) && Extends(a.bus.log, b1.log) && !Stopped(a.bus.log)
    requires Tracked(a) && Bounded(a.counters)
    ensures RunEnds(b, Finish(Outcome(a, None)))
    ensures PotPayload(Finish(Outcome(a, None)).acq.bus.log) == PotPayload(a.bus.log)
    ensures PidWrites(Finish(Outcome(a, None)).acq.bus.log) == PidWrites(a.bus.log)
  {
    SendAllFrame(a.bus, TEARDOWN_COMMANDS);
    TeardownStops(a.bus);
    var b2 := SendAll(a.bus, TEARDOWN_COMMANDS).0;
    ExtendsTrans(a.bus.log, b1.log, b.log);
    ExtendsTrans(b2.log, a.bus.log, b.log);
  }

  lemma TeardownOps(b: Bus, b1: Bus, setup: seq<(int, int)>, a: Acq)
    requires Extends(b1.log, b.log) && Ops(b1.log) == Ops(b.log) + CommandOps(setup)
    requires Extends(a.bus.log, b1.log)
    ensures RunOps(b, setup, Finish(Outcome(a, None)))
  {
    SendAllFrame(a.bus, TEARDOWN_COMMANDS);
    SendAllOps(a.bus, TEARDOWN_COMMANDS);
    var (b2, f2) := SendAll(a.bus, TEARDOWN_COMMANDS);
    ExtendsTrans(b2.log, a.bus.log, b1.log);
    if f2.None? {
      OpsPrefix(b2.log, |b1.log|);
      assert Ops(b2.log)[|b2.log| - |TEARDOWN_COMMANDS|..] == CommandOps(TEARDOWN_COMMANDS);
    }
  }

  /** The shape of a run whose setup failed. */
  lemma RunShapeOfSetupFailure(b: Bus, setup: seq<(int, int)>)
    requires forall k | 0 <= k < |setup| :: setup[k] != (CMD_TEST_STOP, 1) && setup[k].0 != CMD_PID_START
    requires !Stopped(b.log) && TrailingReadFailures(b.log) == 0
    requires SendAll(b, setup).1.Some?
    ensures var (b1, f1) := SendAll(b, setup);
      RunShape(b, setup, Outcome(Acq(b1, FRESH, []), f1)) &&
      PotPayload(b1.log) == PotPayload(b.log) && PidWrites(b1.log) == PidWrites(b.log) &&
      (f1.value.CommandExit? || f1.value.CommandError?)
  {
    SendAllFrame(b, setup);
    SendAllNoStop(b, setup);
  }

  /** `_read_write_ocp`: setup with the FIFO cleared and started, then
      reads until the rows read reach twice the number of time stamps,
      then teardown. */
  function OcpRun(b: Bus, tiaGain: Option<int>, samples: nat): Outcome
  {
    var (b1, f1) := SendAll(b, SetupCommands(tiaGain, true, true));
    if f1.Some? then Outcome(Acq(b1, FRESH, []), f1)
    else Finish(Drain(Acq(b1, FRESH, []), 2 * samples))
  }

  /** `_read_write_data_pid_active`: setup with the FIFO cleared but not
      started, then the segments, then teardown. */
  function PidActiveRun(b: Bus, tiaGain: Option<int>, steps: seq<(F32, int)>): Outcome
  {
    var (b1, f1) := SendAll(b, SetupCommands(tiaGain, true, false));
    if f1.Some? then Outcome(Acq(b1, FRESH, []), f1)
    else Finish(PidSteps(Acq(b1, FRESH, []), steps))
  }

  /** The words written for a potentiostatic stimulus: each float32 as two
      16-bit words, low word first. */
  function WriteList(applied: seq<F32>): (wl: seq<int>)
    ensures |wl| == 2 * |applied|
  {
    AsInts(FloatsToWords(applied))
  }

  /** `_read_write_data_pid_inactive`: setup with the FIFO cleared and
      started, then the write-and-read loop from index 0, then teardown. */
  function PidInactiveRun(b: Bus, tiaGain: Option<int>, applied: seq<F32>): Outcome
  {
    var (b1, f1) := SendAll(b, SetupCommands(tiaGain, true, true));
    if f1.Some? then Outcome(Acq(b1, FRESH, []), f1)
    else Finish(PotLoop(PotState(Acq(b1, FRESH, []), 0, 0), WriteList(applied)))
  }

  /** The open-circuit procedure: the run has the common shape, only reads
      between setup and teardown, and a normal end has queued at least
      `2 * len(time)` rows. */
  lemma OcpRunProperties(b: Bus, tiaGain: Option<int>, samples: nat)
    requires !Stopped(b.log) && TrailingReadFailures(b.log) == 0
    ensures var o := OcpRun(b, tiaGain, samples);
      RunShape(b, SetupCommands(tiaGain, true, true), o) &&
      PotPayload(o.acq.bus.log) == PotPayload(b.log) && PidWrites(o.acq.bus.log) == PidWrites(b.log) &&
      (o.failure.None? ==> |Flatten(o.acq.blocks)| >= 2 * samples)
  {
    var setup := SetupCommands(tiaGain, true, true);
    var (b1, f1) := SendAll(b, setup);
    SendAllFrame(b, setup);
    if f1.Some? {
      RunShapeOfSetupFailure(b, setup);
    } else {
      var a := Acq(b1, FRESH, []);
      DrainFacts(a, 2 * samples);
      RunShapeOfLoop(b, setup, Drain(a, 2 * samples));
    }
  }

  /** The PID-regulated procedure has the common shape and never writes
      the potentiostatic register. */
  lemma PidActiveRunShape(b: Bus, tiaGain: Option<int>, steps: seq<(F32, int)>)
    requires !Stopped(b.log) && TrailingReadFailures(b.log) == 0
    ensures var o := PidActiveRun(b, tiaGain, steps);
      RunShape(b, SetupCommands(tiaGain, true, false), o) && PotPayload(o.acq.bus.log) == PotPayload(b.log)
  {
    var setup := SetupCommands(tiaGain, true, false);
    var (b1, f1) := SendAll(b, setup);
    if f1.Some? {
      RunShapeOfSetupFailure(b, setup);
    } else {
      SendAllFrame(b, setup);
      var a := Acq(b1, FRESH, []);
      PidStepsFrame(a, steps);
      PidStepsCounts(a, steps);
      RunShapeOfLoop(b, setup, PidSteps(a, steps));
    }
  }

  /** What the PID-regulated procedure achieves: a normal end wrote every
      segment's target once, in order, and queued at least as many rows as
      the longest segment; a failed target write is the last operation of
      the run. */
  lemma PidActiveRunResult(b: Bus, tiaGain: Option<int>, steps: seq<(F32, int)>)
    ensures var o := PidActiveRun(b, tiaGain, steps);
      (o.failure.None? ==>
        PidWrites(o.acq.bus.log) == PidWrites(b.log) + PidTargets(steps) &&
        forall k | 0 <= k < |steps| :: |Flatten(o.acq.blocks)| >= steps[k].1) &&
      (o.failure == Some(PidWriteError) ==> LastPidWriteFailed(o.acq.bus.log))
  {
    var setup := SetupCommands(tiaGain, true, false);
    var (b1, f1) := SendAll(b, setup);
    SendAllFrame(b, setup);
    if f1.None? {
      var a := Acq(b1, FRESH, []);
      PidStepsLog(a, steps);
      PidStepsWriteFailure(a, steps);
      PidStepsCounts(a, steps);
      var o := PidSteps(a, steps);
      if o.failure.None? {
        SendAllFrame(o.acq.bus, TEARDOWN_COMMANDS);
      }
    }
  }

  /** The potentiostatic procedure has the common shape and never writes a
      PID target. */
  lemma PidInactiveRunShape(b: Bus, tiaGain: Option<int>, applied: seq<F32>)
    requires !Stopped(b.log) && TrailingReadFailures(b.log) == 0
    ensures var o := PidInactiveRun(b, tiaGain, applied);
      RunShape(b, SetupCommands(tiaGain, true, true), o) && PidWrites(o.acq.bus.log) == PidWrites(b.log)
  {
    var setup := SetupCommands(tiaGain, true, true);
    var (b1, f1) := SendAll(b, setup);
    if f1.Some? {
      RunShapeOfSetupFailure(b, setup);
    } else {
      SendAllFrame(b, setup);
      var wl := WriteList(applied);
      var s := PotState(Acq(b1, FRESH, []), 0, 0);
      assert wl[..Min(0, |wl|)] == [];
      PotLoopFrame(s, wl, PotPayload(b1.log));
      PotLoopEnd(s, wl, PotPayload(b1.log));
      RunShapeOfLoop(b, setup, PotLoop(s, wl));
    }
  }

  /** What the potentiostatic procedure achieves: a normal end had every
      word of the stimulus accepted once, in order, and queued at least one
      row per applied sample; a division by zero happens only for an empty
      stimulus, and an empty stimulus never ends normally. */
  lemma PidInactiveRunResult(b: Bus, tiaGain: Option<int>, applied: seq<F32>)
    ensures var o := PidInactiveRun(b, tiaGain, applied);
      (o.failure.None? ==>
        PotPayload(o.acq.bus.log) == PotPayload(b.log) + WriteList(applied) &&
        |Flatten(o.acq.blocks)| >= |applied|) &&
      (o.failure == Some(ZeroDivisionError) ==> applied == []) &&
      (applied == [] ==> o.failure.Some? && o.failure != Some(ReadError) && o.failure != Some(WriteError))
  {
    var setup := SetupCommands(tiaGain, true, true);
    var (b1, f1) := SendAll(b, setup);
    SendAllFrame(b, setup);
    if f1.None? {
      var wl := WriteList(applied);
      var s := PotState(Acq(b1, FRESH, []), 0, 0);
      assert wl[..Min(0, |wl|)] == [];
      PotLoopFrame(s, wl, PotPayload(b1.log));
      PotLoopEnd(s, wl, PotPayload(b1.log));
      if applied == [] {
        EmptyStimulusDivides(s);
      }
      var o := PotLoop(s, wl);
      if o.failure.None? {
        SendAllFrame(o.acq.bus, TEARDOWN_COMMANDS);
      }
    }
  }
}
