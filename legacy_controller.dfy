/** The first-generation controller (`src/controller.py`): a PID-regulated
    loop that holds a current for a given time, and a potentiostatic loop
    that writes a constant stimulus and reads the converted samples back,
    both with an optional reducing factor that averages each read into
    fewer rows.  Its error counters are kept but have no ceiling, so
    `SlaveReportedException`s are retried for as long as the instrument
    sends them.  The bus is the scripted oracle of `Device`. */
module LegacyController {
  import opened Common
  import opened Words
  import opened Device
  import Acquisition

  /** `t_point`: the interval the potentiostatic stimulus assumes, in seconds. */
  const T_POINT: real := 0.00036
  /** The `reducing_factor` default of the PID-regulated loop; the
      potentiostatic loop defaults to none. */
  const PID_REDUCING_FACTOR: nat := 5

  // ---------------------------------------------------------------------
  // The reducing partition
  // ---------------------------------------------------------------------

  /** Block `k` of `pkgNum`: `start = k * pkg_len`, and `end = (k + 1) *
      pkg_len` except for the last block, which ends at `n`. */
  function BlockBounds(n: nat, pkgNum: nat, k: nat): (r: (nat, nat))
    requires 0 < pkgNum <= n && k < pkgNum
    ensures r.0 < r.1 <= n && r.0 == k * (n / pkgNum)
    ensures k == 0 ==> r.0 == 0
    ensures k < pkgNum - 1 ==> r.1 == (k + 1) * (n / pkgNum) && r.1 - r.0 == n / pkgNum
    ensures k == pkgNum - 1 ==> r.1 == n && r.1 - r.0 == n / pkgNum + n % pkgNum
  {
    BlockFacts(n, pkgNum, k);
    var w := n / pkgNum;
    (k * w, if k != pkgNum - 1 then (k + 1) * w else n)
  }

  lemma BlockFacts(n: nat, pkgNum: nat, k: nat)
    requires 0 < pkgNum <= n && k < pkgNum
    ensures var w := n / pkgNum;
      w >= 1 && k * w < (k + 1) * w && (k + 1) * w <= pkgNum * w <= n && (pkgNum - 1) * w < n &&
      (k + 1) * w - k * w == w && n - (pkgNum - 1) * w == w + n % pkgNum
  {
    var w := n / pkgNum;
    assert w * pkgNum + n % pkgNum == n;
    MulMono(k + 1, pkgNum, w);
    assert (k + 1) * w == k * w + w;
    assert pkgNum * w == (pkgNum - 1) * w + w;
  }

  lemma MulMono(a: nat, b: nat, c: nat)
    requires a <= b
    ensures a * c <= b * c
  {
  }

  /** The blocks `reduce` averages a read of `n` rows into:
      `pkg_num = n // rf` of them, of width `n // pkg_num`.  None stands for
      the `ZeroDivisionError` of a zero factor or of `pkg_num == 0`. */
  function Partition(n: nat, rf: nat): (r: Option<seq<(nat, nat)>>)
    ensures r.Some? ==> forall k | 0 <= k < |r.value| :: r.value[k].0 < r.value[k].1 <= n
  {
    if rf == 0 || n / rf == 0 then None
    else
      DivLe(n, rf);
      Some(seq(n / rf, k requires 0 <= k < n / rf => BlockBounds(n, n / rf, k)))
  }

  /** The partition exists exactly when the factor is positive and at most
      `n`; then it has `n // rf` blocks, which start at 0, end at `n`, follow
      one another without gap or overlap, are not empty, and all have width
      `n // pkg_num` except the last, which also takes the remainder. */
  lemma PartitionProperties(n: nat, rf: nat)
    ensures Partition(n, rf).None? <==> rf == 0 || n < rf
    ensures Partition(n, rf).Some? ==>
      var ps := Partition(n, rf).value;
      var w := n / |ps|;
      |ps| == n / rf && ps[0].0 == 0 && ps[|ps| - 1].1 == n &&
      (forall k | 0 <= k < |ps| - 1 :: ps[k].1 == ps[k + 1].0 && ps[k].1 - ps[k].0 == w) &&
      ps[|ps| - 1].1 - ps[|ps| - 1].0 == w + n % |ps|
  {
    if rf != 0 && n >= rf {
      DivAtLeastOne(n, rf);
      DivLe(n, rf);
      var ps := Partition(n, rf).value;
      var p := |ps|;
      forall k | 0 <= k < p - 1
        ensures ps[k].1 == ps[k + 1].0 && ps[k].1 - ps[k].0 == n / p
      {
        assert ps[k] == BlockBounds(n, p, k);
        assert ps[k + 1] == BlockBounds(n, p, k + 1);
      }
      assert ps[0] == BlockBounds(n, p, 0);
      assert ps[p - 1] == BlockBounds(n, p, p - 1);
    } else if rf != 0 {
      assert n / rf == 0;
    }
  }

  lemma DivLe(n: nat, d: nat)
    requires d >= 1
    ensures n / d <= n
  {
    assert n / d * d + n % d == n;
    MulMono(1, d, n / d);
  }

  lemma DivAtLeastOne(n: nat, d: nat)
    requires 0 < d <= n
    ensures n / d >= 1
  {
  }

  /** The block a row index falls into: `j // pkg_len`, or the last block
      for the rows of the remainder. */
  function BlockIndex(n: nat, pkgNum: nat, j: nat): nat
    requires 0 < pkgNum <= n
  {
    BlockFacts(n, pkgNum, 0);
    var w := n / pkgNum;
    if j / w < pkgNum - 1 then j / w else pkgNum - 1
  }

  lemma BlockContains(n: nat, pkgNum: nat, j: nat)
    requires 0 < pkgNum <= n && j < n
    ensures var k := BlockIndex(n, pkgNum, j);
      k < pkgNum && BlockBounds(n, pkgNum, k).0 <= j < BlockBounds(n, pkgNum, k).1
  {
    var w := n / pkgNum;
    BlockFacts(n, pkgNum, 0);
    var k := BlockIndex(n, pkgNum, j);
    assert j == (j / w) * w + j % w;
    if j / w >= pkgNum - 1 {
      MulMono(pkgNum - 1, j / w, w);
    }
  }

  lemma BlockOrder(n: nat, pkgNum: nat, k1: nat, k2: nat)
    requires 0 < pkgNum <= n && k1 < k2 < pkgNum
    ensures BlockBounds(n, pkgNum, k1).1 <= BlockBounds(n, pkgNum, k2).0
  {
    MulMono(k1 + 1, k2, n / pkgNum);
  }

  /** The block of row `j` among the blocks of `Partition(n, rf)`. */
  function BlockOf(n: nat, rf: nat, j: nat): nat
    requires rf > 0 && n >= rf
  {
    DivAtLeastOne(n, rf);
    DivLe(n, rf);
    BlockIndex(n, n / rf, j)
  }

  /** The blocks cover every row exactly once: row `j` lies in block
      `BlockOf(n, rf, j)` and in no other. */
  lemma PartitionCovers(n: nat, rf: nat, j: nat)
    requires rf > 0 && n >= rf && j < n
    ensures Partition(n, rf).Some?
    ensures var ps := Partition(n, rf).value;
      var k := BlockOf(n, rf, j);
      k < |ps| && ps[k].0 <= j < ps[k].1 &&
      forall k' | 0 <= k' < |ps| && ps[k'].0 <= j < ps[k'].1 :: k' == k
  {
    DivAtLeastOne(n, rf);
    DivLe(n, rf);
    var ps := Partition(n, rf).value;
    var p := |ps|;
    var k := BlockOf(n, rf, j);
    BlockContains(n, p, j);
    assert ps[k] == BlockBounds(n, p, k);
    forall k' | 0 <= k' < p && ps[k'].0 <= j < ps[k'].1
      ensures k' == k
    {
      assert ps[k'] == BlockBounds(n, p, k');
      if k' < k {
        BlockOrder(n, p, k', k);
      } else if k < k' {
        BlockOrder(n, p, k, k');
      }
    }
  }

  /** `reduce`'s result: block `k` of the partition averaged by `mean`, the
      `np.mean(block, axis=0)` of the source, whose float arithmetic is
      left abstract. */
  function Averages(rows: seq<Pair>, rf: nat, mean: seq<Pair> -> Pair): Option<seq<Pair>>
  {
    match Partition(|rows|, rf)
    case None => None
    case Some(ps) => Some(seq(|ps|, k requires 0 <= k < |ps| => mean(rows[ps[k].0 .. ps[k].1])))
  }

  /** Each read yields `n // rf` averaged rows, one per block, in block
      order; a factor of zero or above the row count divides by zero. */
  lemma AveragesSpec(rows: seq<Pair>, rf: nat, mean: seq<Pair> -> Pair)
    ensures Averages(rows, rf, mean).None? <==> rf == 0 || |rows| < rf
    ensures Averages(rows, rf, mean).Some? ==>
      var ps := Partition(|rows|, rf).value;
      var avg := Averages(rows, rf, mean).value;
      |avg| == |rows| / rf &&
      forall k | 0 <= k < |avg| :: avg[k] == mean(rows[ps[k].0 .. ps[k].1])
  {
    PartitionProperties(|rows|, rf);
  }

  /** `reduce`: the `for i in range(pkg_num)` loop appending one mean per
      block.  `last` is the value the loop leaves in `i`, which in the
      potentiostatic loop is also the write index. */
  method Reduce(rdList: seq<Pair>, rf: nat, mean: seq<Pair> -> Pair) returns (reduced: Option<seq<Pair>>, last: int)
    ensures reduced == Averages(rdList, rf, mean)
    ensures reduced.Some? ==> last == |rdList| / rf - 1
  {
    if rf == 0 {
      return None, 0;
    }
    var pkgNum := |rdList| / rf;
    if pkgNum == 0 {
      return None, 0;
    }
    DivLe(|rdList|, rf);
    var pkgLen := |rdList| / pkgNum;
    var out: seq<Pair> := [];
    var i := 0;
    while i < pkgNum
      invariant 0 <= i <= pkgNum
      invariant out == BlockMeans(rdList, pkgNum, mean, i)
    {
      var m := BlockMean(rdList, pkgNum, pkgLen, i, mean);
      out := out + [m];
      i := i + 1;
    }
    AveragesAre(rdList, rf, mean);
    reduced := Some(out);
    last := pkgNum - 1;
  }

  /** One turn of the `reduce` loop: block `i` runs `pkg_len` rows from
      `i * pkg_len`, the last one to the end of the read. */
  method BlockMean(rdList: seq<Pair>, pkgNum: nat, pkgLen: int, i: nat, mean: seq<Pair> -> Pair) returns (m: Pair)
    requires 0 < pkgNum <= |rdList| && i < pkgNum && pkgLen == |rdList| / pkgNum
    ensures BlockMeans(rdList, pkgNum, mean, i + 1) == BlockMeans(rdList, pkgNum, mean, i) + [m]
  {
    var start := i * pkgLen;
    var end := if i != pkgNum - 1 then (i + 1) * pkgLen else |rdList|;
    BlockMeansStep(rdList, pkgNum, mean, i, start, end);
    m := mean(rdList[start .. end]);
  }

  /** The means of the first `i` blocks of `pkgNum`. */
  function BlockMeans(rows: seq<Pair>, pkgNum: nat, mean: seq<Pair> -> Pair, i: nat): (r: seq<Pair>)
    requires 0 < pkgNum <= |rows| && i <= pkgNum
    ensures |r| == i
  {
    if i == 0 then []
    else
      var (start, end) := BlockBounds(|rows|, pkgNum, i - 1);
      BlockMeans(rows, pkgNum, mean, i - 1) + [mean(rows[start .. end])]
  }

  lemma BlockMeansStep(rows: seq<Pair>, pkgNum: nat, mean: seq<Pair> -> Pair, i: nat, start: int, end: int)
    requires 0 < pkgNum <= |rows| && i < pkgNum
    requires start == i * (|rows| / pkgNum)
    requires end == if i != pkgNum - 1 then (i + 1) * (|rows| / pkgNum) else |rows|
    ensures 0 <= start <= end <= |rows|
    ensures BlockMeans(rows, pkgNum, mean, i + 1) == BlockMeans(rows, pkgNum, mean, i) + [mean(rows[start .. end])]
  {
    assert BlockBounds(|rows|, pkgNum, i) == (start, end);
  }

  lemma {:induction false} AveragesAre(rows: seq<Pair>, rf: nat, mean: seq<Pair> -> Pair)
    requires rf > 0 && 0 < |rows| / rf
    ensures |rows| / rf <= |rows|
    ensures Averages(rows, rf, mean) == Some(BlockMeans(rows, |rows| / rf, mean, |rows| / rf))
  {
    DivLe(|rows|, rf);
    var p := |rows| / rf;
    var ps := Partition(|rows|, rf).value;
    BlockMeansAt(rows, p, mean, p);
    forall k | 0 <= k < p
      ensures BlockMeans(rows, p, mean, p)[k] == mean(rows[ps[k].0 .. ps[k].1])
    {
      assert ps[k] == BlockBounds(|rows|, p, k);
    }
    var avg := seq(|ps|, k requires 0 <= k < |ps| => mean(rows[ps[k].0 .. ps[k].1]));
    assert Averages(rows, rf, mean) == Some(avg);
    assert BlockMeans(rows, p, mean, p) == avg;
  }

  lemma {:induction false} BlockMeansAt(rows: seq<Pair>, pkgNum: nat, mean: seq<Pair> -> Pair, i: nat)
    requires 0 < pkgNum <= |rows| && i <= pkgNum
    ensures forall k | 0 <= k < i ::
      BlockMeans(rows, pkgNum, mean, i)[k] ==
        mean(rows[BlockBounds(|rows|, pkgNum, k).0 .. BlockBounds(|rows|, pkgNum, k).1])
  {
    if i > 0 {
      BlockMeansAt(rows, pkgNum, mean, i - 1);
    }
  }

  // ---------------------------------------------------------------------
  // The loops' state
  // ---------------------------------------------------------------------

  /** The entries of the `params` dictionary that the loops change:
      `busy_dly_ns` is BUSY_DELAY_NS throughout, and `transmission_st`
      feeds only the closing data-rate division, which is not modelled. */
  datatype Params = Params(wrErrCnt: int, rdErrCnt: int, wrDlySt: int, rdDlySt: int, rxTxReg: int)

  const INITIAL: Params := Params(0, 0, 0, 0, 0)

  /** Why a legacy procedure ended early.  A `SlaveReportedException` from
      a register operation is never among them: it is caught and retried. */
  datatype Fault =
    | CommandFailed(failure: Failure)  // `send_command` exited or raised
    | WriteRaised                      // `write_data` raised another exception
    | ReadRaised                       // `read_data` raised another exception
    | BadWords(error: ConvertError)    // the words read do not form whole rows
    | DivisionByZero                   // `reduce` had fewer rows than the factor
    | NegativeLength                   // `np.full` of a negative length
    | ClockExhausted                   // the scripted clock ends inside the timed loop

  /** A procedure in progress: the bus, the counters, and the blocks put on
      the data queue so far. */
  datatype Run = Run(bus: Bus, params: Params, blocks: seq<seq<Pair>>)

  datatype Outcome = Outcome(run: Run, fault: Option<Fault>)

  /** What one `read_data(0x100, n_register)` yields: the rows put on the
      queue (with the count of rows before any averaging), a caught
      `SlaveReportedException`, or an exception that ends the procedure. */
  datatype ReadStep = Rows(rows: seq<Pair>, raw: nat) | Caught | Raised(fault: Fault)

  /** The words of a read, converted and, with a reducing factor, averaged. */
  function ReadOnce(b: Bus, rf: Option<nat>, mean: seq<Pair> -> Pair): (r: ReadStep)
    ensures r.Rows? && rf.Some? ==> rf.value > 0 && r.raw / rf.value >= 1
    ensures r.Caught? <==> Next(b) == SlaveError
    ensures r.Raised? ==>
      (Next(b) == NoResponse && r.fault == ReadRaised) ||
      (Next(b).Answer? && (r.fault.BadWords? || r.fault == DivisionByZero))
  {
    match Next(b)
    case Answer(ws) =>
      (match ConvertWords(ws)
       case Err(e) => Raised(BadWords(e))
       case Ok(rows) =>
         if rf.None? then Rows(rows, |rows|)
         else match Averages(rows, rf.value, mean)
           case None => Raised(DivisionByZero)
           case Some(avg) =>
             AveragesSpec(rows, rf.value, mean);
             Rows(avg, |rows|))
    case SlaveError => Caught
    case NoResponse => Raised(ReadRaised)
  }

  /** An empty answer has no rows to average: with a reducing factor it
      ends the procedure with a division by zero. */
  lemma EmptyReadDivides(b: Bus, rf: nat, mean: seq<Pair> -> Pair)
    requires Next(b) == Answer([])
    ensures ReadOnce(b, Some(rf), mean) == Raised(DivisionByZero)
  {
    ConvertWordsSpec([]);
    AveragesSpec([], rf, mean);
  }

  const READ_OP: Op := ReadRegisters(REG_READ_ADDR, N_REGISTER)

  // ---------------------------------------------------------------------
  // The PID-regulated loop
  // ---------------------------------------------------------------------

  /** The PID loop's state: the run and `total_time`, the summed durations
      of the turns so far in seconds. */
  datatype PidState = PidState(run: Run, total: real)

  /** The write of a turn: `[PID_START] + target` once the reading is past
      the busy delay since the last failed write.  A caught failure takes a
      clock reading as the new delay start. */
  function PidWrite(a: Run, st: int, target: seq<int>): (r: (Run, Option<Fault>))
    ensures |r.0.bus.clock| <= |a.bus.clock| && r.0.blocks == a.blocks
  {
    var p := a.params;
    if st - p.wrDlySt > BUSY_DELAY_NS then
      var b := Issue(a.bus, WriteRegisters(REG_WRITE_ADDR_PID, [CMD_PID_START] + target));
      match Next(a.bus)
      case Answer(_) => (Run(b, p.(wrErrCnt := 0), a.blocks), None)
      case SlaveError => (Run(Tick(b), p.(wrDlySt := Reading(b), wrErrCnt := p.wrErrCnt + 1), a.blocks), None)
      case NoResponse => (Run(b, p, a.blocks), Some(WriteRaised))
    else (a, None)
  }

  /** The `range(0, 2)` of the read loops: two reads per turn. */
  const READS_PER_TURN: nat := 2

  /** The `for r in range(0, 2)` reads of a turn: each one past the busy
      delay since the last failed read; a read within it breaks out.  A
      caught failure also leaves the loop, takes a clock reading as the new
      delay start and counts one more read error, never reset. */
  function PidReads(a: Run, st: int, rf: Option<nat>, mean: seq<Pair> -> Pair, left: nat): (r: (Run, Option<Fault>))
    ensures |r.0.bus.clock| <= |a.bus.clock|
    decreases left
  {
    var p := a.params;
    if left == 0 || st - p.rdDlySt <= BUSY_DELAY_NS then (a, None)
    else
      var b := Issue(a.bus, READ_OP);
      match ReadOnce(a.bus, rf, mean)
      case Rows(rows, _) => PidReads(Run(b, p, a.blocks + [rows]), st, rf, mean, left - 1)
      case Caught => (Run(Tick(b), p.(rdDlySt := Reading(b), rdErrCnt := p.rdErrCnt + 1), a.blocks), None)
      case Raised(f) => (Run(b, p, a.blocks), Some(f))
  }

  /** No read is issued once the reads are used up or the read delay has
      not passed. */
  lemma PidReadsIdle(a: Run, st: int, rf: Option<nat>, mean: seq<Pair> -> Pair, left: nat)
    requires left == 0 || st - a.params.rdDlySt <= BUSY_DELAY_NS
    ensures PidReads(a, st, rf, mean, left) == (a, None)
  {
  }

  /** One turn of `while total_time < time`: a clock reading `st`, the
      write, the reads, and a closing reading whose distance from `st` is
      added to the total. */
  function PidTurn(s: PidState, target: seq<int>, rf: Option<nat>, mean: seq<Pair> -> Pair): (r: (PidState, Option<Fault>))
    ensures s.run.bus.clock != [] ==> |r.0.run.bus.clock| < |s.run.bus.clock|
  {
    var st := Reading(s.run.bus);
    var a0 := s.run.(bus := Tick(s.run.bus));
    var (a1, f1) := PidWrite(a0, st, target);
    if f1.Some? then (PidState(a1, s.total), f1)
    else
      var (a2, f2) := PidReads(a1, st, rf, mean, READS_PER_TURN);
      if f2.Some? then (PidState(a2, s.total), f2)
      else
        var end := Reading(a2.bus);
        (PidState(a2.(bus := Tick(a2.bus)), s.total + (end - st) as real / 1_000_000_000.0), None)
  }

  /** The PID loop, followed as far as the scripted clock reaches: every
      turn takes a reading, and a real clock would keep adding time. */
  function PidLoop(s: PidState, target: seq<int>, time: real, rf: Option<nat>, mean: seq<Pair> -> Pair): (r: (PidState, Option<Fault>))
    ensures r.1.None? ==> r.0.total >= time
    decreases |s.run.bus.clock|
  {
    if s.total >= time then (s, None)
    else if s.run.bus.clock == [] then (s, Some(ClockExhausted))
    else
      var (s', f) := PidTurn(s, target, rf, mean);
      if f.Some? then (s', f) else PidLoop(s', target, time, rf, mean)
  }

  // ---------------------------------------------------------------------
  // The potentiostatic loop
  // ---------------------------------------------------------------------

  /** The potentiostatic loop's state: the run and the write index `i`. */
  datatype PotState = PotState(run: Run, i: int)

  /** The write of a turn: chunk `i .. i + n_register` to the
      potentiostatic register.  The gate multiplies the delay start by 0,
      so it only asks whether the reading itself is past the busy delay.
      Success advances `i` and `rx_tx_reg` by `n_register`. */
  function PotWrite(a: Run, st: int, i: nat, wl: seq<int>): (r: (Run, int, Option<Fault>))
    requires i < |wl|
    ensures |r.0.bus.clock| <= |a.bus.clock| && |r.0.bus.replies| <= |a.bus.replies| && r.0.blocks == a.blocks
    ensures r.1 == i || r.1 == i + N_REGISTER
  {
    var p := a.params;
    if st > BUSY_DELAY_NS then
      var b := Issue(a.bus, WriteRegisters(REG_WRITE_ADDR_POT, Acquisition.Chunk(wl, i)));
      match Next(a.bus)
      case Answer(_) => (Run(b, p.(wrErrCnt := 0, rxTxReg := p.rxTxReg + N_REGISTER), a.blocks), i + N_REGISTER, None)
      case SlaveError => (Run(Tick(b), p.(wrDlySt := Reading(b), wrErrCnt := p.wrErrCnt + 1), a.blocks), i, None)
      case NoResponse => (Run(b, p, a.blocks), i, Some(WriteRaised))
    else (a, i, None)
  }

  /** The two reads of a turn, gated like the write.  A read that yields
      rows advances `rx_tx_reg` and clears the read error count.  The
      second component is the number of rows, before averaging, of the last
      read that yielded rows, if any (`last` before this read). */
  function PotReads(a: Run, st: int, rf: Option<nat>, mean: seq<Pair> -> Pair, left: nat, last: Option<nat>): (r: (Run, Option<nat>, Option<Fault>))
    ensures |r.0.bus.clock| <= |a.bus.clock| && |r.0.bus.replies| <= |a.bus.replies|
    decreases left
  {
    var p := a.params;
    if left == 0 || st <= BUSY_DELAY_NS then (a, last, None)
    else
      var b := Issue(a.bus, READ_OP);
      match ReadOnce(a.bus, rf, mean)
      case Rows(rows, raw) =>
        PotReads(Run(b, p.(rxTxReg := p.rxTxReg + N_REGISTER, rdErrCnt := 0), a.blocks + [rows]), st, rf, mean, left - 1, Some(raw))
      case Caught => (Run(Tick(b), p.(rdDlySt := Reading(b), rdErrCnt := p.rdErrCnt + 1), a.blocks), last, None)
      case Raised(f) => (Run(b, p, a.blocks), last, Some(f))
  }

  /** No read is issued once the reads are used up or the clock says the
      device is still busy. */
  lemma PotReadsIdle(a: Run, st: int, rf: Option<nat>, mean: seq<Pair> -> Pair, left: nat, last: Option<nat>)
    requires left == 0 || st <= BUSY_DELAY_NS
    ensures PotReads(a, st, rf, mean, left, last) == (a, last, None)
  {
  }

  /** One turn of `while i < n_items`: a clock reading, the write, the
      reads.  The write index moves only with the write. */
  function PotTurn(s: PotState, wl: seq<int>, rf: Option<nat>, mean: seq<Pair> -> Pair): (r: (PotState, Option<Fault>))
    requires 0 <= s.i < |wl|
    ensures r.1.None? ==> r.0.i >= 0
    ensures r.1.None? ==>
      |r.0.run.bus.clock| < |s.run.bus.clock| ||
      (|r.0.run.bus.clock| == |s.run.bus.clock| && |r.0.run.bus.replies| < |s.run.bus.replies|)
  {
    var st := Reading(s.run.bus);
    var a0 := s.run.(bus := Tick(s.run.bus));
    var (a1, i1, f1) := PotWrite(a0, st, s.i, wl);
    if f1.Some? then (PotState(a1, i1), f1)
    else
      var (a2, _, f2) := PotReads(a1, st, rf, mean, READS_PER_TURN, None);
      (PotState(a2, i1), f2)
  }

  /** The write index after the reads of a turn as the source computes
      it: the averaging loop counts with the same `i`, so a read that is
      averaged leaves `pkg_num - 1` in it. */
  function ShadowedIndex(i: int, last: Option<nat>, rf: Option<nat>): int
  {
    if rf.Some? && rf.value > 0 && last.Some? then last.value / rf.value - 1 else i
  }

  /** One turn as the source writes it. */
  function PotTurnAsWritten(s: PotState, wl: seq<int>, rf: Option<nat>, mean: seq<Pair> -> Pair): (r: (PotState, Option<Fault>))
    requires 0 <= s.i < |wl|
    ensures r.0.run == PotTurn(s, wl, rf, mean).0.run && r.1 == PotTurn(s, wl, rf, mean).1
  {
    var st := Reading(s.run.bus);
    var a0 := s.run.(bus := Tick(s.run.bus));
    var (a1, i1, f1) := PotWrite(a0, st, s.i, wl);
    if f1.Some? then (PotState(a1, i1), f1)
    else
      var (a2, last, f2) := PotReads(a1, st, rf, mean, READS_PER_TURN, None);
      (PotState(a2, ShadowedIndex(i1, last, rf)), f2)
  }

  /** As written, the index shadowing sends the stimulus again from its
      start: the first chunk is accepted, then a read of eight words (two
      rows) averaged with a reducing factor of 2 leaves 0 in the write
      index where the chunk had advanced it to 120. */
  lemma ShadowedIndexRestarts(wl: seq<int>, mean: seq<Pair> -> Pair)
    requires |wl| > 0
    ensures var b := Bus([Answer([]), Answer([0, 0, 0, 0, 0, 0, 0, 0]), SlaveError], [LATE_NS], []);
      var s := PotState(Run(b, INITIAL, []), 0);
      PotTurn(s, wl, Some(2), mean).1 == None &&
      PotTurn(s, wl, Some(2), mean).0.i == N_REGISTER &&
      PotTurnAsWritten(s, wl, Some(2), mean).0.i == 0
  {
    var b := Bus([Answer([]), Answer([0, 0, 0, 0, 0, 0, 0, 0]), SlaveError], [LATE_NS], []);
    var ws := [0, 0, 0, 0, 0, 0, 0, 0];
    ConvertWordsSpec(ws);
    var rows := ConvertWords(ws).value;
    AveragesSpec(rows, 2, mean);
    var a0 := Run(Tick(b), INITIAL, []);
    var (a1, i1, f1) := PotWrite(a0, LATE_NS, 0, wl);
    assert f1 == None && i1 == N_REGISTER;
    assert Next(a1.bus) == Answer(ws);
    assert ReadOnce(a1.bus, Some(2), mean).Rows?;
    assert ReadOnce(a1.bus, Some(2), mean).raw == 2;
  }

  /** The potentiostatic loop.  It ends: every turn uses up a clock
      reading, or, once the clock script is exhausted, a reply, and an
      exhausted reply script raises. */
  function PotLoop(s: PotState, wl: seq<int>, rf: Option<nat>, mean: seq<Pair> -> Pair): (r: (PotState, Option<Fault>))
    requires s.i >= 0
    ensures r.1.None? ==> r.0.i >= |wl|
    decreases |s.run.bus.clock|, |s.run.bus.replies|
  {
    if s.i >= |wl| then (s, None)
    else
      var (s', f) := PotTurn(s, wl, rf, mean);
      if f.Some? then (s', f) else PotLoop(s', wl, rf, mean)
  }

  // ---------------------------------------------------------------------
  // The procedures
  // ---------------------------------------------------------------------

  /** The setup of the PID loop: gain, CLEAR_FIFO, SET_SWITCH 1. */
  function PidSetup(tiaGain: int): seq<(int, int)>
  {
    Acquisition.SetupCommands(Some(tiaGain), true, false)
  }

  /** The setup of the potentiostatic loop: gain, FIFO_START, SET_SWITCH 1. */
  function PotSetup(tiaGain: int): seq<(int, int)>
  {
    Acquisition.SetupCommands(Some(tiaGain), false, true)
  }

  /** Switching off after a loop that returned normally; an exception
      skips it. */
  function Finish(o: Outcome): Outcome
  {
    if o.fault.Some? then o
    else
      var (b, f) := Acquisition.SendAll(o.run.bus, Acquisition.TEARDOWN_COMMANDS);
      Outcome(o.run.(bus := b), if f.Some? then Some(CommandFailed(f.value)) else None)
  }

  /** `_read_write_data_pid_active(current, time, tia_gain, reducing_factor)`:
      the float32 `current` is sent as its two words, low word first. */
  function PidActiveRun(b: Bus, current: F32, time: real, tiaGain: int, rf: Option<nat>,
                        mean: seq<Pair> -> Pair): Outcome
  {
    var (b1, f1) := Acquisition.SendAll(b, PidSetup(tiaGain));
    if f1.Some? then Outcome(Run(b1, INITIAL, []), Some(CommandFailed(f1.value)))
    else
      var (s, f) := PidLoop(PidState(Run(b1, INITIAL, []), 0.0), AsInts(FloatToWords(current)), time, rf, mean);
      Finish(Outcome(s.run, f))
  }

  /** The potentiostatic stimulus: `np.full(int(time // t_point), potential)`
      as float32 words; a negative length raises before any command. */
  function Stimulus(potential: F32, time: real): Result<seq<int>, Fault>
  {
    var n := FloorOf(time / T_POINT);
    if n < 0 then Err(NegativeLength) else Ok(Acquisition.WriteList(Fill(n, potential)))
  }

  /** The stimulus is `int(time // 0.00036)` copies of the potential, two
      words each in native order; it exists exactly for a non-negative time. */
  lemma StimulusSpec(potential: F32, time: real)
    ensures Stimulus(potential, time).Ok? <==> time >= 0.0
    ensures Stimulus(potential, time).Ok? ==>
      var wl := Stimulus(potential, time).value;
      var n := FloorOf(time / T_POINT);
      |wl| == 2 * n &&
      forall k | 0 <= k < n :: wl[2 * k .. 2 * k + 2] == AsInts(FloatToWords(potential))
  {
    var n := FloorOf(time / T_POINT);
    if time >= 0.0 {
      assert time / T_POINT >= 0.0;
      if n >= 0 {
        var fs := Fill(n, potential);
        var ws := FloatsToWords(fs);
        forall k | 0 <= k < n
          ensures Acquisition.WriteList(fs)[2 * k .. 2 * k + 2] == AsInts(FloatToWords(potential))
        {
          assert fs[k] == potential;
          assert ws[2 * k .. 2 * k + 2] == FloatToWords(potential);
        }
      }
    } else {
      assert time / T_POINT < 0.0;
    }
  }

  /** `_read_write_data_pid_inactive(potential, time, tia_gain, reducing_factor)`. */
  function PidInactiveRun(b: Bus, potential: F32, time: real, tiaGain: int, rf: Option<nat>,
                          mean: seq<Pair> -> Pair): Outcome
  {
    match Stimulus(potential, time)
    case Err(f) => Outcome(Run(b, INITIAL, []), Some(f))
    case Ok(wl) =>
      var (b1, f1) := Acquisition.SendAll(b, PotSetup(tiaGain));
      if f1.Some? then Outcome(Run(b1, INITIAL, []), Some(CommandFailed(f1.value)))
      else
        var (s, f) := PotLoop(PotState(Run(b1, INITIAL, []), 0), wl, rf, mean);
        Finish(Outcome(s.run, f))
  }

  // ---------------------------------------------------------------------
  // What the loops issue
  // ---------------------------------------------------------------------

  /** The writes a stretch of a loop may issue besides its reads: none,
      chunks of the stimulus, or the one PID target. */
  datatype Writes = NoWrites | StimulusWrites | TargetWrites(target: seq<int>)

  predicate Allowed(op: Op, w: Writes)
  {
    op == READ_OP ||
    match w
    case NoWrites => false
    case StimulusWrites => op.WriteRegisters? && op.address == REG_WRITE_ADDR_POT
    case TargetWrites(t) => op == WriteRegisters(REG_WRITE_ADDR_PID, [CMD_PID_START] + t)
  }

  /** `log'` continues `log` with allowed operations only. */
  ghost predicate Only(log': seq<Event>, log: seq<Event>, w: Writes)
  {
    Acquisition.Extends(log', log) && forall k | |log| <= k < |log'| :: Allowed(log'[k].op, w)
  }

  lemma OnlyRefl(log: seq<Event>, w: Writes)
    ensures Only(log, log, w)
  {
    assert log[..|log|] == log;
  }

  lemma OnlyAppend(log: seq<Event>, e: Event, w: Writes)
    requires Allowed(e.op, w)
    ensures Only(log + [e], log, w)
  {
    assert (log + [e])[..|log|] == log;
  }

  lemma OnlyTrans(l3: seq<Event>, l2: seq<Event>, l1: seq<Event>, w: Writes)
    requires Only(l3, l2, w) && Only(l2, l1, w)
    ensures Only(l3, l1, w)
  {
    Acquisition.ExtendsTrans(l3, l2, l1);
    forall k | |l1| <= k < |l3|
      ensures Allowed(l3[k].op, w)
    {
      if k < |l2| {
        assert l3[k] == l3[..|l2|][k];
      }
    }
  }

  /** Reads alone are allowed alongside any writes. */
  lemma OnlyWiden(log': seq<Event>, log: seq<Event>, w: Writes)
    requires Only(log', log, NoWrites)
    ensures Only(log', log, w)
  {
  }

  /** Reads alone leave the payload as it was. */
  lemma {:induction false} ReadsKeepPayload(log': seq<Event>, log: seq<Event>)
    requires Only(log', log, NoWrites)
    ensures Acquisition.PotPayload(log') == Acquisition.PotPayload(log)
    decreases |log'|
  {
    if |log'| > |log| {
      var l0 := log'[..|log'| - 1];
      assert l0[..|log|] == log'[..|log|];
      assert forall k | |log| <= k < |l0| :: l0[k] == log'[k];
      ReadsKeepPayload(l0, log);
      assert log'[|log'| - 1].op == READ_OP;
    } else {
      assert log' == log'[..|log|];
    }
  }

  lemma StopNotAllowed(w: Writes)
    ensures !Allowed(Acquisition.STOP_OP, w)
  {
    assert Acquisition.STOP_OP.values[0] == CMD_TEST_STOP;
  }

  /** No allowed operation is the TEST_STOP command. */
  lemma OnlyKeepsStopped(log': seq<Event>, log: seq<Event>, w: Writes)
    requires Only(log', log, w)
    ensures Acquisition.Stopped(log') == Acquisition.Stopped(log)
  {
    if Acquisition.Stopped(log') {
      var k :| 0 <= k < |log'| && log'[k].op == Acquisition.STOP_OP && log'[k].reply.Answer?;
      StopNotAllowed(w);
      assert k < |log|;
      assert log'[k] == log'[..|log|][k];
    }
    if Acquisition.Stopped(log) {
      var k :| 0 <= k < |log| && log[k].op == Acquisition.STOP_OP && log[k].reply.Answer?;
      assert log'[k] == log'[..|log|][k];
    }
  }

  /** The operation that ended a loop and the reply it got: an exception
      other than `SlaveReportedException`, or words that could not be
      converted or averaged. */
  predicate RaisedBy(log: seq<Event>, f: Fault)
  {
    |log| > 0 &&
    var e := log[|log| - 1];
    if f == WriteRaised then e.op.WriteRegisters? && e.reply == NoResponse
    else if f == ReadRaised then e.op == READ_OP && e.reply == NoResponse
    else (f.BadWords? || f == DivisionByZero) && e.op == READ_OP && e.reply.Answer?
  }

  /** The reads the instrument refused with a `SlaveReportedException`. */
  function FailedReads(log: seq<Event>): nat
  {
    if log == [] then 0
    else
      var e := log[|log| - 1];
      FailedReads(log[..|log| - 1]) + (if e.op == READ_OP && e.reply == SlaveError then 1 else 0)
  }

  lemma FailedReadsAppend(log: seq<Event>, e: Event)
    ensures FailedReads(log + [e]) == FailedReads(log) + (if e.op == READ_OP && e.reply == SlaveError then 1 else 0)
  {
    assert (log + [e])[..|log|] == log;
  }

  /** One register operation `op` issued on `b` appends one allowed event. */
  lemma IssueFacts(b: Bus, op: Op, w: Writes)
    requires Allowed(op, w)
    ensures Issue(b, op).log == b.log + [Event(op, Next(b))] && Only(Issue(b, op).log, b.log, w)
  {
    OnlyAppend(b.log, Event(op, Next(b)), w);
  }

  lemma IssueReadCounts(b: Bus)
    ensures FailedReads(Issue(b, READ_OP).log) == FailedReads(b.log) + (if Next(b) == SlaveError then 1 else 0)
    ensures Acquisition.PotPayload(Issue(b, READ_OP).log) == Acquisition.PotPayload(b.log)
  {
    Acquisition.AppendEvent(b.log, Event(READ_OP, Next(b)));
    FailedReadsAppend(b.log, Event(READ_OP, Next(b)));
  }

  lemma IssueWriteCounts(b: Bus, op: Op)
    requires op.WriteRegisters?
    ensures FailedReads(Issue(b, op).log) == FailedReads(b.log)
    ensures Acquisition.PotPayload(Issue(b, op).log) == Acquisition.PotPayload(b.log) +
      (if op.address == REG_WRITE_ADDR_POT && Next(b).Answer? then op.values else [])
  {
    Acquisition.AppendEvent(b.log, Event(op, Next(b)));
    FailedReadsAppend(b.log, Event(op, Next(b)));
  }

  /** A read that raises ends with the event that raised. */
  lemma ReadRaisedBy(b: Bus, rf: Option<nat>, mean: seq<Pair> -> Pair)
    ensures var r := ReadOnce(b, rf, mean);
      r.Raised? ==> RaisedBy(Issue(b, READ_OP).log, r.fault)
  {
  }

  // The potentiostatic loop.

  /** The write index is a whole number of chunks and the words accepted
      so far are the stimulus up to it. */
  ghost predicate Payload(s: PotState, wl: seq<int>, base: seq<int>)
  {
    0 <= s.i && s.i % N_REGISTER == 0 &&
    Acquisition.PotPayload(s.run.bus.log) == base + wl[..Acquisition.Min(s.i, |wl|)]
  }

  lemma PotWriteFacts(a: Run, st: int, i: nat, wl: seq<int>, base: seq<int>)
    requires i < |wl|
    ensures var (a', i', f) := PotWrite(a, st, i, wl);
      Only(a'.bus.log, a.bus.log, StimulusWrites) &&
      (f.Some? ==> f.value == WriteRaised && RaisedBy(a'.bus.log, WriteRaised)) &&
      (Payload(PotState(a, i), wl, base) ==> Payload(PotState(a', i'), wl, base))
  {
    PotWriteOnly(a, st, i, wl);
    PotWritePayload(a, st, i, wl, base);
  }

  lemma PotWriteOnly(a: Run, st: int, i: nat, wl: seq<int>)
    requires i < |wl|
    ensures var (a', _, f) := PotWrite(a, st, i, wl);
      Only(a'.bus.log, a.bus.log, StimulusWrites) &&
      (f.Some? ==> f.value == WriteRaised && RaisedBy(a'.bus.log, WriteRaised))
  {
    if st > BUSY_DELAY_NS {
      IssueFacts(a.bus, WriteRegisters(REG_WRITE_ADDR_POT, Acquisition.Chunk(wl, i)), StimulusWrites);
    } else {
      OnlyRefl(a.bus.log, StimulusWrites);
    }
  }

  /** A chunk accepted by the instrument extends the payload by exactly
      the words the index advances over. */
  lemma PotWritePayload(a: Run, st: int, i: nat, wl: seq<int>, base: seq<int>)
    requires i < |wl|
    ensures var (a', i', _) := PotWrite(a, st, i, wl);
      Payload(PotState(a, i), wl, base) ==> Payload(PotState(a', i'), wl, base)
  {
    if st > BUSY_DELAY_NS && Payload(PotState(a, i), wl, base) {
      var data := Acquisition.Chunk(wl, i);
      var op := WriteRegisters(REG_WRITE_ADDR_POT, data);
      IssueWriteCounts(a.bus, op);
      if Next(a.bus).Answer? {
        ChunkExtends(wl, i);
        AppendAssoc(base, wl[..i], data);
      }
    }
  }

  lemma ChunkExtends(wl: seq<int>, i: nat)
    requires i < |wl|
    ensures wl[..i] + Acquisition.Chunk(wl, i) == wl[..Acquisition.Min(i + N_REGISTER, |wl|)]
  {
  }

  lemma PotReadsFacts(a: Run, st: int, rf: Option<nat>, mean: seq<Pair> -> Pair, left: nat, last: Option<nat>)
    ensures var (a', _, f) := PotReads(a, st, rf, mean, left, last);
      Only(a'.bus.log, a.bus.log, StimulusWrites) &&
      Acquisition.PotPayload(a'.bus.log) == Acquisition.PotPayload(a.bus.log) &&
      (f.Some? ==> RaisedBy(a'.bus.log, f.value))
  {
    var log := PotReads(a, st, rf, mean, left, last).0.bus.log;
    PotReadsOnly(a, st, rf, mean, left, last);
    OnlyWiden(log, a.bus.log, StimulusWrites);
    ReadsKeepPayload(log, a.bus.log);
    PotReadsRaised(a, st, rf, mean, left, last);
  }

  lemma {:induction false} PotReadsOnly(a: Run, st: int, rf: Option<nat>, mean: seq<Pair> -> Pair, left: nat, last: Option<nat>)
    ensures Only(PotReads(a, st, rf, mean, left, last).0.bus.log, a.bus.log, NoWrites)
    decreases left
  {
    if left == 0 || st <= BUSY_DELAY_NS {
      OnlyRefl(a.bus.log, NoWrites);
    } else {
      var b := Issue(a.bus, READ_OP);
      IssueFacts(a.bus, READ_OP, NoWrites);
      var p := a.params;
      var r := ReadOnce(a.bus, rf, mean);
      if r.Rows? {
        var a1 := Run(b, p.(rxTxReg := p.rxTxReg + N_REGISTER, rdErrCnt := 0), a.blocks + [r.rows]);
        PotReadsOnly(a1, st, rf, mean, left - 1, Some(r.raw));
        OnlyTrans(PotReads(a1, st, rf, mean, left - 1, Some(r.raw)).0.bus.log, b.log, a.bus.log, NoWrites);
      }
    }
  }

  lemma {:induction false} PotReadsRaised(a: Run, st: int, rf: Option<nat>, mean: seq<Pair> -> Pair, left: nat, last: Option<nat>)
    ensures var o := PotReads(a, st, rf, mean, left, last);
      o.2.Some? ==> RaisedBy(o.0.bus.log, o.2.value)
    decreases left
  {
    if left > 0 && st > BUSY_DELAY_NS {
      var r := ReadOnce(a.bus, rf, mean);
      if r.Rows? {
        var a1 := PotReadsRowsStep(a, st, rf, mean, left, last);
        PotReadsRaised(a1, st, rf, mean, left - 1, Some(r.raw));
      } else if r.Raised? {
        PotReadsRaisedHere(a, st, rf, mean, left, last);
      }
    }
  }

  /** A read that yields rows hands the rest of the reads a run with one
      more block. */
  lemma PotReadsRowsStep(a: Run, st: int, rf: Option<nat>, mean: seq<Pair> -> Pair, left: nat, last: Option<nat>) returns (a1: Run)
    requires left > 0 && st > BUSY_DELAY_NS && ReadOnce(a.bus, rf, mean).Rows?
    ensures PotReads(a, st, rf, mean, left, last) == PotReads(a1, st, rf, mean, left - 1, Some(ReadOnce(a.bus, rf, mean).raw))
  {
    var p := a.params;
    a1 := Run(Issue(a.bus, READ_OP), p.(rxTxReg := p.rxTxReg + N_REGISTER, rdErrCnt := 0), a.blocks + [ReadOnce(a.bus, rf, mean).rows]);
  }

  /** A read that raises ends the reads with that fault logged. */
  lemma PotReadsRaisedHere(a: Run, st: int, rf: Option<nat>, mean: seq<Pair> -> Pair, left: nat, last: Option<nat>)
    requires left > 0 && st > BUSY_DELAY_NS && ReadOnce(a.bus, rf, mean).Raised?
    ensures var o := PotReads(a, st, rf, mean, left, last);
      o.2.Some? && RaisedBy(o.0.bus.log, o.2.value)
  {
    ReadRaisedBy(a.bus, rf, mean);
    assert PotReads(a, st, rf, mean, left, last) == (Run(Issue(a.bus, READ_OP), a.params, a.blocks), last, Some(ReadOnce(a.bus, rf, mean).fault));
  }

  /** One turn issues only stimulus writes and reads and keeps the
      payload in step with the index. */
  lemma PotTurnFacts(s: PotState, wl: seq<int>, rf: Option<nat>, mean: seq<Pair> -> Pair, base: seq<int>)
    requires 0 <= s.i < |wl|
    ensures var (s', f) := PotTurn(s, wl, rf, mean);
      Only(s'.run.bus.log, s.run.bus.log, StimulusWrites) &&
      (f.Some? ==> RaisedBy(s'.run.bus.log, f.value)) &&
      (Payload(s, wl, base) ==> Payload(s', wl, base))
  {
    var st := Reading(s.run.bus);
    var a0 := s.run.(bus := Tick(s.run.bus));
    PotWriteFacts(a0, st, s.i, wl, base);
    var (a1, i1, f1) := PotWrite(a0, st, s.i, wl);
    if f1.None? {
      PotReadsFacts(a1, st, rf, mean, READS_PER_TURN, None);
      OnlyTrans(PotReads(a1, st, rf, mean, READS_PER_TURN, None).0.bus.log, a1.bus.log, s.run.bus.log, StimulusWrites);
    }
  }

  /** The potentiostatic loop issues only stimulus writes and reads; it
      ends early only on a reply that is not a `SlaveReportedException`;
      the instrument has accepted the stimulus up to the index, so a
      normal end has written all of it, once, in order. */
  lemma {:induction false} PotLoopFacts(s: PotState, wl: seq<int>, rf: Option<nat>, mean: seq<Pair> -> Pair, base: seq<int>)
    requires s.i >= 0
    ensures var (s', f) := PotLoop(s, wl, rf, mean);
      Only(s'.run.bus.log, s.run.bus.log, StimulusWrites) &&
      (f.Some? ==> RaisedBy(s'.run.bus.log, f.value)) &&
      (Payload(s, wl, base) ==> Payload(s', wl, base)) &&
      (Payload(s, wl, base) && f.None? ==> Acquisition.PotPayload(s'.run.bus.log) == base + wl)
    decreases |s.run.bus.clock|, |s.run.bus.replies|
  {
    if s.i >= |wl| {
      OnlyRefl(s.run.bus.log, StimulusWrites);
      assert wl[..Acquisition.Min(s.i, |wl|)] == wl;
    } else {
      PotTurnFacts(s, wl, rf, mean, base);
      var (s1, f1) := PotTurn(s, wl, rf, mean);
      if f1.None? {
        assert PotLoop(s, wl, rf, mean) == PotLoop(s1, wl, rf, mean);
        PotLoopFacts(s1, wl, rf, mean, base);
        OnlyTrans(PotLoop(s1, wl, rf, mean).0.run.bus.log, s1.run.bus.log, s.run.bus.log, StimulusWrites);
      } else {
        assert PotLoop(s, wl, rf, mean) == (s1, f1);
      }
    }
  }

  // The PID loop.

  lemma PidWriteFacts(a: Run, st: int, target: seq<int>)
    ensures var (a', f) := PidWrite(a, st, target);
      Only(a'.bus.log, a.bus.log, TargetWrites(target)) &&
      (f.Some? ==> f.value == WriteRaised && RaisedBy(a'.bus.log, WriteRaised)) &&
      a'.params.rdErrCnt == a.params.rdErrCnt && FailedReads(a'.bus.log) == FailedReads(a.bus.log)
  {
    if st - a.params.wrDlySt > BUSY_DELAY_NS {
      var op := WriteRegisters(REG_WRITE_ADDR_PID, [CMD_PID_START] + target);
      IssueFacts(a.bus, op, TargetWrites(target));
      IssueWriteCounts(a.bus, op);
    } else {
      OnlyRefl(a.bus.log, TargetWrites(target));
    }
  }

  lemma PidReadsFacts(a: Run, st: int, rf: Option<nat>, mean: seq<Pair> -> Pair, left: nat, target: seq<int>)
    ensures var (a', f) := PidReads(a, st, rf, mean, left);
      Only(a'.bus.log, a.bus.log, TargetWrites(target)) &&
      (f.Some? ==> RaisedBy(a'.bus.log, f.value)) &&
      a'.params.rdErrCnt - FailedReads(a'.bus.log) == a.params.rdErrCnt - FailedReads(a.bus.log)
  {
    PidReadsOnly(a, st, rf, mean, left);
    OnlyWiden(PidReads(a, st, rf, mean, left).0.bus.log, a.bus.log, TargetWrites(target));
    PidReadsRaised(a, st, rf, mean, left);
    PidReadsCount(a, st, rf, mean, left);
  }

  lemma {:induction false} PidReadsOnly(a: Run, st: int, rf: Option<nat>, mean: seq<Pair> -> Pair, left: nat)
    ensures Only(PidReads(a, st, rf, mean, left).0.bus.log, a.bus.log, NoWrites)
    decreases left
  {
    if left == 0 || st - a.params.rdDlySt <= BUSY_DELAY_NS {
      OnlyRefl(a.bus.log, NoWrites);
    } else {
      var b := Issue(a.bus, READ_OP);
      IssueFacts(a.bus, READ_OP, NoWrites);
      var r := ReadOnce(a.bus, rf, mean);
      if r.Rows? {
        var a1 := Run(b, a.params, a.blocks + [r.rows]);
        PidReadsOnly(a1, st, rf, mean, left - 1);
        OnlyTrans(PidReads(a1, st, rf, mean, left - 1).0.bus.log, b.log, a.bus.log, NoWrites);
      }
    }
  }

  lemma {:induction false} PidReadsRaised(a: Run, st: int, rf: Option<nat>, mean: seq<Pair> -> Pair, left: nat)
    ensures var o := PidReads(a, st, rf, mean, left);
      o.1.Some? ==> RaisedBy(o.0.bus.log, o.1.value)
    decreases left
  {
    if left > 0 && st - a.params.rdDlySt > BUSY_DELAY_NS {
      var r := ReadOnce(a.bus, rf, mean);
      if r.Rows? {
        var a1 := Run(Issue(a.bus, READ_OP), a.params, a.blocks + [r.rows]);
        assert PidReads(a, st, rf, mean, left) == PidReads(a1, st, rf, mean, left - 1);
        PidReadsRaised(a1, st, rf, mean, left - 1);
      } else if r.Raised? {
        ReadRaisedBy(a.bus, rf, mean);
        assert PidReads(a, st, rf, mean, left) == (Run(Issue(a.bus, READ_OP), a.params, a.blocks), Some(r.fault));
      }
    }
  }

  /** Every refused read adds one to `rd_err_cnt`, and nothing resets it. */
  lemma {:induction false} PidReadsCount(a: Run, st: int, rf: Option<nat>, mean: seq<Pair> -> Pair, left: nat)
    ensures var a' := PidReads(a, st, rf, mean, left).0;
      a'.params.rdErrCnt - FailedReads(a'.bus.log) == a.params.rdErrCnt - FailedReads(a.bus.log)
    decreases left
  {
    if left > 0 && st - a.params.rdDlySt > BUSY_DELAY_NS {
      IssueReadCounts(a.bus);
      var r := ReadOnce(a.bus, rf, mean);
      if r.Rows? {
        var a1 := Run(Issue(a.bus, READ_OP), a.params, a.blocks + [r.rows]);
        assert PidReads(a, st, rf, mean, left) == PidReads(a1, st, rf, mean, left - 1);
        PidReadsCount(a1, st, rf, mean, left - 1);
      }
    }
  }

  lemma PidTurnFacts(s: PidState, target: seq<int>, rf: Option<nat>, mean: seq<Pair> -> Pair)
    ensures var (s', f) := PidTurn(s, target, rf, mean);
      Only(s'.run.bus.log, s.run.bus.log, TargetWrites(target)) &&
      (f.Some? ==> RaisedBy(s'.run.bus.log, f.value)) &&
      s'.run.params.rdErrCnt - FailedReads(s'.run.bus.log) == s.run.params.rdErrCnt - FailedReads(s.run.bus.log)
  {
    var st := Reading(s.run.bus);
    var a0 := s.run.(bus := Tick(s.run.bus));
    PidWriteFacts(a0, st, target);
    var (a1, f1) := PidWrite(a0, st, target);
    if f1.None? {
      PidReadsFacts(a1, st, rf, mean, READS_PER_TURN, target);
      OnlyTrans(PidReads(a1, st, rf, mean, READS_PER_TURN).0.bus.log, a1.bus.log, s.run.bus.log, TargetWrites(target));
    }
  }

  /** The PID loop writes nothing but its target and otherwise reads; it
      ends early only on a reply that is not a `SlaveReportedException`
      (or where the clock script ends); and its read error count grows by
      one for every refused read and is never reset. */
  lemma {:induction false} PidLoopFacts(s: PidState, target: seq<int>, time: real, rf: Option<nat>, mean: seq<Pair> -> Pair)
    ensures var (s', f) := PidLoop(s, target, time, rf, mean);
      Only(s'.run.bus.log, s.run.bus.log, TargetWrites(target)) &&
      (f.Some? ==> RaisedBy(s'.run.bus.log, f.value) || f.value == ClockExhausted) &&
      s'.run.params.rdErrCnt - FailedReads(s'.run.bus.log) == s.run.params.rdErrCnt - FailedReads(s.run.bus.log)
    decreases |s.run.bus.clock|
  {
    if s.total >= time || s.run.bus.clock == [] {
      OnlyRefl(s.run.bus.log, TargetWrites(target));
    } else {
      PidTurnFacts(s, target, rf, mean);
      var (s1, f1) := PidTurn(s, target, rf, mean);
      if f1.None? {
        PidLoopFacts(s1, target, time, rf, mean);
        OnlyTrans(PidLoop(s1, target, time, rf, mean).0.run.bus.log, s1.run.bus.log, s.run.bus.log, TargetWrites(target));
      }
    }
  }

  // ---------------------------------------------------------------------
  // What the procedures promise
  // ---------------------------------------------------------------------

  /** The shape of a procedure's run on bus `b` with setup commands
      `setup`, whose loop may issue the writes `w`: the log only grows; the
      instrument is stopped exactly when the run ends normally; a normal
      run issues the setup commands, then the loop's reads and writes, then
      the teardown commands; a run that ends early ends on a failed
      command, on the clock script's end, or on the reply that raised. */
  ghost predicate Shape(b: Bus, setup: seq<(int, int)>, w: Writes, o: Outcome)
  {
    var log := o.run.bus.log;
    Acquisition.Extends(log, b.log) &&
    (o.fault.None? <==> Acquisition.Stopped(log)) &&
    (o.fault.None? ==> LoopBetween(b, setup, w, log)) &&
    (o.fault.Some? ==> o.fault.value.CommandFailed? || o.fault.value == ClockExhausted || RaisedBy(log, o.fault.value))
  }

  ghost predicate LoopBetween(b: Bus, setup: seq<(int, int)>, w: Writes, log: seq<Event>)
  {
    var n := |b.log| + |setup|;
    var td := |Acquisition.TEARDOWN_COMMANDS|;
    |log| >= n + td &&
    Ops(log)[..n] == Ops(b.log) + Acquisition.CommandOps(setup) &&
    Ops(log)[|log| - td..] == Acquisition.CommandOps(Acquisition.TEARDOWN_COMMANDS) &&
    forall k | n <= k < |log| - td :: Allowed(log[k].op, w)
  }

  /** Commands are writes: they leave the refused reads alone. */
  lemma {:induction false} SendAllKeepsReads(b: Bus, cmds: seq<(int, int)>)
    ensures FailedReads(Acquisition.SendAll(b, cmds).0.log) == FailedReads(b.log)
    decreases |cmds|
  {
    if cmds != [] {
      IssueWriteCounts(b, WriteRegisters(COMMAND_ADDR, [cmds[0].0, cmds[0].1]));
      var (b1, f) := Command(b, cmds[0].0, cmds[0].1);
      if f.None? {
        SendAllKeepsReads(b1, cmds[1..]);
      }
    }
  }

  /** The setup conditions every procedure meets. */
  predicate SetupOk(setup: seq<(int, int)>)
  {
    forall k | 0 <= k < |setup| :: setup[k] != (CMD_TEST_STOP, 1) && setup[k].0 != CMD_PID_START
  }

  /** The run of a procedure whose setup succeeded and whose loop issued
      only `w` and ended as its loop lemma says. */
  lemma FinishShape(b: Bus, setup: seq<(int, int)>, w: Writes, o: Outcome)
    requires SetupOk(setup) && !Acquisition.Stopped(b.log) && Acquisition.SendAll(b, setup).1.None?
    requires Only(o.run.bus.log, Acquisition.SendAll(b, setup).0.log, w)
    requires o.fault.Some? ==> o.fault == Some(ClockExhausted) || RaisedBy(o.run.bus.log, o.fault.value)
    ensures Shape(b, setup, w, Finish(o))
    ensures Acquisition.PotPayload(Finish(o).run.bus.log) == Acquisition.PotPayload(o.run.bus.log)
    ensures FailedReads(Finish(o).run.bus.log) == FailedReads(o.run.bus.log)
    ensures Finish(o).run.params == o.run.params && Finish(o).run.blocks == o.run.blocks
  {
    var b1 := Acquisition.SendAll(b, setup).0;
    Acquisition.SendAllFrame(b, setup);
    Acquisition.SendAllNoStop(b, setup);
    OnlyKeepsStopped(o.run.bus.log, b1.log, w);
    Acquisition.ExtendsTrans(o.run.bus.log, b1.log, b.log);
    if o.fault.None? {
      FinishEnds(b, b1, o.run);
      Acquisition.SendAllOps(b, setup);
      FinishOps(b, b1, setup, w, o.run);
      SendAllKeepsReads(o.run.bus, Acquisition.TEARDOWN_COMMANDS);
    } else {
      assert o.run.bus.log[..|o.run.bus.log|] == o.run.bus.log;
    }
  }

  lemma FinishEnds(b: Bus, b1: Bus, a: Run)
    requires Acquisition.Extends(a.bus.log, b.log) && !Acquisition.Stopped(a.bus.log)
    ensures var o := Finish(Outcome(a, None));
      Acquisition.Extends(o.run.bus.log, b.log) &&
      (o.fault.None? <==> Acquisition.Stopped(o.run.bus.log)) &&
      (o.fault.Some? ==> o.fault.value.CommandFailed?) &&
      Acquisition.PotPayload(o.run.bus.log) == Acquisition.PotPayload(a.bus.log)
  {
    Acquisition.SendAllFrame(a.bus, Acquisition.TEARDOWN_COMMANDS);
    Acquisition.TeardownStops(a.bus);
    Acquisition.ExtendsTrans(Acquisition.SendAll(a.bus, Acquisition.TEARDOWN_COMMANDS).0.log, a.bus.log, b.log);
  }

  lemma FinishOps(b: Bus, b1: Bus, setup: seq<(int, int)>, w: Writes, a: Run)
    requires Acquisition.Extends(b1.log, b.log) && Ops(b1.log) == Ops(b.log) + Acquisition.CommandOps(setup)
    requires Only(a.bus.log, b1.log, w)
    ensures var o := Finish(Outcome(a, None));
      o.fault.None? ==> LoopBetween(b, setup, w, o.run.bus.log)
  {
    var td := Acquisition.TEARDOWN_COMMANDS;
    Acquisition.SendAllFrame(a.bus, td);
    Acquisition.SendAllOps(a.bus, td);
    var (b2, f2) := Acquisition.SendAll(a.bus, td);
    if f2.None? {
      LogsBetween(b, b1.log, a.bus.log, b2.log, setup, w);
    }
  }

  /** The four logs of a procedure: before, after setup, after the loop,
      after teardown. */
  lemma LogsBetween(b: Bus, l1: seq<Event>, l2: seq<Event>, l3: seq<Event>,
                    setup: seq<(int, int)>, w: Writes)
    requires Acquisition.Extends(l1, b.log) && Ops(l1) == Ops(b.log) + Acquisition.CommandOps(setup)
    requires Only(l2, l1, w)
    requires Acquisition.Extends(l3, l2) && Ops(l3) == Ops(l2) + Acquisition.CommandOps(Acquisition.TEARDOWN_COMMANDS)
    ensures LoopBetween(b, setup, w, l3)
  {
    var td := Acquisition.TEARDOWN_COMMANDS;
    assert |l1| == |b.log| + |setup|;
    assert |l3| == |l2| + |td|;
    SetupKept(b.log, l1, l3, setup);
    TeardownLast(l2, l3);
    KeptAllowed(l1, l2, l3, w);
  }
  lemma SetupKept(l0: seq<Event>, l1: seq<Event>, l3: seq<Event>, setup: seq<(int, int)>)
    requires Ops(l1) == Ops(l0) + Acquisition.CommandOps(setup)
    requires Acquisition.Extends(l3, l1)
    ensures Ops(l3)[..|l0| + |setup|] == Ops(l0) + Acquisition.CommandOps(setup)
  {
    Acquisition.OpsPrefix(l3, |l1|);
  }

  lemma TeardownLast(l2: seq<Event>, l3: seq<Event>)
    requires Ops(l3) == Ops(l2) + Acquisition.CommandOps(Acquisition.TEARDOWN_COMMANDS)
    ensures |l3| >= |Acquisition.TEARDOWN_COMMANDS|
    ensures Ops(l3)[|l3| - |Acquisition.TEARDOWN_COMMANDS|..] == Acquisition.CommandOps(Acquisition.TEARDOWN_COMMANDS)
  {
  }

  lemma KeptAllowed(log: seq<Event>, log': seq<Event>, log'': seq<Event>, w: Writes)
    requires Only(log', log, w) && Acquisition.Extends(log'', log')
    ensures forall k | |log| <= k < |log'| :: Allowed(log''[k].op, w)
  {
    forall k | |log| <= k < |log'|
      ensures Allowed(log''[k].op, w)
    {
      assert log''[k] == log''[..|log'|][k];
    }
  }

  /** `_read_write_data_pid_active`: the run has the shape of a procedure
      whose loop writes nothing but the target current; its read error
      count is the number of refused reads, never reset. */
  lemma PidActiveRunShape(b: Bus, current: F32, time: real, tiaGain: int, rf: Option<nat>, mean: seq<Pair> -> Pair)
    requires !Acquisition.Stopped(b.log)
    ensures var o := PidActiveRun(b, current, time, tiaGain, rf, mean);
      Shape(b, PidSetup(tiaGain), TargetWrites(AsInts(FloatToWords(current))), o) &&
      o.run.params.rdErrCnt == FailedReads(o.run.bus.log) - FailedReads(b.log)
  {
    var setup := PidSetup(tiaGain);
    var target := AsInts(FloatToWords(current));
    var (b1, f1) := Acquisition.SendAll(b, setup);
    Acquisition.SendAllFrame(b, setup);
    Acquisition.SendAllNoStop(b, setup);
    SendAllKeepsReads(b, setup);
    if f1.None? {
      var s0 := PidState(Run(b1, INITIAL, []), 0.0);
      PidLoopFacts(s0, target, time, rf, mean);
      var (s, f) := PidLoop(s0, target, time, rf, mean);
      FinishShape(b, setup, TargetWrites(target), Outcome(s.run, f));
    } else {
      assert b1.log[..|b1.log|] == b1.log;
    }
  }

  /** `_read_write_data_pid_inactive`: a negative duration raises before
      any command; otherwise the run has the shape of a procedure whose
      loop writes only stimulus chunks, and a normal end has delivered the
      whole stimulus, in order, exactly once. */
  lemma PidInactiveRunShape(b: Bus, potential: F32, time: real, tiaGain: int, rf: Option<nat>, mean: seq<Pair> -> Pair)
    requires !Acquisition.Stopped(b.log)
    ensures var o := PidInactiveRun(b, potential, time, tiaGain, rf, mean);
      (time < 0.0 ==> o == Outcome(Run(b, INITIAL, []), Some(NegativeLength))) &&
      (time >= 0.0 ==> Shape(b, PotSetup(tiaGain), StimulusWrites, o)) &&
      (o.fault.None? ==> Acquisition.PotPayload(o.run.bus.log) == Acquisition.PotPayload(b.log) + Stimulus(potential, time).value)
  {
    StimulusSpec(potential, time);
    if time >= 0.0 {
      var wl := Stimulus(potential, time).value;
      var setup := PotSetup(tiaGain);
      var (b1, f1) := Acquisition.SendAll(b, setup);
      Acquisition.SendAllFrame(b, setup);
      Acquisition.SendAllNoStop(b, setup);
      if f1.None? {
        var s0 := PotState(Run(b1, INITIAL, []), 0);
        var base := Acquisition.PotPayload(b.log);
        assert wl[..Acquisition.Min(0, |wl|)] == [];
        assert Payload(s0, wl, base);
        PotLoopFacts(s0, wl, rf, mean, base);
        var (s, f) := PotLoop(s0, wl, rf, mean);
        FinishShape(b, setup, StimulusWrites, Outcome(s.run, f));
      } else {
        assert b1.log[..|b1.log|] == b1.log;
      }
    }
  }

  // ---------------------------------------------------------------------
  // The controller
  // ---------------------------------------------------------------------

  /** `PotentiostatController` of the first version of the driver: the
      device and the data queue the procedures put blocks on. */
  class LegacyPotentiostatController {
    const device: PotentiostatDevice
    var dataQueue: seq<seq<Pair>>

    constructor (device: PotentiostatDevice)
      ensures this.device == device && dataQueue == []
    {
      this.device := device;
      dataQueue := [];
    }

    /** Consecutive `send_command` calls; a failure propagates. */
    method SendCommands(cmds: seq<(int, int)>) returns (f: Option<Failure>)
      modifies device
      ensures (device.State(), f) == Acquisition.SendAll(old(device.State()), cmds)
    {
      var k := 0;
      f := None;
      while k < |cmds|
        invariant 0 <= k <= |cmds| && f.None?
        invariant Acquisition.SendAll(old(device.State()), cmds) == Acquisition.SendAll(device.State(), cmds[k..])
      {
        assert cmds[k..][1..] == cmds[k + 1..];
        assert cmds[k..][0] == cmds[k];
        f := device.SendCommand(cmds[k].0, cmds[k].1);
        if f.Some? {
          return;
        }
        k := k + 1;
      }
    }

    /** `read_data(0x100, n_register)`, the conversion to float32 rows and,
        with a reducing factor, the averaging. */
    method Take(rf: Option<nat>, mean: seq<Pair> -> Pair) returns (step: ReadStep)
      modifies device
      ensures step == ReadOnce(old(device.State()), rf, mean)
      ensures device.State() == Issue(old(device.State()), READ_OP)
    {
      var r := device.ReadData(REG_READ_ADDR, N_REGISTER);
      match r {
        case SlaveError => step := Caught;
        case NoResponse => step := Raised(ReadRaised);
        case Answer(ws) =>
          var converted := ConvertWords(ws);
          if converted.Err? {
            step := Raised(BadWords(converted.error));
          } else if rf.None? {
            step := Rows(converted.value, |converted.value|);
          } else {
            var reduced, _ := Reduce(converted.value, rf.value, mean);
            if reduced.None? {
              step := Raised(DivisionByZero);
            } else {
              AveragesSpec(converted.value, rf.value, mean);
              step := Rows(reduced.value, |converted.value|);
            }
          }
      }
    }

    /** `data_queue.put(rows)`. */
    method Put(rows: seq<Pair>, ghost q: seq<seq<Pair>>, ghost blocks0: seq<seq<Pair>>) returns (ghost blocks: seq<seq<Pair>>)
      requires dataQueue == q + blocks0
      modifies this
      ensures blocks == blocks0 + [rows] && dataQueue == q + blocks
    {
      dataQueue := dataQueue + [rows];
      blocks := blocks0 + [rows];
    }

    /** The write of a PID turn. */
    method PidWriteStep(st: int, p0: Params, target: seq<int>, ghost blocks: seq<seq<Pair>>) returns (p: Params, f: Option<Fault>)
      modifies device
      ensures PidWrite(Run(old(device.State()), p0, blocks), st, target) == (Run(device.State(), p, blocks), f)
    {
      p, f := p0, None;
      if st - p.wrDlySt > BUSY_DELAY_NS {
        var r := device.WriteData(REG_WRITE_ADDR_PID, [CMD_PID_START] + target);
        match r {
          case Answer(_) => p := p.(wrErrCnt := 0);
          case SlaveError =>
            var t := device.MonotonicNs();
            p := p.(wrDlySt := t, wrErrCnt := p.wrErrCnt + 1);
          case NoResponse => f := Some(WriteRaised);
        }
      }
    }

    /** One read of a PID turn, once the read delay has passed. */
    method PidReadOnce(st: int, p: Params, rf: Option<nat>, mean: seq<Pair> -> Pair,
                       ghost q: seq<seq<Pair>>, ghost blocks0: seq<seq<Pair>>, ghost left: nat)
      returns (p1: Params, ghost blocks: seq<seq<Pair>>, f: Option<Fault>, stop: bool)
      requires left > 0 && st - p.rdDlySt > BUSY_DELAY_NS && dataQueue == q + blocks0
      modifies device, this
      ensures dataQueue == q + blocks
      ensures var o := PidReads(Run(old(device.State()), p, blocks0), st, rf, mean, left);
        if stop then o == (Run(device.State(), p1, blocks), f)
        else p1 == p && f.None? && o == PidReads(Run(device.State(), p1, blocks), st, rf, mean, left - 1)
    {
      p1, blocks, f, stop := p, blocks0, None, false;
      var step := Take(rf, mean);
      match step {
        case Rows(rows, _) =>
          blocks := Put(rows, q, blocks0);
        case Caught =>
          var t := device.MonotonicNs();
          p1, stop := p.(rdDlySt := t, rdErrCnt := p.rdErrCnt + 1), true;
        case Raised(fault) =>
          f, stop := Some(fault), true;
      }
    }

    /** The two reads of a PID turn. */
    method PidReadsStep(st: int, p0: Params, rf: Option<nat>, mean: seq<Pair> -> Pair,
                        ghost q: seq<seq<Pair>>, ghost blocks0: seq<seq<Pair>>)
      returns (p: Params, ghost blocks: seq<seq<Pair>>, f: Option<Fault>)
      requires dataQueue == q + blocks0
      modifies device, this
      ensures PidReads(Run(old(device.State()), p0, blocks0), st, rf, mean, READS_PER_TURN) == (Run(device.State(), p, blocks), f)
      ensures dataQueue == q + blocks
    {
      p, blocks, f := p0, blocks0, None;
      ghost var o := PidReads(Run(old(device.State()), p0, blocks0), st, rf, mean, READS_PER_TURN);
      var r := 0;
      while r < READS_PER_TURN
        invariant 0 <= r <= READS_PER_TURN && dataQueue == q + blocks && p == p0 && f.None?
        invariant o == PidReads(Run(device.State(), p, blocks), st, rf, mean, READS_PER_TURN - r)
      {
        if st - p.rdDlySt <= BUSY_DELAY_NS {
          PidReadsIdle(Run(device.State(), p, blocks), st, rf, mean, READS_PER_TURN - r);
          assert o == (Run(device.State(), p, blocks), f);
          return;
        }
        var stop;
        p, blocks, f, stop := PidReadOnce(st, p, rf, mean, q, blocks, READS_PER_TURN - r);
        if stop {
          assert o == (Run(device.State(), p, blocks), f);
          return;
        }
        r := r + 1;
      }
      PidReadsIdle(Run(device.State(), p, blocks), st, rf, mean, 0);
      assert o == (Run(device.State(), p, blocks), f);
    }

    /** One turn of `while total_time < time`. */
    method PidTurnStep(p0: Params, total0: real, target: seq<int>, rf: Option<nat>, mean: seq<Pair> -> Pair,
                       ghost q: seq<seq<Pair>>, ghost blocks0: seq<seq<Pair>>)
      returns (p: Params, total: real, ghost blocks: seq<seq<Pair>>, f: Option<Fault>)
      requires dataQueue == q + blocks0
      modifies device, this
      ensures PidTurn(PidState(Run(old(device.State()), p0, blocks0), total0), target, rf, mean) ==
        (PidState(Run(device.State(), p, blocks), total), f)
      ensures dataQueue == q + blocks
    {
      ghost var s0 := PidState(Run(device.State(), p0, blocks0), total0);
      ghost var o := PidTurn(s0, target, rf, mean);
      var st := device.MonotonicNs();
      ghost var a0 := Run(device.State(), p0, blocks0);
      assert st == Reading(s0.run.bus) && a0 == s0.run.(bus := Tick(s0.run.bus));
      p, f := PidWriteStep(st, p0, target, blocks0);
      total, blocks := total0, blocks0;
      if f.Some? {
        assert o == (PidState(Run(device.State(), p, blocks), total), f);
        return;
      }
      ghost var a1 := Run(device.State(), p, blocks);
      assert PidWrite(a0, st, target) == (a1, None);
      p, blocks, f := PidReadsStep(st, p, rf, mean, q, blocks);
      if f.Some? {
        assert o == (PidState(Run(device.State(), p, blocks), total), f);
        return;
      }
      ghost var a2 := Run(device.State(), p, blocks);
      assert PidReads(a1, st, rf, mean, READS_PER_TURN) == (a2, None);
      var end := device.MonotonicNs();
      total := total + (end - st) as real / 1_000_000_000.0;
      assert device.State() == Tick(a2.bus);
      assert o == (PidState(Run(device.State(), p, blocks), total), f);
    }

    /** `_read_write_data_pid_active(current, time, tia_gain, reducing_factor)`. */
    method ReadWriteDataPidActive(current: F32, time: real, tiaGain: int, rf: Option<nat>, mean: seq<Pair> -> Pair)
      returns (fault: Option<Fault>)
      modifies device, this
      ensures var o := PidActiveRun(old(device.State()), current, time, tiaGain, rf, mean);
        device.State() == o.run.bus && dataQueue == old(dataQueue) + o.run.blocks && fault == o.fault
    {
      ghost var q := dataQueue;
      var f := SendCommands(PidSetup(tiaGain));
      if f.Some? {
        fault := Some(CommandFailed(f.value));
        return;
      }
      var target := AsInts(FloatToWords(current));
      var p, total := INITIAL, 0.0;
      ghost var blocks: seq<seq<Pair>> := [];
      ghost var s0 := PidState(Run(device.State(), p, blocks), total);
      fault := None;
      while total < time
        invariant fault.None? && dataQueue == q + blocks
        invariant PidLoop(PidState(Run(device.State(), p, blocks), total), target, time, rf, mean) == PidLoop(s0, target, time, rf, mean)
        decreases |device.clock|
      {
        if device.clock == [] {
          fault := Some(ClockExhausted);
          break;
        }
        p, total, blocks, fault := PidTurnStep(p, total, target, rf, mean, q, blocks);
        if fault.Some? {
          break;
        }
      }
      if fault.None? {
        f := SendCommands(Acquisition.TEARDOWN_COMMANDS);
        if f.Some? {
          fault := Some(CommandFailed(f.value));
        }
      }
    }

    /** The write of a potentiostatic turn: the next chunk of the stimulus. */
    method PotWriteStep(st: int, p0: Params, i0: nat, wl: seq<int>, ghost blocks: seq<seq<Pair>>)
      returns (p: Params, i: int, f: Option<Fault>)
      requires i0 < |wl|
      modifies device
      ensures PotWrite(Run(old(device.State()), p0, blocks), st, i0, wl) == (Run(device.State(), p, blocks), i, f)
    {
      p, i, f := p0, i0, None;
      if st > BUSY_DELAY_NS {
        var data := wl[i0 .. if i0 + N_REGISTER <= |wl| then i0 + N_REGISTER else |wl|];
        var r := device.WriteData(REG_WRITE_ADDR_POT, data);
        match r {
          case Answer(_) =>
            p := p.(wrErrCnt := 0, rxTxReg := p.rxTxReg + N_REGISTER);
            i := i0 + N_REGISTER;
          case SlaveError =>
            var t := device.MonotonicNs();
            p := p.(wrDlySt := t, wrErrCnt := p.wrErrCnt + 1);
          case NoResponse => f := Some(WriteRaised);
        }
      }
    }

    /** One read of a potentiostatic turn: a frame moves the read index
        and clears the read error count. */
    method PotReadOnce(st: int, p: Params, rf: Option<nat>, mean: seq<Pair> -> Pair,
                       ghost q: seq<seq<Pair>>, ghost blocks0: seq<seq<Pair>>, ghost left: nat, ghost last: Option<nat>)
      returns (p1: Params, ghost blocks: seq<seq<Pair>>, ghost last1: Option<nat>, f: Option<Fault>, stop: bool)
      requires left > 0 && st > BUSY_DELAY_NS && dataQueue == q + blocks0
      modifies device, this
      ensures dataQueue == q + blocks
      ensures var o := PotReads(Run(old(device.State()), p, blocks0), st, rf, mean, left, last);
        if stop then o == (Run(device.State(), p1, blocks), last1, f)
        else f.None? && o == PotReads(Run(device.State(), p1, blocks), st, rf, mean, left - 1, last1)
    {
      p1, blocks, last1, f, stop := p, blocks0, last, None, false;
      var step := Take(rf, mean);
      match step {
        case Rows(rows, raw) =>
          blocks := Put(rows, q, blocks0);
          p1, last1 := p.(rxTxReg := p.rxTxReg + N_REGISTER, rdErrCnt := 0), Some(raw);
        case Caught =>
          var t := device.MonotonicNs();
          p1, stop := p.(rdDlySt := t, rdErrCnt := p.rdErrCnt + 1), true;
        case Raised(fault) =>
          f, stop := Some(fault), true;
      }
    }

    /** The two reads of a potentiostatic turn.  The averaging does not
        touch the write index. */
    method PotReadsStep(st: int, p0: Params, rf: Option<nat>, mean: seq<Pair> -> Pair,
                        ghost q: seq<seq<Pair>>, ghost blocks0: seq<seq<Pair>>)
      returns (p: Params, ghost blocks: seq<seq<Pair>>, ghost last: Option<nat>, f: Option<Fault>)
      requires dataQueue == q + blocks0
      modifies device, this
      ensures PotReads(Run(old(device.State()), p0, blocks0), st, rf, mean, READS_PER_TURN, None) ==
        (Run(device.State(), p, blocks), last, f)
      ensures dataQueue == q + blocks
    {
      p, blocks, last, f := p0, blocks0, None, None;
      ghost var o := PotReads(Run(old(device.State()), p0, blocks0), st, rf, mean, READS_PER_TURN, None);
      var r := 0;
      while r < READS_PER_TURN
        invariant 0 <= r <= READS_PER_TURN && dataQueue == q + blocks && f.None?
        invariant o == PotReads(Run(device.State(), p, blocks), st, rf, mean, READS_PER_TURN - r, last)
      {
        if st <= BUSY_DELAY_NS {
          PotReadsIdle(Run(device.State(), p, blocks), st, rf, mean, READS_PER_TURN - r, last);
          assert o == (Run(device.State(), p, blocks), last, f);
          return;
        }
        var stop;
        p, blocks, last, f, stop := PotReadOnce(st, p, rf, mean, q, blocks, READS_PER_TURN - r, last);
        if stop {
          assert o == (Run(device.State(), p, blocks), last, f);
          return;
        }
        r := r + 1;
      }
      PotReadsIdle(Run(device.State(), p, blocks), st, rf, mean, 0, last);
      assert o == (Run(device.State(), p, blocks), last, f);
    }

    /** One turn of `while i < n_items`. */
    method PotTurnStep(p0: Params, i0: nat, wl: seq<int>, rf: Option<nat>, mean: seq<Pair> -> Pair,
                       ghost q: seq<seq<Pair>>, ghost blocks0: seq<seq<Pair>>)
      returns (p: Params, i: int, ghost blocks: seq<seq<Pair>>, f: Option<Fault>)
      requires i0 < |wl| && dataQueue == q + blocks0
      modifies device, this
      ensures PotTurn(PotState(Run(old(device.State()), p0, blocks0), i0), wl, rf, mean) ==
        (PotState(Run(device.State(), p, blocks), i), f)
      ensures dataQueue == q + blocks
    {
      ghost var s0 := PotState(Run(device.State(), p0, blocks0), i0);
      var st := device.MonotonicNs();
      ghost var a0 := Run(device.State(), p0, blocks0);
      assert st == Reading(s0.run.bus) && a0 == s0.run.(bus := Tick(s0.run.bus));
      p, i, f := PotWriteStep(st, p0, i0, wl, blocks0);
      blocks := blocks0;
      if f.Some? {
        return;
      }
      ghost var a1 := Run(device.State(), p, blocks);
      assert PotWrite(a0, st, i0, wl) == (a1, i, None);
      ghost var last;
      p, blocks, last, f := PotReadsStep(st, p, rf, mean, q, blocks);
    }

    /** `_read_write_data_pid_inactive(potential, time, tia_gain, reducing_factor)`. */
    method ReadWriteDataPidInactive(potential: F32, time: real, tiaGain: int, rf: Option<nat>, mean: seq<Pair> -> Pair)
      returns (fault: Option<Fault>)
      modifies device, this
      ensures var o := PidInactiveRun(old(device.State()), potential, time, tiaGain, rf, mean);
        device.State() == o.run.bus && dataQueue == old(dataQueue) + o.run.blocks && fault == o.fault
    {
      var n := FloorOf(time / T_POINT);
      if n < 0 {
        fault := Some(NegativeLength);
        return;
      }
      var wl := Acquisition.WriteList(Fill(n, potential));
      assert Stimulus(potential, time) == Ok(wl);
      ghost var q := dataQueue;
      var f := SendCommands(PotSetup(tiaGain));
      if f.Some? {
        fault := Some(CommandFailed(f.value));
        return;
      }
      var p, i := INITIAL, 0;
      ghost var blocks: seq<seq<Pair>> := [];
      ghost var s0 := PotState(Run(device.State(), p, blocks), i);
      fault := None;
      while i < |wl|
        invariant i >= 0 && fault.None? && dataQueue == q + blocks
        invariant PotLoop(PotState(Run(device.State(), p, blocks), i), wl, rf, mean) == PotLoop(s0, wl, rf, mean)
        decreases |device.clock|, |device.replies|
      {
        p, i, blocks, fault := PotTurnStep(p, i, wl, rf, mean, q, blocks);
        if fault.Some? {
          break;
        }
      }
      if fault.None? {
        f := SendCommands(Acquisition.TEARDOWN_COMMANDS);
        if f.Some? {
          fault := Some(CommandFailed(f.value));
        }
      }
    }
  }
}
