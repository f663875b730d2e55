/** The instrument as the acquisition code sees it (`src/pyBEEP/device.py`
    and the constants of `src/pyBEEP/constants.py`): register writes and
    reads over Modbus, and the host's monotonic clock.  The transport is
    replaced by a scripted oracle: every register operation takes the next
    scripted reply, and every clock reading the next scripted reading, so
    that one script fixes a whole run.  The log records each operation with
    the reply it got. */
module Device {
  import opened Common

  const REG_READ_ADDR: int := 0x100
  const REG_WRITE_ADDR_PID: int := 0x4F00
  const REG_WRITE_ADDR_POT: int := 0x200
  /** `send_command` writes `[command, parameter]` to this register. */
  const COMMAND_ADDR: int := 0x4F00
  /** `BUSSY_DLAY_NS`: 400e6 ns. */
  const BUSY_DELAY_NS: int := 400_000_000

  const CMD_SENSOR_ZERO: int := 0xE0
  const CMD_RESET: int := 0xE1
  const CMD_LOADDFLT: int := 0xE2
  const CMD_SET_TIA_GAIN: int := 0xE3
  const CMD_SET_SWITCH: int := 0xE4
  const CMD_FIFO_START: int := 0xE5
  const CMD_PID_START: int := 0xE6
  const CMD_TEST_STOP: int := 0xE7
  const CMD_CLEAR_FIFO: int := 0xE8
  const CMD_CFG_SAVE: int := 0xF0

  /** The register count every read asks for (`n_register`, default 120). */
  const N_REGISTER: nat := 120

  /** What a register operation gets back: the words read (none for a
      write), a `SlaveReportedException`, or any other transport failure. */
  datatype Reply = Answer(words: seq<int>) | SlaveError | NoResponse

  datatype Op =
    | WriteRegisters(address: int, values: seq<int>)
    | ReadRegisters(address: int, count: int)

  datatype Event = Event(op: Op, reply: Reply)

  /** The oracle's state: replies and clock readings still to come, and the
      operations issued so far. */
  datatype Bus = Bus(replies: seq<Reply>, clock: seq<int>, log: seq<Event>)

  /** A clock reading taken after the scripted ones lies past the busy delay:
      a monotonic clock eventually passes any bound. */
  const LATE_NS: int := BUSY_DELAY_NS + 1

  /** The reply the next operation gets; an exhausted script means the
      instrument no longer answers. */
  function Next(b: Bus): Reply
  {
    if b.replies == [] then NoResponse else b.replies[0]
  }

  /** Issuing an operation logs it with its reply and consumes the reply. */
  function Issue(b: Bus, op: Op): (b': Bus)
    ensures b'.log == b.log + [Event(op, Next(b))] && b'.clock == b.clock
    ensures b.replies != [] ==> |b'.replies| == |b.replies| - 1
    ensures b.replies == [] ==> b'.replies == []
  {
    Bus(if b.replies == [] then [] else b.replies[1..], b.clock, b.log + [Event(op, Next(b))])
  }

  /** `monotonic_ns()`: the next clock reading. */
  function Reading(b: Bus): int
  {
    if b.clock == [] then LATE_NS else b.clock[0]
  }

  /** The bus after a clock reading. */
  function Tick(b: Bus): (b': Bus)
    ensures b'.replies == b.replies && b'.log == b.log
    ensures b.clock != [] ==> |b'.clock| == |b.clock| - 1
    ensures b.clock == [] ==> b'.clock == [] && Reading(b) > BUSY_DELAY_NS
  {
    b.(clock := if b.clock == [] then [] else b.clock[1..])
  }

  /** Why an acquisition stopped before its normal end. */
  datatype Failure =
    | CommandExit(command: int)   // `send_command` met a SlaveReportedException; its exit() ends the producer thread
    | CommandError(command: int)  // `send_command` met another transport failure
    | WriteError                  // potentiostatic writes failed more than 10 times running
    | ReadError                   // reads failed more than 16 times running
    | PidWriteError               // the unretried PID target write failed
    | ConversionError             // the words read do not form whole rows
    | ZeroDivisionError           // the drain condition divided by a zero write count

  /** `send_command(command, parameter)`. */
  function Command(b: Bus, command: int, parameter: int): (r: (Bus, Option<Failure>))
    ensures r.0 == Issue(b, WriteRegisters(COMMAND_ADDR, [command, parameter]))
    ensures r.1.None? <==> Next(b).Answer?
    ensures Next(b) == SlaveError ==> r.1 == Some(CommandExit(command))
    ensures Next(b) == NoResponse ==> r.1 == Some(CommandError(command))
  {
    var b' := Issue(b, WriteRegisters(COMMAND_ADDR, [command, parameter]));
    match Next(b)
    case Answer(_) => (b', None)
    case SlaveError => (b', Some(CommandExit(command)))
    case NoResponse => (b', Some(CommandError(command)))
  }

  /** The operations of a log, without their replies. */
  function Ops(log: seq<Event>): (ops: seq<Op>)
    ensures |ops| == |log| && forall i | 0 <= i < |log| :: ops[i] == log[i].op
  {
    seq(|log|, i requires 0 <= i < |log| => log[i].op)
  }

  lemma OpsAppend(a: seq<Event>, b: seq<Event>)
    ensures Ops(a + b) == Ops(a) + Ops(b)
  {
  }

  /** The scripted instrument: `write_data`, `read_data` and `send_command`
      of `PotentiostatDevice`, plus the clock. */
  class PotentiostatDevice {
    var replies: seq<Reply>
    var clock: seq<int>
    var log: seq<Event>

    function State(): Bus
      reads this
    {
      Bus(replies, clock, log)
    }

    constructor (replies: seq<Reply>, clock: seq<int>)
      ensures State() == Bus(replies, clock, [])
    {
      this.replies := replies;
      this.clock := clock;
      log := [];
    }

    /** `write_data(address, data)`: the reply is the outcome of the write. */
    method WriteData(address: int, data: seq<int>) returns (r: Reply)
      modifies this
      ensures r == Next(old(State()))
      ensures State() == Issue(old(State()), WriteRegisters(address, data))
    {
      r := if replies == [] then NoResponse else replies[0];
      log := log + [Event(WriteRegisters(address, data), r)];
      if replies != [] {
        replies := replies[1..];
      }
    }

    /** `read_data(address, count)`. */
    method ReadData(address: int, count: int) returns (r: Reply)
      modifies this
      ensures r == Next(old(State()))
      ensures State() == Issue(old(State()), ReadRegisters(address, count))
    {
      r := if replies == [] then NoResponse else replies[0];
      log := log + [Event(ReadRegisters(address, count), r)];
      if replies != [] {
        replies := replies[1..];
      }
    }

    /** `send_command(command, parameter)`: a SlaveReportedException calls
        `exit()`, whose SystemExit ends the producer thread; any other
        failure propagates. */
    method SendCommand(command: int, parameter: int) returns (f: Option<Failure>)
      modifies this
      ensures (State(), f) == Command(old(State()), command, parameter)
    {
      var r := WriteData(COMMAND_ADDR, [command, parameter]);
      f := match r
        case Answer(_) => None
        case SlaveError => Some(CommandExit(command))
        case NoResponse => Some(CommandError(command));
    }

    /** `monotonic_ns()`. */
    method MonotonicNs() returns (t: int)
      modifies this
      ensures t == Reading(old(State())) && State() == Tick(old(State()))
    {
      if clock == [] {
        t := LATE_NS;
      } else {
        t := clock[0];
        clock := clock[1..];
      }
    }
  }
}
