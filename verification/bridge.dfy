/** The SC18IM704-style bridge frame engine: the command loop of `main` in
    `uart_to_ftdi_i2c.py`, written as a pure state machine.

    Each serial read the loop issues is answered by one `Serial` input: the
    requested bytes, or a timeout. Each I2C call it issues is answered by one
    `Bus` input: the call returned, or it raised. `Interrupt` is the operator's
    Ctrl-C. A step turns the current state and one input into the next state
    and the actions taken: the serial read that was answered (with the count
    and timeout it was issued with), I2C calls, bytes written back to the
    serial line, a log line, and the channel close done by the `with` block. */
module Bridge {
  import opened Base
  import CtypesVeneer

  /** The start marker `'S'`. */
  const START: byte := 0x53

  /** A 7-bit I2C address. */
  type Addr7 = a: int | 0 <= a < 128

  // ---------------------------------------------------------------------
  // Decision predicates of the loop
  // ---------------------------------------------------------------------

  /** The direction test as written: `addr % 1 == 0`. It holds for every
      integer, so every frame is taken to be a write. */
  function IsWrite(raw: int): (w: bool)
    ensures w
  {
    raw % 1 == 0
  }

  /** The direction test the surrounding code evidently meant: the low bit of
      the address byte, clear for a write. */
  function IsWriteLowBit(raw: int): bool
  {
    raw % 2 == 0
  }

  /** The two readings of the loop the model runs: the code as written, and
      the code with its direction test and its stop flag as the protocol
      describes them (see `IsWriteLowBit` and `StopFlag`). */
  datatype Variant = AsWritten | Corrected

  /** The direction of a frame from its address byte: true for a write. */
  function Direction(v: Variant, raw: byte): bool
  {
    match v
    case AsWritten => IsWrite(raw)
    case Corrected => IsWriteLowBit(raw)
  }

  /** The address decoding `addr // 2`. */
  function Addr(raw: byte): (a: Addr7)
    ensures 2 * a <= raw <= 2 * a + 1
  {
    raw / 2
  }

  /** The address byte a host sends for a 7-bit address and a direction
      (write when the low bit is clear). */
  function RawByte(addr: Addr7, write: bool): (raw: byte)
  {
    2 * addr + (if write then 0 else 1)
  }

  /** The flag computed from a terminator byte, used both as the I2C stop
      flag and as the test that ends the frame. As written it is
      `next_char == ord('S')`: a terminator `'S'` stops. In the protocol
      `'S'` is a repeated start, which keeps the bus and chains another
      command, and any other terminator is a stop. */
  function StopFlag(v: Variant, term: byte): bool
  {
    match v
    case AsWritten => term == START
    case Corrected => term != START
  }

  // ---------------------------------------------------------------------
  // States, inputs and actions
  // ---------------------------------------------------------------------

  /** The serial timeout in force for a read: `None` before the idle read,
      `0.7` seconds before every in-frame read. */
  datatype Timeout = Infinite | Bounded

  /** A serial read request: how many bytes, under which timeout. */
  datatype Request = Request(count: nat, mode: Timeout)

  datatype BusOp = WriteOp | ReadOp

  datatype ExitReason =
    | Interrupted                          // KeyboardInterrupt, caught by the loop
    | Crashed(error: CtypesVeneer.Error)   // an I2C call raised; nothing catches it

  datatype State =
    | Idle                                 // waiting forever for `'S'`
    | AddrPhase                            // waiting for the address byte and the length
    | WritePhase(addr: Addr7, len: byte)   // waiting for `len` data bytes and a terminator
    | ReadPhase(addr: Addr7, len: byte)    // waiting for the terminator of a read
    | AwaitBus(op: BusOp, stop: bool)      // an I2C call is in progress
    | Exited(reason: ExitReason)           // the loop has ended and the channel is closed

  datatype ReadResult = Got(data: seq<byte>) | TimedOut

  datatype BusReply = Returned(data: seq<byte>) | Raised(error: CtypesVeneer.Error)

  datatype Input =
    | Serial(result: ReadResult)
    | Bus(reply: BusReply)
    | Interrupt

  datatype Action =
    | SerialRead(request: Request)
    | I2CWrite(addr: Addr7, data: seq<byte>, start: bool, stop: bool)
    | I2CRead(addr: Addr7, len: nat, start: bool, stop: bool)
    | SerialWrite(data: seq<byte>)
    | LogControl                           // the debug log line of the idle branch
    | I2CClose                             // `__exit__` of the `with` block

  datatype Transition = Transition(next: State, acts: seq<Action>)

  /** The states in which the loop is blocked in a serial read. */
  predicate Reading(s: State)
  {
    s.Idle? || s.AddrPhase? || s.WritePhase? || s.ReadPhase?
  }

  /** The read the loop has issued in a reading state. */
  function Pending(s: State): (q: Request)
    requires Reading(s)
    ensures q.mode == Infinite <==> s.Idle?
    ensures q.count >= 1
  {
    match s
    case Idle => Request(1, Infinite)
    case AddrPhase => Request(2, Bounded)
    case WritePhase(_, n) => Request(n + 1, Bounded)
    case ReadPhase(_, _) => Request(1, Bounded)
  }

  /** The inputs that can answer what the loop is blocked on: a complete read
      of the requested count, a timeout (never under an infinite timeout), the
      outcome of the I2C call in progress, or an interrupt while running. */
  predicate Fits(s: State, i: Input)
  {
    match i
    case Interrupt => !s.Exited?
    case Bus(_) => s.AwaitBus?
    case Serial(r) =>
      && Reading(s)
      && (match r
          case Got(data) => |data| == Pending(s).count
          case TimedOut => Pending(s).mode == Bounded)
  }

  predicate IsI2C(a: Action)
  {
    a.I2CWrite? || a.I2CRead?
  }

  /** The I2C calls among a list of actions, in order. */
  function I2CCalls(acts: seq<Action>): (r: seq<Action>)
    ensures |r| <= |acts|
    ensures forall k :: 0 <= k < |r| ==> IsI2C(r[k])
    ensures (forall k :: 0 <= k < |acts| ==> !IsI2C(acts[k])) ==> r == []
  {
    if acts == [] then []
    else (if IsI2C(acts[0]) then [acts[0]] else []) + I2CCalls(acts[1..])
  }

  /** Everything written back to the serial line, concatenated. */
  function SerialOut(acts: seq<Action>): seq<byte>
  {
    if acts == [] then []
    else (if acts[0].SerialWrite? then acts[0].data else []) + SerialOut(acts[1..])
  }

  // ---------------------------------------------------------------------
  // The transition function
  // ---------------------------------------------------------------------

  /** One turn of the loop. */
  function Step(v: Variant, s: State, i: Input): (t: Transition)
    requires Fits(s, i)
    ensures i.Serial? ==> |t.acts| >= 1 && t.acts[0] == SerialRead(Pending(s))
    ensures t.next.Exited? <==> (i.Interrupt? || (i.Bus? && i.reply.Raised?))
    ensures t.next.Exited? ==> t.acts == [I2CClose]
  {
    match i
    case Interrupt => Transition(Exited(Interrupted), [I2CClose])
    case Bus(reply) =>
      (match reply
       case Raised(e) => Transition(Exited(Crashed(e)), [I2CClose])
       case Returned(data) =>
         var out := if s.op == ReadOp then [SerialWrite(data)] else [];
         Transition(if s.stop then Idle else AddrPhase, out))
    case Serial(r) =>
      var read := SerialRead(Pending(s));
      match s
      case Idle =>
        if r.data[0] == START then Transition(AddrPhase, [read])
        else Transition(Idle, [read, LogControl])
      case AddrPhase =>
        if r.TimedOut? then Transition(AddrPhase, [read])   // `continue`
        else
          var raw, len := r.data[0], r.data[1];
          if Direction(v, raw) then Transition(WritePhase(Addr(raw), len), [read])
          else Transition(ReadPhase(Addr(raw), len), [read])
      case WritePhase(addr, len) =>
        if r.TimedOut? then Transition(Idle, [read])          // `break`
        else
          var payload, term := r.data[..len], r.data[len];
          Transition(AwaitBus(WriteOp, StopFlag(v, term)),
                     [read, I2CWrite(addr, payload, true, StopFlag(v, term))])
      case ReadPhase(addr, len) =>
        if r.TimedOut? then Transition(Idle, [read])          // `break`
        else
          var stop := StopFlag(v, r.data[0]);
          Transition(AwaitBus(ReadOp, stop), [read, I2CRead(addr, len, true, stop)])
  }

  // ---------------------------------------------------------------------
  // Runs over a sequence of inputs
  // ---------------------------------------------------------------------

  /** One turn for an arbitrary input: an input the loop is not blocked on
      cannot arrive, and is taken to change nothing. */
  function Turn(v: Variant, s: State, i: Input): (t: Transition)
  {
    if Fits(s, i) then Step(v, s, i) else Transition(s, [])
  }

  /** Every input of the sequence fits the state the engine is in when it
      arrives. */
  predicate Conforms(v: Variant, s: State, ins: seq<Input>)
    decreases |ins|
  {
    ins == [] || (Fits(s, ins[0]) && Conforms(v, Step(v, s, ins[0]).next, ins[1..]))
  }

  /** The engine fed a whole sequence of inputs: the final state and all the
      actions, in order. */
  function Run(v: Variant, s: State, ins: seq<Input>): (t: Transition)
    decreases |ins|
  {
    if ins == [] then Transition(s, [])
    else
      var first := Turn(v, s, ins[0]);
      var rest := Run(v, first.next, ins[1..]);
      Transition(rest.next, first.acts + rest.acts)
  }
}
