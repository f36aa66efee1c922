/** Concrete byte sequences on the serial line, and what the engine does
    with them as written and as corrected. */
module Scenarios {
  import opened Base
  import opened Bridge
  import BridgeProps
  import opened Frames
  import CtypesVeneer
  import Pylibmpsse

  /** `S 0x54 0x02 0x00 0x00 S`: a write of two zero bytes to address 0x2A,
      closed by a repeated start. */
  const RepeatedStartWrite: Command := WriteCommand(0x54, [0x00, 0x00], START)

  /** As written, the repeated start is taken for a stop: the write releases
      the bus and the frame ends. */
  lemma RepeatedStartStopsAsWritten()
    ensures var t := Run(AsWritten, Idle, FrameInputs([RepeatedStartWrite]));
      && t.next == Idle
      && I2CCalls(t.acts) == [I2CWrite(0x2A, [0x00, 0x00], true, true)]
  {
    SingleCommand(AsWritten, RepeatedStartWrite);
  }

  /** Corrected, the write keeps the bus and the engine waits for the next
      command of the frame. */
  lemma RepeatedStartChains()
    ensures var t := Run(Corrected, Idle, FrameInputs([RepeatedStartWrite]));
      && t.next == AddrPhase
      && I2CCalls(t.acts) == [I2CWrite(0x2A, [0x00, 0x00], true, false)]
  {
    SingleCommand(Corrected, RepeatedStartWrite);
  }

  /** `S 0x55 0x05 S`: a read of five bytes from address 0x2A, closed by a
      repeated start, answered on the bus with `reply`. */
  function RepeatedStartRead(reply: seq<byte>): Command
  {
    ReadCommand(0x55, 0x05, START, reply)
  }

  /** Corrected, the read is made and its five bytes go back to the host. */
  lemma ReadFrameServed(reply: seq<byte>)
    requires |reply| == 5
    ensures var t := Run(Corrected, Idle, FrameInputs([RepeatedStartRead(reply)]));
      && t.next == AddrPhase
      && I2CCalls(t.acts) == [I2CRead(0x2A, 5, true, false)]
      && SerialOut(t.acts) == reply
  {
    SingleCommand(Corrected, RepeatedStartRead(reply));
  }

  /** The inputs the same bytes meet as written: after the address byte the
      engine waits for six bytes (five of "payload" and a terminator), only
      the `'S'` comes, and the read times out. */
  const ReadFrameAsWrittenInputs: seq<Input> :=
    [Serial(Got([START])), Serial(Got([0x55, 0x05])), Serial(TimedOut)]

  /** As written, the read frame is taken for a write of five bytes: the
      engine asks for six bytes, times out, abandons the frame, and neither
      reads the bus nor sends anything back. The timeout is the model's
      reading of the code's `except` clause. pyserial would instead return
      the short read `b'S'`, and the code would then make an empty write to
      0x2A with stop set. Either way, no read is made and nothing is sent
      back. */
  lemma ReadFrameTakenAsWrite()
    ensures Conforms(AsWritten, Idle, ReadFrameAsWrittenInputs)
    ensures var t := Run(AsWritten, Idle, ReadFrameAsWrittenInputs);
      && t.next == Idle
      && SerialRead(Request(6, Bounded)) in t.acts
      && I2CCalls(t.acts) == []
      && SerialOut(t.acts) == []
  {
    var ins := ReadFrameAsWrittenInputs;
    var s1 := AddrPhase;
    var s2 := WritePhase(0x2A, 5);
    assert Step(AsWritten, Idle, ins[0]).next == s1;
    assert Step(AsWritten, s1, ins[1]).next == s2;
    BridgeProps.RunPrepend(AsWritten, s2, ins[2], []);
    BridgeProps.RunPrepend(AsWritten, s1, ins[1], ins[2..]);
    BridgeProps.RunPrepend(AsWritten, Idle, ins[0], ins[1..]);
    var t := Run(AsWritten, Idle, ins);
    assert t.acts == [SerialRead(Request(1, Infinite)), SerialRead(Request(2, Bounded)), SerialRead(Request(6, Bounded))];
    BridgeProps.NoSerialWrites(t.acts);
  }

  /** A timeout in the address phase keeps the engine in the address phase,
      so a host that gives up and starts a new frame has its `'S'` taken for
      an address byte: `0x53` decodes as address 0x29, and the next byte as
      a length. */
  lemma AddrTimeoutSwallowsStart(v: Variant, len: byte)
    ensures Conforms(v, Idle, [Serial(Got([START])), Serial(TimedOut), Serial(Got([START, len]))])
    ensures Run(v, Idle, [Serial(Got([START])), Serial(TimedOut), Serial(Got([START, len]))]).next ==
      (if v == AsWritten then WritePhase(0x29, len) else ReadPhase(0x29, len))
  {
    var ins := [Serial(Got([START])), Serial(TimedOut), Serial(Got([START, len]))];
    assert Step(v, Idle, ins[0]).next == AddrPhase;
    assert Step(v, AddrPhase, ins[1]).next == AddrPhase;
    BridgeProps.RunPrepend(v, AddrPhase, ins[2], []);
    BridgeProps.RunPrepend(v, AddrPhase, ins[1], ins[2..]);
    BridgeProps.RunPrepend(v, Idle, ins[0], ins[1..]);
  }

  // ---------------------------------------------------------------------
  // On the wire
  // ---------------------------------------------------------------------

  /** The answer the engine gets from `hi2c.write`: it returns, or the
      exception of the status check or of the transfer-count assertion
      propagates. */
  function WriteOutcome(x: CtypesVeneer.Exchange<()>): BusReply
  {
    match x.result
    case Ok(_) => Returned([])
    case Err(e) => Raised(e)
  }

  /** An engine write goes out through `FtdiI2C.write` as one
      `I2C_DeviceWrite` on the adapter's handle, with the option word of a
      start, the engine's stop flag and bit 4 set; the loop survives it
      exactly when the library reports success and the whole payload
      transferred, and otherwise ends with the channel closed. */
  lemma WriteThroughAdapter(v: Variant, dev: Pylibmpsse.FtdiI2C, addr: Addr7, data: seq<byte>,
                            stop: bool, reply: CtypesVeneer.Reply<uint32>)
    ensures var x := Pylibmpsse.Write(dev, addr, data, reply, true, stop);
      && x.calls == [CtypesVeneer.DeviceWriteCall(dev.hi2c, addr, U32(|data|), data, if stop then 19 else 17)]
      && var t := Step(v, AwaitBus(WriteOp, stop), Bus(WriteOutcome(x)));
         && (t.next.Exited? <==> !(reply.status == 0 && reply.out == |data|))
         && (t.next.Exited? ==> t.acts == [I2CClose])
         && (!t.next.Exited? ==> t.next == (if stop then Idle else AddrPhase))
  {
  }

  /** The repeated-start write of the first scenario on the wire: option
      word 19 (stop) as written, 17 (no stop) corrected. */
  lemma RepeatedStartOnTheWire(v: Variant, dev: Pylibmpsse.FtdiI2C, reply: CtypesVeneer.Reply<uint32>)
    ensures Pylibmpsse.Write(dev, 0x2A, [0x00, 0x00], reply, true, StopFlag(v, START)).calls ==
      [CtypesVeneer.DeviceWriteCall(dev.hi2c, 0x2A, 2, [0x00, 0x00], if v == AsWritten then 19 else 17)]
  {
    WriteThroughAdapter(v, dev, 0x2A, [0x00, 0x00], StopFlag(v, START), reply);
  }
}
