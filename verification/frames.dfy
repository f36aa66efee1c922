/** The frame grammar of the serial protocol, written independently of the
    engine, and the theorems that tie the engine of `Bridge` to it.

    A frame is `'S'` followed by one or more commands. A write command is an
    address byte, a length byte, that many payload bytes and a terminator; a
    read command is an address byte, a length byte and a terminator, and the
    bus answers it with the bytes read. Every terminator but the last keeps
    the frame open (a repeated start); the last one stops it. */
module Frames {
  import opened Base
  import opened Bridge
  import BridgeProps

  /** A write payload whose length fits the length byte. */
  type Payload = p: seq<byte> | |p| < 256

  /** One command as the host sends it, together with the bus's answer to
      it: nothing for a write, the bytes read for a read. */
  datatype Command =
    | WriteCommand(raw: byte, payload: Payload, term: byte)
    | ReadCommand(raw: byte, len: byte, term: byte, reply: seq<byte>)

  /** The address byte announces the command's direction. */
  predicate WellFormed(v: Variant, c: Command)
  {
    match c
    case WriteCommand(raw, _, _) => Direction(v, raw)
    case ReadCommand(raw, _, _, _) => !Direction(v, raw)
  }

  /** The inputs the engine meets while serving a command: the address and
      length bytes, the rest of the command, the bus's answer. */
  function Inputs(c: Command): (ins: seq<Input>)
    ensures |ins| == 3
  {
    match c
    case WriteCommand(raw, p, term) =>
      [Serial(Got([raw, |p|])), Serial(Got(p + [term])), Bus(Returned([]))]
    case ReadCommand(raw, len, term, reply) =>
      [Serial(Got([raw, len])), Serial(Got([term])), Bus(Returned(reply))]
  }

  /** The one I2C call a command asks for: to the 7-bit address of its
      address byte, with a start condition, and a stop condition as its
      terminator says. */
  function Call(v: Variant, c: Command): (a: Action)
    ensures IsI2C(a)
  {
    match c
    case WriteCommand(raw, p, term) => I2CWrite(Addr(raw), p, true, StopFlag(v, term))
    case ReadCommand(raw, len, term, _) => I2CRead(Addr(raw), len, true, StopFlag(v, term))
  }

  /** The bytes a command sends back to the host: a read's reply. */
  function HostReply(c: Command): seq<byte>
  {
    if c.ReadCommand? then c.reply else []
  }

  /** What serving a command does, by the protocol: read the address and
      length, read the rest of the command, make its call, and send a read's
      reply back. */
  function Expected(v: Variant, c: Command): (acts: seq<Action>)
    ensures I2CCalls(acts) == [Call(v, c)]
    ensures SerialOut(acts) == HostReply(c)
  {
    var rest := if c.WriteCommand? then |c.payload| + 1 else 1;
    var out := if c.ReadCommand? then [SerialWrite(c.reply)] else [];
    var serialReads := [SerialRead(Request(2, Bounded)), SerialRead(Request(rest, Bounded))];
    var acts := serialReads + [Call(v, c)] + out;
    BridgeProps.I2CCallsAppend(serialReads + [Call(v, c)], out);
    BridgeProps.I2CCallsAppend(serialReads, [Call(v, c)]);
    BridgeProps.SerialOutAppend(serialReads + [Call(v, c)], out);
    BridgeProps.NoSerialWrites(serialReads + [Call(v, c)]);
    acts
  }

  // ---------------------------------------------------------------------
  // Sequences of commands and whole frames
  // ---------------------------------------------------------------------

  function ChainInputs(cs: seq<Command>): seq<Input>
  {
    if cs == [] then [] else Inputs(cs[0]) + ChainInputs(cs[1..])
  }

  function ChainExpected(v: Variant, cs: seq<Command>): seq<Action>
  {
    if cs == [] then [] else Expected(v, cs[0]) + ChainExpected(v, cs[1..])
  }

  /** The I2C calls of a sequence of commands, in order. */
  function Calls(v: Variant, cs: seq<Command>): (r: seq<Action>)
    ensures |r| == |cs|
    ensures forall k :: 0 <= k < |cs| ==> r[k] == Call(v, cs[k])
  {
    if cs == [] then [] else [Call(v, cs[0])] + Calls(v, cs[1..])
  }

  /** The replies of a sequence of commands, concatenated. */
  function Replies(cs: seq<Command>): seq<byte>
  {
    if cs == [] then [] else HostReply(cs[0]) + Replies(cs[1..])
  }

  /** A frame: at least one command, each announcing its direction, every
      terminator but the last keeping the frame open and the last one
      closing it. */
  predicate IsFrame(v: Variant, cs: seq<Command>)
  {
    && |cs| >= 1
    && (forall k :: 0 <= k < |cs| ==> WellFormed(v, cs[k]))
    && (forall k :: 0 <= k < |cs| - 1 ==> !StopFlag(v, cs[k].term))
    && StopFlag(v, cs[|cs| - 1].term)
  }

  /** The inputs of a frame: the start marker, then its commands. */
  function FrameInputs(cs: seq<Command>): seq<Input>
  {
    [Serial(Got([START]))] + ChainInputs(cs)
  }

  /** What a frame makes the engine do, by the protocol. */
  function FrameExpected(v: Variant, cs: seq<Command>): seq<Action>
  {
    [SerialRead(Request(1, Infinite))] + ChainExpected(v, cs)
  }

  // ---------------------------------------------------------------------
  // The engine follows the grammar
  // ---------------------------------------------------------------------

  /** Serving one command from the address phase: the inputs fit, the
      engine does what the protocol prescribes, and it ends in Idle when the
      terminator stops and back in the address phase otherwise. */
  lemma CommandRun(v: Variant, c: Command)
    requires WellFormed(v, c)
    ensures Conforms(v, AddrPhase, Inputs(c))
    ensures Run(v, AddrPhase, Inputs(c)) ==
      Transition(if StopFlag(v, c.term) then Idle else AddrPhase, Expected(v, c))
  {
    match c
    case WriteCommand(raw, p, term) => WriteRun(v, raw, p, term);
    case ReadCommand(raw, len, term, reply) => ReadRun(v, raw, len, term, reply);
  }

  lemma WriteRun(v: Variant, raw: byte, p: Payload, term: byte)
    requires Direction(v, raw)
    ensures var c := WriteCommand(raw, p, term);
      && Conforms(v, AddrPhase, Inputs(c))
      && Run(v, AddrPhase, Inputs(c)) == Transition(if StopFlag(v, term) then Idle else AddrPhase, Expected(v, c))
  {
    var c := WriteCommand(raw, p, term);
    var ins := Inputs(c);
    var s1 := WritePhase(Addr(raw), |p|);
    var s2 := AwaitBus(WriteOp, StopFlag(v, term));
    assert (p + [term])[..|p|] == p;
    assert Step(v, AddrPhase, ins[0]).next == s1;
    assert Step(v, s1, ins[1]).next == s2;
    BridgeProps.RunPrepend(v, s2, ins[2], []);
    BridgeProps.RunPrepend(v, s1, ins[1], ins[2..]);
    BridgeProps.RunPrepend(v, AddrPhase, ins[0], ins[1..]);
  }

  lemma ReadRun(v: Variant, raw: byte, len: byte, term: byte, reply: seq<byte>)
    requires !Direction(v, raw)
    ensures var c := ReadCommand(raw, len, term, reply);
      && Conforms(v, AddrPhase, Inputs(c))
      && Run(v, AddrPhase, Inputs(c)) == Transition(if StopFlag(v, term) then Idle else AddrPhase, Expected(v, c))
  {
    var c := ReadCommand(raw, len, term, reply);
    var ins := Inputs(c);
    var s1 := ReadPhase(Addr(raw), len);
    var s2 := AwaitBus(ReadOp, StopFlag(v, term));
    assert Step(v, AddrPhase, ins[0]).next == s1;
    assert Step(v, s1, ins[1]).next == s2;
    BridgeProps.RunPrepend(v, s2, ins[2], []);
    BridgeProps.RunPrepend(v, s1, ins[1], ins[2..]);
    BridgeProps.RunPrepend(v, AddrPhase, ins[0], ins[1..]);
  }

  /** A tail of a frame that still has commands is a frame. */
  lemma FrameTail(v: Variant, cs: seq<Command>)
    requires IsFrame(v, cs) && |cs| >= 2
    ensures IsFrame(v, cs[1..])
    ensures !StopFlag(v, cs[0].term)
  {
    assert forall k :: 0 <= k < |cs| - 1 ==> cs[1..][k] == cs[k + 1];
  }

  /** The commands of a frame, served from the address phase: the engine
      does what the protocol prescribes for each in turn and returns to
      Idle after the last. */
  lemma {:induction false} ChainRun(v: Variant, cs: seq<Command>)
    requires IsFrame(v, cs)
    ensures Conforms(v, AddrPhase, ChainInputs(cs))
    ensures Run(v, AddrPhase, ChainInputs(cs)) == Transition(Idle, ChainExpected(v, cs))
    decreases |cs|
  {
    var c := cs[0];
    CommandRun(v, c);
    if |cs| == 1 {
      assert ChainInputs(cs) == Inputs(c) + ChainInputs([]);
      assert ChainInputs(cs) == Inputs(c);
      assert ChainExpected(v, cs) == Expected(v, c);
    } else {
      FrameTail(v, cs);
      ChainRun(v, cs[1..]);
      BridgeProps.ConformsAppend(v, AddrPhase, Inputs(c), ChainInputs(cs[1..]));
      BridgeProps.RunAppend(v, AddrPhase, Inputs(c), ChainInputs(cs[1..]));
    }
  }

  /** A whole frame from Idle: the engine does exactly what the protocol
      prescribes and is back in Idle at the end. */
  lemma FrameRun(v: Variant, cs: seq<Command>)
    requires IsFrame(v, cs)
    ensures Conforms(v, Idle, FrameInputs(cs))
    ensures Run(v, Idle, FrameInputs(cs)) == Transition(Idle, FrameExpected(v, cs))
  {
    ChainRun(v, cs);
    BridgeProps.RunPrepend(v, Idle, Serial(Got([START])), ChainInputs(cs));
  }

  lemma {:induction false} ChainCalls(v: Variant, cs: seq<Command>)
    ensures I2CCalls(ChainExpected(v, cs)) == Calls(v, cs)
    ensures SerialOut(ChainExpected(v, cs)) == Replies(cs)
    decreases |cs|
  {
    if cs != [] {
      ChainCalls(v, cs[1..]);
      BridgeProps.I2CCallsAppend(Expected(v, cs[0]), ChainExpected(v, cs[1..]));
      BridgeProps.SerialOutAppend(Expected(v, cs[0]), ChainExpected(v, cs[1..]));
    }
  }

  /** What a frame does on the bus and on the serial line: exactly one I2C
      call per command, in order, each to the command's address with a start
      condition and the stop its terminator asks for; and back to the host
      exactly the replies of its reads, concatenated. */
  lemma FrameBehaviour(v: Variant, cs: seq<Command>)
    requires IsFrame(v, cs)
    ensures Conforms(v, Idle, FrameInputs(cs))
    ensures var t := Run(v, Idle, FrameInputs(cs));
      && t.next == Idle
      && I2CCalls(t.acts) == Calls(v, cs)
      && SerialOut(t.acts) == Replies(cs)
  {
    FrameRun(v, cs);
    ChainCalls(v, cs);
    var first := [SerialRead(Request(1, Infinite))];
    BridgeProps.I2CCallsAppend(first, ChainExpected(v, cs));
    BridgeProps.SerialOutAppend(first, ChainExpected(v, cs));
  }

  /** `'S'` and a single command, whatever its terminator: the command's
      one call is made, and the engine ends in Idle when the terminator
      stops and in the address phase, waiting for the next command of the
      frame, otherwise. */
  lemma SingleCommand(v: Variant, c: Command)
    requires WellFormed(v, c)
    ensures Conforms(v, Idle, FrameInputs([c]))
    ensures var t := Run(v, Idle, FrameInputs([c]));
      && t.next == (if StopFlag(v, c.term) then Idle else AddrPhase)
      && I2CCalls(t.acts) == [Call(v, c)]
      && SerialOut(t.acts) == HostReply(c)
  {
    CommandRun(v, c);
    assert ChainInputs([c]) == Inputs(c) + ChainInputs([]);
    assert ChainInputs([c]) == Inputs(c);
    BridgeProps.RunPrepend(v, Idle, Serial(Got([START])), Inputs(c));
    var first := [SerialRead(Request(1, Infinite))];
    BridgeProps.I2CCallsAppend(first, Expected(v, c));
    BridgeProps.SerialOutAppend(first, Expected(v, c));
  }

  // ---------------------------------------------------------------------
  // Between frames
  // ---------------------------------------------------------------------

  /** Single bytes arriving in Idle, one idle read each. */
  function NoiseInputs(noise: seq<byte>): (ins: seq<Input>)
    ensures |ins| == |noise|
    ensures forall k :: 0 <= k < |noise| ==> ins[k] == Serial(Got([noise[k]]))
  {
    if noise == [] then [] else [Serial(Got([noise[0]]))] + NoiseInputs(noise[1..])
  }

  /** Bytes other than `'S'` received in Idle are dropped: the engine stays
      in Idle, calls nothing and sends nothing back. */
  lemma {:induction false} NoiseRun(v: Variant, noise: seq<byte>)
    requires forall k :: 0 <= k < |noise| ==> noise[k] != START
    ensures Conforms(v, Idle, NoiseInputs(noise))
    ensures var t := Run(v, Idle, NoiseInputs(noise));
      t.next == Idle && I2CCalls(t.acts) == [] && SerialOut(t.acts) == []
    decreases |noise|
  {
    if noise != [] {
      var i := Serial(Got([noise[0]]));
      var first := Step(v, Idle, i);
      BridgeProps.IdleBytes(v, noise[0]);
      NoiseRun(v, noise[1..]);
      assert NoiseInputs(noise) == [i] + NoiseInputs(noise[1..]);
      BridgeProps.RunPrepend(v, Idle, i, NoiseInputs(noise[1..]));
      var rest := Run(v, Idle, NoiseInputs(noise[1..]));
      BridgeProps.I2CCallsAppend(first.acts, rest.acts);
      BridgeProps.SerialOutAppend(first.acts, rest.acts);
    }
  }

  /** Noise before a frame changes nothing the frame does. */
  lemma Resynchronises(v: Variant, noise: seq<byte>, cs: seq<Command>)
    requires forall k :: 0 <= k < |noise| ==> noise[k] != START
    requires IsFrame(v, cs)
    ensures Conforms(v, Idle, NoiseInputs(noise) + FrameInputs(cs))
    ensures var t := Run(v, Idle, NoiseInputs(noise) + FrameInputs(cs));
      && t.next == Idle
      && I2CCalls(t.acts) == Calls(v, cs)
      && SerialOut(t.acts) == Replies(cs)
  {
    NoiseRun(v, noise);
    FrameBehaviour(v, cs);
    BridgeProps.ConformsAppend(v, Idle, NoiseInputs(noise), FrameInputs(cs));
    BridgeProps.RunAppend(v, Idle, NoiseInputs(noise), FrameInputs(cs));
    var a := Run(v, Idle, NoiseInputs(noise)).acts;
    var b := Run(v, Idle, FrameInputs(cs)).acts;
    BridgeProps.I2CCallsAppend(a, b);
    BridgeProps.SerialOutAppend(a, b);
  }

  /** Frames sent one after another. */
  function SessionInputs(fs: seq<seq<Command>>): seq<Input>
  {
    if fs == [] then [] else FrameInputs(fs[0]) + SessionInputs(fs[1..])
  }

  /** The I2C calls of frames sent one after another, in order. */
  function SessionCalls(v: Variant, fs: seq<seq<Command>>): seq<Action>
  {
    if fs == [] then [] else Calls(v, fs[0]) + SessionCalls(v, fs[1..])
  }

  function SessionReplies(fs: seq<seq<Command>>): seq<byte>
  {
    if fs == [] then [] else Replies(fs[0]) + SessionReplies(fs[1..])
  }

  /** Frames in a row are served independently: each frame's calls and
      replies follow those of the frame before, and the engine is in Idle
      between frames and at the end. */
  lemma {:induction false} Session(v: Variant, fs: seq<seq<Command>>)
    requires forall k :: 0 <= k < |fs| ==> IsFrame(v, fs[k])
    ensures Conforms(v, Idle, SessionInputs(fs))
    ensures var t := Run(v, Idle, SessionInputs(fs));
      && t.next == Idle
      && I2CCalls(t.acts) == SessionCalls(v, fs)
      && SerialOut(t.acts) == SessionReplies(fs)
    decreases |fs|
  {
    if fs != [] {
      assert forall k :: 0 <= k < |fs| - 1 ==> fs[1..][k] == fs[k + 1];
      FrameBehaviour(v, fs[0]);
      Session(v, fs[1..]);
      BridgeProps.ConformsAppend(v, Idle, FrameInputs(fs[0]), SessionInputs(fs[1..]));
      BridgeProps.RunAppend(v, Idle, FrameInputs(fs[0]), SessionInputs(fs[1..]));
      var a := Run(v, Idle, FrameInputs(fs[0])).acts;
      var b := Run(v, Idle, SessionInputs(fs[1..])).acts;
      BridgeProps.I2CCallsAppend(a, b);
      BridgeProps.SerialOutAppend(a, b);
    }
  }

  /** The same frame sent twice produces the same I2C calls twice. */
  lemma RepeatedFrame(v: Variant, cs: seq<Command>)
    requires IsFrame(v, cs)
    ensures var t := Run(v, Idle, FrameInputs(cs) + FrameInputs(cs));
      t.next == Idle && I2CCalls(t.acts) == Calls(v, cs) + Calls(v, cs)
  {
    FrameBehaviour(v, cs);
    BridgeProps.RunAppend(v, Idle, FrameInputs(cs), FrameInputs(cs));
    var a := Run(v, Idle, FrameInputs(cs)).acts;
    BridgeProps.I2CCallsAppend(a, a);
  }
}
