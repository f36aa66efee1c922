/** What the frame engine of `Bridge` does in one step, and how runs
    compose. */
module BridgeProps {
  import opened Base
  import opened Bridge
  import CtypesVeneer

  // ---------------------------------------------------------------------
  // Address byte decoding
  // ---------------------------------------------------------------------

  /** With the low-bit test, decoding inverts the host's encoding of an
      address and a direction, and every byte is such an encoding. */
  lemma LowBitRoundTrip(addr: Addr7, write: bool, raw: byte)
    ensures Addr(RawByte(addr, write)) == addr
    ensures IsWriteLowBit(RawByte(addr, write)) == write
    ensures RawByte(Addr(raw), IsWriteLowBit(raw)) == raw
  {
  }

  /** As written, the byte a host sends to request a read decodes as a write. */
  lemma AsWrittenMisreadsReads(addr: Addr7)
    ensures Direction(AsWritten, RawByte(addr, false))
    ensures !Direction(Corrected, RawByte(addr, false))
  {
  }

  /** The terminator test. As written, exactly the byte `'S'` (0x53) stops,
      in the write branch and the read branch alike; corrected, exactly `'S'`
      chains a repeated start. The two variants disagree on every byte. */
  lemma StopFlagVariants(term: byte)
    ensures StopFlag(AsWritten, term) <==> term == 0x53
    ensures StopFlag(Corrected, term) <==> term != 0x53
    ensures StopFlag(Corrected, term) == !StopFlag(AsWritten, term)
  {
  }

  // ---------------------------------------------------------------------
  // Single steps
  // ---------------------------------------------------------------------

  /** The engine holds at most one I2C call in flight: a step issues at most
      one, and it issues one exactly when it starts waiting for the bus. */
  lemma StepIssuesAtMostOneCall(v: Variant, s: State, i: Input)
    requires Fits(s, i)
    ensures |I2CCalls(Step(v, s, i).acts)| <= 1
    ensures Step(v, s, i).next.AwaitBus? <==> |I2CCalls(Step(v, s, i).acts)| == 1
  {
  }

  /** In Idle a byte other than `'S'` is logged and dropped: no I2C call, no
      serial output, still Idle. `'S'` opens the address phase. */
  lemma IdleBytes(v: Variant, b: byte)
    ensures b != START ==>
      var t := Step(v, Idle, Serial(Got([b])));
      t.next == Idle && I2CCalls(t.acts) == [] && SerialOut(t.acts) == []
    ensures b == START ==> Step(v, Idle, Serial(Got([b]))) == Transition(AddrPhase, [SerialRead(Request(1, Infinite))])
  {
    var t := Step(v, Idle, Serial(Got([b])));
    if b != START {
      assert t.acts == [SerialRead(Request(1, Infinite)), LogControl];
      NoSerialWrites(t.acts);
    }
  }

  /** The idle read is issued without a timeout; every in-frame read with the
      bounded one. */
  lemma ReadTimeouts(v: Variant, s: State, r: ReadResult)
    requires Fits(s, Serial(r))
    ensures Step(v, s, Serial(r)).acts[0].request.mode == (if s.Idle? then Infinite else Bounded)
  {
  }

  /** A timeout while waiting for the address and length neither calls the bus
      nor returns to Idle: the loop reads another pair under the same bound. */
  lemma AddrTimeoutRetries(v: Variant)
    ensures Step(v, AddrPhase, Serial(TimedOut)) == Transition(AddrPhase, [SerialRead(Request(2, Bounded))])
  {
  }

  /** A timeout while waiting for write data or for a read's terminator
      abandons the frame: no I2C call, back to Idle. */
  lemma FrameTimeoutAbandons(v: Variant, s: State)
    requires s.WritePhase? || s.ReadPhase?
    ensures var t := Step(v, s, Serial(TimedOut));
      t.next == Idle && I2CCalls(t.acts) == [] && SerialOut(t.acts) == []
  {
  }

  /** A completed write phase: the `len + 1` bytes split into a payload of
      exactly `len` bytes and a terminator, and exactly one I2C write of that
      payload is issued with start set and stop taken from the terminator. */
  lemma WritePhaseCompletes(v: Variant, addr: Addr7, len: byte, data: seq<byte>)
    requires |data| == len + 1
    ensures var t := Step(v, WritePhase(addr, len), Serial(Got(data)));
      exists payload: seq<byte>, term: byte ::
        && data == payload + [term]
        && |payload| == len
        && I2CCalls(t.acts) == [I2CWrite(addr, payload, true, StopFlag(v, term))]
        && t.next == AwaitBus(WriteOp, StopFlag(v, term))
  {
    var t := Step(v, WritePhase(addr, len), Serial(Got(data)));
    var payload, term := data[..len], data[len];
    assert data == payload + [term];
    assert I2CCalls(t.acts) == [I2CWrite(addr, payload, true, StopFlag(v, term))];
  }

  /** A completed read phase issues exactly one I2C read of `len` bytes. */
  lemma ReadPhaseCompletes(v: Variant, addr: Addr7, len: byte, term: byte)
    ensures var t := Step(v, ReadPhase(addr, len), Serial(Got([term])));
      && I2CCalls(t.acts) == [I2CRead(addr, len, true, StopFlag(v, term))]
      && t.next == AwaitBus(ReadOp, StopFlag(v, term))
  {
  }

  /** Once the I2C call returns, a stop flag ends the frame (Idle), otherwise
      the loop goes back to the address phase. After a read, exactly the
      returned bytes go out on the serial line. */
  lemma BusReturns(v: Variant, op: BusOp, stop: bool, data: seq<byte>)
    ensures var t := Step(v, AwaitBus(op, stop), Bus(Returned(data)));
      && t.next == (if stop then Idle else AddrPhase)
      && I2CCalls(t.acts) == []
      && SerialOut(t.acts) == (if op == ReadOp then data else [])
  {
  }

  /** An exception from the I2C call is not caught by the loop: the engine
      ends, and leaving the `with` block closes the channel. */
  lemma BusRaises(v: Variant, op: BusOp, stop: bool, e: CtypesVeneer.Error)
    ensures Step(v, AwaitBus(op, stop), Bus(Raised(e))) == Transition(Exited(Crashed(e)), [I2CClose])
  {
  }

  // ---------------------------------------------------------------------
  // Runs
  // ---------------------------------------------------------------------

  /** One step followed by the rest of a run. */
  lemma RunCons(v: Variant, s: State, ins: seq<Input>)
    requires ins != [] && Conforms(v, s, ins)
    ensures Fits(s, ins[0])
    ensures var first := Step(v, s, ins[0]);
      && Conforms(v, first.next, ins[1..])
      && Run(v, s, ins) == Transition(Run(v, first.next, ins[1..]).next, first.acts + Run(v, first.next, ins[1..]).acts)
  {
  }

  /** A run that starts with a fitting input: that input's step, then the
      rest of the run. */
  lemma RunPrepend(v: Variant, s: State, i: Input, rest: seq<Input>)
    requires Fits(s, i)
    ensures Conforms(v, s, [i] + rest) <==> Conforms(v, Step(v, s, i).next, rest)
    ensures Run(v, s, [i] + rest) ==
      Transition(Run(v, Step(v, s, i).next, rest).next, Step(v, s, i).acts + Run(v, Step(v, s, i).next, rest).acts)
  {
    assert ([i] + rest)[0] == i;
    assert ([i] + rest)[1..] == rest;
  }

  /** An input sequence followed by another fits iff the second fits the
      state the first one leaves. */
  lemma {:induction false} ConformsAppend(v: Variant, s: State, a: seq<Input>, b: seq<Input>)
    requires Conforms(v, s, a)
    ensures Conforms(v, s, a + b) <==> Conforms(v, Run(v, s, a).next, b)
    decreases |a|
  {
    if a == [] {
      assert a + b == b;
    } else {
      var ab := a + b;
      var next := Step(v, s, a[0]).next;
      assert ab[0] == a[0];
      assert ab[1..] == a[1..] + b;
      RunCons(v, s, a);
      ConformsAppend(v, next, a[1..], b);
    }
  }

  /** Feeding two input sequences one after the other is feeding their
      concatenation: the states chain and the actions concatenate. */
  lemma {:induction false} RunAppend(v: Variant, s: State, a: seq<Input>, b: seq<Input>)
    ensures Run(v, s, a + b) ==
      Transition(Run(v, Run(v, s, a).next, b).next, Run(v, s, a).acts + Run(v, Run(v, s, a).next, b).acts)
    decreases |a|
  {
    if a == [] {
      assert a + b == b;
    } else {
      var ab := a + b;
      assert ab[0] == a[0];
      assert ab[1..] == a[1..] + b;
      var first := Turn(v, s, a[0]);
      var mid := Run(v, first.next, a[1..]);
      RunAppend(v, first.next, a[1..], b);
      var rest := Run(v, mid.next, b);
      assert first.acts + (mid.acts + rest.acts) == (first.acts + mid.acts) + rest.acts;
    }
  }

  /** No state from which a read could be issued, under the as-written test. */
  predicate NoReadPending(s: State)
  {
    !s.ReadPhase? && !(s.AwaitBus? && s.op == ReadOp)
  }

  /** As written, the read branch is unreachable: from any state not already
      inside a read, no input sequence leads to an I2C read or to any output
      on the serial line. */
  lemma {:induction false} AsWrittenNeverReads(s: State, ins: seq<Input>)
    requires NoReadPending(s)
    ensures NoReadPending(Run(AsWritten, s, ins).next)
    ensures forall k :: 0 <= k < |Run(AsWritten, s, ins).acts| ==> !Run(AsWritten, s, ins).acts[k].I2CRead?
    ensures SerialOut(Run(AsWritten, s, ins).acts) == []
    decreases |ins|
  {
    if ins != [] {
      var first := Turn(AsWritten, s, ins[0]);
      AsWrittenNeverReads(first.next, ins[1..]);
      var rest := Run(AsWritten, first.next, ins[1..]);
      assert forall k :: 0 <= k < |first.acts| ==> !first.acts[k].I2CRead? && !first.acts[k].SerialWrite?;
      SerialOutAppend(first.acts, rest.acts);
      assert SerialOut(first.acts) == [] by { NoSerialWrites(first.acts); }
    }
  }

  lemma {:induction false} SerialOutAppend(a: seq<Action>, b: seq<Action>)
    ensures SerialOut(a + b) == SerialOut(a) + SerialOut(b)
    decreases |a|
  {
    if a == [] {
      assert a + b == b;
    } else {
      assert (a + b)[1..] == a[1..] + b;
      SerialOutAppend(a[1..], b);
    }
  }

  lemma {:induction false} NoSerialWrites(a: seq<Action>)
    requires forall k :: 0 <= k < |a| ==> !a[k].SerialWrite?
    ensures SerialOut(a) == []
    decreases |a|
  {
    if a != [] {
      NoSerialWrites(a[1..]);
    }
  }

  lemma {:induction false} I2CCallsAppend(a: seq<Action>, b: seq<Action>)
    ensures I2CCalls(a + b) == I2CCalls(a) + I2CCalls(b)
    decreases |a|
  {
    if a == [] {
      assert a + b == b;
    } else {
      assert (a + b)[1..] == a[1..] + b;
      I2CCallsAppend(a[1..], b);
    }
  }
}
