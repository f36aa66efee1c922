/** The ctypes veneer over the MPSSE I2C library (`ctypes_veneer.py`).

    The library's entry points are foreign code. Each one is modelled as a
    `DllCall` value (the arguments it receives, after ctypes conversion)
    paired with a `Reply` (the status it returns and the value it leaves in
    its out-parameter), which the caller supplies. A Python function then
    becomes a pure function from its arguments and the replies to the calls
    it issues and to its return value or exception. */
module CtypesVeneer {
  import opened Base
  import opened FtStatus
  import opened Mytypes

  // ---------------------------------------------------------------------
  // Exceptions
  // ---------------------------------------------------------------------

  /** The text of the two `assert` statements. */
  datatype AssertMessage =
    | DidNotRead(expected: int, actual: int)   // read_device
    | NotAllWritten                            // write_device

  /** What a `ValueError` complains about. */
  datatype ValueReason =
    | NotAStatus(code: int)      // FT_Status(code) outside the enumeration
    | NegativeCount(count: int)  // bytes(count) for a negative count

  /** The exceptions the veneer raises. An `FtdiError` is raised as
      `FtdiError(str(status))`; it is kept here as the status it was raised
      for, and its text is `Render(status)`, which determines the status
      (`FtStatus.RenderInjective`). */
  datatype Error =
    | FtdiError(status: Status)           // raised by the status check
    | ValueError(complaint: ValueReason)
    | AssertionError(reason: AssertMessage)

  // ---------------------------------------------------------------------
  // Status check
  // ---------------------------------------------------------------------

  /** `wrapped_function` after the foreign call returned `code`: convert the
      code to an `FT_Status`, raise `FtdiError(str(status))` unless it is
      `FT_OK`, and hand the code back unchanged. */
  function CheckStatus(code: int): (r: Result<int, Error>)
    ensures r.Ok? <==> code == Code(FT_OK)
    ensures r.Ok? ==> r.value == code
    ensures 0 < code <= 18 ==> r.Err? && r.error.FtdiError?
    ensures r.Err? && r.error.FtdiError? ==> r.error.status != FT_OK && Code(r.error.status) == code
    ensures !(0 <= code <= 18) ==> r == Err(ValueError(NotAStatus(code)))
  {
    match FromCode(code)
    case None => Err(ValueError(NotAStatus(code)))
    case Some(s) => if s != FT_OK then Err(FtdiError(s)) else Ok(code)
  }

  /** A failing call's error names its code: two failing calls whose
      `FtdiError`s read the same text, or whose errors are equal, returned
      the same code. */
  lemma CheckStatusMessageIdentifies(c1: int, c2: int)
    ensures var r1, r2 := CheckStatus(c1), CheckStatus(c2);
      (r1.Err? && r2.Err? && r1.error.FtdiError? && r2.error.FtdiError? &&
       Render(r1.error.status) == Render(r2.error.status)) ==> c1 == c2
    ensures CheckStatus(c1).Err? && CheckStatus(c2).Err? && CheckStatus(c1).error == CheckStatus(c2).error
      ==> c1 == c2
  {
    var r1, r2 := CheckStatus(c1), CheckStatus(c2);
    if r1.Err? && r2.Err? && r1.error.FtdiError? && r2.error.FtdiError? {
      RenderInjective(r1.error.status, r2.error.status);
    }
  }

  // ---------------------------------------------------------------------
  // Transfer option words
  // ---------------------------------------------------------------------

  /** A Python bool used in arithmetic. */
  function Int(b: bool): int { if b then 1 else 0 }

  /** The bits of an option word the veneer sets: bit 0, bit 1 and bit 4. */
  datatype OptionBits = OptionBits(start: bool, stop: bool, bit4: bool)

  function DecodeOptions(w: int): OptionBits
  {
    OptionBits(w % 2 == 1, (w / 2) % 2 == 1, (w / 16) % 2 == 1)
  }

  /** Options of `I2C_DeviceRead`: `start + 2 * stop + (0 << 4)`. */
  function ReadOptions(start: bool, stop: bool): (w: uint32)
    ensures 0 <= w <= 3
    ensures DecodeOptions(w) == OptionBits(start, stop, false)
  {
    Int(start) + 2 * Int(stop) + 0 * 16
  }

  /** Options of `I2C_DeviceWrite`: `start + 2 * stop + (1 << 4)`. */
  function WriteOptions(start: bool, stop: bool): (w: uint32)
    ensures 16 <= w <= 19
    ensures DecodeOptions(w) == OptionBits(start, stop, true)
  {
    Int(start) + 2 * Int(stop) + 1 * 16
  }

  /** The two encodings are injective in (start, stop) and never collide. */
  lemma OptionWordsDistinct(a: bool, b: bool, c: bool, d: bool)
    ensures ReadOptions(a, b) == ReadOptions(c, d) ==> a == c && b == d
    ensures WriteOptions(a, b) == WriteOptions(c, d) ==> a == c && b == d
    ensures ReadOptions(a, b) != WriteOptions(c, d)
  {
    if ReadOptions(a, b) == ReadOptions(c, d) {
      assert DecodeOptions(ReadOptions(a, b)) == DecodeOptions(ReadOptions(c, d));
    }
    if WriteOptions(a, b) == WriteOptions(c, d) {
      assert DecodeOptions(WriteOptions(a, b)) == DecodeOptions(WriteOptions(c, d));
    }
  }

  // ---------------------------------------------------------------------
  // Structures and calls
  // ---------------------------------------------------------------------

  /** A `FT_HANDLE` (`c_void_p`) as the integer Python sees. */
  type Handle = int

  type Chars16 = s: seq<byte> | |s| == 16 witness seq(16, _ => 0)
  type Chars64 = s: seq<byte> | |s| == 64 witness seq(64, _ => 0)

  /** `FT_DEVICE_LIST_INFO_NODE`. */
  datatype InfoNode = InfoNode(
    flags: uint32,
    kind: uint32,
    id: uint32,
    locId: uint32,
    serialNumber: Chars16,
    description: Chars64,
    ftHandle: Handle)

  /** `ChannelConfig`; the fields `init_channel` leaves alone stay zero. */
  datatype ChannelConfig = ChannelConfig(
    clockRate: uint32,
    latencyTimer: ubyte,
    options: uint32,
    pin: uint32,
    currentPinState: uint16)

  datatype DllCall =
    | GetNumChannelsCall
    | GetChannelInfoCall(index: uint32)
    | OpenChannelCall(index: uint32)
    | InitChannelCall(handle: Handle, config: ChannelConfig)
    | CloseChannelCall(handle: Handle)
    | DeviceReadCall(handle: Handle, address: uint32, count: uint32, options: uint32)
    | DeviceWriteCall(handle: Handle, address: uint32, count: uint32, data: seq<byte>, options: uint32)

  /** What a foreign entry point hands back: its status and the value it left
      in its out-parameter. */
  datatype Reply<T> = Reply(status: int, out: T)

  /** The foreign calls a Python function issued, in order, and what it
      returned or raised. */
  datatype Exchange<T> = Exchange(calls: seq<DllCall>, result: Result<T, Error>)

  // ---------------------------------------------------------------------
  // to_dataclass
  // ---------------------------------------------------------------------

  /** `ctypes.string_at` on a `c_char` array: the bytes before the first NUL,
      or the whole array when it holds none. */
  function UpToNul(a: seq<byte>): (r: seq<byte>)
    ensures r <= a
    ensures 0 !in r
    ensures |r| < |a| ==> a[|r|] == 0
  {
    if a == [] || a[0] == 0 then [] else [a[0]] + UpToNul(a[1..])
  }

  /** The three properties of `UpToNul` single out its result. */
  lemma UpToNulUnique(a: seq<byte>, r: seq<byte>)
    requires r <= a && 0 !in r
    requires |r| < |a| ==> a[|r|] == 0
    ensures r == UpToNul(a)
  {
  }

  /** `FT_DEVICE_LIST_INFO_NODE.to_dataclass`. */
  function ToDataclass(n: InfoNode): (r: DeviceListInfo)
    ensures r.flags == n.flags && r.kind == n.kind && r.id == n.id && r.locId == n.locId
    ensures r.handle == n.ftHandle
    ensures r.serial <= n.serialNumber && |r.serial| <= 16 && 0 !in r.serial
    ensures r.serial == UpToNul(n.serialNumber)
    ensures r.description <= n.description && |r.description| <= 64 && 0 !in r.description
    ensures r.description == UpToNul(n.description)
  {
    DeviceListInfo(n.flags, n.kind, n.id, n.locId,
                   UpToNul(n.serialNumber), UpToNul(n.description), n.ftHandle)
  }

  // ---------------------------------------------------------------------
  // The Python wrappers
  // ---------------------------------------------------------------------

  /** `get_num_channels`. */
  function GetNumChannels(reply: Reply<uint32>): (r: Exchange<nat>)
    ensures r.calls == [GetNumChannelsCall]
    ensures r.result.Ok? <==> reply.status == 0
    ensures r.result.Ok? ==> r.result.value == reply.out
    ensures r.result.Err? ==> r.result.error == CheckStatus(reply.status).error
  {
    var check := CheckStatus(reply.status);
    Exchange([GetNumChannelsCall], if check.Err? then Err(check.error) else Ok(reply.out))
  }

  /** `get_channel_info(index=0)`. */
  function GetChannelInfo(index: int := 0, reply: Reply<InfoNode>): (r: Exchange<DeviceListInfo>)
    ensures r.calls == [GetChannelInfoCall(U32(index))]
    ensures r.result.Ok? <==> reply.status == 0
    ensures r.result.Ok? ==> r.result.value == ToDataclass(reply.out)
    ensures r.result.Err? ==> r.result.error == CheckStatus(reply.status).error
  {
    var check := CheckStatus(reply.status);
    Exchange([GetChannelInfoCall(U32(index))],
             if check.Err? then Err(check.error) else Ok(ToDataclass(reply.out)))
  }

  /** `open_channel(index)`: the handle the library wrote. */
  function OpenChannel(index: int, reply: Reply<Handle>): (r: Exchange<Handle>)
    ensures r.calls == [OpenChannelCall(U32(index))]
    ensures r.result.Ok? <==> reply.status == 0
    ensures r.result.Ok? ==> r.result.value == reply.out
    ensures r.result.Err? ==> r.result.error == CheckStatus(reply.status).error
  {
    var check := CheckStatus(reply.status);
    Exchange([OpenChannelCall(U32(index))], if check.Err? then Err(check.error) else Ok(reply.out))
  }

  /** The configuration `init_channel` builds: `int(frequency)` as clock rate
      (the frequency is taken as an integer here), latency and options as
      given, stored into fixed-width fields. */
  function ChannelConfigFor(frequency: int, latency: int, options: int): (c: ChannelConfig)
    ensures 0 <= frequency < 0x1_0000_0000 ==> c.clockRate == frequency
    ensures 0 <= latency < 0x100 ==> c.latencyTimer == latency
    ensures 0 <= options < 0x1_0000_0000 ==> c.options == options
    ensures c.pin == 0 && c.currentPinState == 0
  {
    ChannelConfig(U32(frequency), U8(latency), U32(options), 0, 0)
  }

  /** `init_channel(handle, frequency=100000, latency=16, options=0)`. */
  function InitChannel(handle: Handle, status: int, frequency: int := 100000,
                       latency: int := 16, options: int := 0): (r: Exchange<()>)
    ensures r.calls == [InitChannelCall(handle, ChannelConfigFor(frequency, latency, options))]
    ensures r.result.Ok? <==> status == 0
    ensures r.result.Err? ==> r.result.error == CheckStatus(status).error
  {
    var check := CheckStatus(status);
    Exchange([InitChannelCall(handle, ChannelConfigFor(frequency, latency, options))],
             if check.Err? then Err(check.error) else Ok(()))
  }

  /** `close_channel(handle)`. */
  function CloseChannel(handle: Handle, status: int): (r: Exchange<()>)
    ensures r.calls == [CloseChannelCall(handle)]
    ensures r.result.Ok? <==> status == 0
    ensures r.result.Err? ==> r.result.error == CheckStatus(status).error
  {
    var check := CheckStatus(status);
    Exchange([CloseChannelCall(handle)], if check.Err? then Err(check.error) else Ok(()))
  }

  /** `read_device`: the buffer `bytes(count)` is built first, which raises
      before any library call when `count` is negative. Otherwise one
      `I2C_DeviceRead` asking for `count` bytes with the read option word; a
      bad status raises first, then the transferred count must equal
      `count`. The bytes handed back are not modelled. */
  function ReadDevice(handle: Handle, address: int, count: int, reply: Reply<uint32>,
                      start: bool := true, stop: bool := true): (r: Exchange<()>)
    ensures count < 0 ==> r.calls == [] && r.result == Err(ValueError(NegativeCount(count)))
    ensures count >= 0 ==>
      r.calls == [DeviceReadCall(handle, U32(address), U32(count), ReadOptions(start, stop))]
    ensures r.result.Ok? <==> count >= 0 && reply.status == 0 && reply.out == count
    ensures count >= 0 && reply.status != 0 ==> r.result == Err(CheckStatus(reply.status).error)
    ensures count >= 0 && reply.status == 0 && reply.out != count ==>
      r.result == Err(AssertionError(DidNotRead(count, reply.out)))
  {
    var call := DeviceReadCall(handle, U32(address), U32(count), ReadOptions(start, stop));
    var check := CheckStatus(reply.status);
    if count < 0 then Exchange([], Err(ValueError(NegativeCount(count))))
    else if check.Err? then Exchange([call], Err(check.error))
    else if reply.out != count then Exchange([call], Err(AssertionError(DidNotRead(count, reply.out))))
    else Exchange([call], Ok(()))
  }

  /** `write_device`: one `I2C_DeviceWrite` of all of `data` with the write
      option word; a bad status raises first, then every byte must have been
      transferred. */
  function WriteDevice(handle: Handle, address: int, data: seq<byte>, reply: Reply<uint32>,
                       start: bool := true, stop: bool := true): (r: Exchange<()>)
    ensures r.calls == [DeviceWriteCall(handle, U32(address), U32(|data|), data, WriteOptions(start, stop))]
    ensures r.result.Ok? <==> reply.status == 0 && reply.out == |data|
    ensures reply.status != 0 ==> r.result == Err(CheckStatus(reply.status).error)
    ensures reply.status == 0 && reply.out != |data| ==>
      r.result == Err(AssertionError(NotAllWritten))
  {
    var call := DeviceWriteCall(handle, U32(address), U32(|data|), data, WriteOptions(start, stop));
    var check := CheckStatus(reply.status);
    if check.Err? then Exchange([call], Err(check.error))
    else if reply.out != |data| then Exchange([call], Err(AssertionError(NotAllWritten)))
    else Exchange([call], Ok(()))
  }
}
