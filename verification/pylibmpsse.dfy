/** The package front end (`pylibmpsse_i2c/__init__.py`): channel enumeration
    and the `FtdiI2C` context-manager adapter. */
module Pylibmpsse {
  import opened Base
  import opened Mytypes
  import opened CtypesVeneer

  /** `get_channels()`: ask for the channel count, then the information of
      channels 0, 1, ... in ascending order. The first failing call ends the
      enumeration with its exception. `count` is the library's reply to the
      count query and `info(i)` its reply for channel `i`. */
  method GetChannels(count: Reply<uint32>, info: nat -> Reply<InfoNode>)
    returns (r: Exchange<seq<DeviceListInfo>>)
    ensures 1 <= |r.calls| <= count.out + 1 && r.calls[0] == GetNumChannelsCall
    ensures forall j :: 1 <= j < |r.calls| ==> r.calls[j] == GetChannelInfoCall(U32(j - 1))
    ensures r.result.Ok? <==>
      count.status == 0 && forall i :: 0 <= i < count.out ==> info(i).status == 0
    ensures r.result.Ok? ==>
      && |r.result.value| == count.out
      && |r.calls| == count.out + 1
      && forall i :: 0 <= i < count.out ==> r.result.value[i] == ToDataclass(info(i).out)
    ensures count.status != 0 ==>
      r.calls == [GetNumChannelsCall] && r.result == Err(CheckStatus(count.status).error)
    ensures count.status == 0 && r.result.Err? ==>
      var k := |r.calls| - 2;
      && 0 <= k < count.out
      && info(k).status != 0
      && (forall i :: 0 <= i < k ==> info(i).status == 0)
      && r.result.error == CheckStatus(info(k).status).error
  {
    var head := GetNumChannels(count);
    if head.result.Err? {
      return Exchange(head.calls, Err(head.result.error));
    }
    var n := head.result.value;
    var calls := head.calls;
    var results: seq<DeviceListInfo> := [];
    var c := 0;
    while c < n
      invariant 0 <= c <= n
      invariant |results| == c && |calls| == c + 1 && n == count.out
      invariant calls[0] == GetNumChannelsCall
      invariant forall j :: 1 <= j < |calls| ==> calls[j] == GetChannelInfoCall(U32(j - 1))
      invariant forall i :: 0 <= i < c ==> info(i).status == 0
      invariant forall i :: 0 <= i < c ==> results[i] == ToDataclass(info(i).out)
    {
      var one := GetChannelInfo(c, info(c));
      calls := calls + one.calls;
      if one.result.Err? {
        assert |calls| == c + 2 && info(c).status != 0;
        return Exchange(calls, Err(one.result.error));
      }
      results := results + [one.result.value];
      c := c + 1;
    }
    return Exchange(calls, Ok(results));
  }

  /** An open `FtdiI2C`: the handle the constructor stored in `self.hi2c`. */
  datatype FtdiI2C = FtdiI2C(hi2c: Handle)

  /** `FtdiI2C(frequency=100e3, channel=0)`: open the channel, then initialise
      that same handle at the frequency. A failing initialisation raises out of
      the constructor, so `__exit__` never runs and nothing closes the handle. */
  function Construct(openReply: Reply<Handle>, initStatus: int,
                     frequency: int := 100000, channel: int := 0): (r: Exchange<FtdiI2C>)
    ensures |r.calls| >= 1 && r.calls[0] == OpenChannelCall(U32(channel))
    ensures openReply.status != 0 ==> |r.calls| == 1 && r.result.Err?
    ensures openReply.status == 0 ==>
      && |r.calls| == 2
      && r.calls[1] == InitChannelCall(openReply.out, ChannelConfigFor(frequency, 16, 0))
    ensures r.result.Ok? <==> openReply.status == 0 && initStatus == 0
    ensures r.result.Ok? ==> r.result.value.hi2c == openReply.out
    ensures openReply.status != 0 ==> r.result.error == CheckStatus(openReply.status).error
    ensures openReply.status == 0 && initStatus != 0 ==> r.result.error == CheckStatus(initStatus).error
    ensures forall j :: 0 <= j < |r.calls| ==> !r.calls[j].CloseChannelCall?
  {
    var op := OpenChannel(channel, openReply);
    if op.result.Err? then Exchange(op.calls, Err(op.result.error))
    else
      var h := op.result.value;
      var init := InitChannel(h, initStatus, frequency);
      Exchange(op.calls + init.calls,
               if init.result.Err? then Err(init.result.error) else Ok(FtdiI2C(h)))
  }

  /** `__exit__`: close the stored handle; an error from the close propagates. */
  function Exit(dev: FtdiI2C, status: int): (r: Exchange<()>)
    ensures r.calls == [CloseChannelCall(dev.hi2c)]
    ensures r.result.Ok? <==> status == 0
    ensures r.result.Err? ==> r.result.error == CheckStatus(status).error
  {
    CloseChannel(dev.hi2c, status)
  }

  /** `write(address, data, start=True, stop=True)`: forwarded unchanged to
      `write_device` on the stored handle. */
  function Write(dev: FtdiI2C, address: int, data: seq<byte>, reply: Reply<uint32>,
                 start: bool := true, stop: bool := true): (r: Exchange<()>)
    ensures r.calls == [DeviceWriteCall(dev.hi2c, U32(address), U32(|data|), data, WriteOptions(start, stop))]
    ensures r.result.Ok? <==> reply.status == 0 && reply.out == |data|
    ensures reply.status != 0 ==> r.result == Err(CheckStatus(reply.status).error)
    ensures reply.status == 0 && reply.out != |data| ==> r.result == Err(AssertionError(NotAllWritten))
  {
    WriteDevice(dev.hi2c, address, data, reply, start, stop)
  }

  /** `read(address, length, start, stop)`: a stub that issues no call and
      returns `None`. */
  function Read(dev: FtdiI2C, address: int, length: int, start: bool, stop: bool): (r: Exchange<Option<seq<byte>>>)
  {
    Exchange([], Ok(None))
  }

  /** The stub ignores every argument: all calls look the same. */
  lemma ReadIgnoresArguments(d1: FtdiI2C, a1: int, l1: int, s1: bool, p1: bool,
                             d2: FtdiI2C, a2: int, l2: int, s2: bool, p2: bool)
    ensures Read(d1, a1, l1, s1, p1) == Read(d2, a2, l2, s2, p2)
    ensures Read(d1, a1, l1, s1, p1).calls == []
    ensures Read(d1, a1, l1, s1, p1).result == Ok(None)
  {
  }

  /** The lifecycle of `with FtdiI2C(...) as dev: dev.write(...)`: every call
      after the open uses the handle the open returned, and the exit closes
      exactly that handle. */
  lemma Lifecycle(openReply: Reply<Handle>, initStatus: int, frequency: int, channel: int,
                  address: int, data: seq<byte>, writeReply: Reply<uint32>, closeStatus: int)
    requires Construct(openReply, initStatus, frequency, channel).result.Ok?
    ensures var dev := Construct(openReply, initStatus, frequency, channel).result.value;
      && Construct(openReply, initStatus, frequency, channel).calls ==
           [OpenChannelCall(U32(channel)), InitChannelCall(openReply.out, ChannelConfigFor(frequency, 16, 0))]
      && Write(dev, address, data, writeReply).calls[0].handle == openReply.out
      && Exit(dev, closeStatus).calls == [CloseChannelCall(openReply.out)]
  {
  }
}
