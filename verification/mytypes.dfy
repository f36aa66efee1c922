/** The plain record of `mytypes.py`: what the library reports about one channel. */
module Mytypes {
  import opened Base

  datatype DeviceListInfo = DeviceListInfo(
    flags: int,
    kind: int,            // the dataclass field `type`
    id: int,
    locId: int,
    serial: seq<byte>,    // the UTF-8 decoding of these bytes is not modelled
    description: seq<byte>,
    handle: int)
}
