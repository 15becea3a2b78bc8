/** Values the driver shares with the BACnet stack: addresses, application values, options. */
module Bacnet {

  datatype Option<+T> = None | Some(value: T)

  type byte = x: int | 0 <= x < 0x100
  type uint16 = x: int | 0 <= x < 0x1_0000
  type uint32 = x: int | 0 <= x < 0x1_0000_0000

  const UINT32_MAX: uint32 := 0xFFFF_FFFF

  /** The largest device instance, a 22-bit number (clause 20.2.14 of ANSI/ASHRAE 135). */
  const BACNET_MAX_INSTANCE: uint32 := 0x3F_FFFF

  /** The six octets of a BACnet/IP MAC: an IPv4 address followed by a UDP port, high octet first. */
  datatype Mac = Mac(ip0: byte, ip1: byte, ip2: byte, ip3: byte, portHigh: byte, portLow: byte)

  /** `BACNET_ADDRESS`; `address_match` is equality of these values, and `len` is the length of `adr`. */
  datatype Address = Address(macLen: byte, mac: Mac, net: uint16, adr: seq<byte>)

  const ZERO_ADDRESS := Address(0, Mac(0, 0, 0, 0, 0, 0), 0, [])

  /** `BACNET_APPLICATION_DATA_VALUE` without its link. Text, real and double payloads are opaque. */
  datatype AppValue =
    | Boolean(b: bool)
    | CharacterString(text: string)
    | UnsignedInt(u: uint32)
    | SignedInt(i: int)
    | Real(r: real)
    | Double(d: real)
    | OtherTag(tag: nat)

  /** The block the `value` of a `return_data_t` points at. It is allocated first and decoded into later. */
  datatype Block = Undecoded | Decoded(contents: AppValue)
}
