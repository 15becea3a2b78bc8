/** How a discovered device is written into protocol properties, and how a device address is read
    back from them (BACnet/IP build). */
module Addressing {
  import opened Bacnet
  import opened Decimal

  /** A string map of the IoT data library. */
  class Properties {
    var entries: map<string, string>

    constructor ()
      ensures entries == map[]
    {
      entries := map[];
    }

    method Add(key: string, value: string)
      modifies this
      ensures entries == old(entries)[key := value]
    {
      entries := entries[key := value];
    }
  }

  /** The properties of a device with this id and MAC. */
  function Populated(entries: map<string, string>, deviceId: uint32, mac: Mac): map<string, string> {
    entries["DeviceInstance" := Print(deviceId)]["Port" := Print(mac.portHigh * 0x100 + mac.portLow)]
  }

  /** `bacnet_protocol_populate`. The strings and their terminating NULs fit their buffers. */
  method ProtocolPopulate(deviceId: uint32, mac: Mac, properties: Properties)
    modifies properties
    ensures properties.entries == Populated(old(properties.entries), deviceId, mac)
    ensures |properties.entries["DeviceInstance"]| + 1 <= 11 && |properties.entries["Port"]| + 1 <= 6
  {
    PrintedFits(deviceId);
    properties.Add("DeviceInstance", Print(deviceId));
    var devicePort: uint16 := ToUint16(ToUint16(mac.portHigh * 0x100) + mac.portLow);
    assert devicePort == mac.portHigh * 0x100 + mac.portLow;
    PrintedFits(devicePort);
    properties.Add("Port", Print(devicePort));
  }

  lemma PrintedFits(n: uint32)
    ensures |Print(n)| + 1 <= 11
    ensures n < 0x1_0000 ==> |Print(n)| + 1 <= 6
  {
    assert Power(5) == 100_000 && Power(10) == 100_000 * Power(5);
    PrintLength(n, 10);
    if n < 0x1_0000 {
      PrintLength(n, 5);
    }
  }

  // ---- Reading ----

  datatype DeviceAddress = DeviceAddress(deviceInstance: uint32, port: uint16)

  datatype Outcome = Parsed(address: DeviceAddress) | Exception(text: string)

  /** `parseStringInt`. */
  function ParseStringInt(props: map<string, string>, name: string, default: uint32): uint32 {
    if name in props then ToUint32(Strtol(props[name])) else default
  }

  /** `bacnet_getaddress`; `pending` is an exception already set by the caller. */
  function GetAddress(protocols: map<string, map<string, string>>, pending: Option<string>): Outcome {
    if "BACnet-IP" in protocols then
      var props := protocols["BACnet-IP"];
      var inst := ParseStringInt(props, "DeviceInstance", UINT32_MAX);
      var port := ToUint16(ParseStringInt(props, "Port", 0xBAC0));
      if pending.Some? then Exception(pending.value)
      else if inst == UINT32_MAX then Exception("DeviceInstance must be specified")
      else Parsed(DeviceAddress(inst, port))
    else Exception("BACnet-IP protocol must be specified")
  }

  lemma ReadBack(n: uint32)
    ensures ToUint32(Strtol(Print(n))) == n
  {
    StrtolPrinted(n, []);
    assert Print(n) + [] == Print(n);
    Uint32Fits(n);
  }

  /** Both properties of a populated map are read back. */
  lemma PopulatedReadBack(entries: map<string, string>, deviceId: uint32, mac: Mac)
    ensures var props := Populated(entries, deviceId, mac);
            && ParseStringInt(props, "DeviceInstance", UINT32_MAX) == deviceId
            && ParseStringInt(props, "Port", 0xBAC0) == mac.portHigh * 0x100 + mac.portLow
  {
    ReadBack(deviceId);
    ReadBack(mac.portHigh * 0x100 + mac.portLow);
  }

  lemma Uint16Fits(n: uint16)
    ensures ToUint16(n) == n
  {
  }

  /** What a discovered device's properties say is read back: the same instance and port, except that
      the instance UINT32_MAX is taken for a missing one. */
  lemma AddressRoundTrip(entries: map<string, string>, deviceId: uint32, mac: Mac, pending: Option<string>)
    ensures var read := GetAddress(map["BACnet-IP" := Populated(entries, deviceId, mac)], pending);
            read.Parsed? <==> deviceId != UINT32_MAX && pending.None?
    ensures var read := GetAddress(map["BACnet-IP" := Populated(entries, deviceId, mac)], pending);
            read.Parsed? ==> read.address == DeviceAddress(deviceId, mac.portHigh * 256 + mac.portLow)
  {
    PopulatedReadBack(entries, deviceId, mac);
    Uint16Fits(mac.portHigh * 0x100 + mac.portLow);
  }

  /** device_addressing.txt allows an IP address as DeviceInstance. What is read is its first part,
      whatever else the properties say. */
  lemma DottedQuadInstance(first: byte, rest: string, entries: map<string, string>)
    requires "DeviceInstance" in entries && entries["DeviceInstance"] == Print(first) + "." + rest
    ensures var read := GetAddress(map["BACnet-IP" := entries], None);
            && read.Parsed? && read.address.deviceInstance == first
            && read.address.port == if "Port" in entries then Strtol(entries["Port"]) % 0x1_0000 else 0xBAC0
  {
    assert Print(first) + "." + rest == Print(first) + ("." + rest);
    StrtolPrinted(first, "." + rest);
    Uint32Fits(first);
    if "Port" in entries { LowHalf(Strtol(entries["Port"])); }
  }

  lemma LowHalf(n: int)
    ensures n % 0x1_0000_0000 % 0x1_0000 == n % 0x1_0000
  {
  }

  // ---- What is missing ----

  /** Without a "BACnet-IP" protocol there is no address, and a pending exception is replaced. */
  lemma MissingProtocol(protocols: map<string, map<string, string>>, pending: Option<string>)
    requires "BACnet-IP" !in protocols
    ensures GetAddress(protocols, pending) == Exception("BACnet-IP protocol must be specified")
  {
  }

  /** Without a "DeviceInstance" there is none either; a pending exception is kept. */
  lemma MissingInstance(protocols: map<string, map<string, string>>, pending: Option<string>)
    requires "BACnet-IP" in protocols && "DeviceInstance" !in protocols["BACnet-IP"]
    ensures GetAddress(protocols, pending)
         == Exception(if pending.Some? then pending.value else "DeviceInstance must be specified")
  {
  }

  /** A printed instance without a "Port" gets port 47808. */
  lemma MissingPort(protocols: map<string, map<string, string>>, n: uint32)
    requires "BACnet-IP" in protocols && "Port" !in protocols["BACnet-IP"] && n < 0xFFFF_FFFF
    requires "DeviceInstance" in protocols["BACnet-IP"] && protocols["BACnet-IP"]["DeviceInstance"] == Print(n)
    ensures GetAddress(protocols, None) == Parsed(DeviceAddress(n, 47808))
  {
    ReadBack(n);
  }

  /** Whatever both properties say, the instance is what strtol reads in 32 bits and the port in 16; an
      instance that reads as -1 is taken for a missing one. */
  lemma BothGiven(protocols: map<string, map<string, string>>)
    requires "BACnet-IP" in protocols
    requires var props := protocols["BACnet-IP"]; "DeviceInstance" in props && "Port" in props
    ensures var props := protocols["BACnet-IP"];
            var inst, port := Strtol(props["DeviceInstance"]) % 0x1_0000_0000, Strtol(props["Port"]) % 0x1_0000;
            GetAddress(protocols, None) ==
            if inst == 0xFFFF_FFFF then Exception("DeviceInstance must be specified")
            else Parsed(DeviceAddress(inst, port))
  {
    LowHalf(Strtol(protocols["BACnet-IP"]["Port"]));
  }
}
