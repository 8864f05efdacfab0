/** The 8-byte control setup packet that `usbFunctionSetup` receives, its
    bmRequestType field as laid out in Table 9-2 of section 9.3 of the USB 2.0
    specification, and the classification of requests that the firmware serves. */
module Setup {
  import opened Bytes

  /** The one vendor request code the firmware answers ("Access Game IO"). */
  const AccessGameIO: bv8 := 0xAE
  /** bmRequestType of a vendor request from host to device: write the lamps. */
  const VendorOut: bv8 := 0x40
  /** bmRequestType of a vendor request from device to host: read the inputs. */
  const VendorIn: bv8 := 0xC0

  /** The fields of a setup packet, in wire order; words are little-endian. */
  datatype SetupPacket = SetupPacket(
    bmRequestType: bv8,
    bRequest: bv8,
    wValue: bv16,
    wIndex: bv16,
    wLength: bv16)

  /** Reads the raw packet as `usbRequest_t`: byte 0 is bmRequestType, byte 1
      bRequest, then wValue, wIndex and wLength as little-endian words. */
  function DecodeSetup(data: seq<bv8>): (p: SetupPacket)
    requires |data| == 8
    ensures p.bmRequestType == data[0] && p.bRequest == data[1]
    ensures p.wValue as int == data[2] as int + 256 * data[3] as int
    ensures p.wIndex as int == data[4] as int + 256 * data[5] as int
    ensures p.wLength as int == data[6] as int + 256 * data[7] as int
  {
    SetupPacket(data[0], data[1], Word(data[2], data[3]), Word(data[4], data[5]), Word(data[6], data[7]))
  }

  /** The bytes a host puts on the wire for a setup packet. */
  function EncodeSetup(p: SetupPacket): (data: seq<bv8>)
    ensures |data| == 8
  {
    [p.bmRequestType, p.bRequest, ToUnsignedChar(p.wValue), HighByte(p.wValue),
     ToUnsignedChar(p.wIndex), HighByte(p.wIndex), ToUnsignedChar(p.wLength), HighByte(p.wLength)]
  }

  /** Decoding what a host encodes gives back the host's packet. */
  lemma DecodeEncode(p: SetupPacket)
    ensures DecodeSetup(EncodeSetup(p)) == p
  {
    WordHalves(p.wValue);
    WordHalves(p.wIndex);
    WordHalves(p.wLength);
  }

  /** Every 8-byte packet is the encoding of what it decodes to. */
  lemma EncodeDecode(data: seq<bv8>)
    requires |data| == 8
    ensures EncodeSetup(DecodeSetup(data)) == data
  {
    HalvesOfWord(data[2], data[3]);
    HalvesOfWord(data[4], data[5]);
    HalvesOfWord(data[6], data[7]);
  }

  datatype Direction = HostToDevice | DeviceToHost
  datatype RequestKind = Standard | ClassSpecific | Vendor | ReservedKind

  /** The three fields of bmRequestType: bit 7, bits 6..5 and bits 4..0. */
  datatype RequestType = RequestType(direction: Direction, kind: RequestKind, recipient: bv8)

  /** Recipient code 0 of bits 4..0. */
  const ToDevice: bv8 := 0

  /** Table 9-2: bit 7 is the direction, bits 6..5 the type (0 standard,
      1 class, 2 vendor, 3 reserved), bits 4..0 the recipient. */
  function DecodeRequestType(b: bv8): (t: RequestType)
    ensures t.recipient < 32
    ensures t.direction == DeviceToHost <==> b & 0x80 != 0
    ensures t.kind == Standard <==> b & 0x60 == 0x00
    ensures t.kind == ClassSpecific <==> b & 0x60 == 0x20
    ensures t.kind == Vendor <==> b & 0x60 == 0x40
    ensures t.recipient == ToDevice <==> b & 0x1F == 0
  {
    var kind := (b >> 5) & 3;
    RequestType(
      if b & 0x80 == 0 then HostToDevice else DeviceToHost,
      if kind == 0 then Standard else if kind == 1 then ClassSpecific
      else if kind == 2 then Vendor else ReservedKind,
      b & 0x1F)
  }

  /** 0x40 is exactly a vendor request from host to device addressed to the
      device, and 0xC0 exactly the same request from device to host. */
  lemma VendorRequestTypes(b: bv8)
    ensures b == VendorOut <==> DecodeRequestType(b) == RequestType(HostToDevice, Vendor, ToDevice)
    ensures b == VendorIn <==> DecodeRequestType(b) == RequestType(DeviceToHost, Vendor, ToDevice)
  {
  }

  /** What `usbFunctionSetup` makes of a request. */
  datatype Request =
    | WriteOutputs(declared: uint8)   // the host will send `declared` lamp bytes
    | ReadInputs                      // the host asks for the input snapshot
    | Unsupported                     // anything else: answered with no data

  /** Only request code 0xAE is served; its bmRequestType picks write or read,
      and the declared length is wLength converted to `unsigned char`. */
  function Classify(p: SetupPacket): (r: Request)
    ensures r.WriteOutputs? <==> p.bRequest == AccessGameIO && p.bmRequestType == VendorOut
    ensures r.ReadInputs? <==> p.bRequest == AccessGameIO && p.bmRequestType == VendorIn
    ensures r.WriteOutputs? ==> r.declared == p.wLength as int % 256
  {
    if p.bRequest != AccessGameIO then Unsupported
    else if p.bmRequestType == VendorOut then
      ToUnsignedCharIsMod(p.wLength);
      WriteOutputs(ToUnsignedChar(p.wLength) as int)
    else if p.bmRequestType == VendorIn then ReadInputs
    else Unsupported
  }

  /** The declared length of a write is byte 6 of the raw packet: the high byte
      of wLength is dropped, and no clamp to the 8-byte lamp buffer is applied. */
  lemma DeclaredLengthIsLowByte(data: seq<bv8>)
    requires |data| == 8
    requires Classify(DecodeSetup(data)).WriteOutputs?
    ensures Classify(DecodeSetup(data)).declared == data[6] as int
  {
    var p := DecodeSetup(data);
    assert p.wLength as int % 256 == data[6] as int;
  }
}
