// The emulated device's USB descriptors (USB 2.0 sections 9.6.1, 9.6.3,
// 9.6.5, 9.6.6 and 9.6.7): the constant tables, the descriptors that are
// assembled on request (string and configuration), and the lookup that a
// GET_DESCRIPTOR request (USB 2.0 section 9.4.3) performs.
module Descriptors {
  import opened UsbTypes
  import opened Utf16

  // Interface class and protocol of MCTP over USB (DMTF DSP0283)
  const UsbClassMctp: u8 := 0x14
  const UsbProtoMctpV1: u8 := 1

  const EpAddrOut: u8 := 0x01
  const EpAddrIn: u8 := 0x81

  const DescTypeDevice: u8 := 1
  const DescTypeConfiguration: u8 := 2
  const DescTypeString: u8 := 3
  const DescTypeInterface: u8 := 4
  const DescTypeEndpoint: u8 := 5

  /** Device descriptor: USB 2.0, vendor and product 0xcc00, one configuration. */
  const DevDesc: seq<u8> := [
    18, DescTypeDevice,
    0x00, 0x02,          // bcdUSB
    0x00, 0x00, 0x00,    // class, subclass, protocol
    0x40,                // bMaxPacketSize0
    0x00, 0xcc,          // idVendor
    0x00, 0xcc,          // idProduct
    0x13, 0x06,          // bcdDevice
    0x01, 0x02, 0x03,    // iManufacturer, iProduct, iSerialNumber
    0x01                 // bNumConfigurations
  ]

  /** Configuration descriptor header; wTotalLength (bytes 2 and 3) is filled in on request. */
  const ConfigDesc: seq<u8> := [
    0x09, DescTypeConfiguration,
    0x00, 0x00,          // wTotalLength
    0x01,                // bNumInterfaces
    0x01,                // bConfigurationValue
    0x00,                // iConfiguration
    0x80,                // bmAttributes: bus powered
    0x01                 // bMaxPower
  ]

  const IfaceDesc: seq<u8> := [
    0x09, DescTypeInterface,
    0x00,                // bInterfaceNumber
    0x00,                // bAlternateSetting
    0x02,                // bNumEndpoints
    UsbClassMctp,
    0x00,                // bInterfaceSubClass
    UsbProtoMctpV1,
    0x04                 // iInterface
  ]

  /** The bulk OUT and bulk IN endpoint descriptors, 512-byte max packet size each. */
  const EpDescs: seq<seq<u8>> := [
    [0x07, DescTypeEndpoint, EpAddrOut, 0x02, 0x00, 0x02, 0],
    [0x07, DescTypeEndpoint, EpAddrIn, 0x02, 0x00, 0x02, 0]
  ]

  /** Manufacturer, product, serial number and interface name, string indices 1 to 4. */
  const Strings: seq<string> := [
    "Code Construct",
    "MCTP over USB device",
    "sn0000",
    "MCTP over USB"
  ]

  /** String descriptor 0: the supported language IDs (English, 0x0409). */
  const StringLangs: seq<u8> := [4, DescTypeString, 0x09, 0x04]

  /** A string descriptor carrying `s`: length byte (modulo 256), type, UTF-16LE text. */
  function EncodedStringDescriptor(s: string): seq<u8>
  {
    var encoded := LeBytes(Utf16Units(s));
    [(|encoded| + 2) % 256, DescTypeString] + encoded
  }

  /** String descriptor `idx`: the language block, a UTF-16LE string, or nothing. */
  function StringDescriptor(idx: u8): seq<u8>
  {
    if idx == 0 then StringLangs
    else if idx - 1 < |Strings| then EncodedStringDescriptor(Strings[idx - 1])
    else []
  }

  /** The sub-descriptors of the one configuration, before wTotalLength is set. */
  function ConfigurationParts(): seq<u8>
  {
    ConfigDesc + IfaceDesc + EpDescs[0] + EpDescs[1]
  }

  /** The configuration descriptor with its 16-bit total length patched in little-endian. */
  function ConfigurationDescriptor(): seq<u8>
  {
    var v := ConfigurationParts();
    var len := |v| % 0x1_0000;
    v[3 := len / 256][2 := len % 256]
  }

  /** The descriptor of a type and index; empty for what the device does not provide. */
  function Descriptor(descType: u8, idx: u8): seq<u8>
  {
    if descType == DescTypeDevice then DevDesc
    else if descType == DescTypeString then StringDescriptor(idx)
    else if descType == DescTypeConfiguration then ConfigurationDescriptor()
    else []
  }

  /** Splits wValue of GET_DESCRIPTOR into the descriptor type (high byte) and index (low byte). */
  function DescriptorKey(value: u16): (key: (u8, u8))
    ensures Le16(key.1, key.0) == value
  {
    ((value / 256) % 256, value % 256)
  }

  /** The reply data of a request for `reqLen` bytes: the first min(reqLen, |data|) bytes. */
  function Truncate(data: seq<u8>, reqLen: u16): (r: seq<u8>)
    ensures |r| == if reqLen < |data| then reqLen else |data|
    ensures r == data[..|r|]
  {
    if reqLen < |data| then data[..reqLen] else data
  }

  /** Builds the descriptor of one string the way the device does: the UTF-16 code
      units are appended one by one behind a placeholder length byte, which is
      patched at the end. */
  method EncodeStringDescriptor(s: string) returns (v: seq<u8>)
    ensures v == EncodedStringDescriptor(s)
  {
    v := [0, DescTypeString];
    var units := Utf16Units(s);
    var i := 0;
    while i < |units|
      invariant 0 <= i <= |units|
      invariant v == [0, DescTypeString] + LeBytes(units[..i])
    {
      var b := units[i];
      assert units[..i + 1][..i] == units[..i];
      v := v + [b % 256, b / 256];
      i := i + 1;
    }
    assert units[..i] == units;
    v := v[0 := |v| % 256];
  }

  /** Builds string descriptor `idx`: index 0 is the language block, indices 1 to 4
      the table strings, any other index is empty. */
  method BuildStringDescriptor(idx: u8) returns (v: seq<u8>)
    ensures v == StringDescriptor(idx)
  {
    if idx == 0 {
      v := StringLangs;
    } else if idx - 1 < |Strings| {
      v := EncodeStringDescriptor(Strings[idx - 1]);
    } else {
      v := [];
    }
  }

  /** Builds the configuration descriptor: concatenates the parts, then patches wTotalLength. */
  method BuildConfigDescriptor() returns (v: seq<u8>)
    ensures v == ConfigurationDescriptor()
  {
    v := [];
    v := v + ConfigDesc;
    v := v + IfaceDesc;
    v := v + EpDescs[0];
    v := v + EpDescs[1];
    var len := |v| % 0x1_0000;
    v := v[3 := (len / 256) % 256];
    v := v[2 := len % 256];
  }

  /** The descriptor lookup of a GET_DESCRIPTOR request. */
  method BuildDescriptor(descType: u8, idx: u8) returns (data: seq<u8>)
    ensures data == Descriptor(descType, idx)
  {
    if descType == DescTypeDevice {
      data := DevDesc;
    } else if descType == DescTypeString {
      data := BuildStringDescriptor(idx);
    } else if descType == DescTypeConfiguration {
      data := BuildConfigDescriptor();
    } else {
      data := [];
    }
  }

  /** What a host does with a string descriptor: check the header, decode UTF-16LE. */
  function DecodeStringDescriptor(d: seq<u8>): Option<string>
  {
    if |d| >= 2 && d[0] == |d| && d[1] == DescTypeString then
      match FromLeBytes(d[2..])
      case Some(units) => DecodeUtf16(units)
      case None => None
    else None
  }

  /** A string of up to 63 characters comes back from its descriptor, whose length
      byte then equals the descriptor's length. */
  lemma EncodedStringDescriptorDecodes(s: string)
    requires |s| <= 63
    ensures EncodedStringDescriptor(s)[0] == |EncodedStringDescriptor(s)|
    ensures DecodeStringDescriptor(EncodedStringDescriptor(s)) == Some(s)
  {
    var units := Utf16Units(s);
    var encoded := LeBytes(units);
    assert |encoded| + 2 < 256;
    var d := EncodedStringDescriptor(s);
    assert d == [|encoded| + 2, DescTypeString] + encoded;
    assert d[2..] == encoded;
    LeBytesRoundTrip(units);
    Utf16RoundTrip(s);
  }

  /** Every table string comes back from its descriptor, whose length byte is exact. */
  lemma StringDescriptorDecodes(idx: u8)
    requires 1 <= idx <= |Strings|
    ensures StringDescriptor(idx)[0] == |StringDescriptor(idx)|
    ensures DecodeStringDescriptor(StringDescriptor(idx)) == Some(Strings[idx - 1])
  {
    assert |Strings[idx - 1]| <= 20;
    EncodedStringDescriptorDecodes(Strings[idx - 1]);
  }

  /** The descriptor of a string of the basic multilingual plane: two bytes per character,
      low byte first, behind a length byte equal to the descriptor's length. */
  lemma BmpStringDescriptorLayout(s: string)
    requires |s| <= 126
    requires forall i :: 0 <= i < |s| ==> (s[i] as int) < 0x1_0000
    ensures |EncodedStringDescriptor(s)| == 2 + 2 * |s|
    ensures EncodedStringDescriptor(s)[0] == 2 + 2 * |s| && EncodedStringDescriptor(s)[1] == DescTypeString
    ensures forall i :: 0 <= i < |s| ==>
      EncodedStringDescriptor(s)[2 + 2 * i] == (s[i] as int) % 256 &&
      EncodedStringDescriptor(s)[3 + 2 * i] == (s[i] as int) / 256
  {
    var units := Utf16Units(s);
    Utf16UnitsBmp(s);
    forall i | 0 <= i < |s|
      ensures EncodedStringDescriptor(s)[2 + 2 * i] == (s[i] as int) % 256
      ensures EncodedStringDescriptor(s)[3 + 2 * i] == (s[i] as int) / 256
    {
      LeBytesAt(units, i);
    }
  }

  /** The manufacturer string descriptor is 30 bytes, starts with its length and the
      string type, and a host reads "Code Construct" from it. */
  lemma ManufacturerStringDescriptor()
    ensures |StringDescriptor(1)| == 30
    ensures StringDescriptor(1)[..2] == [30, DescTypeString]
    ensures DecodeStringDescriptor(StringDescriptor(1)) == Some("Code Construct")
  {
    ManufacturerStringLength();
    StringDescriptorDecodes(1);
  }

  lemma ManufacturerStringLength()
    ensures |StringDescriptor(1)| == 30
  {
    var s := Strings[0];
    assert |s| == 14 && forall i :: 0 <= i < |s| ==> (s[i] as int) < 0x1_0000;
    BmpStringDescriptorLayout(s);
  }

  /** The configuration descriptor is 32 bytes, its wTotalLength reads back as 32, and
      every other byte is the byte of the concatenated parts. */
  lemma ConfigurationDescriptorLayout()
    ensures |ConfigurationDescriptor()| == |ConfigurationParts()| == 32
    ensures Le16(ConfigurationDescriptor()[2], ConfigurationDescriptor()[3]) == |ConfigurationDescriptor()|
    ensures forall i :: 0 <= i < 32 && i != 2 && i != 3 ==>
      ConfigurationDescriptor()[i] == ConfigurationParts()[i]
  {
  }

  /** A host's walk over a descriptor block, one descriptor per bLength. */
  function SplitDescriptors(d: seq<u8>): Option<seq<seq<u8>>>
    decreases |d|
  {
    if d == [] then Some([])
    else if d[0] < 2 || d[0] > |d| then None
    else
      match SplitDescriptors(d[d[0]..])
      case Some(rest) => Some([d[..d[0]]] + rest)
      case None => None
  }

  /** A descriptor whose bLength is its own size is split off the front of a block. */
  lemma SplitFront(x: seq<u8>, rest: seq<u8>, tail: seq<seq<u8>>)
    requires 2 <= |x| && x[0] == |x|
    requires SplitDescriptors(rest) == Some(tail)
    ensures SplitDescriptors(x + rest) == Some([x] + tail)
  {
    var d := x + rest;
    assert d[..d[0]] == x;
    assert d[d[0]..] == rest;
  }

  /** Walking the configuration descriptor finds the configuration header, the MCTP
      interface and its two endpoints, in that order and with their counts consistent. */
  lemma ConfigurationDescriptorParses()
    ensures SplitDescriptors(ConfigurationDescriptor()) ==
      Some([ConfigurationDescriptor()[..9], IfaceDesc, EpDescs[0], EpDescs[1]])
    ensures ConfigurationDescriptor()[1] == DescTypeConfiguration
    ensures ConfigurationDescriptor()[4] == 1 && IfaceDesc[4] == |EpDescs|
  {
    var d := ConfigurationDescriptor();
    var header := d[..9];
    var r2 := EpDescs[1] + [];
    var r1 := EpDescs[0] + r2;
    var r0 := IfaceDesc + r1;
    assert d == header + r0;
    assert [EpDescs[1]] + [] == [EpDescs[1]];
    SplitFront(EpDescs[1], [], []);
    SplitFront(EpDescs[0], r2, [EpDescs[1]]);
    assert [EpDescs[0]] + [EpDescs[1]] == [EpDescs[0], EpDescs[1]];
    SplitFront(IfaceDesc, r1, [EpDescs[0], EpDescs[1]]);
    assert [IfaceDesc] + [EpDescs[0], EpDescs[1]] == [IfaceDesc, EpDescs[0], EpDescs[1]];
    SplitFront(header, r0, [IfaceDesc, EpDescs[0], EpDescs[1]]);
    assert [header] + [IfaceDesc, EpDescs[0], EpDescs[1]] == [header, IfaceDesc, EpDescs[0], EpDescs[1]];
  }

  /** Which requests have a descriptor, and that each one starts with its own type and
      a length field equal to the bytes it covers. */
  lemma DescriptorWellFormed(descType: u8, idx: u8)
    ensures var d := Descriptor(descType, idx);
      d == [] <==> (descType != DescTypeDevice && descType != DescTypeConfiguration &&
                    (descType != DescTypeString || idx > |Strings|))
    ensures var d := Descriptor(descType, idx);
      d != [] ==> (|d| >= 2 && d[1] == descType &&
        (descType == DescTypeConfiguration ==> Le16(d[2], d[3]) == |d|) &&
        (descType != DescTypeConfiguration ==> d[0] == |d|))
  {
    if descType == DescTypeString && 1 <= idx <= |Strings| {
      StringDescriptorDecodes(idx);
    }
  }
}
