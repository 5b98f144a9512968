// Value types shared by the emulated USB device: fixed-width integers, the
// usbredir packet headers the device exchanges with the host, and the
// messages the device hands to the usbredir parser for transmission.
module UsbTypes {

  type u8 = x: int | 0 <= x < 0x100
  type u16 = x: int | 0 <= x < 0x1_0000
  type u32 = x: int | 0 <= x < 0x1_0000_0000
  type u64 = x: int | 0 <= x < 0x1_0000_0000_0000_0000

  datatype Option<T> = None | Some(value: T)

  /** The MCTP errors the transport reports. */
  datatype MctpError = TxFailure | RxFailure | NoSpace

  datatype Result<T> = Ok(value: T) | Err(error: MctpError)

  /** Header of a usbredir control transfer (the setup packet plus status). */
  datatype ControlPacket = ControlPacket(
    endpoint: u8,
    request: u8,
    requesttype: u8,
    status: u8,
    value: u16,
    index: u16,
    length: u16)

  /** Header of a usbredir bulk transfer. */
  datatype BulkPacket = BulkPacket(
    endpoint: u8,
    status: u8,
    length: u16,
    streamId: u32,
    lengthHigh: u16)

  datatype SetConfiguration = SetConfiguration(configuration: u8)

  datatype ConfigurationStatus = ConfigurationStatus(status: u8, configuration: u8)

  /** Interface table announced to the host; every array has 32 slots. */
  datatype InterfaceInfo = InterfaceInfo(
    interfaceCount: u32,
    interface: seq<u8>,
    interfaceClass: seq<u8>,
    interfaceSubclass: seq<u8>,
    interfaceProtocol: seq<u8>)

  /** Endpoint table announced to the host, indexed by endpoint slot; 32 slots each. */
  datatype EpInfo = EpInfo(
    epType: seq<u8>,
    interval: seq<u8>,
    interface: seq<u8>,
    maxPacketSize: seq<u16>,
    maxStreams: seq<u32>)

  datatype DeviceConnect = DeviceConnect(
    speed: u8,
    deviceClass: u8,
    deviceSubclass: u8,
    deviceProtocol: u8,
    vendorId: u16,
    productId: u16,
    deviceVersionBcd: u16)

  /** A message the device asks the usbredir parser to send to the host. */
  datatype ParserMsg =
    | ControlReply(id: u64, control: ControlPacket, data: seq<u8>)
    | BulkReply(id: u64, bulk: BulkPacket, data: seq<u8>)
    | ConfigStatus(id: u64, cfgStatus: ConfigurationStatus)
    | InterfaceInfoMsg(ifInfo: InterfaceInfo)
    | EpInfoMsg(epInfo: EpInfo)
    | DeviceConnectMsg(connect: DeviceConnect)

  // usbredir protocol constants
  const StatusSuccess: u8 := 0
  const SpeedHigh: u8 := 2
  const TypeControl: u8 := 0
  const TypeBulk: u8 := 2
  const TypeInvalid: u8 := 255

  /** Little-endian value of a two-byte field. */
  function Le16(lo: u8, hi: u8): u16
  {
    lo + 256 * hi
  }
}
