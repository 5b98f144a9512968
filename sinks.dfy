// The two collaborators the device callbacks write into: the usbredir parser,
// seen only as the log of messages it has been asked to send, and the
// unbounded FIFO channels between the callbacks and the transport.
module Sinks {
  import opened UsbTypes

  /** The usbredir parser as an output log; encoding to the wire is not modelled. */
  class Parser {
    var sent: seq<ParserMsg>

    constructor ()
      ensures sent == []
    {
      sent := [];
    }

    method SendControlPacket(id: u64, pkt: ControlPacket, data: seq<u8>)
      modifies this
      ensures sent == old(sent) + [ControlReply(id, pkt, data)]
    {
      sent := sent + [ControlReply(id, pkt, data)];
    }

    method SendBulkPacket(id: u64, pkt: BulkPacket, data: seq<u8>)
      modifies this
      ensures sent == old(sent) + [BulkReply(id, pkt, data)]
    {
      sent := sent + [BulkReply(id, pkt, data)];
    }

    method SendConfigurationStatus(id: u64, status: ConfigurationStatus)
      modifies this
      ensures sent == old(sent) + [ConfigStatus(id, status)]
    {
      sent := sent + [ConfigStatus(id, status)];
    }

    method SendInterfaceInfo(info: InterfaceInfo)
      modifies this
      ensures sent == old(sent) + [InterfaceInfoMsg(info)]
    {
      sent := sent + [InterfaceInfoMsg(info)];
    }

    method SendEpInfo(info: EpInfo)
      modifies this
      ensures sent == old(sent) + [EpInfoMsg(info)]
    {
      sent := sent + [EpInfoMsg(info)];
    }

    method SendDeviceConnect(connect: DeviceConnect)
      modifies this
      ensures sent == old(sent) + [DeviceConnectMsg(connect)]
    {
      sent := sent + [DeviceConnectMsg(connect)];
    }
  }

  /** An unbounded FIFO channel; `items` holds what has been sent and not yet received. */
  class Channel<T> {
    var items: seq<T>

    constructor ()
      ensures items == []
    {
      items := [];
    }

    /** Appends at the tail; an unbounded channel never blocks. */
    method SendBlocking(x: T)
      modifies this
      ensures items == old(items) + [x]
    {
      items := items + [x];
    }

    /** Removes the head if there is one; an empty channel yields None and is left unchanged. */
    method TryRecv() returns (r: Option<T>)
      modifies this
      ensures old(items) == [] ==> r == None && items == []
      ensures old(items) != [] ==> r == Some(old(items)[0]) && items == old(items)[1..]
    {
      if items == [] {
        r := None;
      } else {
        r := Some(items[0]);
        items := items[1..];
      }
    }
  }
}
