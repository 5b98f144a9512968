// The usbredir callbacks of the emulated MCTP-over-USB device, and the
// transfer facility that answers queued bulk IN polls with outbound data.
module Redir {
  import opened UsbTypes
  import opened Sinks
  import opened Descriptors

  const UsbCtrlGetDescriptor: u8 := 6

  /** A bulk IN poll from the host, waiting for data: its packet id and header. */
  datatype InToken = InToken(id: u64, pkt: BulkPacket)

  /** The interface table the device announces: one interface, number 0, of the
      MCTP class and protocol; every other slot is zero. */
  function AnnouncedInterfaces(): InterfaceInfo
  {
    InterfaceInfo(
      1,
      seq(32, _ => 0),
      seq(32, i => if i == 0 then UsbClassMctp else 0),
      seq(32, _ => 0),
      seq(32, i => if i == 0 then UsbProtoMctpV1 else 0))
  }

  /** The endpoint table the device announces: control endpoint 0 in both directions
      (slots 0 and 16, 16 bytes), bulk endpoint 1 in both directions (slots 1 and 17,
      512 bytes), every other slot invalid. */
  function AnnouncedEndpoints(): EpInfo
  {
    EpInfo(
      seq(32, i => if i == 0 || i == 16 then TypeControl
                   else if i == 1 || i == 17 then TypeBulk
                   else TypeInvalid),
      seq(32, _ => 0),
      seq(32, _ => 0),
      seq(32, i => if i == 0 || i == 16 then 16 else if i == 1 || i == 17 then 512 else 0),
      seq(32, _ => 0))
  }

  /** The device-connect event sent after the host's hello. */
  function HelloConnect(): DeviceConnect
  {
    DeviceConnect(SpeedHigh, 0, 0, 0, 0xcc00, 0xcc00, 0)
  }

  /** The usbredir slot of an endpoint address: the endpoint number, plus 16 for IN. */
  function EpSlot(addr: u8): (slot: nat)
    ensures slot < 32
    ensures slot % 16 == addr % 16 && (slot >= 16 <==> addr >= 0x80)
  {
    (if addr >= 0x80 then 16 else 0) + addr % 16
  }

  /** The answer to SET_CONFIGURATION: it echoes the configuration and succeeds (status 0)
      exactly for the value the configuration descriptor advertises. */
  function ConfigStatusFor(configuration: u8): (st: ConfigurationStatus)
    ensures st.configuration == configuration
    ensures st.status == 0 <==> configuration == ConfigDesc[5]
    ensures st.status != 0 ==> st.status == 1
  {
    ConfigurationStatus(if configuration == 1 then 0 else 1, configuration)
  }

  /** The reply to a GET_DESCRIPTOR request: the request header with its length set to
      the number of bytes returned, and the first min(wLength, size) descriptor bytes. */
  function GetDescriptorReply(id: u64, req: ControlPacket): (m: ParserMsg)
    ensures m.ControlReply? && m.id == id
    ensures m.control.(length := req.length) == req
    ensures m.control.length == |m.data|
    ensures var d := Descriptor(DescriptorKey(req.value).0, DescriptorKey(req.value).1);
      |m.data| == (if req.length < |d| then req.length else |d|) && m.data == d[..|m.data|]
  {
    var key := DescriptorKey(req.value);
    var data := Truncate(Descriptor(key.0, key.1), req.length);
    ControlReply(id, req.(length := |data|), data)
  }

  /** The bulk IN completion that carries `buf` on a queued poll: success, the 16-bit
      length of `buf`, every other header field as the host sent it. */
  function XferReply(tok: InToken, buf: seq<u8>): (m: ParserMsg)
    ensures m.BulkReply? && m.id == tok.id && m.data == buf
    ensures m.bulk.status == StatusSuccess && m.bulk.length == |buf| % 0x1_0000
    ensures m.bulk.(status := tok.pkt.status, length := tok.pkt.length) == tok.pkt
  {
    BulkReply(tok.id, tok.pkt.(status := StatusSuccess, length := |buf| % 0x1_0000), buf)
  }

  /** The device's side of the usbredir connection: it answers control requests itself
      and passes bulk traffic to the transport through two FIFO channels. */
  class Handler {
    /** Host-to-device data from bulk OUT transfers. */
    const outChan: Channel<seq<u8>>
    /** Bulk IN polls waiting for device-to-host data. */
    const inChan: Channel<InToken>

    constructor (outChan: Channel<seq<u8>>, inChan: Channel<InToken>)
      ensures this.outChan == outChan && this.inChan == inChan
    {
      this.outChan := outChan;
      this.inChan := inChan;
    }

    /** On the host's hello: announce the interface and endpoint tables, then connect
        a high-speed device with vendor and product 0xcc00. */
    method Hello(parser: Parser)
      modifies parser
      ensures parser.sent == old(parser.sent) + [
        InterfaceInfoMsg(AnnouncedInterfaces()),
        EpInfoMsg(AnnouncedEndpoints()),
        DeviceConnectMsg(HelloConnect())]
    {
      SendConfig(parser);
      var connect := DeviceConnect(
        speed := SpeedHigh,
        deviceClass := 0,
        deviceSubclass := 0,
        deviceProtocol := 0,
        vendorId := 0xcc00,
        productId := 0xcc00,
        deviceVersionBcd := 0);
      parser.SendDeviceConnect(connect);
    }

    /** A control request: GET_DESCRIPTOR is answered, every other request is ignored. */
    method ControlPacket(parser: Parser, id: u64, pkt: UsbTypes.ControlPacket, data: seq<u8>)
      modifies parser
      ensures pkt.request == UsbCtrlGetDescriptor ==>
        parser.sent == old(parser.sent) + [GetDescriptorReply(id, pkt)]
      ensures pkt.request != UsbCtrlGetDescriptor ==> parser.sent == old(parser.sent)
    {
      if pkt.request == UsbCtrlGetDescriptor {
        ControlGetDescriptor(parser, id, pkt);
      }
    }

    /** A bulk transfer: an IN poll is queued without a reply; OUT data is queued and
        acknowledged at once with zero length; any other endpoint is ignored. */
    method BulkPacket(parser: Parser, id: u64, pkt: UsbTypes.BulkPacket, data: seq<u8>)
      modifies parser, inChan, outChan
      ensures pkt.endpoint == EpAddrIn ==>
        inChan.items == old(inChan.items) + [InToken(id, pkt)] &&
        outChan.items == old(outChan.items) &&
        parser.sent == old(parser.sent)
      ensures pkt.endpoint == EpAddrOut ==>
        outChan.items == old(outChan.items) + [data] &&
        inChan.items == old(inChan.items) &&
        parser.sent == old(parser.sent) +
          [BulkReply(id, pkt.(status := 0, length := 0, lengthHigh := 0), [])]
      ensures pkt.endpoint != EpAddrIn && pkt.endpoint != EpAddrOut ==>
        inChan.items == old(inChan.items) &&
        outChan.items == old(outChan.items) &&
        parser.sent == old(parser.sent)
    {
      if pkt.endpoint == EpAddrIn {
        inChan.SendBlocking(InToken(id, pkt));
      } else if pkt.endpoint == EpAddrOut {
        var v := data;
        outChan.SendBlocking(v);
        var resp := pkt.(status := 0, length := 0, lengthHigh := 0);
        parser.SendBulkPacket(id, resp, []);
      }
    }

    /** SET_CONFIGURATION: configuration 1 re-announces the tables and succeeds; any other
        value only gets a failure status. */
    method SetConfiguration(parser: Parser, id: u64, cfg: UsbTypes.SetConfiguration)
      modifies parser
      ensures cfg.configuration == 1 ==> parser.sent == old(parser.sent) + [
        InterfaceInfoMsg(AnnouncedInterfaces()),
        EpInfoMsg(AnnouncedEndpoints()),
        ConfigStatus(id, ConfigStatusFor(cfg.configuration))]
      ensures cfg.configuration != 1 ==>
        parser.sent == old(parser.sent) + [ConfigStatus(id, ConfigStatusFor(cfg.configuration))]
    {
      var cfgStatus := ConfigurationStatus(status := 1, configuration := cfg.configuration);
      if cfg.configuration == 1 {
        SendConfig(parser);
        cfgStatus := cfgStatus.(status := 0);
      }
      parser.SendConfigurationStatus(id, cfgStatus);
    }

    /** GET_DESCRIPTOR: look the descriptor up by the type and index in wValue, cut it
        to wLength and reply with the request header carrying the length sent. */
    method ControlGetDescriptor(parser: Parser, id: u64, req: UsbTypes.ControlPacket)
      modifies parser
      ensures parser.sent == old(parser.sent) + [GetDescriptorReply(id, req)]
    {
      var resp := req;
      var descType, descIdx := (req.value / 256) % 256, req.value % 256;
      var data := BuildDescriptor(descType, descIdx);
      if req.length < |data| {
        data := data[..req.length];
      }
      resp := resp.(length := |data|);
      parser.SendControlPacket(id, resp, data);
    }

    /** Announces the interface and endpoint tables, filled in slot by slot. */
    method SendConfig(parser: Parser)
      modifies parser
      ensures parser.sent == old(parser.sent) +
        [InterfaceInfoMsg(AnnouncedInterfaces()), EpInfoMsg(AnnouncedEndpoints())]
    {
      var zeros: seq<u8> := seq(32, _ => 0);
      var ifInfo := InterfaceInfo(0, zeros, zeros, zeros, zeros);
      ifInfo := ifInfo.(interfaceCount := 1);
      ifInfo := ifInfo.(interface := ifInfo.interface[0 := 0]);
      ifInfo := ifInfo.(interfaceClass := ifInfo.interfaceClass[0 := UsbClassMctp]);
      ifInfo := ifInfo.(interfaceProtocol := ifInfo.interfaceProtocol[0 := UsbProtoMctpV1]);
      assert ifInfo == AnnouncedInterfaces();
      parser.SendInterfaceInfo(ifInfo);

      var epInfo := EpInfo(seq(32, _ => TypeInvalid), zeros, zeros, seq(32, _ => 0), seq(32, _ => 0));
      // control
      epInfo := epInfo.(epType := epInfo.epType[0 := TypeControl]);
      epInfo := epInfo.(maxPacketSize := epInfo.maxPacketSize[0 := 16]);
      epInfo := epInfo.(epType := epInfo.epType[16 := TypeControl]);
      epInfo := epInfo.(maxPacketSize := epInfo.maxPacketSize[16 := 16]);
      // bulk in/out
      epInfo := epInfo.(epType := epInfo.epType[1 := TypeBulk]);
      epInfo := epInfo.(maxPacketSize := epInfo.maxPacketSize[1 := 512]);
      epInfo := epInfo.(epType := epInfo.epType[17 := TypeBulk]);
      epInfo := epInfo.(maxPacketSize := epInfo.maxPacketSize[17 := 512]);
      assert epInfo == AnnouncedEndpoints();
      parser.SendEpInfo(epInfo);
    }
  }

  /** Sends transport packets as bulk IN completions, one per queued poll. */
  class UsbRedirXfer {
    const parser: Parser
    const chan: Channel<InToken>

    constructor (parser: Parser, chan: Channel<InToken>)
      ensures this.parser == parser && this.chan == chan
    {
      this.parser := parser;
      this.chan := chan;
    }

    /** Completes the oldest IN poll with `buf`; with no poll queued the transfer fails
        and nothing is sent. */
    method SendXfer(buf: seq<u8>) returns (r: Result<()>)
      modifies parser, chan
      ensures old(chan.items) == [] ==>
        r == Err(TxFailure) && chan.items == [] && parser.sent == old(parser.sent)
      ensures old(chan.items) != [] ==>
        r == Ok(()) &&
        chan.items == old(chan.items)[1..] &&
        parser.sent == old(parser.sent) + [XferReply(old(chan.items)[0], buf)]
    {
      var res := chan.TryRecv();
      if res.None? {
        return Err(TxFailure);
      }
      var InToken(id, pkt) := res.value;
      pkt := pkt.(status := StatusSuccess);
      pkt := pkt.(length := |buf| % 0x1_0000);
      parser.SendBulkPacket(id, pkt, buf);
      r := Ok(());
    }
  }

  /** What the device does on the bulk IN side, in the order it happens: the host polls
      the IN endpoint, or the transport sends a packet. */
  datatype InEvent = HostPoll(id: u64, pkt: BulkPacket) | DeviceXfer(buf: seq<u8>)

  /** The queue of waiting polls and the completions sent after a run of events, as
      Handler.BulkPacket on the IN endpoint and UsbRedirXfer.SendXfer perform them. */
  function Serve(queue: seq<InToken>, events: seq<InEvent>): (seq<InToken>, seq<ParserMsg>)
    decreases |events|
  {
    if events == [] then (queue, [])
    else match events[0]
      case HostPoll(id, pkt) => Serve(queue + [InToken(id, pkt)], events[1..])
      case DeviceXfer(buf) =>
        if queue == [] then Serve(queue, events[1..])
        else
          var rest := Serve(queue[1..], events[1..]);
          (rest.0, [XferReply(queue[0], buf)] + rest.1)
  }

  /** The polls among the events, in order. */
  function Polls(events: seq<InEvent>): seq<InToken>
  {
    if events == [] then []
    else match events[0]
      case HostPoll(id, pkt) => [InToken(id, pkt)] + Polls(events[1..])
      case DeviceXfer(_) => Polls(events[1..])
  }

  /** Strict FIFO matching: the i-th completion answers the i-th poll (counting those
      already queued), there are never more completions than polls, and the polls
      still waiting are exactly the ones not yet answered. */
  lemma {:induction false} FifoMatching(queue: seq<InToken>, events: seq<InEvent>)
    ensures var all := queue + Polls(events);
      var (left, out) := Serve(queue, events);
      |out| <= |all| &&
      left == all[|out|..] &&
      forall i :: 0 <= i < |out| ==> out[i].BulkReply? && out[i] == XferReply(all[i], out[i].data)
    decreases |events|
  {
    if events != [] {
      var rest := events[1..];
      match events[0]
      case HostPoll(id, pkt) =>
        FifoMatching(queue + [InToken(id, pkt)], rest);
        assert queue + Polls(events) == (queue + [InToken(id, pkt)]) + Polls(rest);
      case DeviceXfer(buf) =>
        if queue == [] {
          FifoMatching(queue, rest);
        } else {
          FifoMatching(queue[1..], rest);
          var all := queue + Polls(events);
          assert all == [queue[0]] + (queue[1..] + Polls(rest));
        }
    }
  }

  /** The buffers of the transfers among the events, in order. */
  function Xfers(events: seq<InEvent>): seq<seq<u8>>
  {
    if events == [] then []
    else match events[0]
      case HostPoll(_, _) => Xfers(events[1..])
      case DeviceXfer(buf) => [buf] + Xfers(events[1..])
  }

  /** Whether every transfer finds a poll waiting, counting from `waiting` queued polls:
      no prefix of the events holds more transfers than polls. */
  predicate NeverStarved(waiting: nat, events: seq<InEvent>)
    decreases |events|
  {
    events == [] ||
    match events[0]
    case HostPoll(_, _) => NeverStarved(waiting + 1, events[1..])
    case DeviceXfer(_) => waiting > 0 && NeverStarved(waiting - 1, events[1..])
  }

  /** Which transfer is answered on which poll: completions never outnumber transfers,
      every transfer is answered exactly when none ever finds the queue empty, and then
      the i-th transfer's buffer goes out on the i-th poll. */
  lemma {:induction false} FifoTransfers(queue: seq<InToken>, events: seq<InEvent>)
    ensures var all := queue + Polls(events);
      var out := Serve(queue, events).1;
      |out| <= |Xfers(events)| && |out| <= |all| &&
      (|out| == |Xfers(events)| <==> NeverStarved(|queue|, events)) &&
      (NeverStarved(|queue|, events) ==>
        forall i :: 0 <= i < |out| ==> out[i] == XferReply(all[i], Xfers(events)[i]))
    decreases |events|
  {
    FifoMatching(queue, events);
    if events != [] {
      var rest := events[1..];
      match events[0]
      case HostPoll(id, pkt) =>
        FifoTransfers(queue + [InToken(id, pkt)], rest);
        assert queue + Polls(events) == (queue + [InToken(id, pkt)]) + Polls(rest);
      case DeviceXfer(buf) =>
        if queue == [] {
          FifoTransfers(queue, rest);
        } else {
          FifoTransfers(queue[1..], rest);
          var all := queue + Polls(events);
          assert all == [queue[0]] + (queue[1..] + Polls(rest));
        }
    }
  }

  /** A transfer at the head of the events answers the head of the queue, if any. */
  lemma ServeXferStep(queue: seq<InToken>, buf: seq<u8>, events: seq<InEvent>)
    requires events != [] && events[0] == DeviceXfer(buf)
    ensures queue == [] ==> Serve(queue, events) == Serve(queue, events[1..])
    ensures queue != [] ==>
      Serve(queue, events) ==
        (Serve(queue[1..], events[1..]).0, [XferReply(queue[0], buf)] + Serve(queue[1..], events[1..]).1)
  {
  }

  /** Runs the bulk IN events through the device as they happen: each host poll goes to
      Handler.BulkPacket on the IN endpoint, each transfer to UsbRedirXfer.SendXfer on
      the same channel. The polls left waiting and the completions sent are those of
      Serve, so the FIFO lemmas above hold of the two methods. */
  method RunInEvents(h: Handler, x: UsbRedirXfer, events: seq<InEvent>)
    requires h.inChan == x.chan
    requires forall i :: 0 <= i < |events| && events[i].HostPoll? ==> events[i].pkt.endpoint == EpAddrIn
    modifies h.inChan, h.outChan, x.parser
    ensures h.inChan.items == Serve(old(h.inChan.items), events).0
    ensures x.parser.sent == old(x.parser.sent) + Serve(old(h.inChan.items), events).1
    ensures h.outChan.items == old(h.outChan.items)
  {
    ghost var q0 := h.inChan.items;
    ghost var s0 := x.parser.sent;
    var i := 0;
    while i < |events|
      invariant 0 <= i <= |events|
      invariant |s0| <= |x.parser.sent| && x.parser.sent[..|s0|] == s0
      invariant Serve(q0, events).0 == Serve(h.inChan.items, events[i..]).0
      invariant Serve(q0, events).1 == x.parser.sent[|s0|..] + Serve(h.inChan.items, events[i..]).1
      invariant h.outChan.items == old(h.outChan.items)
    {
      assert events[i..][1..] == events[i + 1..];
      ghost var sent := x.parser.sent;
      ghost var q := h.inChan.items;
      match events[i] {
        case HostPoll(id, pkt) =>
          assert Serve(q, events[i..]) == Serve(q + [InToken(id, pkt)], events[i + 1..]);
          h.BulkPacket(x.parser, id, pkt, []);
        case DeviceXfer(buf) =>
          ServeXferStep(q, buf, events[i..]);
          var _ := x.SendXfer(buf);
      }
      assert x.parser.sent[|s0|..] == sent[|s0|..] + x.parser.sent[|sent|..];
      i := i + 1;
    }
    assert x.parser.sent[..|s0|] + x.parser.sent[|s0|..] == x.parser.sent;
  }

  /** One poll event per token, in order. */
  function PollEvents(tokens: seq<InToken>): (evs: seq<InEvent>)
    ensures |evs| == |tokens| && Polls(evs) == tokens
    ensures forall i :: 0 <= i < |evs| ==> evs[i].HostPoll?
  {
    if tokens == [] then []
    else [HostPoll(tokens[0].id, tokens[0].pkt)] + PollEvents(tokens[1..])
  }

  /** One transfer event per buffer, in order. */
  function XferEvents(bufs: seq<seq<u8>>): (evs: seq<InEvent>)
    ensures |evs| == |bufs| && Polls(evs) == [] && Xfers(evs) == bufs
  {
    if bufs == [] then [] else [DeviceXfer(bufs[0])] + XferEvents(bufs[1..])
  }

  /** With n polls made before n transfers, transfer i is sent on poll i and no poll
      is left waiting. */
  lemma PollsThenXfersMatch(tokens: seq<InToken>, bufs: seq<seq<u8>>)
    requires |tokens| == |bufs|
    ensures Serve([], PollEvents(tokens) + XferEvents(bufs)).0 == []
    ensures var out := Serve([], PollEvents(tokens) + XferEvents(bufs)).1;
      |out| == |bufs| && forall i :: 0 <= i < |out| ==> out[i] == XferReply(tokens[i], bufs[i])
  {
    ServeAppendPolls([], PollEvents(tokens), XferEvents(bufs));
    assert [] + tokens == tokens;
    ServeXfers(tokens, bufs);
  }

  /** Polls only add to the queue. */
  lemma {:induction false} ServeAppendPolls(queue: seq<InToken>, polls: seq<InEvent>, after: seq<InEvent>)
    requires forall i :: 0 <= i < |polls| ==> polls[i].HostPoll?
    ensures Serve(queue, polls + after) == Serve(queue + Polls(polls), after)
    decreases |polls|
  {
    if polls != [] {
      var e := polls[0];
      assert (polls + after)[1..] == polls[1..] + after;
      ServeAppendPolls(queue + [InToken(e.id, e.pkt)], polls[1..], after);
      assert queue + Polls(polls) == (queue + [InToken(e.id, e.pkt)]) + Polls(polls[1..]);
    } else {
      assert polls + after == after;
      assert queue + Polls(polls) == queue;
    }
  }

  /** Transfers against a queue of the same length answer it in order and empty it. */
  lemma {:induction false} ServeXfers(queue: seq<InToken>, bufs: seq<seq<u8>>)
    requires |queue| == |bufs|
    ensures Serve(queue, XferEvents(bufs)).0 == []
    ensures var out := Serve(queue, XferEvents(bufs)).1;
      |out| == |bufs| && forall i :: 0 <= i < |out| ==> out[i] == XferReply(queue[i], bufs[i])
  {
    if bufs != [] {
      ServeXfers(queue[1..], bufs[1..]);
      assert XferEvents(bufs)[1..] == XferEvents(bufs[1..]);
    }
  }

  /** The identity in the device descriptor is the one announced on connect: vendor and
      product 0xcc00 (little-endian bytes 8-9 and 10-11) and the device class triple. */
  lemma DeviceIdentityConsistent()
    ensures Le16(DevDesc[8], DevDesc[9]) == HelloConnect().vendorId == 0xcc00
    ensures Le16(DevDesc[10], DevDesc[11]) == HelloConnect().productId == 0xcc00
    ensures DevDesc[4] == HelloConnect().deviceClass
    ensures DevDesc[5] == HelloConnect().deviceSubclass
    ensures DevDesc[6] == HelloConnect().deviceProtocol
  {
  }

  /** The announced interface table describes the interface descriptor: one interface
      (bNumInterfaces), its number, the MCTP class and protocol. */
  lemma InterfaceTableConsistent()
    ensures AnnouncedInterfaces().interfaceCount == ConfigDesc[4]
    ensures AnnouncedInterfaces().interface[0] == IfaceDesc[2]
    ensures AnnouncedInterfaces().interfaceClass[0] == IfaceDesc[5] == 0x14
    ensures AnnouncedInterfaces().interfaceSubclass[0] == IfaceDesc[6]
    ensures AnnouncedInterfaces().interfaceProtocol[0] == IfaceDesc[7] == 1
  {
  }

  /** The announced endpoint table describes the endpoint descriptors: the slot of each
      descriptor's address is bulk with that descriptor's wMaxPacketSize (512), the
      bulk slots are exactly those two, and the control slots are 0 and 16. */
  lemma EndpointTableConsistent()
    ensures forall k :: 0 <= k < |EpDescs| ==>
      var d := EpDescs[k];
      d[3] == 0x02 &&
      AnnouncedEndpoints().epType[EpSlot(d[2])] == TypeBulk &&
      AnnouncedEndpoints().maxPacketSize[EpSlot(d[2])] == Le16(d[4], d[5]) == 512
    ensures forall i :: 0 <= i < 32 ==>
      (AnnouncedEndpoints().epType[i] == TypeBulk <==> i == EpSlot(EpAddrOut) || i == EpSlot(EpAddrIn))
    ensures forall i :: 0 <= i < 32 ==>
      (AnnouncedEndpoints().epType[i] == TypeControl <==> i == EpSlot(0x00) || i == EpSlot(0x80))
    ensures forall i :: 0 <= i < 32 ==>
      (AnnouncedEndpoints().epType[i] == TypeInvalid <==> i !in {0, 1, 16, 17})
  {
  }
}
