// The MCTP listener over the USB transport: it waits for the next request
// (a message with the tag-owner bit set), discarding and releasing anything
// else, and copies the request's payload into the caller's buffer.
module Listener {
  import opened UsbTypes

  /** An MCTP tag: owned (a request from the peer) or unowned (a response), with its value. */
  datatype Tag = Owned(tv: u8) | Unowned(tv: u8)

  /** A reassembled message as the MCTP stack hands it over, with the handle that
      releases its receive slot. */
  datatype Message = Message(source: u8, tag: Tag, typ: u8, ic: bool, payload: seq<u8>, handle: nat)

  /** One result of the transport's receive: a message, or the error that ended it. */
  datatype Delivery = Delivered(msg: Message) | Failed(err: MctpError)

  /** Where a response to the received request goes: the requester's EID and tag value. */
  datatype RespChannel = RespChannel(eid: u8, tv: u8)

  /** A received request: payload length in the caller's buffer, response channel, tag,
      message type and integrity-check flag. */
  datatype Received = Received(len: nat, resp: RespChannel, tag: Tag, typ: u8, ic: bool)

  datatype RecvOutcome =
    | Accepted(received: Received)
    | Rejected(error: MctpError)
    /** The transport has nothing more to deliver; the real receive would wait. */
    | Blocked

  /** Whether the listener stops at this delivery: an error, or a request. */
  predicate Stops(d: Delivery)
  {
    d.Failed? || d.msg.tag.Owned?
  }

  /** The position of the first delivery the listener stops at, or the length if none. */
  function FirstStop(ds: seq<Delivery>): (k: nat)
    ensures k <= |ds|
    ensures forall j :: 0 <= j < k ==> !Stops(ds[j])
    ensures k < |ds| ==> Stops(ds[k])
  {
    if ds == [] then 0
    else if Stops(ds[0]) then 0
    else 1 + FirstStop(ds[1..])
  }

  /** The handles of the messages among the deliveries, in order. */
  function Handles(ds: seq<Delivery>): seq<nat>
  {
    if ds == [] then []
    else if ds[0].Delivered? then [ds[0].msg.handle] + Handles(ds[1..])
    else Handles(ds[1..])
  }

  lemma {:induction false} HandlesAppend(ds: seq<Delivery>, d: Delivery)
    ensures Handles(ds + [d]) == Handles(ds) + (if d.Delivered? then [d.msg.handle] else [])
  {
    if ds != [] {
      assert (ds + [d])[1..] == ds[1..] + [d];
      HandlesAppend(ds[1..], d);
    } else {
      assert [] + [d] == [d];
    }
  }

  class UsbRedirListener {
    /** What the transport's receive yields next, in order. */
    var incoming: seq<Delivery>
    /** Handles given back to the MCTP stack (finished_receive), in order. */
    var released: seq<nat>

    constructor (incoming: seq<Delivery>)
      ensures this.incoming == incoming && released == []
    {
      this.incoming := incoming;
      released := [];
    }

    /** Receives the next request into `buf`. Unowned messages before it are consumed and
        released; a transport error is passed on; a request whose payload does not fit
        fails with NoSpace, consumed but not released; otherwise the payload is copied
        to the front of `buf` and the message released. */
    method Recv(buf: array<u8>) returns (r: RecvOutcome)
      modifies this, buf
      ensures var k := FirstStop(old(incoming));
        k == |old(incoming)| ==>
          r == Blocked && incoming == [] && buf[..] == old(buf[..]) &&
          released == old(released) + Handles(old(incoming))
      ensures var k := FirstStop(old(incoming));
        k < |old(incoming)| && old(incoming)[k].Failed? ==>
          r == Rejected(old(incoming)[k].err) && incoming == old(incoming)[k + 1..] &&
          buf[..] == old(buf[..]) &&
          released == old(released) + Handles(old(incoming)[..k])
      ensures var k := FirstStop(old(incoming));
        k < |old(incoming)| && old(incoming)[k].Delivered? &&
        |old(incoming)[k].msg.payload| > buf.Length ==>
          r == Rejected(NoSpace) && incoming == old(incoming)[k + 1..] &&
          buf[..] == old(buf[..]) &&
          released == old(released) + Handles(old(incoming)[..k])
      ensures var k := FirstStop(old(incoming));
        k < |old(incoming)| && old(incoming)[k].Delivered? &&
        |old(incoming)[k].msg.payload| <= buf.Length ==>
          var m := old(incoming)[k].msg;
          r == Accepted(Received(|m.payload|, RespChannel(m.source, m.tag.tv), m.tag, m.typ, m.ic)) &&
          incoming == old(incoming)[k + 1..] &&
          buf[..|m.payload|] == m.payload &&
          buf[|m.payload|..] == old(buf[|m.payload|..]) &&
          released == old(released) + Handles(old(incoming)[..k + 1])
    {
      ghost var k := FirstStop(old(incoming));
      ghost var n := 0;
      while incoming != []
        invariant n <= k && n <= |old(incoming)|
        invariant incoming == old(incoming)[n..]
        invariant released == old(released) + Handles(old(incoming)[..n])
        invariant buf[..] == old(buf[..])
        decreases |incoming|
      {
        var d := incoming[0];
        incoming := incoming[1..];
        assert old(incoming)[..n + 1] == old(incoming)[..n] + [d];
        HandlesAppend(old(incoming)[..n], d);
        assert Stops(d) ==> n == k;
        match d
        case Failed(e) =>
          return Rejected(e);
        case Delivered(msg) =>
          if msg.tag.Owned? {
            if |msg.payload| > buf.Length {
              return Rejected(NoSpace);
            }
            forall j | 0 <= j < |msg.payload| {
              buf[j] := msg.payload[j];
            }
            released := released + [msg.handle];
            return Accepted(Received(|msg.payload|, RespChannel(msg.source, msg.tag.tv), msg.tag, msg.typ, msg.ic));
          } else {
            released := released + [msg.handle];
          }
        n := n + 1;
      }
      assert old(incoming)[..n] == old(incoming) && n == k;
      r := Blocked;
    }
  }
}
