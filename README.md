# Emulated MCTP-over-USB device (usbredir responder) in Dafny

This project models the emulated USB device of `mctp-dev`. The device speaks the
usbredir protocol to a host over a socket. Like real USB hardware, it answers the
host's control requests, such as GET_DESCRIPTOR (USB 2.0 section 9.4.3) and
SET_CONFIGURATION. It also passes bulk traffic to the MCTP transport:

- Bulk OUT data goes onto one FIFO channel and is acknowledged at once.
- Bulk IN polls wait on a second FIFO channel.
- The transport answers the IN polls in order, one outbound packet per poll.

The modules:

- `UsbTypes` (`usb_types.dfy`): fixed-width integers, the usbredir packet headers,
  the interface and endpoint tables, and the messages the device gives the parser.
- `Sinks` (`sinks.dfy`): the usbredir parser and the unbounded channels.
  - The parser is a log of the messages it was asked to send (class `Parser`).
  - Each channel is a class whose `items` sequence its methods append to and pop from.
- `Utf16` (`utf16.dfy`): UTF-16 encoding, surrogate pairs included, and its
  little-endian byte layout. It also has the decoders a host applies, and both round trips.
- `Descriptors` (`descriptors.dfy`): the constant tables (device, configuration,
  interface, the two bulk endpoints, the four strings, the language block).
  - Specification functions for the string descriptor, the configuration descriptor and the lookup.
  - The methods that build them as the device does: a loop over the UTF-16 units, and a patch of the length fields.
  - Lemmas on their layout.
- `Redir` (`redir.dfy`): the callback object `Handler` and the transfer facility `UsbRedirXfer`.
  - `Handler` answers hello, control requests, bulk transfers and SET_CONFIGURATION.
  - `UsbRedirXfer` answers the oldest queued IN poll.
  - `Serve` gives the bulk IN side as a function over a run of events, with the FIFO matching lemmas.
  - `RunInEvents` drives the two methods over the same run of events and is proved to match `Serve`.
  - Lemmas check that the announced identity and tables agree with the descriptors.
- `Listener` (`listener.dfy`): the listener's receive loop. It skips unowned-tag
  messages, stops at the first request, and copies its payload into the caller's buffer.

Two identity mismatches are kept as written:

- The device descriptor's `bcdDevice` is 0x0613, but the device-connect event announces version 0.
- The device descriptor's `bMaxPacketSize0` is 64, but the endpoint table gives control endpoint 0 a maximum packet size of 16.

MCTP-over-USB framing is done by the `mctp_estack` library, not by this file. A transfer
is never held back to wait for a poll: when no IN poll is queued, `send_xfer` fails with
`TxFailure` and sends nothing.

## Model

| member | source | states |
|---|---|---|
| `Utf16.Utf16RoundTrip` | src/usbredir.rs:237-239 | decoding the UTF-16 code units of any string gives the string back |
| `Utf16.LeBytesRoundTrip` | src/usbredir.rs:238 | reading back the little-endian bytes of any code units gives the units back |
| `Utf16.Utf16UnitsBmp` | src/usbredir.rs:237 | a string of the basic multilingual plane has one code unit per character, equal to the character |
| `Utf16.LeBytesAt` | src/usbredir.rs:238 | code unit i sits at byte 2i (low byte) and byte 2i+1 (high byte) |
| `Descriptors.DescriptorKey` | src/usbredir.rs:221-224 | type (high byte) and index (low byte) recombine little-endian to wValue |
| `Descriptors.Truncate` | src/usbredir.rs:262-265 | the reply is the first min(wLength, size) bytes of the descriptor |
| `Descriptors.EncodeStringDescriptor` | src/usbredir.rs:236-241 | the loop over UTF-16 units, with the length byte patched at the end, builds exactly the specified string descriptor |
| `Descriptors.BuildStringDescriptor` | src/usbredir.rs:231-245 | index 0 gives the language block, indices 1 to 4 give the table string's descriptor, any other index gives nothing |
| `Descriptors.BuildConfigDescriptor` | src/usbredir.rs:246-256 | concatenating the parts and patching bytes 3 and 2 builds exactly the specified configuration descriptor |
| `Descriptors.BuildDescriptor` | src/usbredir.rs:227-261 | the lookup by type gives the device, string or configuration descriptor, and nothing for any other type |
| `Descriptors.EncodedStringDescriptorDecodes` | src/usbredir.rs:236-241 | for any string of at most 63 characters, the length byte equals the descriptor length and a host decodes the string back |
| `Descriptors.StringDescriptorDecodes` | src/usbredir.rs:231-245 | each of string descriptors 1 to 4 has an exact length byte and decodes to its table string |
| `Descriptors.BmpStringDescriptorLayout` | src/usbredir.rs:236-240 | a string of the basic multilingual plane gives 2 + 2n bytes: the length byte, type 3, then each character low byte first |
| `Descriptors.ManufacturerStringDescriptor` | src/usbredir.rs:200-245 | string descriptor 1 is 30 bytes, starts [30, 3] and decodes to "Code Construct" |
| `Descriptors.ConfigurationDescriptorLayout` | src/usbredir.rs:246-256 | the configuration descriptor is 32 bytes, wTotalLength reads back as 32, and every other byte equals the concatenated constants |
| `Descriptors.ConfigurationDescriptorParses` | src/usbredir.rs:157-198 | walking the block by bLength gives configuration, interface, OUT endpoint, IN endpoint; bNumInterfaces is 1 and bNumEndpoints is 2 |
| `Descriptors.DescriptorWellFormed` | src/usbredir.rs:227-261 | a descriptor is empty exactly for unsupported types and string indices above 4; otherwise byte 1 is its type and its length field equals its size |
| `Redir.ConfigStatusFor` | src/usbredir.rs:120-128 | the status echoes the configuration and is 0 exactly for the descriptor's bConfigurationValue 1, otherwise 1 |
| `Redir.GetDescriptorReply` | src/usbredir.rs:214-268 | the reply keeps the request id and every header field except length; length equals the data sent; the data is the first min(wLength, size) bytes |
| `Redir.XferReply` | src/usbredir.rs:589-592 | an IN completion goes on the poll's id with status success, length equal to the buffer length mod 2^16, the other fields of the poll, and the buffer as data |
| `Redir.Handler.Hello` | src/usbredir.rs:52-66 | hello sends the interface table, the endpoint table, then a connect event with vendor and product 0xcc00 |
| `Redir.Handler.ControlPacket` | src/usbredir.rs:72-78 | GET_DESCRIPTOR (request 6) gets exactly one descriptor reply; any other request gets no reply |
| `Redir.Handler.ControlGetDescriptor` | src/usbredir.rs:214-268 | sends exactly the GET_DESCRIPTOR reply for the request |
| `Redir.Handler.BulkPacket` | src/usbredir.rs:80-106 | IN (0x81) queues (id, header) and sends nothing; OUT (0x01) queues the data and acks with status, length and length_high set to 0; any other endpoint changes nothing |
| `Redir.Handler.SetConfiguration` | src/usbredir.rs:112-131 | configuration 1 re-sends both tables and then status 0; any other value sends only status 1; both echo the value |
| `Redir.Handler.SendConfig` | src/usbredir.rs:270-302 | the slot-by-slot filling sends exactly the announced interface table and endpoint table, in that order |
| `Redir.UsbRedirXfer.SendXfer` | src/usbredir.rs:578-606 | with no IN poll queued: TxFailure, nothing sent; otherwise only the head poll is removed and its completion carrying the buffer is sent |
| `Redir.FifoMatching` | src/usbredir.rs:577-607 | over any run of polls and transfers: completion i answers poll i, completions never outnumber polls, and the waiting polls are exactly the unanswered ones |
| `Redir.PollsThenXfersMatch` | src/usbredir.rs:577-607 | n polls followed by n transfers: transfer i is sent on poll i and no poll is left |
| `Redir.FifoTransfers` | src/usbredir.rs:577-607 | completions never outnumber transfers; every transfer is answered exactly when none finds the queue empty, and then transfer i's buffer goes out on poll i |
| `Redir.RunInEvents` | src/usbredir.rs:80-106 | running host polls through `bulk_packet` on the IN endpoint and transfers through `send_xfer` on the same channel leaves exactly the polls and sends exactly the completions of `Serve`, so the FIFO lemmas hold of the two methods; the OUT channel is untouched |
| `Redir.DeviceIdentityConsistent` | src/usbredir.rs:56-64 | the descriptor's little-endian idVendor and idProduct equal the 0xcc00 values of the connect event; the class triple agrees |
| `Redir.InterfaceTableConsistent` | src/usbredir.rs:270-282 | the interface table agrees with the descriptors: one interface (bNumInterfaces), interface 0, class 0x14, subclass 0, protocol 1 |
| `Redir.EndpointTableConsistent` | src/usbredir.rs:284-301 | each endpoint descriptor's slot is bulk with its wMaxPacketSize of 512; the bulk slots are exactly 1 and 17, control exactly 0 and 16, the rest invalid |
| `Sinks.Channel.SendBlocking` | src/usbredir.rs:85-86 | sending appends at the tail of the unbounded channel |
| `Sinks.Channel.TryRecv` | src/usbredir.rs:580-587 | try-receive removes and returns the head; an empty channel gives nothing and stays empty |
| `Listener.FirstStop` | src/usbredir.rs:542-563 | the listener stops at the first error or owner-tag message; every message before it has an unowned tag |
| `Listener.UsbRedirListener.Recv` | src/usbredir.rs:540-564 | unowned messages before the first request are consumed and released; an error is passed on; a request that does not fit gives NoSpace and is not released; otherwise its payload is copied to the front of the buffer, the rest of the buffer is unchanged, and the message is released |

## Left out

- Socket I/O is not modelled: `Handler::read` (a zero-byte read becomes BrokenPipe), `Handler::write` and `MctpUsbRedir::new`, which opens the device and creates the channels.
- The usbredir wire encoding is not modelled. This covers `do_read`, `do_write` and `has_data_to_write` of the C library wrapper. The parser is only the log of requested messages.
- `Redir.UsbRedirXfer.SendXfer` does not model the flush after the completion is queued. In the source, a write error there returns RxFailure after the poll has already been consumed.
- `disconnect` and its write-drain loop are left out: they are socket I/O.
- `MctpUsbRedir::recv` is left out. It is an async `select!` over socket readiness and the OUT channel, and it feeds the OUT data to the MCTP stack.
- `send_vectored` and the responder's `send_vectored` are left out. They join buffers and call into `mctp_estack`, which frames, fragments and calls `send_xfer`. That library is not part of this model.
- MCTP reassembly, tags and the stack clock (`now`, `update`) are not part of this model.
- `Listener.UsbRedirListener.Recv` takes what the transport's receive yields as a finite sequence of deliveries. When that sequence runs out, it returns `Blocked`; the source would wait for more.
- `Sinks.Channel.SendBlocking` does not model a closed channel. The source panics there; in the model the receiving side always lives.
- `cancel_data_packet` and `reset` are left out: they only log. A cancelled IN poll stays queued, as in the source.
- The unimplemented stubs are left out: the request-channel methods, `req_channel` and `remote_eid`.
- `src/main.rs` (CLI, logging, echo loop), `src/pldm.rs` (PLDM file client orchestration) and `src/serial.rs` (stubbed serial transport) are not part of this model.
- The values returned by the parser's send calls are ignored by the source, and the model has none.
