# ikago `internal/pcap`: packet decoding and raw capture, in Dafny

This project models the packet engine of the ikago raw-socket tunnelling
gateway. It covers two parts.

- **The layer-dispatch decoders of `internal/pcap/packet.go`.**
  - `parsePacket` turns a decoded gopacket packet into a packet indicator.
  - `parseEncappedPacket` decodes a tunnelled IP packet that has no link layer.
  - `parseRawPacket` tries Loopback framing and falls back to Ethernet.
  - The indicator accessors, and the flow keys `triple` and `quintuple`.
- **The receive-buffer discipline of `internal/pcap/raw.go`.**
  - `RawConn` owns a live libpcap handle and a reusable receive buffer of `maxSnapLen` bytes.
  - `Reader` walks a capture file forward, one packet per call.

Files:

- `gopacket.dfy` (module `GoPacket`): what the package sees of gopacket.
  - Fixed-width integers (`uint8`, `uint16`, `uint32`).
  - Layer types.
  - The IPv4/IPv6/other network layers and the TCP/UDP/other transport layers, with the fields the package reads.
  - A decoded `Packet`.
  - `gopacket.NewPacket(contents, firstLayerType, ...)` is a `Decoder`, a function value that every decoder takes as a parameter. Its byte-level decoding is not modelled.
- `packet.dfy` (module `PcapPacket`): the decoders, the indicator and its accessors, the flow keys and device descriptors, and the error kinds.
  - Every error keeps the `fmt.Errorf` context it is wrapped in: `Wrapped(Parse, MissingNetworkLayer)` stands for "parse: missing network layer".
- `raw.dfy` (module `PcapRaw`): `RawConn`, `Reader`, Go's `copy`, and a libpcap `Handle`.
  - The `Handle` holds the captures still to be read, in arrival order. At open time each frame is cut to the snapshot length, which is what libpcap does with the snaplen passed at `raw.go:43`.
  - The `Handle` also records the frames injected so far.
  - The outcomes of `OpenLive`, `SetBPFFilter`, `WritePacketData` and `OpenOffline` are parameters.

The model follows the code, including where it is surprising:

- `parsePacket` checks for a nil transport layer *before* dispatching on the network layer's type. A packet with an unsupported network layer and no transport layer therefore reports "missing transport layer".
- `Payload` returns nil (`None`), not an empty slice, when there is no application layer.
- `parseEncappedPacket` decodes a version-6 payload from its IPv4 parse. See Findings.
- `parseRawPacket` cannot report an empty layer list as "missing link layer". See Findings.
- `createPureRawConn` does not close the handle when the filter fails.

## Model

| member | source | states |
|---|---|---|
| `PcapPacket.KeysSeparateProtocols` | internal/pcap/packet.go:13-25 | flow keys compare every field, so the same address and port under TCP and UDP are different triples and quintuples |
| `PcapPacket.SrcIPPort` | internal/pcap/packet.go:99-105 | the source pair is exactly (SrcIP, SrcPort) |
| `PcapPacket.DstIPPort` | internal/pcap/packet.go:107-113 | the destination pair is exactly (DstIP, DstPort) |
| `PcapPacket.Payload` | internal/pcap/packet.go:115-121 | nil exactly when there is no application layer, otherwise that layer's contents |
| `PcapPacket.ParsePacket` | internal/pcap/packet.go:123-206 | the error for each case, in order: nil network layer, then nil transport layer (before any type check), then an unsupported network type, then an unsupported transport type; success exactly when both layers exist and are IPv4/IPv6 and TCP/UDP; on success the indicator is fully populated (`Sound`: IPv4 fields copied, IPv6 Id and TTL zero, TCP fields copied, UDP Seq/Ack zero and flags false) and keeps the packet's three layers |
| `PcapPacket.ParseRecoversIndicator` | internal/pcap/packet.go:155-205 | every fully populated indicator is what parsePacket makes of its own layers (round trip) |
| `PcapPacket.SoundIndicatorIsDeterminedByLayers` | internal/pcap/packet.go:189-205 | two fully populated indicators with the same layers are equal, so parsePacket's result is the only correct one |
| `PcapPacket.AccessorsOfParsedPacket` | internal/pcap/packet.go:99-121 | on a decoded packet the accessors return the network layer's addresses with the transport layer's ports, and the application layer's contents |
| `PcapPacket.Rewrap` | internal/pcap/packet.go:237-241 | a parsePacket error gets the "parse encapped" context and a success passes through unchanged |
| `PcapPacket.GuessIPVersion` | internal/pcap/packet.go:209-234 | the first (IPv4) decode must yield a network layer, and it must be IPv4; the version field must be 4 or 6; for 6 the IPv6 re-decode must yield an IPv6 layer; each failure has its own error and the accepted version is returned |
| `PcapPacket.ParseEncappedPacket` | internal/pcap/packet.go:208-242 | a failed guess is returned with the "parse encapped" context; otherwise the result is parsePacket of the IPv4 decode, wrapped; a success always reports network type IPv4 |
| `PcapPacket.ParseEncappedPacketFixed` | internal/pcap/packet.go:222-237 | corrected decoder: a version-4 payload is handled as written; a version-6 payload gives parsePacket of the IPv6 decode; a success reports the network type of the accepted version |
| `PcapPacket.EncappedIPv6ReportedAsIPv4` | internal/pcap/packet.go:222-237 | a payload exists with version 6 that both decodes accept, where the as-written result says IPv4 and the corrected one says IPv6 |
| `PcapPacket.EncappedIPv6MisreadWithoutTransport` | internal/pcap/packet.go:222-241 | for a version-6 payload whose IPv4 misread finds no transport layer, the as-written result is "parse encapped: parse: missing transport layer", while the corrected decoder returns the IPv6 decode's indicator |
| `PcapPacket.ParseRawPacket` | internal/pcap/packet.go:244-267 | a nil first layer gives "missing link layer"; a Loopback first layer returns the Loopback decode; otherwise the Ethernet decode is returned if its link layer is Ethernet, with "missing link layer" or "link layer type not support" if not; success exactly in those two cases; needs a non-empty layer list |
| `PcapPacket.EmptyLayerListPassesGuard` | internal/pcap/packet.go:247-250 | for a decode with no layers, the first layer that ParseRawPacket indexes does not exist (the `len(...) < 0` guard cannot catch this), while the corrected decoder reports "missing link layer" |
| `PcapPacket.ParseRawPacketChecked` | internal/pcap/packet.go:246-253 | corrected decoder: an empty layer list gives "missing link layer"; every other input is handled as written; a success is the Loopback decode with a Loopback first layer or the Ethernet decode with an Ethernet link layer |
| `PcapRaw.Capture.Snapped` | internal/pcap/raw.go:43 | a captured frame is cut to at most the snapshot length and is a prefix of the frame on the wire |
| `PcapRaw.Copied` | internal/pcap/raw.go:78 | after copy(dst, src) dst keeps its length, its first min(len dst, len src) bytes come from src and the rest are unchanged |
| `PcapRaw.CopiedSameLength` | internal/pcap/raw.go:90-91 | copying into a destination of the source's length gives exactly the source |
| `PcapRaw.Copy` | internal/pcap/raw.go:78 | Go's copy on an array: the array becomes `Copied` of its old contents and the number of bytes copied is the minimum length |
| `PcapRaw.Handle.OpenLive` | internal/pcap/raw.go:43 | the handle will deliver the traffic that passes its filter in arrival order, each frame cut to the snapshot length; nothing is injected yet |
| `PcapRaw.Handle.ZeroCopyReadPacketData` | internal/pcap/raw.go:73 | consumes exactly one capture and returns its frame or its error |
| `PcapRaw.Handle.WritePacketData` | internal/pcap/raw.go:99 | on success the frame is appended to those injected; on failure nothing is injected and the error is returned |
| `PcapRaw.RawConn.constructor` | internal/pcap/raw.go:38-40 | the receive buffer is fresh, exactly maxSnapLen = 65535 bytes and zeroed; no devices are set |
| `PcapRaw.RawConn.Read` | internal/pcap/raw.go:72-81 | consumes one capture; for a frame d, b's first min(len b, len d) bytes become d's, the rest of b is unchanged, and len d is returned (it may exceed len b); for an error it returns 0 and leaves b alone |
| `PcapRaw.RawConn.ReadPacket` | internal/pcap/raw.go:84-96 | consumes one capture; for a frame of n bytes, n fits the buffer; `b` is the slice behind the packet's Data() under NoCopy: a fresh array (so not the buffer) of exactly n bytes equal to buffer[:n]; the packet is their decode with the handle's link type and its Data() equals buffer[:n]; for an error there is no packet and the buffer is unchanged |
| `PcapRaw.RawConn.Write` | internal/pcap/raw.go:98-105 | returns len(b) and injects b on success; returns 0 and the error, injecting nothing, on failure |
| `PcapRaw.RawConn.LocalDev` | internal/pcap/raw.go:114-116 | returns the stored source device |
| `PcapRaw.RawConn.RemoteDev` | internal/pcap/raw.go:119-121 | returns the stored destination device |
| `PcapRaw.RawConn.IsLoop` | internal/pcap/raw.go:124-126 | the destination device's loopback flag; needs a destination device, since the source dereferences it |
| `PcapRaw.CreatePureRawConn` | internal/pcap/raw.go:42-57 | an OpenLive error, then a filter error, is returned with no connection; otherwise a fresh valid connection whose handle has snaplen maxSnapLen and no devices |
| `PcapRaw.CreateRawConn` | internal/pcap/raw.go:60-70 | on success the connection, its handle and its receive buffer are fresh, so no buffer is shared with another connection or with the caller; LocalDev returns the given source device and RemoteDev the given destination device, which may be nil (only the source device is dereferenced); when a destination is given IsLoop is its loopback flag (the accessors at raw.go:113-126); errors pass through with no connection |
| `PcapRaw.Reader.constructor` | internal/pcap/raw.go:141-146 | a reader at the start of the file, having delivered nothing |
| `PcapRaw.Reader.ReadPacket` | internal/pcap/raw.go:160-167 | returns the packet at the cursor and advances the cursor by exactly one, so successive calls return the file's packets in file order with no rewind; once the file is exhausted it returns end-of-file and does not move |
| `PcapRaw.Reader.Read` | internal/pcap/raw.go:149-158 | copies min(len b, len data) bytes of the next packet's data into b and returns len data; at end of file it returns 0 with the error and leaves b alone |
| `PcapRaw.CreateReader` | internal/pcap/raw.go:135-147 | an OpenOffline error is returned with no reader; otherwise a fresh reader at the start of the file |

## Findings

| source | as written | input that shows it | evidently intended | confidence | as-written member | corrected member |
|---|---|---|---|---|---|---|
| internal/pcap/packet.go:222-237 | in the version-6 branch the IPv6 decode is only checked; `parsePacket(packet)` still decodes the IPv4 parse | a payload whose IPv4 decode reads version 6 and whose IPv6 decode yields an IPv6 layer: if the misread finds a UDP layer the result reports network type IPv4 with the misread IPv4 addresses, and if it finds no transport layer (the likely case) the result is "missing transport layer" | the version-6 branch decodes from the IPv6 parse, as a standalone IPv6 packet would be | not executed; high for the abstract decoder | `PcapPacket.EncappedIPv6ReportedAsIPv4` and `PcapPacket.EncappedIPv6MisreadWithoutTransport` (on `PcapPacket.ParseEncappedPacket`) | `PcapPacket.ParseEncappedPacketFixed` |
| internal/pcap/packet.go:247-250 | the guard `len(packet.Layers()) < 0` is never true, and `Layers()[0]` is then indexed | a Loopback decode with an empty layer list: the guard lets it through and the index is out of range (a panic in Go) | an empty layer list reports "missing link layer" | not executed; high that the guard is meant as an emptiness test, lower that gopacket ever yields no layer | `PcapPacket.EmptyLayerListPassesGuard` (on `PcapPacket.ParseRawPacket`, which needs a non-empty list) | `PcapPacket.ParseRawPacketChecked` |

## Left out

- sendTCPPacket and sendUDPPacket (packet.go:47-79): they dial a network connection and write to it, which is I/O outside the model.
- gopacket's byte-level decoding (NewPacket, LayerType, LayerContents): this is library code. It is the `Decoder` parameter and the `GoPacket` datatypes; two things are assumed of gopacket. First, a decoded packet's Data() is the bytes it was decoded from. Second, a layer's LayerType() identifies its concrete type (LayerTypeIPv4 exactly for *layers.IPv4, and so on), so the type assertions at packet.go:158, 164, 174 and 182 cannot panic. The decode options (`gopacket.Default`, `gopacket.NoCopy`) make no difference to the values the model sees.
- libpcap itself (OpenLive, SetBPFFilter, OpenOffline, ZeroCopyReadPacketData, WritePacketData, LinkType): only their observable outcomes are modelled, as parameters or as the `Handle` queue. The device name and the filter string are therefore not parameters.
- RawConn.Close and Reader.Close: these only release the libpcap handle. Use after close is not modelled.
- The handle that createPureRawConn does not close when SetBPFFilter fails (raw.go:48-51): resource release is not modelled.
- The pointer fields `*Device` and `*pcap.Handle` in devPacket, devIndicator and natIndicator: they are a `Device` value and an opaque `HandleId`; their lifetimes are not modelled.
- The `fmt.Errorf` message strings: the `Error` datatype keeps each kind and its wrapping context instead.
- timeoutError (raw.go:8-18) and the unused constants MaxMTU, MaxEthernetMTU and IPv4MaxSize: nothing in the core uses them.
- PcapRaw.RawConn.Read: a read with nothing pending blocks forever in the source (pcap.BlockForever), so the model requires a pending capture. Concurrency between readers is not modelled.
- PcapRaw.RawConn.ReadPacket: inherits Read's requirement of a pending capture.
- PcapRaw.Reader.ReadPacket: gopacket's packet source can also report read errors other than end-of-file; the model's file holds only complete packets.
- PcapRaw.RawConn.IsLoop: it requires a destination device, because the source dereferences a nil dstDev (a panic) on a connection made by createPureRawConn, or by CreateRawConn with a nil dstDev.
