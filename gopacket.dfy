/** What the pcap package sees of the gopacket library: fixed-width integers,
    layer types, the decoded layers it switches on, and a decoded packet.
    gopacket's own byte-level decoding is not modelled; `gopacket.NewPacket`
    is a `Decoder` that the operations take as a parameter. */
module GoPacket {

  newtype uint8 = x: int | 0 <= x < 0x100
  newtype uint16 = x: int | 0 <= x < 0x1_0000
  newtype uint32 = x: int | 0 <= x < 0x1_0000_0000

  type Bytes = seq<uint8>

  /** net.IP: the address bytes (4 for IPv4, 16 for IPv6). */
  type IP = seq<uint8>

  datatype Option<+T> = None | Some(value: T)

  datatype Result<+T, +E> = Success(value: T) | Failure(error: E)

  /** gopacket.LayerType, with the six types the package names; every other
      registered type (ARP, ICMPv4, ...) is `LayerTypeOther` with its code. */
  datatype LayerType =
    | LayerTypeLoopback
    | LayerTypeEthernet
    | LayerTypeIPv4
    | LayerTypeIPv6
    | LayerTypeTCP
    | LayerTypeUDP
    | LayerTypeOther(code: nat)

  /** The type of a network layer that is neither an *layers.IPv4 nor an
      *layers.IPv6. gopacket reports LayerTypeIPv4 exactly for *layers.IPv4, so
      the type assertions after the switch in parsePacket cannot fail. */
  type ForeignNetworkType = t: LayerType | t != LayerTypeIPv4 && t != LayerTypeIPv6
    witness LayerTypeOther(0)

  /** The type of a transport layer that is neither a *layers.TCP nor a *layers.UDP. */
  type ForeignTransportType = t: LayerType | t != LayerTypeTCP && t != LayerTypeUDP
    witness LayerTypeOther(0)

  /** gopacket.NetworkLayer, with the fields of layers.IPv4 and layers.IPv6 that
      the package reads. */
  datatype NetworkLayer =
    | IPv4Layer(src: IP, dst: IP, id: uint16, ttl: uint8, version: uint8)
    | IPv6Layer(src: IP, dst: IP)
    | OtherNetworkLayer(kind: ForeignNetworkType)
  {
    /** LayerType() */
    function Type(): (t: LayerType)
      ensures t == LayerTypeIPv4 <==> IPv4Layer?
      ensures t == LayerTypeIPv6 <==> IPv6Layer?
    {
      match this
      case IPv4Layer(_, _, _, _, _) => LayerTypeIPv4
      case IPv6Layer(_, _) => LayerTypeIPv6
      case OtherNetworkLayer(k) => k
    }
  }

  /** gopacket.TransportLayer, with the fields of layers.TCP and layers.UDP that
      the package reads. */
  datatype TransportLayer =
    | TCPLayer(srcPort: uint16, dstPort: uint16, seqNum: uint32, ackNum: uint32, syn: bool, ack: bool)
    | UDPLayer(srcPort: uint16, dstPort: uint16)
    | OtherTransportLayer(kind: ForeignTransportType)
  {
    /** LayerType() */
    function Type(): (t: LayerType)
      ensures t == LayerTypeTCP <==> TCPLayer?
      ensures t == LayerTypeUDP <==> UDPLayer?
    {
      match this
      case TCPLayer(_, _, _, _, _, _) => LayerTypeTCP
      case UDPLayer(_, _) => LayerTypeUDP
      case OtherTransportLayer(k) => k
    }
  }

  /** gopacket.ApplicationLayer; `contents` is what LayerContents() returns. */
  datatype ApplicationLayer = ApplicationLayer(contents: Bytes)

  /** gopacket.Packet as the package queries it. `layers` is Layers(), each
      entry the type of one decoded layer in order (None for a nil entry);
      `linkLayer` is the type of LinkLayer(); `data` is Data(). */
  datatype Packet = Packet(
    layers: seq<Option<LayerType>>,
    linkLayer: Option<LayerType>,
    networkLayer: Option<NetworkLayer>,
    transportLayer: Option<TransportLayer>,
    applicationLayer: Option<ApplicationLayer>,
    data: Bytes)

  /** gopacket.NewPacket(contents, firstLayerType, ...): decodes bytes starting
      from the given layer type. The packet's Data() is the bytes it was
      decoded from. */
  type Decoder = f: (Bytes, LayerType) -> Packet | forall c, t :: f(c, t).data == c
    witness (c: Bytes, t: LayerType) => Packet([], None, None, None, None, c)
}
