/** internal/pcap/packet.go: the flow keys and the decoders that turn a
    gopacket packet into a packet indicator. */
module PcapPacket {
  import opened GoPacket

  // ---------------------------------------------------------------------------
  // Flow keys and device descriptors
  // ---------------------------------------------------------------------------

  /** One endpoint of a flow; the protocol is part of the key. */
  datatype Triple = Triple(ip: string, port: uint16, protocol: LayerType)

  /** Both endpoints of a flow; the protocol is part of the key. */
  datatype Quintuple = Quintuple(srcIP: string, srcPort: uint16, dstIP: string, dstPort: uint16, protocol: LayerType)

  /** The package's Device, as far as the raw connection uses it; `name` is
      what Name() returns, the device CreateRawConn passes to pcap.OpenLive
      (internal/pcap/raw.go:61). */
  datatype Device = Device(name: string, loop: bool)
  {
    function IsLoop(): bool { loop }
  }

  /** A *pcap.Handle owned by a raw connection elsewhere, by identity only. */
  type HandleId = nat

  datatype DevPacket = DevPacket(packet: Packet, dev: Device, handle: HandleId)

  datatype DevIndicator = DevIndicator(dev: Device, handle: HandleId)

  datatype NatIndicator = NatIndicator(
    srcIP: string, srcPort: uint16,
    encappedSrcIP: string, encappedSrcPort: uint16,
    dev: Device, handle: HandleId)

  /** The address and port pair the accessors return. */
  datatype IPPort = IPPort(ip: IP, port: uint16)

  /** Keys are compared field by field, so the same address and port under
      TCP and under UDP are different keys. */
  lemma KeysSeparateProtocols(ip: string, port: uint16, dstIP: string, dstPort: uint16)
    ensures Triple(ip, port, LayerTypeTCP) != Triple(ip, port, LayerTypeUDP)
    ensures Quintuple(ip, port, dstIP, dstPort, LayerTypeTCP) != Quintuple(ip, port, dstIP, dstPort, LayerTypeUDP)
  {
  }

  // ---------------------------------------------------------------------------
  // Errors
  // ---------------------------------------------------------------------------

  /** The prefix fmt.Errorf puts in front of a wrapped error. */
  datatype Context = Parse | ParseEncapped | ParseRaw

  datatype Error =
    | MissingNetworkLayer
    | MissingTransportLayer
    /** "network layer type %s not support" */
    | UnsupportedNetworkLayer(networkType: LayerType)
    /** "transport layer type %s not support" */
    | UnsupportedTransportLayer(transportType: LayerType)
    /** "network layer type not support" (no type named) */
    | UnexpectedNetworkLayer
    | UnsupportedIPVersion(version: uint8)
    | MissingLinkLayer
    | UnsupportedLinkLayer
    | Wrapped(context: Context, cause: Error)

  // ---------------------------------------------------------------------------
  // Packet indicator
  // ---------------------------------------------------------------------------

  datatype PacketIndicator = PacketIndicator(
    networkLayer: NetworkLayer,
    networkLayerType: LayerType,
    srcIP: IP,
    dstIP: IP,
    id: uint16,
    ttl: uint8,
    transportLayer: TransportLayer,
    transportLayerType: LayerType,
    srcPort: uint16,
    dstPort: uint16,
    seqNum: uint32,
    ackNum: uint32,
    syn: bool,
    ack: bool,
    applicationLayer: Option<ApplicationLayer>)

  /** A fully populated indicator: every field agrees with the layers it keeps,
      IPv6 leaves Id and TTL zero, and UDP leaves Seq, Ack, SYN and ACK zero. */
  ghost predicate Sound(ind: PacketIndicator) {
    && ind.networkLayerType == ind.networkLayer.Type()
    && ind.transportLayerType == ind.transportLayer.Type()
    && (match ind.networkLayer
        case IPv4Layer(src, dst, id, ttl, _) =>
          ind.srcIP == src && ind.dstIP == dst && ind.id == id && ind.ttl == ttl
        case IPv6Layer(src, dst) =>
          ind.srcIP == src && ind.dstIP == dst && ind.id == 0 && ind.ttl == 0
        case OtherNetworkLayer(_) => false)
    && (match ind.transportLayer
        case TCPLayer(srcPort, dstPort, seqNum, ackNum, syn, ack) =>
          ind.srcPort == srcPort && ind.dstPort == dstPort && ind.seqNum == seqNum &&
          ind.ackNum == ackNum && ind.syn == syn && ind.ack == ack
        case UDPLayer(srcPort, dstPort) =>
          ind.srcPort == srcPort && ind.dstPort == dstPort && ind.seqNum == 0 &&
          ind.ackNum == 0 && !ind.syn && !ind.ack
        case OtherTransportLayer(_) => false)
  }

  /** A packet parsePacket accepts: both layers present and of supported types. */
  ghost predicate Decodable(packet: Packet) {
    && packet.networkLayer.Some?
    && packet.transportLayer.Some?
    && packet.networkLayer.value.Type() in {LayerTypeIPv4, LayerTypeIPv6}
    && packet.transportLayer.value.Type() in {LayerTypeTCP, LayerTypeUDP}
  }

  /** A packet carrying exactly the layers an indicator keeps. */
  function PacketOf(ind: PacketIndicator): Packet {
    Packet([], None, Some(ind.networkLayer), Some(ind.transportLayer), ind.applicationLayer, [])
  }

  function SrcIPPort(ind: PacketIndicator): (r: IPPort)
    ensures r.ip == ind.srcIP && r.port == ind.srcPort
  {
    IPPort(ind.srcIP, ind.srcPort)
  }

  function DstIPPort(ind: PacketIndicator): (r: IPPort)
    ensures r.ip == ind.dstIP && r.port == ind.dstPort
  {
    IPPort(ind.dstIP, ind.dstPort)
  }

  /** None stands for Go's nil slice. */
  function Payload(ind: PacketIndicator): (r: Option<Bytes>)
    ensures r.None? <==> ind.applicationLayer.None?
    ensures ind.applicationLayer.Some? ==> r == Some(ind.applicationLayer.value.contents)
  {
    match ind.applicationLayer
    case None => None
    case Some(app) => Some(app.contents)
  }

  // ---------------------------------------------------------------------------
  // parsePacket
  // ---------------------------------------------------------------------------

  function ParsePacket(packet: Packet): (r: Result<PacketIndicator, Error>)
    ensures packet.networkLayer.None? ==>
      r == Failure(Wrapped(Parse, MissingNetworkLayer))
    // the transport layer is checked before the network layer's type
    ensures packet.networkLayer.Some? && packet.transportLayer.None? ==>
      r == Failure(Wrapped(Parse, MissingTransportLayer))
    ensures packet.networkLayer.Some? && packet.transportLayer.Some? &&
            packet.networkLayer.value.OtherNetworkLayer? ==>
      r == Failure(Wrapped(Parse, UnsupportedNetworkLayer(packet.networkLayer.value.Type())))
    ensures packet.networkLayer.Some? && packet.transportLayer.Some? &&
            !packet.networkLayer.value.OtherNetworkLayer? &&
            packet.transportLayer.value.OtherTransportLayer? ==>
      r == Failure(Wrapped(Parse, UnsupportedTransportLayer(packet.transportLayer.value.Type())))
    ensures r.Success? <==> Decodable(packet)
    ensures r.Success? ==>
      && Sound(r.value)
      && r.value.networkLayerType in {LayerTypeIPv4, LayerTypeIPv6}
      && r.value.transportLayerType in {LayerTypeTCP, LayerTypeUDP}
      && r.value.networkLayer == packet.networkLayer.value
      && r.value.transportLayer == packet.transportLayer.value
      && r.value.applicationLayer == packet.applicationLayer
  {
    match packet.networkLayer
    case None => Failure(Wrapped(Parse, MissingNetworkLayer))
    case Some(network) =>
      match packet.transportLayer
      case None => Failure(Wrapped(Parse, MissingTransportLayer))
      case Some(transport) =>
        var networkType := network.Type();
        var transportType := transport.Type();
        if networkType != LayerTypeIPv4 && networkType != LayerTypeIPv6 then
          Failure(Wrapped(Parse, UnsupportedNetworkLayer(networkType)))
        else if transportType != LayerTypeTCP && transportType != LayerTypeUDP then
          Failure(Wrapped(Parse, UnsupportedTransportLayer(transportType)))
        else
          var id: uint16 := if networkType == LayerTypeIPv4 then network.id else 0;
          var ttl: uint8 := if networkType == LayerTypeIPv4 then network.ttl else 0;
          var seqNum: uint32 := if transportType == LayerTypeTCP then transport.seqNum else 0;
          var ackNum: uint32 := if transportType == LayerTypeTCP then transport.ackNum else 0;
          var syn := transportType == LayerTypeTCP && transport.syn;
          var ack := transportType == LayerTypeTCP && transport.ack;
          Success(PacketIndicator(
            network, networkType, network.src, network.dst, id, ttl,
            transport, transportType, transport.srcPort, transport.dstPort,
            seqNum, ackNum, syn, ack, packet.applicationLayer))
  }

  /** Every sound indicator is recovered from its own layers, so parsePacket's
      result is the one sound indicator for the packet's layers. */
  lemma ParseRecoversIndicator(ind: PacketIndicator)
    requires Sound(ind)
    ensures ParsePacket(PacketOf(ind)) == Success(ind)
  {
  }

  /** Two sound indicators with the same layers are the same indicator. */
  lemma SoundIndicatorIsDeterminedByLayers(a: PacketIndicator, b: PacketIndicator)
    requires Sound(a) && Sound(b)
    requires a.networkLayer == b.networkLayer && a.transportLayer == b.transportLayer
    requires a.applicationLayer == b.applicationLayer
    ensures a == b
  {
  }

  /** The accessors on a decoded indicator give the layers' own endpoints and
      the application layer's contents. */
  lemma AccessorsOfParsedPacket(packet: Packet)
    requires ParsePacket(packet).Success?
    ensures var ind := ParsePacket(packet).value;
      && SrcIPPort(ind) == IPPort(packet.networkLayer.value.src, packet.transportLayer.value.srcPort)
      && DstIPPort(ind) == IPPort(packet.networkLayer.value.dst, packet.transportLayer.value.dstPort)
      && Payload(ind) == (if packet.applicationLayer.None? then None
                          else Some(packet.applicationLayer.value.contents))
  {
  }

  // ---------------------------------------------------------------------------
  // parseEncappedPacket
  // ---------------------------------------------------------------------------

  /** Prefixes an error of parsePacket with "parse encapped". */
  function Rewrap(r: Result<PacketIndicator, Error>): (w: Result<PacketIndicator, Error>)
    ensures w.Success? <==> r.Success?
    ensures r.Success? ==> w == r
    ensures r.Failure? ==> w == Failure(Wrapped(ParseEncapped, r.error))
  {
    match r
    case Success(ind) => Success(ind)
    case Failure(e) => Failure(Wrapped(ParseEncapped, e))
  }

  /** The version guess of parseEncappedPacket: decode as IPv4, read the IP
      version field (RFC 791 section 3.1; RFC 8200 section 3 puts it at the
      same place), and for version 6 check that an IPv6 decode yields an IPv6
      layer. Returns the accepted version. */
  function GuessIPVersion(newPacket: Decoder, contents: Bytes): (r: Result<uint8, Error>)
    ensures var first := newPacket(contents, LayerTypeIPv4).networkLayer;
      && (first.None? ==> r == Failure(MissingNetworkLayer))
      && (first.Some? && !first.value.IPv4Layer? ==> r == Failure(UnexpectedNetworkLayer))
      && (first.Some? && first.value.IPv4Layer? && first.value.version !in {4, 6} ==>
            r == Failure(UnsupportedIPVersion(first.value.version)))
      && (first.Some? && first.value.IPv4Layer? && first.value.version == 4 ==> r == Success(4))
    ensures var first := newPacket(contents, LayerTypeIPv4).networkLayer;
            var second := newPacket(contents, LayerTypeIPv6).networkLayer;
      first.Some? && first.value.IPv4Layer? && first.value.version == 6 ==>
        && (second.None? ==> r == Failure(MissingNetworkLayer))
        && (second.Some? && !second.value.IPv6Layer? ==> r == Failure(UnexpectedNetworkLayer))
        && (second.Some? && second.value.IPv6Layer? ==> r == Success(6))
    ensures r.Success? ==> r.value in {4, 6}
  {
    var packet := newPacket(contents, LayerTypeIPv4);
    match packet.networkLayer
    case None => Failure(MissingNetworkLayer)
    case Some(network) =>
      if network.Type() != LayerTypeIPv4 then Failure(UnexpectedNetworkLayer)
      else if network.version == 4 then Success(4)
      else if network.version == 6 then
        match newPacket(contents, LayerTypeIPv6).networkLayer
        case None => Failure(MissingNetworkLayer)
        case Some(encapped) =>
          if encapped.Type() != LayerTypeIPv6 then Failure(UnexpectedNetworkLayer)
          else Success(6)
      else Failure(UnsupportedIPVersion(network.version))
  }

  /** parseEncappedPacket as written: in both branches the packet handed to
      parsePacket is the one decoded as IPv4. */
  function ParseEncappedPacket(newPacket: Decoder, contents: Bytes): (r: Result<PacketIndicator, Error>)
    ensures GuessIPVersion(newPacket, contents).Failure? ==>
      r == Failure(Wrapped(ParseEncapped, GuessIPVersion(newPacket, contents).error))
    ensures GuessIPVersion(newPacket, contents).Success? ==>
      r == Rewrap(ParsePacket(newPacket(contents, LayerTypeIPv4)))
    ensures r.Success? ==> r.value.networkLayerType == LayerTypeIPv4 && Sound(r.value)
  {
    match GuessIPVersion(newPacket, contents)
    case Failure(e) => Failure(Wrapped(ParseEncapped, e))
    case Success(_) => Rewrap(ParsePacket(newPacket(contents, LayerTypeIPv4)))
  }

  /** parseEncappedPacket as evidently intended: a version-6 payload is decoded
      from its IPv6 parse, as a standalone IPv6 packet would be. */
  function ParseEncappedPacketFixed(newPacket: Decoder, contents: Bytes): (r: Result<PacketIndicator, Error>)
    ensures GuessIPVersion(newPacket, contents).Failure? ==>
      r == Failure(Wrapped(ParseEncapped, GuessIPVersion(newPacket, contents).error))
    ensures GuessIPVersion(newPacket, contents) == Success(4) ==>
      r == ParseEncappedPacket(newPacket, contents)
    ensures GuessIPVersion(newPacket, contents) == Success(6) ==>
      r == Rewrap(ParsePacket(newPacket(contents, LayerTypeIPv6)))
    ensures r.Success? ==>
      && Sound(r.value)
      && r.value.networkLayerType == (if GuessIPVersion(newPacket, contents) == Success(4)
                                      then LayerTypeIPv4 else LayerTypeIPv6)
  {
    match GuessIPVersion(newPacket, contents)
    case Failure(e) => Failure(Wrapped(ParseEncapped, e))
    case Success(v) =>
      var first := if v == 4 then LayerTypeIPv4 else LayerTypeIPv6;
      Rewrap(ParsePacket(newPacket(contents, first)))
  }

  /** A decoder for one tunnelled IPv6/UDP packet: decoding it as IPv4 reads
      version 6 and finds a UDP layer behind the misread header. */
  function TunnelledIPv6(contents: Bytes, first: LayerType): Packet {
    var udp := Some(UDPLayer(5000, 53));
    if first == LayerTypeIPv6 then
      Packet([Some(LayerTypeIPv6), Some(LayerTypeUDP)], None,
             Some(IPv6Layer([0xfe, 0x80], [0xfe, 0x81])), udp, None, contents)
    else
      Packet([Some(LayerTypeIPv4), Some(LayerTypeUDP)], None,
             Some(IPv4Layer([0x60, 0, 0, 0], [0, 8, 0x11, 0x40], 0, 0, 6)), udp, None, contents)
  }

  /** For a version-6 payload that both decodes accept, the indicator as
      written still says IPv4 and carries the misread IPv4 addresses, while
      the corrected decoder reports the IPv6 layer. */
  lemma EncappedIPv6ReportedAsIPv4()
    ensures exists contents: Bytes ::
      && GuessIPVersion(TunnelledIPv6, contents) == Success(6)
      && ParseEncappedPacket(TunnelledIPv6, contents).Success?
      && ParseEncappedPacket(TunnelledIPv6, contents).value.networkLayerType == LayerTypeIPv4
      && ParseEncappedPacketFixed(TunnelledIPv6, contents).Success?
      && ParseEncappedPacketFixed(TunnelledIPv6, contents).value.networkLayerType == LayerTypeIPv6
  {
    var contents: Bytes := [0x60];
    assert GuessIPVersion(TunnelledIPv6, contents) == Success(6);
    assert ParseEncappedPacketFixed(TunnelledIPv6, contents).Success?;
  }

  /** The likely real case of a version-6 payload: the IPv4 misread finds no
      transport layer. As written the result is "missing transport layer";
      the corrected decoder gives the IPv6 decode's indicator. */
  lemma EncappedIPv6MisreadWithoutTransport(newPacket: Decoder, contents: Bytes)
    requires GuessIPVersion(newPacket, contents) == Success(6)
    requires newPacket(contents, LayerTypeIPv4).transportLayer.None?
    requires ParsePacket(newPacket(contents, LayerTypeIPv6)).Success?
    ensures ParseEncappedPacket(newPacket, contents) ==
      Failure(Wrapped(ParseEncapped, Wrapped(Parse, MissingTransportLayer)))
    ensures ParseEncappedPacketFixed(newPacket, contents).Success?
    ensures ParseEncappedPacketFixed(newPacket, contents).value.networkLayerType == LayerTypeIPv6
  {
  }

  // ---------------------------------------------------------------------------
  // parseRawPacket
  // ---------------------------------------------------------------------------

  /** parseRawPacket as written. Its length guard `len(...) < 0` is never
      true, so indexing the first layer needs a non-empty layer list. */
  function ParseRawPacket(newPacket: Decoder, contents: Bytes): (r: Result<Packet, Error>)
    requires |newPacket(contents, LayerTypeLoopback).layers| > 0
    ensures var loopback := newPacket(contents, LayerTypeLoopback);
            var ethernet := newPacket(contents, LayerTypeEthernet);
      && (loopback.layers[0].None? ==> r == Failure(Wrapped(ParseRaw, MissingLinkLayer)))
      && (loopback.layers[0] == Some(LayerTypeLoopback) ==> r == Success(loopback))
      && (loopback.layers[0].Some? && loopback.layers[0] != Some(LayerTypeLoopback) ==>
            && (ethernet.linkLayer.None? ==> r == Failure(Wrapped(ParseRaw, MissingLinkLayer)))
            && (ethernet.linkLayer.Some? && ethernet.linkLayer != Some(LayerTypeEthernet) ==>
                  r == Failure(Wrapped(ParseRaw, UnsupportedLinkLayer)))
            && (ethernet.linkLayer == Some(LayerTypeEthernet) ==> r == Success(ethernet)))
    ensures r.Success? <==>
      || newPacket(contents, LayerTypeLoopback).layers[0] == Some(LayerTypeLoopback)
      || (newPacket(contents, LayerTypeLoopback).layers[0].Some? &&
          newPacket(contents, LayerTypeEthernet).linkLayer == Some(LayerTypeEthernet))
  {
    var packet := newPacket(contents, LayerTypeLoopback);
    if |packet.layers| < 0 then Failure(Wrapped(ParseRaw, MissingLinkLayer))
    else
      match packet.layers[0]
      case None => Failure(Wrapped(ParseRaw, MissingLinkLayer))
      case Some(linkType) =>
        if linkType != LayerTypeLoopback then
          var ethernet := newPacket(contents, LayerTypeEthernet);
          match ethernet.linkLayer
          case None => Failure(Wrapped(ParseRaw, MissingLinkLayer))
          case Some(ethernetType) =>
            if ethernetType != LayerTypeEthernet then Failure(Wrapped(ParseRaw, UnsupportedLinkLayer))
            else Success(ethernet)
        else Success(packet)
  }

  /** A decoder that decodes no layer at all. */
  function NoLayers(contents: Bytes, first: LayerType): Packet {
    Packet([], None, None, None, None, contents)
  }

  /** For a decode with no layers, ParseRawPacket's requirement of a first
      layer fails (the `len(...) < 0` guard cannot catch it, Go panics at the
      index), while the corrected decoder reports a missing link layer. Both
      facts are instances of the definitions: the first of NoLayers, the
      second of ParseRawPacketChecked's first ensures; the lemma is the
      concrete witness of the finding. */
  lemma EmptyLayerListPassesGuard(contents: Bytes)
    ensures !(|NoLayers(contents, LayerTypeLoopback).layers| > 0)
    ensures ParseRawPacketChecked(NoLayers, contents) == Failure(Wrapped(ParseRaw, MissingLinkLayer))
  {
  }

  /** parseRawPacket with the guard meant as "no layers": an empty layer list
      reports a missing link layer, every other input is handled as written. */
  function ParseRawPacketChecked(newPacket: Decoder, contents: Bytes): (r: Result<Packet, Error>)
    ensures |newPacket(contents, LayerTypeLoopback).layers| == 0 ==>
      r == Failure(Wrapped(ParseRaw, MissingLinkLayer))
    ensures |newPacket(contents, LayerTypeLoopback).layers| > 0 ==>
      r == ParseRawPacket(newPacket, contents)
    ensures r.Success? ==>
      || (r.value == newPacket(contents, LayerTypeLoopback) &&
          r.value.layers != [] && r.value.layers[0] == Some(LayerTypeLoopback))
      || (r.value == newPacket(contents, LayerTypeEthernet) &&
          r.value.linkLayer == Some(LayerTypeEthernet))
  {
    if |newPacket(contents, LayerTypeLoopback).layers| == 0 then
      Failure(Wrapped(ParseRaw, MissingLinkLayer))
    else
      ParseRawPacket(newPacket, contents)
  }
}
