/** internal/pcap/raw.go: a raw connection over a live capture handle and a
    reader over a capture file. libpcap itself is modelled only by what it
    delivers: the frames a handle will capture, in arrival order, each cut to
    the handle's snapshot length, and the frames it has injected. */
module PcapRaw {
  import opened GoPacket
  import opened PcapPacket

  /** The max size of each packet in a raw connection, passed to libpcap as
      the snapshot length. */
  const MaxSnapLen: nat := 65535

  /** An error reported by libpcap or by gopacket's packet source. */
  datatype IOError = EndOfFile | HandleFailure(code: nat)

  /** What one zero-copy read of a live handle yields. */
  datatype Capture = Frame(data: Bytes) | CaptureFailure(error: IOError)
  {
    predicate Fits(snapLen: nat) {
      Frame? ==> |data| <= snapLen
    }

    /** The capture as libpcap delivers it: a frame longer than the snapshot
        length is cut to its first snapLen bytes. */
    function Snapped(snapLen: nat): (c: Capture)
      ensures c.Fits(snapLen)
      ensures c.Frame? <==> Frame?
      ensures Frame? ==> c.data <= data && (|data| <= snapLen ==> c.data == data)
      ensures CaptureFailure? ==> c == this
    {
      match this
      case Frame(d) => if |d| <= snapLen then this else Frame(d[..snapLen])
      case CaptureFailure(_) => this
    }
  }

  function Min(a: nat, b: nat): nat {
    if a <= b then a else b
  }

  /** The destination of Go's copy(dst, src) afterwards: the first
      min(|dst|, |src|) bytes come from src, the rest of dst is unchanged. */
  function Copied(dst: Bytes, src: Bytes): (r: Bytes)
    ensures |r| == |dst|
    ensures forall i :: 0 <= i < |r| ==> r[i] == (if i < |src| then src[i] else dst[i])
  {
    if |src| < |dst| then src + dst[|src|..] else src[..|dst|]
  }

  /** Copying a whole source over a destination of its length yields the source. */
  lemma CopiedSameLength(dst: Bytes, src: Bytes)
    requires |dst| == |src|
    ensures Copied(dst, src) == src
  {
  }

  /** Go's copy(dst, src) on a byte slice. */
  method Copy(dst: array<uint8>, src: Bytes) returns (n: nat)
    modifies dst
    ensures n == Min(dst.Length, |src|)
    ensures dst[..] == Copied(old(dst[..]), src)
  {
    n := Min(dst.Length, |src|);
    var i := 0;
    while i < n
      invariant 0 <= i <= n
      invariant forall k :: 0 <= k < i ==> dst[k] == src[k]
      invariant forall k :: i <= k < dst.Length ==> dst[k] == old(dst[k])
    {
      dst[i] := src[i];
      i := i + 1;
    }
  }

  /** A live libpcap handle. */
  class Handle {
    const snapLen: nat
    const linkType: LayerType
    /** The captures still to be read, in arrival order. */
    var pending: seq<Capture>
    /** The frames injected so far, in order. */
    var sent: seq<Bytes>

    ghost predicate Valid()
      reads this
    {
      forall i :: 0 <= i < |pending| ==> pending[i].Fits(snapLen)
    }

    /** pcap.OpenLive with the given snapshot length; `arrivals` is the traffic
        the filtered handle will deliver, `linkType` the device's link type. */
    constructor OpenLive(snapLen: nat, linkType: LayerType, arrivals: seq<Capture>)
      ensures Valid()
      ensures this.snapLen == snapLen && this.linkType == linkType && sent == []
      ensures |pending| == |arrivals|
      ensures forall i :: 0 <= i < |arrivals| ==> pending[i] == arrivals[i].Snapped(snapLen)
    {
      this.snapLen := snapLen;
      this.linkType := linkType;
      pending := seq(|arrivals|, i requires 0 <= i < |arrivals| => arrivals[i].Snapped(snapLen));
      sent := [];
    }

    /** ZeroCopyReadPacketData: the next capture. Blocks while none is pending. */
    method ZeroCopyReadPacketData() returns (data: Bytes, err: Option<IOError>)
      requires Valid() && pending != []
      modifies this
      ensures Valid()
      ensures pending == old(pending[1..]) && sent == old(sent)
      ensures old(pending[0]).Frame? ==> data == old(pending[0].data) && err == None
      ensures old(pending[0]).CaptureFailure? ==> err == Some(old(pending[0].error))
    {
      var next := pending[0];
      pending := pending[1..];
      match next
      case Frame(d) => data, err := d, None;
      case CaptureFailure(e) => data, err := [], Some(e);
    }

    /** WritePacketData: `fault` is the outcome libpcap reports for this injection. */
    method WritePacketData(data: Bytes, fault: Option<IOError>) returns (err: Option<IOError>)
      requires Valid()
      modifies this
      ensures Valid()
      ensures err == fault && pending == old(pending)
      ensures sent == if fault.None? then old(sent) + [data] else old(sent)
    {
      err := fault;
      if fault.None? {
        sent := sent + [data];
      }
    }
  }

  /** A raw network connection: a live handle, a reusable receive buffer of
      MaxSnapLen bytes, and the devices it connects. */
  class RawConn {
    var srcDev: Option<Device>
    var dstDev: Option<Device>
    const handle: Handle
    const buffer: array<uint8>

    ghost predicate Valid()
      reads this, handle
    {
      buffer.Length == MaxSnapLen && handle.snapLen == MaxSnapLen && handle.Valid()
    }

    /** newRawConn, with the handle createPureRawConn then stores. */
    constructor (handle: Handle)
      requires handle.snapLen == MaxSnapLen && handle.Valid()
      ensures Valid() && this.handle == handle && fresh(buffer)
      ensures buffer.Length == MaxSnapLen
      ensures forall i :: 0 <= i < buffer.Length ==> buffer[i] == 0
      ensures srcDev == None && dstDev == None
    {
      this.handle := handle;
      buffer := new uint8[MaxSnapLen](_ => 0);
      srcDev, dstDev := None, None;
    }

    function LocalDev(): (d: Option<Device>)
      reads this
      ensures d == srcDev
    {
      srcDev
    }

    function RemoteDev(): (d: Option<Device>)
      reads this
      ensures d == dstDev
    {
      dstDev
    }

    /** Dereferences the remote device, so it needs one. */
    function IsLoop(): (loop: bool)
      reads this
      requires dstDev.Some?
      ensures loop == dstDev.value.loop
    {
      dstDev.value.IsLoop()
    }

    /** Read: takes one capture; a frame is copied into the prefix of b and its
        full length is returned, even when it is longer than b. */
    method Read(b: array<uint8>) returns (n: nat, err: Option<IOError>)
      requires Valid() && handle.pending != []
      modifies b, handle
      ensures Valid()
      ensures handle.pending == old(handle.pending[1..]) && handle.sent == old(handle.sent)
      ensures old(handle.pending[0]).Frame? ==>
        && err == None
        && n == |old(handle.pending[0].data)|
        && b[..] == Copied(old(b[..]), old(handle.pending[0].data))
      ensures old(handle.pending[0]).CaptureFailure? ==>
        && err == Some(old(handle.pending[0].error))
        && n == 0
        && b[..] == old(b[..])
    {
      var d;
      d, err := handle.ZeroCopyReadPacketData();
      if err.Some? {
        return 0, err;
      }
      var _ := Copy(b, d);
      n := |d|;
    }

    /** ReadPacket: reads one frame into the buffer, copies the captured bytes
        into a fresh array b and decodes b with the handle's link type. Under
        gopacket.NoCopy b is the slice behind the packet's Data(). */
    method ReadPacket(newPacket: Decoder) returns (packet: Result<Packet, IOError>, b: array?<uint8>)
      requires Valid() && handle.pending != []
      modifies buffer, handle
      ensures Valid()
      ensures handle.pending == old(handle.pending[1..]) && handle.sent == old(handle.sent)
      ensures old(handle.pending[0]).Frame? ==>
        var d := old(handle.pending[0].data);
        && |d| <= buffer.Length
        && buffer[..] == Copied(old(buffer[..]), d)
        && b != null && fresh(b) && b[..] == d && b[..] == buffer[..|d|]
        && packet == Success(newPacket(d, handle.linkType))
        && packet.value.data == buffer[..|d|]
      ensures old(handle.pending[0]).CaptureFailure? ==>
        && packet == Failure(old(handle.pending[0].error))
        && b == null
        && buffer[..] == old(buffer[..])
    {
      var n, err := Read(buffer);
      if err.Some? {
        return Failure(err.value), null;
      }
      b := new uint8[n](_ => 0);
      ghost var zeros := b[..];
      var _ := Copy(b, buffer[..n]);
      CopiedSameLength(zeros, buffer[..n]);
      packet := Success(newPacket(b[..], handle.linkType));
    }

    /** Write: `fault` is the outcome libpcap reports for the injection. */
    method Write(b: Bytes, fault: Option<IOError>) returns (n: nat, err: Option<IOError>)
      requires Valid()
      modifies handle
      ensures Valid()
      ensures handle.pending == old(handle.pending)
      ensures fault.None? ==> n == |b| && err == None && handle.sent == old(handle.sent) + [b]
      ensures fault.Some? ==> n == 0 && err == fault && handle.sent == old(handle.sent)
    {
      err := handle.WritePacketData(b, fault);
      if err.Some? {
        return 0, err;
      }
      n := |b|;
    }
  }

  /** createPureRawConn: `openErr` and `filterErr` are what pcap.OpenLive and
      SetBPFFilter report; `arrivals` is the traffic the filtered handle will deliver. */
  method CreatePureRawConn(linkType: LayerType, arrivals: seq<Capture>, openErr: Option<IOError>, filterErr: Option<IOError>)
    returns (conn: RawConn?, err: Option<IOError>)
    ensures openErr.Some? ==> conn == null && err == openErr
    ensures openErr.None? && filterErr.Some? ==> conn == null && err == filterErr
    ensures openErr.None? && filterErr.None? ==>
      && err == None && conn != null
      && fresh(conn) && fresh(conn.handle) && fresh(conn.buffer)
      && conn.Valid()
      && conn.srcDev == None && conn.dstDev == None
      && conn.handle.linkType == linkType && conn.handle.sent == []
      && |conn.handle.pending| == |arrivals|
      && (forall i :: 0 <= i < |arrivals| ==> conn.handle.pending[i] == arrivals[i].Snapped(MaxSnapLen))
  {
    if openErr.Some? {
      return null, openErr;
    }
    var handle := new Handle.OpenLive(MaxSnapLen, linkType, arrivals);
    if filterErr.Some? {
      return null, filterErr;
    }
    conn := new RawConn(handle);
    err := None;
  }

  /** CreateRawConn: a connection opened on srcDev that records both devices.
      Only srcDev is dereferenced; a nil dstDev (None) is stored as it is. */
  method CreateRawConn(srcDev: Device, dstDev: Option<Device>, linkType: LayerType, arrivals: seq<Capture>,
                       openErr: Option<IOError>, filterErr: Option<IOError>)
    returns (conn: RawConn?, err: Option<IOError>)
    ensures err.Some? <==> (openErr.Some? || filterErr.Some?)
    ensures err.Some? ==> conn == null && err == (if openErr.Some? then openErr else filterErr)
    ensures err.None? ==>
      && conn != null && fresh(conn) && fresh(conn.handle) && fresh(conn.buffer) && conn.Valid()
      && conn.LocalDev() == Some(srcDev)
      && conn.RemoteDev() == dstDev
      && (dstDev.Some? ==> conn.IsLoop() == dstDev.value.IsLoop())
      && conn.handle.linkType == linkType && conn.handle.sent == []
      && |conn.handle.pending| == |arrivals|
      && (forall i :: 0 <= i < |arrivals| ==> conn.handle.pending[i] == arrivals[i].Snapped(MaxSnapLen))
  {
    conn, err := CreatePureRawConn(linkType, arrivals, openErr, filterErr);
    if err.Some? {
      return null, err;
    }
    conn.srcDev := Some(srcDev);
    conn.dstDev := dstDev;
  }

  /** A reader over a capture file: the packets the file records, in file
      order, and a cursor that only moves forward. */
  class Reader {
    const records: seq<Packet>
    var next: nat

    ghost predicate Valid()
      reads this
    {
      next <= |records|
    }

    /** CreateReader after pcap.OpenOffline succeeded. */
    constructor (records: seq<Packet>)
      ensures Valid() && this.records == records && next == 0
    {
      this.records := records;
      next := 0;
    }

    /** ReadPacket: the next packet of the file, or EndOfFile once all are read. */
    method ReadPacket() returns (r: Result<Packet, IOError>)
      requires Valid()
      modifies this
      ensures Valid()
      ensures old(next) < |records| ==>
        r == Success(records[old(next)]) && next == old(next) + 1
      ensures old(next) == |records| ==>
        r == Failure(EndOfFile) && next == old(next)
    {
      if next == |records| {
        return Failure(EndOfFile);
      }
      r := Success(records[next]);
      next := next + 1;
    }

    /** Read: copies the next packet's data into b and returns its full length. */
    method Read(b: array<uint8>) returns (n: nat, err: Option<IOError>)
      requires Valid()
      modifies this, b
      ensures Valid()
      ensures old(next) < |records| ==>
        && err == None && next == old(next) + 1
        && n == |records[old(next)].data|
        && b[..] == Copied(old(b[..]), records[old(next)].data)
      ensures old(next) == |records| ==>
        err == Some(EndOfFile) && n == 0 && next == old(next) && b[..] == old(b[..])
    {
      var packet := ReadPacket();
      if packet.Failure? {
        return 0, Some(packet.error);
      }
      var _ := Copy(b, packet.value.data);
      n, err := |packet.value.data|, None;
    }
  }

  /** CreateReader: `openErr` is what pcap.OpenOffline reports. */
  method CreateReader(records: seq<Packet>, openErr: Option<IOError>) returns (reader: Reader?, err: Option<IOError>)
    ensures openErr.Some? ==> reader == null && err == openErr
    ensures openErr.None? ==>
      reader != null && fresh(reader) && err == None && reader.Valid() &&
      reader.records == records && reader.next == 0
  {
    if openErr.Some? {
      return null, openErr;
    }
    reader := new Reader(records);
    err := None;
  }
}
