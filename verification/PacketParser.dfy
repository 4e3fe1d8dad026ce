/** The packet parser of the classifier: bounds checks on IPv4, IPv6, TCP and UDP headers, and the flow key that both
    directions of a conversation share. */
module PacketParser {
  import opened Basics

  type Byte = x: nat | x < 256

  const TCP: Byte := 6
  const UDP: Byte := 17

  datatype Endpoint = Endpoint(address: seq<Byte>, port: nat)

  /** Addresses fill 16 bytes; IPv4 leaves the last twelve zero. */
  datatype Key = Key(version: nat, protocol: nat, addressA: seq<Byte>, addressB: seq<Byte>, portA: nat, portB: nat)

  datatype Packet = Packet(key: Key, sourceIsA: bool, syn: bool, ack: bool, fin: bool, rst: bool, seqNo: nat,
                           payloadLength: nat)

  // ----- the datagram as the standards lay it out

  function Be16(data: seq<Byte>, i: nat): (r: nat)
    requires i + 2 <= |data|
    ensures r < 0x1_0000
  {
    var high: nat, low: nat := data[i], data[i + 1];
    high * 256 + low
  }

  function Be32(data: seq<Byte>, i: nat): nat
    requires i + 4 <= |data|
  {
    Be16(data, i) * 0x1_0000 + Be16(data, i + 2)
  }

  predicate IsV4(data: seq<Byte>) {
    |data| >= 20 && data[0] / 16 == 4
  }

  predicate IsV6(data: seq<Byte>) {
    |data| >= 40 && data[0] / 16 == 6
  }

  predicate IsIp(data: seq<Byte>) {
    IsV4(data) || IsV6(data)
  }

  function HeaderLength(data: seq<Byte>): nat
    requires IsIp(data)
  {
    if IsV4(data) then (data[0] % 16) * 4 else 40
  }

  /** Where the datagram ends according to its own header. */
  function End(data: seq<Byte>): nat
    requires IsIp(data)
  {
    if IsV4(data) then Be16(data, 2) else 40 + Be16(data, 4)
  }

  function Protocol(data: seq<Byte>): Byte
    requires IsIp(data)
  {
    if IsV4(data) then data[9] else data[6]
  }

  function AddressLength(version: nat): nat {
    if version == 4 then 4 else 16
  }

  function Source(data: seq<Byte>): seq<Byte>
    requires IsIp(data)
  {
    if IsV4(data) then data[12..16] else data[8..24]
  }

  function Destination(data: seq<Byte>): seq<Byte>
    requires IsIp(data)
  {
    if IsV4(data) then data[16..20] else data[24..40]
  }

  /** An IPv4 fragment, or an IPv6 packet whose first extension header hides the transport header. */
  predicate Hidden(data: seq<Byte>)
    requires IsIp(data)
  {
    if IsV4(data) then (Be16(data, 6) / 0x2000) % 2 == 1 || Be16(data, 6) % 0x2000 != 0
    else data[6] in {0, 43, 44, 51, 60}
  }

  predicate HasPorts(data: seq<Byte>)
    requires IsIp(data)
  {
    Protocol(data) == TCP || Protocol(data) == UDP
  }

  /** The IP header and the whole declared datagram lie inside the bytes received. */
  predicate NetworkFits(data: seq<Byte>)
    requires IsIp(data)
  {
    (IsV4(data) ==> 20 <= HeaderLength(data)) && HeaderLength(data) <= End(data) <= |data|
  }

  /** The transport header and everything after it, up to the declared end. */
  function Segment(data: seq<Byte>): seq<Byte>
    requires IsIp(data) && NetworkFits(data)
  {
    data[HeaderLength(data)..End(data)]
  }

  function TcpHeaderLength(segment: seq<Byte>): nat
    requires |segment| >= 20
  {
    (segment[12] / 16) * 4
  }

  predicate SegmentFits(protocol: Byte, segment: seq<Byte>) {
    if protocol == TCP then |segment| >= 20 && 20 <= TcpHeaderLength(segment) <= |segment|
    else if protocol == UDP then |segment| >= 8 && 8 <= Be16(segment, 4) <= |segment|
    else true
  }

  predicate Accepted(data: seq<Byte>) {
    IsIp(data) && NetworkFits(data) && !Hidden(data) && SegmentFits(Protocol(data), Segment(data))
  }

  function SourcePort(protocol: Byte, segment: seq<Byte>): nat
    requires SegmentFits(protocol, segment)
  {
    if protocol == TCP || protocol == UDP then Be16(segment, 0) else 0
  }

  function DestinationPort(protocol: Byte, segment: seq<Byte>): nat
    requires SegmentFits(protocol, segment)
  {
    if protocol == TCP || protocol == UDP then Be16(segment, 2) else 0
  }

  predicate Bit(flags: Byte, bit: nat)
    requires bit > 0
  {
    var f: nat := flags;
    (f / bit) % 2 == 1
  }

  predicate Flag(protocol: Byte, segment: seq<Byte>, bit: nat)
    requires SegmentFits(protocol, segment) && bit > 0
  {
    protocol == TCP && Bit(segment[13], bit)
  }

  function SequenceNumber(protocol: Byte, segment: seq<Byte>): nat
    requires SegmentFits(protocol, segment)
  {
    if protocol == TCP then Be32(segment, 4) else 0
  }

  /** The bytes after the transport header, up to the datagram's (for UDP, its own) declared end. */
  function Payload(protocol: Byte, segment: seq<Byte>): seq<Byte>
    requires SegmentFits(protocol, segment)
  {
    if protocol == TCP then segment[TcpHeaderLength(segment)..]
    else if protocol == UDP then segment[8..Be16(segment, 4)]
    else []
  }

  function SourceEnd(data: seq<Byte>): Endpoint
    requires Accepted(data)
  {
    Endpoint(Source(data), SourcePort(Protocol(data), Segment(data)))
  }

  function DestinationEnd(data: seq<Byte>): Endpoint
    requires Accepted(data)
  {
    Endpoint(Destination(data), DestinationPort(Protocol(data), Segment(data)))
  }

  // ----- endpoint order and keys

  /** Byte-wise comparison: negative, zero or positive. */
  function MemCmp(a: seq<Byte>, b: seq<Byte>): int
    requires |a| == |b|
  {
    if a == [] then 0
    else if a[0] != b[0] then a[0] - b[0]
    else MemCmp(a[1..], b[1..])
  }

  function CompareEndpoint(a: Endpoint, b: Endpoint): int
    requires |a.address| == |b.address|
  {
    var order := MemCmp(a.address, b.address);
    if order != 0 then order
    else if a.port < b.port then -1
    else if a.port > b.port then 1
    else 0
  }

  lemma {:induction false} MemCmpOrder(a: seq<Byte>, b: seq<Byte>)
    requires |a| == |b|
    ensures MemCmp(a, b) == -MemCmp(b, a)
    ensures MemCmp(a, b) == 0 <==> a == b
  {
    if a != [] {
      MemCmpOrder(a[1..], b[1..]);
      assert a == [a[0]] + a[1..] && b == [b[0]] + b[1..];
    }
  }

  lemma {:induction false} MemCmpTransitive(a: seq<Byte>, b: seq<Byte>, c: seq<Byte>)
    requires |a| == |b| == |c| && MemCmp(a, b) <= 0 && MemCmp(b, c) <= 0
    ensures MemCmp(a, c) <= 0
  {
    if a != [] && a[0] == b[0] == c[0] {
      MemCmpTransitive(a[1..], b[1..], c[1..]);
    }
  }

  /** The comparison is a total order on endpoints of one address family. */
  lemma EndpointOrder(a: Endpoint, b: Endpoint, c: Endpoint)
    requires |a.address| == |b.address| == |c.address|
    ensures CompareEndpoint(a, b) <= 0 || CompareEndpoint(b, a) <= 0
    ensures CompareEndpoint(a, b) <= 0 && CompareEndpoint(b, a) <= 0 <==> a == b
    ensures CompareEndpoint(a, b) <= 0 && CompareEndpoint(b, c) <= 0 ==> CompareEndpoint(a, c) <= 0
  {
    MemCmpOrder(a.address, b.address);
    MemCmpOrder(b.address, c.address);
    MemCmpOrder(a.address, c.address);
    if MemCmp(a.address, b.address) <= 0 && MemCmp(b.address, c.address) <= 0 {
      MemCmpTransitive(a.address, b.address, c.address);
    }
    if MemCmp(b.address, c.address) <= 0 && MemCmp(c.address, a.address) <= 0 {
      MemCmpTransitive(b.address, c.address, a.address);
    }
    if MemCmp(c.address, a.address) <= 0 && MemCmp(a.address, b.address) <= 0 {
      MemCmpTransitive(c.address, a.address, b.address);
    }
  }

  function Pad(a: seq<Byte>): seq<Byte>
    requires |a| <= 16
  {
    a + seq(16 - |a|, _ => 0)
  }

  function KeyOf(version: nat, protocol: nat, source: Endpoint, destination: Endpoint): Key
    requires |source.address| == |destination.address| <= 16
  {
    var (a, b) := if CompareEndpoint(source, destination) <= 0 then (source, destination) else (destination, source);
    Key(version, protocol, Pad(a.address), Pad(b.address), a.port, b.port)
  }

  lemma PadInjective(a: seq<Byte>, b: seq<Byte>)
    requires |a| == |b| <= 16
    ensures Pad(a) == Pad(b) <==> a == b
  {
    assert Pad(a)[..|a|] == a && Pad(b)[..|b|] == b;
  }

  /** Two packets share a key exactly when they agree on version and protocol and join the same two endpoints, in
      either direction. */
  lemma SameKey(version: nat, protocol: nat, s: Endpoint, d: Endpoint, version': nat, protocol': nat, s': Endpoint,
                d': Endpoint)
    requires |s.address| == |d.address| == AddressLength(version)
    requires |s'.address| == |d'.address| == AddressLength(version')
    ensures KeyOf(version, protocol, s, d) == KeyOf(version', protocol', s', d') <==>
            version == version' && protocol == protocol' && ((s == s' && d == d') || (s == d' && d == s'))
  {
    EndpointOrder(s, d, d);
    EndpointOrder(s', d', d');
    if version == version' {
      PadInjective(s.address, s'.address);
      PadInjective(s.address, d'.address);
      PadInjective(d.address, s'.address);
      PadInjective(d.address, d'.address);
    }
  }

  // ----- the parser

  datatype Network = Network(offset: nat, end: nat, protocol: Byte, source: seq<Byte>, destination: seq<Byte>)

  datatype Transport = Transport(sourcePort: nat, destinationPort: nat, syn: bool, ack: bool, fin: bool, rst: bool,
                                 seqNo: nat, payload: nat)

  ghost predicate NetworkAccepted(data: seq<Byte>) {
    IsIp(data) && NetworkFits(data) && !Hidden(data)
  }

  ghost predicate IsNetworkOf(data: seq<Byte>, n: Network)
    requires IsIp(data)
  {
    n == Network(HeaderLength(data), End(data), Protocol(data), Source(data), Destination(data))
  }

  ghost predicate IsTransportOf(protocol: Byte, segment: seq<Byte>, t: Transport)
    requires SegmentFits(protocol, segment)
  {
    t.sourcePort == SourcePort(protocol, segment) && t.destinationPort == DestinationPort(protocol, segment) &&
    t.fin == Flag(protocol, segment, 1) && t.syn == Flag(protocol, segment, 2) && t.rst == Flag(protocol, segment, 4) &&
    t.ack == Flag(protocol, segment, 16) && t.seqNo == SequenceNumber(protocol, segment) &&
    t.payload == |Payload(protocol, segment)|
  }

  /** What an accepted datagram is reported as. */
  ghost predicate Reports(data: seq<Byte>, p: Packet)
    requires Accepted(data)
  {
    p.key == KeyOf(data[0] / 16, Protocol(data), SourceEnd(data), DestinationEnd(data)) &&
    p.sourceIsA == (CompareEndpoint(SourceEnd(data), DestinationEnd(data)) <= 0) &&
    IsTransportOf(Protocol(data), Segment(data),
                  Transport(SourceEnd(data).port, DestinationEnd(data).port, p.syn, p.ack, p.fin, p.rst, p.seqNo,
                    p.payloadLength))
  }

  method ParseV4(data: seq<Byte>) returns (r: Option<Network>)
    requires |data| >= 1 && data[0] / 16 == 4
    ensures r.Some? <==> NetworkAccepted(data)
    ensures r.Some? ==> IsNetworkOf(data, r.value)
  {
    var length := |data|;
    if length < 20 { return None; }
    var offset := (data[0] % 16) * 4;
    if offset < 20 || offset > length { return None; }
    var total := Be16(data, 2);
    if total < offset || total > length { return None; }
    var fragment := Be16(data, 6);
    var initial, unresolved := (fragment / 0x2000) % 2 != 0, fragment % 0x2000 != 0;
    if initial || unresolved { return None; }
    return Some(Network(offset, total, data[9], data[12..16], data[16..20]));
  }

  method ParseV6(data: seq<Byte>) returns (r: Option<Network>)
    requires |data| >= 1 && data[0] / 16 == 6
    ensures r.Some? <==> NetworkAccepted(data)
    ensures r.Some? ==> IsNetworkOf(data, r.value)
  {
    if |data| < 40 { return None; }
    var protocol := data[6];
    var total := 40 + Be16(data, 4);
    if total > |data| || total < 40 { return None; }
    if protocol == 44 { return None; }
    if protocol == 0 || protocol == 43 || protocol == 60 || protocol == 51 { return None; }
    return Some(Network(40, total, protocol, data[8..24], data[24..40]));
  }

  /** A segment, hence a payload, is never longer than 16 bits can say. */
  lemma SegmentIsShort(data: seq<Byte>)
    requires NetworkAccepted(data)
    ensures |Segment(data)| < 0x1_0000
  {
  }

  method ParseTcp(data: seq<Byte>, offset: nat, length: nat) returns (r: Option<Transport>)
    requires offset <= length <= |data| && length - offset < 0x1_0000
    ensures r.Some? <==> SegmentFits(TCP, data[offset..length])
    ensures r.Some? ==> IsTransportOf(TCP, data[offset..length], r.value)
  {
    ghost var segment := data[offset..length];
    if offset + 20 > length { return None; }
    var tcpLength := (data[offset + 12] / 16) * 4;
    assert tcpLength == TcpHeaderLength(segment);
    if tcpLength < 20 || offset + tcpLength > length { return None; }
    var flags := data[offset + 13];
    return Some(Transport(Be16(data, offset), Be16(data, offset + 2), Bit(flags, 2), Bit(flags, 16), Bit(flags, 1),
      Bit(flags, 4),
                          Be32(data, offset + 4), (length - offset - tcpLength) % 0x1_0000));
  }

  method ParseUdp(data: seq<Byte>, offset: nat, length: nat) returns (r: Option<Transport>)
    requires offset <= length <= |data|
    ensures r.Some? <==> SegmentFits(UDP, data[offset..length])
    ensures r.Some? ==> IsTransportOf(UDP, data[offset..length], r.value)
  {
    ghost var segment := data[offset..length];
    if offset + 8 > length { return None; }
    var udpLength := Be16(data, offset + 4);
    assert udpLength == Be16(segment, 4);
    if udpLength < 8 || offset + udpLength > length { return None; }
    return Some(Transport(Be16(data, offset), Be16(data, offset + 2), false, false, false, false, 0,
      (udpLength - 8) % 0x1_0000));
  }

  /** Ports, flags and payload length; the 16-bit payload length never loses a bit. */
  method ParseTransport(data: seq<Byte>, n: Network) returns (r: Option<Transport>)
    requires n.offset <= n.end <= |data| && n.end - n.offset < 0x1_0000
    ensures r.Some? <==> SegmentFits(n.protocol, data[n.offset..n.end])
    ensures r.Some? ==> IsTransportOf(n.protocol, data[n.offset..n.end], r.value)
  {
    if n.protocol == TCP {
      r := ParseTcp(data, n.offset, n.end);
    } else if n.protocol == UDP {
      r := ParseUdp(data, n.offset, n.end);
    } else {
      r := Some(Transport(0, 0, false, false, false, false, 0, 0));
    }
  }

  /** Accepts exactly the datagrams whose headers fit and whose transport header is not hidden. */
  method ParsePacket(data: seq<Byte>) returns (r: Option<Packet>)
    ensures r.Some? <==> Accepted(data)
    ensures r.Some? ==> Reports(data, r.value)
  {
    if |data| < 1 { return None; }
    var version := data[0] / 16;
    var network := None;
    if version == 4 {
      network := ParseV4(data);
    } else if version == 6 {
      network := ParseV6(data);
    }
    if network.None? { return None; }
    var n := network.value;
    SegmentIsShort(data);
    var transport := ParseTransport(data, n);
    if transport.None? { return None; }
    var t := transport.value;
    var s, d := Endpoint(n.source, t.sourcePort), Endpoint(n.destination, t.destinationPort);
    var sourceIsA := CompareEndpoint(s, d) <= 0;
    var (a, b) := if sourceIsA then (s, d) else (d, s);
    var key := Key(version, n.protocol, Pad(a.address), Pad(b.address), a.port, b.port);
    return Some(Packet(key, sourceIsA, t.syn, t.ack, t.fin, t.rst, t.seqNo, t.payload));
  }

  // ----- the reverse direction

  /** Position from which the reply takes byte `k`: addresses and ports change places, all else stays. */
  function Mirror(data: seq<Byte>, k: nat): (r: nat)
    requires Accepted(data) && k < |data|
    ensures r < |data|
  {
    var first, size := if IsV4(data) then 12 else 8, if IsV4(data) then 4 else 16;
    var offset := HeaderLength(data);
    if first <= k < first + size then k + size
    else if first + size <= k < first + 2 * size then k - size
    else if HasPorts(data) && offset <= k < offset + 2 then k + 2
    else if HasPorts(data) && offset + 2 <= k < offset + 4 then k - 2
    else k
  }

  function Reply(data: seq<Byte>): seq<Byte>
    requires Accepted(data)
  {
    seq(|data|, k requires 0 <= k < |data| => data[Mirror(data, k)])
  }

  lemma ReplyNetwork(data: seq<Byte>)
    requires Accepted(data)
    ensures var r := Reply(data);
            NetworkAccepted(r) && r[0] == data[0] && IsV4(r) == IsV4(data) && HeaderLength(r) == HeaderLength(data) &&
            End(r) == End(data) && Protocol(r) == Protocol(data)
  {
    var r := Reply(data);
    assert r[0] == data[0];
    if IsV4(data) {
      assert r[2] == data[2] && r[3] == data[3] && r[6] == data[6] && r[7] == data[7] && r[9] == data[9];
    } else {
      assert r[4] == data[4] && r[5] == data[5] && r[6] == data[6];
    }
  }

  lemma ReplyAddresses(data: seq<Byte>)
    requires Accepted(data) && IsIp(Reply(data)) && IsV4(Reply(data)) == IsV4(data)
    ensures Source(Reply(data)) == Destination(data) && Destination(Reply(data)) == Source(data)
  {
    var first, size := if IsV4(data) then 12 else 8, if IsV4(data) then 4 else 16;
    var r := Reply(data);
    forall k | first <= k < first + size
      ensures r[k] == data[k + size]
    {
      MirrorOfAddress(data, k - first);
    }
    forall k | first + size <= k < first + 2 * size
      ensures r[k] == data[k - size]
    {
      MirrorOfAddress(data, k - first - size);
    }
    assert r[first..first + size] == data[first + size..first + 2 * size];
    assert r[first + size..first + 2 * size] == data[first..first + size];
  }

  lemma MirrorOfAddress(data: seq<Byte>, k: nat)
    requires Accepted(data) && k < if IsV4(data) then 4 else 16
    ensures var first, size := if IsV4(data) then 12 else 8, if IsV4(data) then 4 else 16;
            Reply(data)[first + k] == data[first + size + k] && Reply(data)[first + size + k] == data[first + k]
  {
  }

  function SwapPorts(segment: seq<Byte>): seq<Byte>
    requires |segment| >= 4
  {
    segment[2..4] + segment[..2] + segment[4..]
  }

  lemma SwapPortsAt(segment: seq<Byte>, k: nat)
    requires k < |segment| && |segment| >= 4
    ensures SwapPorts(segment)[k] == segment[Moved(true, k)]
  {
  }

  lemma SwapPortsFields(protocol: Byte, segment: seq<Byte>)
    requires protocol in {TCP, UDP} && SegmentFits(protocol, segment)
    ensures var r := SwapPorts(segment);
            SegmentFits(protocol, r) && Payload(protocol, r) == Payload(protocol, segment) &&
            SourcePort(protocol, r) == DestinationPort(protocol, segment) &&
            DestinationPort(protocol, r) == SourcePort(protocol, segment)
  {
    var r := SwapPorts(segment);
    assert forall k :: 4 <= k < |segment| ==> r[k] == segment[k];
  }

  lemma ReplySegment(data: seq<Byte>)
    requires Accepted(data) && NetworkAccepted(Reply(data))
    requires HeaderLength(Reply(data)) == HeaderLength(data) && End(Reply(data)) == End(data)
    ensures Segment(Reply(data)) == if HasPorts(data) then SwapPorts(Segment(data)) else Segment(data)
  {
    var segment, after := Segment(data), Segment(Reply(data));
    forall k | 0 <= k < |segment|
      ensures after[k] == segment[Moved(HasPorts(data), k)]
    {
      ReplySegmentAt(data, k);
    }
    MovedIsSwap(HasPorts(data), segment, after);
  }

  /** Where byte `k` of a reply's segment comes from. */
  function Moved(ports: bool, k: nat): nat {
    if !ports || k >= 4 then k else if k < 2 then k + 2 else k - 2
  }

  lemma MovedIsSwap(ports: bool, segment: seq<Byte>, after: seq<Byte>)
    requires |after| == |segment| && (ports ==> |segment| >= 4)
    requires forall k :: 0 <= k < |segment| ==> after[k] == segment[Moved(ports, k)]
    ensures after == if ports then SwapPorts(segment) else segment
  {
    if ports {
      forall k | 0 <= k < |segment|
        ensures after[k] == SwapPorts(segment)[k]
      {
        SwapPortsAt(segment, k);
      }
    }
  }

  lemma ReplySegmentAt(data: seq<Byte>, k: nat)
    requires Accepted(data) && k < |Segment(data)|
    ensures Moved(HasPorts(data), k) < |Segment(data)|
    ensures Reply(data)[HeaderLength(data) + k] == Segment(data)[Moved(HasPorts(data), k)]
  {
    MirrorInSegment(data, k);
  }

  /** Past the network header only the four port bytes move. */
  lemma MirrorInSegment(data: seq<Byte>, k: nat)
    requires Accepted(data) && k < |Segment(data)|
    ensures Mirror(data, HeaderLength(data) + k) == HeaderLength(data) + Moved(HasPorts(data), k)
  {
  }

  lemma ReplyFields(data: seq<Byte>)
    requires Accepted(data)
    ensures var r := Reply(data);
            Accepted(r) && r[0] == data[0] && Protocol(r) == Protocol(data) &&
            Payload(Protocol(r), Segment(r)) == Payload(Protocol(data), Segment(data)) &&
            SourceEnd(r) == DestinationEnd(data) && DestinationEnd(r) == SourceEnd(data)
  {
    ReplyNetwork(data);
    ReplyAddresses(data);
    ReplySegment(data);
    if HasPorts(data) {
      SwapPortsFields(Protocol(data), Segment(data));
    }
  }

  /** A packet and its reply reach the same flow key, from opposite sides unless both ends coincide. */
  lemma ReplyHasTheSameKey(data: seq<Byte>, p: Packet, q: Packet)
    requires Accepted(data) && Reports(data, p)
    ensures Accepted(Reply(data))
    ensures Reports(Reply(data), q) ==> q.key == p.key
    ensures Reports(Reply(data), q) && SourceEnd(data) != DestinationEnd(data) ==> q.sourceIsA != p.sourceIsA
  {
    ReplyFields(data);
    var s, d := SourceEnd(data), DestinationEnd(data);
    EndpointOrder(s, d, d);
    SameKey(data[0] / 16, Protocol(data), s, d, data[0] / 16, Protocol(data), d, s);
  }
}
