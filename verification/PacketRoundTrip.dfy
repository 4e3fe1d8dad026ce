/** Datagrams laid out as the standards say (RFC 791, RFC 8200, RFC 9293 and RFC 768), and what the parser reads back.
    */
module PacketRoundTrip {
  import opened PacketParser

  // ----- layout

  function U16(n: nat): (s: seq<Byte>)
    requires n < 0x1_0000
    ensures |s| == 2
  {
    [n / 256, n % 256]
  }

  function U32(n: nat): (s: seq<Byte>)
    requires n < 0x1_0000_0000
    ensures |s| == 4
  {
    U16(n / 0x1_0000) + U16(n % 0x1_0000)
  }

  datatype Flags = Flags(fin: bool, syn: bool, rst: bool, push: bool, ack: bool, urgent: bool, echo: bool,
                         reduced: bool)

  function BitOf(b: bool, value: nat): nat { if b then value else 0 }

  /** One bit below the others. */
  function Above(b: bool, others: nat): nat { 2 * others + BitOf(b, 1) }

  function FlagByte(f: Flags): Byte {
    Above(f.fin, Above(f.syn, Above(f.rst, Above(f.push, HighFlags(f)))))
  }

  function HighFlags(f: Flags): (n: nat)
    ensures n < 16
  {
    Above(f.ack, Above(f.urgent, Above(f.echo, BitOf(f.reduced, 1))))
  }

  /** `middle` is the acknowledgement number, `tail` the window, the checksum and the urgent pointer. */
  datatype Upper =
    | TcpPart(sourcePort: nat, destinationPort: nat, seqNo: nat, middle: seq<Byte>, flags: Flags, tail: seq<Byte>,
              options: seq<Byte>, payload: seq<Byte>)
    | UdpPart(sourcePort: nat, destinationPort: nat, checksum: seq<Byte>, payload: seq<Byte>, trailer: seq<Byte>)
    | OtherPart(protocol: Byte, bytes: seq<Byte>)

  predicate GoodUpper(u: Upper) {
    match u
    case TcpPart(s, d, n, middle, _, tail, options, _) =>
      s < 0x1_0000 && d < 0x1_0000 && n < 0x1_0000_0000 && |middle| == 4 && |tail| == 6 && |options| % 4 == 0 &&
      |options| <= 40
    case UdpPart(s, d, checksum, payload, _) =>
      s < 0x1_0000 && d < 0x1_0000 && |checksum| == 2 && 8 + |payload| < 0x1_0000
    case OtherPart(protocol, _) => protocol != TCP && protocol != UDP
  }

  function ProtocolOf(u: Upper): Byte {
    match u case TcpPart(_, _, _, _, _, _, _, _) => TCP case UdpPart(_, _, _, _, _) => UDP case OtherPart(p, _) => p
  }

  function UpperBytes(u: Upper): seq<Byte>
    requires GoodUpper(u)
  {
    match u
    case TcpPart(s, d, n, middle, flags, tail, options, payload) =>
      U16(s) + U16(d) + U32(n) + middle + [(5 + |options| / 4) * 16, FlagByte(flags)] + tail + options + payload
    case UdpPart(s, d, checksum, payload, trailer) =>
      U16(s) + U16(d) + U16(8 + |payload|) + checksum + payload + trailer
    case OtherPart(_, bytes) => bytes
  }

  /** Bytes that the parser does not look at: type of service or flow label, identification, hop limit, checksum. */
  datatype Lower =
    | V4(service: Byte, identification: seq<Byte>, dontFragment: bool, hops: Byte, checksum: seq<Byte>,
         source: seq<Byte>, destination: seq<Byte>, options: seq<Byte>)
    | V6(flowLabel: seq<Byte>, hops: Byte, source: seq<Byte>, destination: seq<Byte>)

  predicate GoodLower(l: Lower) {
    match l
    case V4(_, id, _, _, checksum, source, destination, options) =>
      |id| == 2 && |checksum| == 2 && |source| == |destination| == 4 && |options| % 4 == 0 &&
      |options| <= 40
    case V6(flow, _, source, destination) => |flow| == 3 && |source| == |destination| == 16
  }

  /** An IPv6 extension header that hides what follows; authentication, fragment and option headers. */
  predicate HidesTransport(protocol: Byte) {
    protocol == 0 || protocol == 43 || protocol == 44 || protocol == 51 || protocol == 60
  }

  predicate Fits(l: Lower, u: Upper) {
    GoodLower(l) && GoodUpper(u) &&
    (l.V4? ==> 20 + |l.options| + |UpperBytes(u)| < 0x1_0000) && (l.V6? ==> |UpperBytes(u)| < 0x1_0000) &&
    (l.V6? ==> !HidesTransport(ProtocolOf(u)))
  }

  function LowerBytes(l: Lower, protocol: Byte, size: nat): seq<Byte>
    requires GoodLower(l) && size < 0x1_0000 && (l.V4? ==> 20 + |l.options| + size < 0x1_0000)
  {
    match l
    case V4(service, id, df, hops, checksum, source, destination, options) =>
      [64 + 5 + |options| / 4, service] + U16(20 + |options| + size) + id + U16(BitOf(df, 0x4000)) + [hops, protocol] +
      checksum + source + destination + options
    case V6(flow, hops, source, destination) => [96] + flow + U16(size) + [protocol, hops] + source + destination
  }

  /** The whole datagram, followed by whatever padding the link added. */
  function Bytes(l: Lower, u: Upper, padding: seq<Byte>): seq<Byte>
    requires Fits(l, u)
  {
    LowerBytes(l, ProtocolOf(u), |UpperBytes(u)|) + UpperBytes(u) + padding
  }

  // ----- reading numbers back

  lemma ReadU16(a: seq<Byte>, n: nat, b: seq<Byte>)
    requires n < 0x1_0000
    ensures Be16(a + U16(n) + b, |a|) == n
  {
    var s := a + U16(n) + b;
    assert s[|a|] == U16(n)[0] && s[|a| + 1] == U16(n)[1];
  }

  lemma ReadU32(a: seq<Byte>, n: nat, b: seq<Byte>)
    requires n < 0x1_0000_0000
    ensures Be32(a + U32(n) + b, |a|) == n
  {
    var high, low := U16(n / 0x1_0000), U16(n % 0x1_0000);
    assert a + U32(n) + b == a + high + (low + b);
    ReadU16(a, n / 0x1_0000, low + b);
    assert a + U32(n) + b == (a + high) + low + b;
    ReadU16(a + high, n % 0x1_0000, b);
  }

  lemma LowBit(b: bool, n: nat)
    ensures Above(b, n) / 2 == n && (Above(b, n) % 2 == 1 <==> b)
  {
  }

  lemma Halves(n: nat)
    ensures n / 2 / 2 == n / 4 && n / 4 / 2 == n / 8 && n / 8 / 2 == n / 16
  {
  }

  lemma FlagsReadBack(f: Flags)
    ensures Bit(FlagByte(f), 1) == f.fin && Bit(FlagByte(f), 2) == f.syn && Bit(FlagByte(f), 4) == f.rst
    ensures Bit(FlagByte(f), 16) == f.ack
  {
    var n3 := Above(f.push, HighFlags(f));
    var n2 := Above(f.rst, n3);
    var n1 := Above(f.syn, n2);
    LowBit(f.fin, n1);
    LowBit(f.syn, n2);
    LowBit(f.rst, n3);
    LowBit(f.push, HighFlags(f));
    LowBit(f.ack, Above(f.urgent, Above(f.echo, BitOf(f.reduced, 1))));
    Halves(Above(f.fin, n1));
  }

  lemma TcpNumbersReadBack(s: nat, d: nat, n: nat, rest: seq<Byte>)
    requires s < 0x1_0000 && d < 0x1_0000 && n < 0x1_0000_0000
    ensures var data := U16(s) + U16(d) + U32(n) + rest;
            Be16(data, 0) == s && Be16(data, 2) == d && Be32(data, 4) == n
  {
    var data := U16(s) + U16(d) + U32(n) + rest;
    assert data == [] + U16(s) + (U16(d) + U32(n) + rest);
    ReadU16([], s, U16(d) + U32(n) + rest);
    assert data == U16(s) + U16(d) + (U32(n) + rest);
    ReadU16(U16(s), d, U32(n) + rest);
    ReadU32(U16(s) + U16(d), n, rest);
  }

  /** A TCP header after its numbers: offset and flags, and then the rest. */
  lemma TcpHeaderReadsBack(front: seq<Byte>, two: seq<Byte>, after: seq<Byte>, payload: seq<Byte>)
    requires |front| == 12 && |two| == 2
    ensures var data := front + two + after + payload;
            data[12] == two[0] && data[13] == two[1] && data[14 + |after|..] == payload
  {
  }

  /** Where the fields of a laid-out TCP segment are. */
  ghost predicate TcpAt(s: seq<Byte>, u: Upper)
    requires GoodUpper(u) && u.TcpPart?
  {
    |s| >= 20 + |u.options| && Be16(s, 0) == u.sourcePort && Be16(s, 2) == u.destinationPort &&
    Be32(s, 4) == u.seqNo && s[12] == (5 + |u.options| / 4) * 16 && s[13] == FlagByte(u.flags) &&
    s[20 + |u.options|..] == u.payload
  }

  lemma TcpIsLaidOut(u: Upper, middle: seq<Byte>, two: seq<Byte>, after: seq<Byte>)
    requires GoodUpper(u) && u.TcpPart? && middle == u.middle && after == u.tail + u.options
    requires two == [(5 + |u.options| / 4) * 16, FlagByte(u.flags)]
    ensures TcpAt(U16(u.sourcePort) + U16(u.destinationPort) + U32(u.seqNo) + middle + two + after + u.payload, u)
  {
    var numbers := U16(u.sourcePort) + U16(u.destinationPort) + U32(u.seqNo);
    var s := numbers + middle + two + after + u.payload;
    assert s == numbers + (middle + two + after + u.payload);
    TcpNumbersReadBack(u.sourcePort, u.destinationPort, u.seqNo, middle + two + after + u.payload);
    TcpHeaderReadsBack(numbers + middle, two, after, u.payload);
  }

  lemma TcpFieldsReadBack(u: Upper, s: seq<Byte>)
    requires GoodUpper(u) && u.TcpPart? && TcpAt(s, u)
    ensures && SegmentFits(TCP, s) && SourcePort(TCP, s) == u.sourcePort
            && DestinationPort(TCP, s) == u.destinationPort
            && SequenceNumber(TCP, s) == u.seqNo && Payload(TCP, s) == u.payload
            && Flag(TCP, s, 1) == u.flags.fin && Flag(TCP, s, 2) == u.flags.syn && Flag(TCP, s, 4) == u.flags.rst
            && Flag(TCP, s, 16) == u.flags.ack
  {
    FlagsReadBack(u.flags);
    assert TcpHeaderLength(s) == 20 + |u.options|;
  }

  lemma TcpReadsBack(u: Upper)
    requires GoodUpper(u) && u.TcpPart?
    ensures TcpAt(UpperBytes(u), u)
  {
    var two: seq<Byte> := [(5 + |u.options| / 4) * 16, FlagByte(u.flags)];
    var before := U16(u.sourcePort) + U16(u.destinationPort) + U32(u.seqNo) + u.middle + two;
    TcpIsLaidOut(u, u.middle, two, u.tail + u.options);
    assert before + u.tail + u.options + u.payload == before + (u.tail + u.options) + u.payload;
  }

  lemma UdpReadsBack(u: Upper)
    requires GoodUpper(u) && u.UdpPart?
    ensures var s := UpperBytes(u);
            && SegmentFits(UDP, s) && SourcePort(UDP, s) == u.sourcePort && DestinationPort(UDP, s) == u.destinationPort
            && Payload(UDP, s) == u.payload
  {
    var s := UpperBytes(u);
    var ports, size := U16(u.sourcePort) + U16(u.destinationPort), U16(8 + |u.payload|);
    var rest := size + u.checksum + u.payload + u.trailer;
    assert s == [] + U16(u.sourcePort) + (U16(u.destinationPort) + rest);
    ReadU16([], u.sourcePort, U16(u.destinationPort) + rest);
    assert s == U16(u.sourcePort) + U16(u.destinationPort) + rest;
    ReadU16(U16(u.sourcePort), u.destinationPort, rest);
    assert s == ports + size + (u.checksum + u.payload + u.trailer);
    ReadU16(ports, 8 + |u.payload|, u.checksum + u.payload + u.trailer);
    var header := ports + size + u.checksum;
    assert s == header + u.payload + u.trailer && |header| == 8;
    assert s[8..8 + |u.payload|] == u.payload;
  }

  /** The first twelve bytes of an IPv4 header. */
  function V4Front(l: Lower, protocol: Byte, size: nat): (s: seq<Byte>)
    requires GoodLower(l) && l.V4? && 20 + |l.options| + size < 0x1_0000
    ensures |s| == 12
  {
    [64 + 5 + |l.options| / 4, l.service] + U16(20 + |l.options| + size) + l.identification +
    U16(BitOf(l.dontFragment, 0x4000)) + [l.hops, protocol] + l.checksum
  }

  lemma V4FrontReadsBack(l: Lower, protocol: Byte, size: nat, after: seq<Byte>)
    requires GoodLower(l) && l.V4? && 20 + |l.options| + size < 0x1_0000
    ensures var data := V4Front(l, protocol, size) + after;
            && data[0] == 64 + 5 + |l.options| / 4 && data[9] == protocol && Be16(data, 2) == 20 + |l.options| + size
            && Be16(data, 6) == BitOf(l.dontFragment, 0x4000)
  {
    var data := V4Front(l, protocol, size) + after;
    var first: seq<Byte> := [64 + 5 + |l.options| / 4, l.service];
    var total, fragment := U16(20 + |l.options| + size), U16(BitOf(l.dontFragment, 0x4000));
    var rest := [l.hops, protocol] + l.checksum + after;
    assert data == first + total + (l.identification + fragment + rest);
    ReadU16(first, 20 + |l.options| + size, l.identification + fragment + rest);
    assert data == (first + total + l.identification) + fragment + rest;
    ReadU16(first + total + l.identification, BitOf(l.dontFragment, 0x4000), rest);
  }

  lemma V4ReadsBack(l: Lower, protocol: Byte, segment: seq<Byte>, padding: seq<Byte>)
    requires GoodLower(l) && l.V4? && 20 + |l.options| + |segment| < 0x1_0000
    ensures var data := LowerBytes(l, protocol, |segment|) + segment + padding;
            && IsV4(data) && NetworkAccepted(data) && Protocol(data) == protocol && Segment(data) == segment
            && Source(data) == l.source && Destination(data) == l.destination
  {
    var front, header := V4Front(l, protocol, |segment|), LowerBytes(l, protocol, |segment|);
    var data := header + segment + padding;
    var rest := l.options + segment + padding;
    assert data == front + (l.source + l.destination + rest);
    V4FrontReadsBack(l, protocol, |segment|, l.source + l.destination + rest);
    assert data == front + l.source + (l.destination + rest);
    assert data[12..16] == l.source;
    assert data == (front + l.source) + l.destination + rest;
    assert data[16..20] == l.destination;
    assert |header| == 20 + |l.options| && data[|header|..|header| + |segment|] == segment;
    assert HeaderLength(data) == |header| && End(data) == |header| + |segment|;
  }

  lemma V6ReadsBack(l: Lower, protocol: Byte, segment: seq<Byte>, padding: seq<Byte>)
    requires GoodLower(l) && l.V6? && |segment| < 0x1_0000 && !HidesTransport(protocol)
    ensures var data := LowerBytes(l, protocol, |segment|) + segment + padding;
            && IsV6(data) && !IsV4(data) && NetworkAccepted(data) && Protocol(data) == protocol
            && Segment(data) == segment && Source(data) == l.source && Destination(data) == l.destination
  {
    var header, tail := LowerBytes(l, protocol, |segment|), segment + padding;
    var data := header + segment + padding;
    var first: seq<Byte> := [96] + l.flowLabel;
    var next: seq<Byte> := [protocol, l.hops];
    assert data == first + U16(|segment|) + (next + l.source + l.destination + tail);
    ReadU16(first, |segment|, next + l.source + l.destination + tail);
    var before := first + U16(|segment|) + next;
    assert |before| == 8 && data == before + l.source + (l.destination + tail);
    assert data[8..24] == l.source;
    assert data == before + l.source + l.destination + tail;
    assert data[24..40] == l.destination;
    assert data[0] == 96 && data[6] == protocol;
    assert |header| == 40 && data[40..40 + |segment|] == segment;
  }

  /** The fields that a parsed packet reports of a datagram. */
  ghost predicate ReadsBack(l: Lower, u: Upper, p: Packet)
    requires Fits(l, u)
  {
    var tcp, ports := u.TcpPart?, !u.OtherPart?;
    var source := Endpoint(l.source, if ports then u.sourcePort else 0);
    var destination := Endpoint(l.destination, if ports then u.destinationPort else 0);
    && p.key == KeyOf(if l.V4? then 4 else 6, ProtocolOf(u), source, destination)
    && p.sourceIsA == (CompareEndpoint(source, destination) <= 0)
    && p.syn == (tcp && u.flags.syn) && p.ack == (tcp && u.flags.ack) && p.fin == (tcp && u.flags.fin)
    && p.rst == (tcp && u.flags.rst) && p.seqNo == (if tcp then u.seqNo else 0)
    && p.payloadLength == if ports then |u.payload| else 0
  }

  /** Every well-formed datagram that is no fragment and has no hidden transport header is accepted, and read back with
      its own addresses, ports, flags, sequence number and payload length, whatever options and padding it carries. */
  lemma DatagramReadsBack(l: Lower, u: Upper, padding: seq<Byte>, p: Packet)
    requires Fits(l, u)
    ensures Accepted(Bytes(l, u, padding))
    ensures Reports(Bytes(l, u, padding), p) ==> ReadsBack(l, u, p)
  {
    if l.V4? {
      V4ReadsBack(l, ProtocolOf(u), UpperBytes(u), padding);
    } else {
      V6ReadsBack(l, ProtocolOf(u), UpperBytes(u), padding);
    }
    if u.TcpPart? {
      TcpReadsBack(u);
      TcpFieldsReadBack(u, UpperBytes(u));
    } else if u.UdpPart? {
      UdpReadsBack(u);
    }
  }

  /** Fragments and hidden transport headers are refused. */
  lemma FragmentsAreRefused(data: seq<Byte>)
    ensures IsV4(data) && Be16(data, 6) !in {0, 0x4000, 0x8000, 0xC000} ==> !Accepted(data)
    ensures IsV6(data) && HidesTransport(data[6]) ==> !Accepted(data)
  {
  }
}
