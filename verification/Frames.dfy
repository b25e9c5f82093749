/**
 Frames as they stand on a cable, built from their fields part by part, and what the tables see
 of a sample that captured one: its fields, each in the right place.
 */
module Frames {
  import opened Samples
  import opened Packets
  import opened Conversations

  type Mac = m: seq<uint8> | |m| == 6 witness [0, 0, 0, 0, 0, 0]

  /** The Ethernet header (IEEE 802.3), with at most one 802.1Q tag. */
  datatype Link = Link(destination: Mac, source: Mac, tag: Option<uint16>, etherType: uint16)

  /** The fields of an IPv4 header (RFC 791, section 3.1); `lengths` and `check` are the bytes that
      the tables do not look at. */
  datatype Ipv4 = Ipv4(
    version: nat, headerWords: nat, lengths: seq<uint8>, protocol: uint8, check: seq<uint8>,
    source: uint32, destination: uint32, options: seq<uint8>)

  /** The ports, and the flags of a TCP header (RFC 793, section 3.1). */
  datatype Transport = Transport(
    sourcePort: uint16, destinationPort: uint16, numbers: seq<uint8>, reserved: nat,
    urg: bool, ack: bool, psh: bool, rst: bool, syn: bool, fin: bool)

  predicate LinkOk(l: Link) {
    l.tag == None ==> l.etherType != 0x8100
  }

  predicate Ipv4Ok(ip: Ipv4) {
    && ip.version < 16 && 5 <= ip.headerWords < 16
    && |ip.lengths| == 8 && |ip.check| == 2 && |ip.options| == 4 * (ip.headerWords - 5)
  }

  predicate TransportOk(t: Transport) {
    |t.numbers| == 9 && t.reserved < 4
  }

  function Two(x: uint16): seq<uint8> {
    [x / 0x100, x % 0x100]
  }

  function Four(x: uint32): seq<uint8> {
    [x / 0x100_0000, x / 0x1_0000 % 0x100, x / 0x100 % 0x100, x % 0x100]
  }

  function LinkBytes(l: Link): (bs: seq<uint8>)
    ensures |bs| == if l.tag == None then 14 else 18
  {
    l.destination + l.source +
    (if l.tag.Some? then [0x81, 0x00] + Two(l.tag.value) else []) + Two(l.etherType)
  }

  /** The twenty bytes before the options. */
  function Ipv4Bytes(ip: Ipv4): (bs: seq<uint8>)
    requires Ipv4Ok(ip)
    ensures |bs| == 20
  {
    [16 * ip.version + ip.headerWords] + ip.lengths + [ip.protocol] + ip.check + Four(ip.source) + Four(ip.destination)
  }

  type Digit = d: nat | d < 2

  /** Two reserved bits, then six flags. */
  function FlagByte(high: nat, u: Digit, a: Digit, p: Digit, r: Digit, s: Digit, f: Digit): uint8
    requires high < 4
  {
    64 * high + 32 * u + 16 * a + 8 * p + 4 * r + 2 * s + f
  }

  function Flags(t: Transport): uint8
    requires TransportOk(t)
  {
    FlagByte(t.reserved, One(t.urg), One(t.ack), One(t.psh), One(t.rst), One(t.syn), One(t.fin))
  }

  function TransportBytes(t: Transport): (bs: seq<uint8>)
    requires TransportOk(t)
    ensures |bs| == 14
  {
    Two(t.sourcePort) + Two(t.destinationPort) + t.numbers + [Flags(t)]
  }

  /** The captured header starts with these bytes, whatever follows. */
  predicate Starts(h: RawHeader, bs: seq<uint8>) {
    bs <= h
  }

  lemma TwoReadsBack(h: RawHeader, i: nat, x: uint16)
    requires i + 1 < 128 && h[i] == x / 0x100 && h[i + 1] == x % 0x100
    ensures Net16(h, i) == x
  {
  }

  lemma FourReadsBack(h: RawHeader, i: nat, x: uint32)
    requires i + 3 < 128 && h[i..i + 4] == Four(x)
    ensures Net32(h, i) == x
  {
    var f, b := Four(x), h[i..i + 4];
    assert h[i] == b[0] == f[0] && h[i + 1] == b[1] == f[1] && h[i + 2] == b[2] == f[2] && h[i + 3] == b[3] == f[3];
    assert x / 0x1_0000 == (f[0] as int) * 0x100 + f[1] && x % 0x1_0000 == (f[2] as int) * 0x100 + f[3];
  }

  // ----- the Ethernet header -----

  lemma LinkFields(h: RawHeader, l: Link)
    requires LinkOk(l) && Starts(h, LinkBytes(l))
    ensures h[6..12] == l.source && h[0..6] == l.destination
    ensures OuterType(h) == (if l.tag.Some? then 0x8100 else l.etherType) && InnerType(h) == l.etherType
    ensures StripEthernet(h) == |LinkBytes(l)|
  {
    var bs := LinkBytes(l);
    assert forall i :: 0 <= i < |bs| ==> h[i] == bs[i];
    assert bs[0..6] == l.destination && bs[6..12] == l.source;
    if l.tag.Some? {
      assert bs[12] == 0x81 && bs[13] == 0 && bs[16] == Two(l.etherType)[0] && bs[17] == Two(l.etherType)[1];
      TwoReadsBack(h, 12, 0x8100);
      TwoReadsBack(h, 16, l.etherType);
    } else {
      assert bs[12] == Two(l.etherType)[0] && bs[13] == Two(l.etherType)[1];
      TwoReadsBack(h, 12, l.etherType);
    }
  }

  /** What the Ethernet table sees of any frame, tagged or not. */
  lemma EthernetSeen(s: FlowSample, l: Link)
    requires LinkOk(l) && Starts(s.rawHeader, LinkBytes(l))
    ensures KeyAt(Ethernet, s) == Some(EthernetKey(s.inputIfValue, s.outputIfValue, l.source, l.destination))
    ensures Share(s, TypeVlan) == One(l.tag.Some?)
    ensures Share(s, TypeIp) == One(l.etherType == 0x0800) && Share(s, TypeArp) == One(l.etherType == 0x0806)
    ensures Share(s, TypeRarp) == One(l.etherType == 0x8035) && Share(s, TypeIpv6) == One(l.etherType == 0x86dd)
    ensures Share(s, Frames) == 1 && Share(s, Bytes) == s.rawHeaderFrameLength
    ensures KeyAt(Ip, s).Some? <==> l.etherType == 0x0800
  {
    LinkFields(s.rawHeader, l);
  }

  // ----- the IP header -----

  lemma StartsAt(h: RawHeader, before: seq<uint8>, part: seq<uint8>, k: nat)
    requires Starts(h, before + part) && k < |part|
    ensures |before| + k < 128 && h[|before| + k] == part[k]
  {
    assert (before + part)[|before| + k] == part[k];
  }

  lemma StartsParts(h: RawHeader, before: seq<uint8>, part: seq<uint8>)
    requires Starts(h, before + part)
    ensures Starts(h, before) && |before| + |part| <= 128 && h[|before|..|before| + |part|] == part
  {
    assert (before + part)[|before|..] == part;
    assert before <= before + part;
  }

  lemma Ipv4Fields(h: RawHeader, l: Link, ip: Ipv4)
    requires LinkOk(l) && Ipv4Ok(ip) && Starts(h, LinkBytes(l) + Ipv4Bytes(ip))
    ensures IpVersion(h) == ip.version && StripIp(h) == |LinkBytes(l)| + 4 * ip.headerWords
    ensures IpProtocol(h) == ip.protocol
    ensures IpSource(h) == ip.source && IpDestination(h) == ip.destination
  {
    hide LinkBytes, Net32, OuterType;
    var p, bs := |LinkBytes(l)|, Ipv4Bytes(ip);
    StartsParts(h, LinkBytes(l), bs);
    LinkFields(h, l);
    StartsAt(h, LinkBytes(l), bs, 0);
    StartsAt(h, LinkBytes(l), bs, 9);
    assert bs[0] == 16 * ip.version + ip.headerWords && bs[9] == ip.protocol;
    assert bs[12..16] == Four(ip.source) && bs[16..20] == Four(ip.destination);
    assert h[p + 12..p + 16] == h[p..p + 20][12..16] && h[p + 16..p + 20] == h[p..p + 20][16..20];
    FourReadsBack(h, p + 12, ip.source);
    FourReadsBack(h, p + 16, ip.destination);
  }

  /** What the IP table sees of an IPv4 packet, and which transport table the packet reaches. */
  lemma Ipv4Seen(s: FlowSample, l: Link, ip: Ipv4)
    requires LinkOk(l) && l.etherType == 0x0800 && Ipv4Ok(ip)
    requires Starts(s.rawHeader, LinkBytes(l) + Ipv4Bytes(ip))
    ensures KeyAt(Ip, s) == Some(IpKey(s.inputIfValue, s.outputIfValue, ip.source, ip.destination))
    ensures KeyAt(Tcp, s).Some? <==> ip.protocol == 6
    ensures KeyAt(Udp, s).Some? <==> ip.protocol == 17
    ensures forall v :: Share(s, Version(v)) == One(v == ip.version)
    ensures forall n :: Share(s, Protocol(n)) == One(n == ip.protocol)
  {
    hide LinkBytes, Ipv4Bytes, OuterType, StripEthernet, IpVersion, IpProtocol, IpSource, IpDestination;
    StartsParts(s.rawHeader, LinkBytes(l), Ipv4Bytes(ip));
    LinkFields(s.rawHeader, l);
    Ipv4Fields(s.rawHeader, l, ip);
  }

  // ----- the transport header -----

  function FrameBytes(l: Link, ip: Ipv4, t: Transport): seq<uint8>
    requires Ipv4Ok(ip) && TransportOk(t)
  {
    LinkBytes(l) + Ipv4Bytes(ip) + ip.options + TransportBytes(t)
  }

  lemma BitOf32(high: nat, b: Digit, low: nat)
    requires low < 32
    ensures (64 * high + 32 * b + low) / 32 % 2 == b
  {
    assert (64 * high + 32 * b + low) / 32 == 2 * high + b;
  }

  lemma BitOf16(high: nat, b: Digit, low: nat)
    requires low < 16
    ensures (32 * high + 16 * b + low) / 16 % 2 == b
  {
    assert (32 * high + 16 * b + low) / 16 == 2 * high + b;
  }

  lemma BitOf8(high: nat, b: Digit, low: nat)
    requires low < 8
    ensures (16 * high + 8 * b + low) / 8 % 2 == b
  {
    assert (16 * high + 8 * b + low) / 8 == 2 * high + b;
  }

  lemma BitOf4(high: nat, b: Digit, low: nat)
    requires low < 4
    ensures (8 * high + 4 * b + low) / 4 % 2 == b
  {
    assert (8 * high + 4 * b + low) / 4 == 2 * high + b;
  }

  lemma BitOf2(high: nat, b: Digit, low: nat)
    requires low < 2
    ensures (4 * high + 2 * b + low) / 2 % 2 == b
  {
    assert (4 * high + 2 * b + low) / 2 == 2 * high + b;
  }

  lemma HighFlags(high: nat, u: Digit, a: Digit, p: Digit, r: Digit, s: Digit, f: Digit)
    requires high < 4
    ensures var b: int := FlagByte(high, u, a, p, r, s, f);
            b / 32 % 2 == u && b / 16 % 2 == a && b / 8 % 2 == p
  {
    BitOf32(high, u, 16 * a + 8 * p + 4 * r + 2 * s + f);
    BitOf16(2 * high + u, a, 8 * p + 4 * r + 2 * s + f);
    BitOf8(4 * high + 2 * u + a, p, 4 * r + 2 * s + f);
  }

  lemma LowFlags(high: nat, u: Digit, a: Digit, p: Digit, r: Digit, s: Digit, f: Digit)
    requires high < 4
    ensures var b: int := FlagByte(high, u, a, p, r, s, f);
            b / 4 % 2 == r && b / 2 % 2 == s && b % 2 == f
  {
    BitOf4(8 * high + 4 * u + 2 * a + p, r, 2 * s + f);
    BitOf2(16 * high + 8 * u + 4 * a + 2 * p + r, s, f);
  }

  lemma TransportFields(h: RawHeader, l: Link, ip: Ipv4, t: Transport)
    requires LinkOk(l) && Ipv4Ok(ip) && TransportOk(t) && Starts(h, FrameBytes(l, ip, t))
    ensures Starts(h, LinkBytes(l) + Ipv4Bytes(ip))
    ensures Net16(h, StripIp(h)) == t.sourcePort && Net16(h, StripIp(h) + 2) == t.destinationPort
    ensures h[StripIp(h) + 13] == Flags(t)
  {
    hide LinkBytes, Ipv4Bytes, Net16, StripIp, Flags;
    var before, bs := LinkBytes(l) + Ipv4Bytes(ip) + ip.options, TransportBytes(t);
    StartsParts(h, before, bs);
    StartsParts(h, LinkBytes(l) + Ipv4Bytes(ip), ip.options);
    Ipv4Fields(h, l, ip);
    assert |before| == StripIp(h);
    StartsAt(h, before, bs, 0);
    StartsAt(h, before, bs, 1);
    StartsAt(h, before, bs, 2);
    StartsAt(h, before, bs, 3);
    StartsAt(h, before, bs, 13);
    TwoReadsBack(h, |before|, t.sourcePort);
    TwoReadsBack(h, |before| + 2, t.destinationPort);
  }

  /** What the transport tables see of a packet: the ports in the key, and the flags in the order
      in which the daemon counts them. */
  lemma TransportSeen(s: FlowSample, l: Link, ip: Ipv4, t: Transport)
    requires LinkOk(l) && l.etherType == 0x0800 && Ipv4Ok(ip) && TransportOk(t)
    requires Starts(s.rawHeader, FrameBytes(l, ip, t))
    ensures KeyAt(Tcp, s) ==
            if ip.protocol != 6 then None
            else Some(TcpKey(s.inputIfValue, s.outputIfValue, ip.source, ip.destination,
                             t.sourcePort, t.destinationPort))
    ensures KeyAt(Udp, s) ==
            if ip.protocol != 17 then None
            else Some(UdpKey(s.inputIfValue, s.outputIfValue, ip.source, ip.destination,
                             t.sourcePort, t.destinationPort))
    ensures Share(s, Flag(0)) == One(t.urg) && Share(s, Flag(1)) == One(t.ack) && Share(s, Flag(2)) == One(t.psh)
    ensures Share(s, Flag(3)) == One(t.rst) && Share(s, Flag(4)) == One(t.syn) && Share(s, Flag(5)) == One(t.fin)
  {
    hide FrameBytes, LinkBytes, Ipv4Bytes, StripIp, StripEthernet, Net16, FlagByte, One;
    hide IsIp, IpProtocol, IpSource, IpDestination;
    TransportFields(s.rawHeader, l, ip, t);
    Ipv4Fields(s.rawHeader, l, ip);
    Ipv4Seen(s, l, ip);
    HighFlags(t.reserved, One(t.urg), One(t.ack), One(t.psh), One(t.rst), One(t.syn), One(t.fin));
    LowFlags(t.reserved, One(t.urg), One(t.ack), One(t.psh), One(t.rst), One(t.syn), One(t.fin));
  }
}
