/**
 Conversations.  A flow sample belongs to one conversation at each layer it reaches; each
 conversation counts its samples.  This module defines the tables as maps and says, without
 mentioning tables, what every counter must hold.
 */
module Conversations {
  import opened Samples
  import opened Packets

  datatype Layer = Ethernet | Ip | Tcp | Udp

  datatype Key =
    | EthernetKey(inputIf: uint32, outputIf: uint32, macSrc: seq<uint8>, macDst: seq<uint8>)
    | IpKey(inputIf: uint32, outputIf: uint32, src: uint32, dst: uint32)
    | TcpKey(inputIf: uint32, outputIf: uint32, src: uint32, dst: uint32, srcPort: uint16, dstPort: uint16)
    | UdpKey(inputIf: uint32, outputIf: uint32, src: uint32, dst: uint32, srcPort: uint16, dstPort: uint16)

  /** The counters of a conversation, all 32 bits wide. */
  datatype Counter =
    | Frames | Bytes
    | TypeIp | TypeArp | TypeRarp | TypeVlan | TypeIpv6
    | Version(v: nat) | Protocol(p: nat)
    | Flag(f: nat)

  datatype Conv =
    | EthernetConv(frames: uint32, bytes: uint32, ip: uint32, arp: uint32, rarp: uint32, vlan: uint32, ipv6: uint32)
    | IpConv(frames: uint32, bytes: uint32, version: seq<uint32>, protocol: seq<uint32>)
    | TcpConv(frames: uint32, bytes: uint32, flags: seq<uint32>)
    | UdpConv(frames: uint32, bytes: uint32)

  function KeyEthernet(s: FlowSample): Key {
    EthernetKey(s.inputIfValue, s.outputIfValue, s.rawHeader[6..12], s.rawHeader[0..6])
  }

  function KeyIp(s: FlowSample): Key {
    IpKey(s.inputIfValue, s.outputIfValue, IpSource(s.rawHeader), IpDestination(s.rawHeader))
  }

  function KeyTcp(s: FlowSample): Key {
    TcpKey(s.inputIfValue, s.outputIfValue, IpSource(s.rawHeader), IpDestination(s.rawHeader),
           Net16(s.rawHeader, StripIp(s.rawHeader)), Net16(s.rawHeader, StripIp(s.rawHeader) + 2))
  }

  function KeyUdp(s: FlowSample): Key {
    UdpKey(s.inputIfValue, s.outputIfValue, IpSource(s.rawHeader), IpDestination(s.rawHeader),
           Net16(s.rawHeader, StripIp(s.rawHeader)), Net16(s.rawHeader, StripIp(s.rawHeader) + 2))
  }

  /** The conversation of a sample at a layer, if it reaches that layer. */
  function KeyAt(layer: Layer, s: FlowSample): Option<Key> {
    match layer
    case Ethernet => Some(KeyEthernet(s))
    case Ip => if IsIp(s.rawHeader) then Some(KeyIp(s)) else None
    case Tcp => if IsTcp(s.rawHeader) then Some(KeyTcp(s)) else None
    case Udp => if IsUdp(s.rawHeader) then Some(KeyUdp(s)) else None
  }

  // ----- the tables as maps -----

  function Zero(layer: Layer): Conv {
    match layer
    case Ethernet => EthernetConv(0, 0, 0, 0, 0, 0, 0)
    case Ip => IpConv(0, 0, seq(16, _ => 0), seq(256, _ => 0))
    case Tcp => TcpConv(0, 0, seq(6, _ => 0))
    case Udp => UdpConv(0, 0)
  }

  predicate Fits(layer: Layer, c: Conv) {
    match layer
    case Ethernet => c.EthernetConv?
    case Ip => c.IpConv? && |c.version| == 16 && |c.protocol| == 256
    case Tcp => c.TcpConv? && |c.flags| == 6
    case Udp => c.UdpConv?
  }

  function Plus(x: uint32, n: nat): uint32 {
    (x + n) % TWO_32
  }

  function UpdateEthernet(c: Conv, s: FlowSample): Conv
    requires Fits(Ethernet, c)
  {
    var frames, bytes := Plus(c.frames, 1), Plus(c.bytes, s.rawHeaderFrameLength);
    var vlan := if OuterType(s.rawHeader) == ETHERTYPE_VLAN then Plus(c.vlan, 1) else c.vlan;
    var ethertype := InnerType(s.rawHeader);
    if ethertype == ETHERTYPE_IP then EthernetConv(frames, bytes, Plus(c.ip, 1), c.arp, c.rarp, vlan, c.ipv6)
    else if ethertype == ETHERTYPE_ARP then EthernetConv(frames, bytes, c.ip, Plus(c.arp, 1), c.rarp, vlan, c.ipv6)
    else if ethertype == ETHERTYPE_REVARP then EthernetConv(frames, bytes, c.ip, c.arp, Plus(c.rarp, 1), vlan, c.ipv6)
    else if ethertype == ETHERTYPE_IPV6 then EthernetConv(frames, bytes, c.ip, c.arp, c.rarp, vlan, Plus(c.ipv6, 1))
    else EthernetConv(frames, bytes, c.ip, c.arp, c.rarp, vlan, c.ipv6)
  }

  function UpdateIp(c: Conv, s: FlowSample): Conv
    requires Fits(Ip, c)
  {
    var v, p := IpVersion(s.rawHeader), IpProtocol(s.rawHeader);
    IpConv(Plus(c.frames, 1), Plus(c.bytes, s.rawHeaderFrameLength),
           c.version[v := Plus(c.version[v], 1)], c.protocol[p := Plus(c.protocol[p], 1)])
  }

  function UpdateTcp(c: Conv, s: FlowSample): Conv
    requires Fits(Tcp, c)
  {
    TcpConv(Plus(c.frames, 1), Plus(c.bytes, s.rawHeaderFrameLength),
            seq(6, i requires 0 <= i < 6 => Plus(c.flags[i], TcpFlag(s.rawHeader, i))))
  }

  function UpdateUdp(c: Conv, s: FlowSample): Conv
    requires Fits(Udp, c)
  {
    UdpConv(Plus(c.frames, 1), Plus(c.bytes, s.rawHeaderFrameLength))
  }

  function Update(layer: Layer, c: Conv, s: FlowSample): (c': Conv)
    requires Fits(layer, c)
    ensures Fits(layer, c')
  {
    match layer
    case Ethernet => UpdateEthernet(c, s)
    case Ip => UpdateIp(c, s)
    case Tcp => UpdateTcp(c, s)
    case Udp => UpdateUdp(c, s)
  }

  predicate TableOk(layer: Layer, t: map<Key, Conv>) {
    forall k <- t :: Fits(layer, t[k])
  }

  function AddTo(layer: Layer, t: map<Key, Conv>, k: Key, s: FlowSample): map<Key, Conv>
    requires TableOk(layer, t)
  {
    t[k := Update(layer, if k in t then t[k] else Zero(layer), s)]
  }

  function Add(layer: Layer, t: map<Key, Conv>, s: FlowSample): (t': map<Key, Conv>)
    requires TableOk(layer, t)
    ensures TableOk(layer, t')
  {
    match KeyAt(layer, s)
    case None => t
    case Some(k) => AddTo(layer, t, k, s)
  }

  /** The table of one layer after a sequence of samples. */
  function Table(layer: Layer, xs: seq<FlowSample>): (t: map<Key, Conv>)
    ensures TableOk(layer, t)
  {
    if xs == [] then map[] else Add(layer, Table(layer, xs[..|xs| - 1]), xs[|xs| - 1])
  }

  // ----- what the counters mean -----

  /** The counters that a conversation of a layer has. */
  predicate CountsAt(layer: Layer, c: Counter) {
    match c
    case Frames | Bytes => true
    case TypeIp | TypeArp | TypeRarp | TypeVlan | TypeIpv6 => layer == Ethernet
    case Version(v) => layer == Ip && v < 16
    case Protocol(p) => layer == Ip && p < 256
    case Flag(f) => layer == Tcp && f < 6
  }

  function Read(layer: Layer, conv: Conv, c: Counter): uint32
    requires Fits(layer, conv) && CountsAt(layer, c)
  {
    match c
    case Frames => conv.frames
    case Bytes => conv.bytes
    case TypeIp => conv.ip
    case TypeArp => conv.arp
    case TypeRarp => conv.rarp
    case TypeVlan => conv.vlan
    case TypeIpv6 => conv.ipv6
    case Version(v) => conv.version[v]
    case Protocol(p) => conv.protocol[p]
    case Flag(f) => conv.flags[f]
  }

  function One(b: bool): (n: nat)
    ensures n < 2
  {
    if b then 1 else 0
  }

  /** What one sample contributes to a counter of its conversation. */
  function Share(s: FlowSample, c: Counter): nat {
    match c
    case Frames => 1
    case Bytes => s.rawHeaderFrameLength
    case TypeIp => One(InnerType(s.rawHeader) == ETHERTYPE_IP)
    case TypeArp => One(InnerType(s.rawHeader) == ETHERTYPE_ARP)
    case TypeRarp => One(InnerType(s.rawHeader) == ETHERTYPE_REVARP)
    case TypeVlan => One(OuterType(s.rawHeader) == ETHERTYPE_VLAN)
    case TypeIpv6 => One(InnerType(s.rawHeader) == ETHERTYPE_IPV6)
    case Version(v) => One(IpVersion(s.rawHeader) == v)
    case Protocol(p) => One(IpProtocol(s.rawHeader) == p)
    case Flag(f) => if f < 6 then TcpFlag(s.rawHeader, f) else 0
  }

  function ShareOf(layer: Layer, s: FlowSample, p: Key -> bool, c: Counter): nat {
    if KeyAt(layer, s).Some? && p(KeyAt(layer, s).value) then Share(s, c) else 0
  }

  /** The sum of the shares of the samples whose conversation satisfies `p`. */
  function Total(layer: Layer, xs: seq<FlowSample>, p: Key -> bool, c: Counter): nat {
    if xs == [] then 0
    else
      var s := xs[|xs| - 1];
      Total(layer, xs[..|xs| - 1], p, c) + ShareOf(layer, s, p, c)
  }

  function Is(k: Key): Key -> bool {
    (j: Key) => j == k
  }

  lemma UpdateAddsShare(layer: Layer, conv: Conv, s: FlowSample, c: Counter)
    requires Fits(layer, conv) && CountsAt(layer, c)
    ensures Read(layer, Update(layer, conv, s), c) == (Read(layer, conv, c) + Share(s, c)) % TWO_32
  {
  }

  /** A table has exactly one conversation per key that occurs. */
  lemma {:induction false} TableKeys(layer: Layer, xs: seq<FlowSample>, k: Key)
    ensures k in Table(layer, xs) <==> exists x <- xs :: KeyAt(layer, x) == Some(k)
  {
    if xs != [] {
      hide KeyAt;
      hide Update;
      var front, s := xs[..|xs| - 1], xs[|xs| - 1];
      TableKeys(layer, front, k);
      assert xs == front + [s];
    }
  }

  /** The value of a counter of a conversation; a conversation that is not in the table
      has counted nothing. */
  function ValueAt(layer: Layer, t: map<Key, Conv>, k: Key, c: Counter): uint32
    requires TableOk(layer, t) && CountsAt(layer, c)
  {
    if k in t then Read(layer, t[k], c) else 0
  }

  lemma AddAddsShare(layer: Layer, t: map<Key, Conv>, s: FlowSample, k: Key, c: Counter)
    requires TableOk(layer, t) && CountsAt(layer, c)
    ensures ValueAt(layer, Add(layer, t, s), k, c) == (ValueAt(layer, t, k, c) + ShareOf(layer, s, Is(k), c)) % TWO_32
  {
    hide Update;
    hide ShareOf;
    hide KeyAt;
    hide Read;
    hide Zero;
    ZeroReads(layer, c);
    ShareOfIs(layer, s, k, c);
    Small(ValueAt(layer, t, k, c));
    UpdateAddsShare(layer, if k in t then t[k] else Zero(layer), s, c);
  }

  lemma ShareOfIs(layer: Layer, s: FlowSample, k: Key, c: Counter)
    ensures ShareOf(layer, s, Is(k), c) == if KeyAt(layer, s) == Some(k) then Share(s, c) else 0
  {
  }

  lemma ZeroReads(layer: Layer, c: Counter)
    requires CountsAt(layer, c)
    ensures Fits(layer, Zero(layer)) && Read(layer, Zero(layer), c) == 0
  {
  }

  lemma Small(a: uint32)
    ensures a % TWO_32 == a
  {
  }

  lemma SumMod(a: nat, b: nat)
    ensures (a % TWO_32 + b) % TWO_32 == (a + b) % TWO_32
  {
  }

  /** Every counter of every conversation is the sum of the shares of its samples, mod 2^32. */
  lemma {:induction false} TableCounts(layer: Layer, xs: seq<FlowSample>, k: Key, c: Counter)
    requires CountsAt(layer, c)
    ensures ValueAt(layer, Table(layer, xs), k, c) == Total(layer, xs, Is(k), c) % TWO_32
  {
    if xs != [] {
      hide ValueAt;
      hide ShareOf;
      hide Add;
      SumMod(Total(layer, xs[..|xs| - 1], Is(k), c), ShareOf(layer, xs[|xs| - 1], Is(k), c));
      TableCounts(layer, xs[..|xs| - 1], k, c);
      AddAddsShare(layer, Table(layer, xs[..|xs| - 1]), xs[|xs| - 1], k, c);
    }
  }

  // ----- order does not matter -----

  lemma {:induction false} TotalConcat(layer: Layer, xs: seq<FlowSample>, ys: seq<FlowSample>, p: Key -> bool,
                                       c: Counter)
    ensures Total(layer, xs + ys, p, c) == Total(layer, xs, p, c) + Total(layer, ys, p, c)
  {
    if ys == [] {
      assert xs + ys == xs;
    } else {
      assert (xs + ys)[..|xs + ys| - 1] == xs + ys[..|ys| - 1];
      TotalConcat(layer, xs, ys[..|ys| - 1], p, c);
    }
  }

  lemma RemovedFromBoth(xs: seq<FlowSample>, s: FlowSample, ys: seq<FlowSample>) returns (before: seq<FlowSample>,
                        after: seq<FlowSample>)
    requires multiset(xs + [s]) == multiset(ys)
    ensures ys == before + [s] + after && multiset(xs) == multiset(before + after)
  {
    assert s in multiset(xs + [s]);
    var j :| 0 <= j < |ys| && ys[j] == s;
    before, after := ys[..j], ys[j + 1..];
    assert ys == before + [s] + after;
    assert multiset(before + after) == multiset(ys) - multiset{s};
    assert multiset(xs) == multiset(xs + [s]) - multiset{s};
  }

  lemma {:induction false} TotalPermuted(layer: Layer, xs: seq<FlowSample>, ys: seq<FlowSample>, p: Key -> bool,
                                         c: Counter)
    requires multiset(xs) == multiset(ys)
    ensures Total(layer, xs, p, c) == Total(layer, ys, p, c)
  {
    if xs == [] {
      assert |ys| == |multiset(ys)| == 0;
    } else {
      hide ShareOf;
      var front, s := xs[..|xs| - 1], xs[|xs| - 1];
      assert xs == front + [s];
      var before, after := RemovedFromBoth(front, s, ys);
      TotalPermuted(layer, front, before + after, p, c);
      TotalConcat(layer, before, after, p, c);
      TotalConcat(layer, before + [s], after, p, c);
      TotalConcat(layer, before, [s], p, c);
      TotalConcat(layer, front, [s], p, c);
    }
  }

  /** A conversation is determined by its counters. */
  lemma SameCounters(layer: Layer, a: Conv, b: Conv)
    requires Fits(layer, a) && Fits(layer, b)
    requires forall c :: CountsAt(layer, c) ==> Read(layer, a, c) == Read(layer, b, c)
    ensures a == b
  {
    assert Read(layer, a, Frames) == Read(layer, b, Frames);
    assert Read(layer, a, Bytes) == Read(layer, b, Bytes);
    match layer
    case Ethernet =>
      assert Read(layer, a, TypeIp) == Read(layer, b, TypeIp);
      assert Read(layer, a, TypeArp) == Read(layer, b, TypeArp);
      assert Read(layer, a, TypeRarp) == Read(layer, b, TypeRarp);
      assert Read(layer, a, TypeVlan) == Read(layer, b, TypeVlan);
      assert Read(layer, a, TypeIpv6) == Read(layer, b, TypeIpv6);
    case Ip =>
      forall v | 0 <= v < 16 ensures a.version[v] == b.version[v] {
        assert Read(layer, a, Version(v)) == Read(layer, b, Version(v));
      }
      forall p | 0 <= p < 256 ensures a.protocol[p] == b.protocol[p] {
        assert Read(layer, a, Protocol(p)) == Read(layer, b, Protocol(p));
      }
      assert a.version == b.version && a.protocol == b.protocol;
    case Tcp =>
      forall f | 0 <= f < 6 ensures a.flags[f] == b.flags[f] {
        assert Read(layer, a, Flag(f)) == Read(layer, b, Flag(f));
      }
      assert a.flags == b.flags;
    case Udp =>
  }

  /** Permuting the samples leaves every table unchanged. */
  lemma TablesPermuted(layer: Layer, xs: seq<FlowSample>, ys: seq<FlowSample>)
    requires multiset(xs) == multiset(ys)
    ensures Table(layer, xs) == Table(layer, ys)
  {
    var s, t := Table(layer, xs), Table(layer, ys);
    assert forall x :: x in xs <==> x in multiset(xs);
    assert forall x :: x in ys <==> x in multiset(ys);
    forall k ensures k in s <==> k in t {
      TableKeys(layer, xs, k);
      TableKeys(layer, ys, k);
    }
    forall k | k in s ensures s[k] == t[k] {
      forall c | CountsAt(layer, c) ensures Read(layer, s[k], c) == Read(layer, t[k], c) {
        assert ValueAt(layer, s, k, c) == Read(layer, s[k], c) && ValueAt(layer, t, k, c) == Read(layer, t[k], c);
        TableCounts(layer, xs, k, c);
        TableCounts(layer, ys, k, c);
        TotalPermuted(layer, xs, ys, Is(k), c);
      }
      SameCounters(layer, s[k], t[k]);
    }
  }
}
