/** The parts of a sampled packet header that the conversation tables look at. */
module Packets {
  import opened Samples

  const ETHERTYPE_IP: uint16 := 0x0800
  const ETHERTYPE_ARP: uint16 := 0x0806
  const ETHERTYPE_REVARP: uint16 := 0x8035
  const ETHERTYPE_VLAN: uint16 := 0x8100
  const ETHERTYPE_IPV6: uint16 := 0x86dd

  const PROTOCOL_TCP: uint8 := 6
  const PROTOCOL_UDP: uint8 := 17

  function Net16(h: RawHeader, i: nat): uint16
    requires i + 1 < RAW_HEADER_SIZE
  {
    var high: int := h[i];
    high * 0x100 + h[i + 1]
  }

  function Net32(h: RawHeader, i: nat): uint32
    requires i + 3 < RAW_HEADER_SIZE
  {
    var high: int := Net16(h, i);
    high * 0x1_0000 + Net16(h, i + 2)
  }

  function OuterType(h: RawHeader): uint16 {
    Net16(h, 12)
  }

  /** The Ethernet type of the frame, past at most one 802.1Q tag. */
  function InnerType(h: RawHeader): uint16 {
    if OuterType(h) == ETHERTYPE_VLAN then Net16(h, 16) else OuterType(h)
  }

  predicate IsIp(h: RawHeader) {
    InnerType(h) == ETHERTYPE_IP
  }

  /** The offset of the network header. */
  function StripEthernet(h: RawHeader): (p: nat)
    ensures p in {14, 18}
  {
    if OuterType(h) == ETHERTYPE_VLAN then 18 else 14
  }

  /** The offset of the transport header.  Whatever length the IP header claims, the ports
      and the TCP flags lie inside the stored header. */
  function StripIp(h: RawHeader): (p: nat)
    ensures p + 13 < RAW_HEADER_SIZE
  {
    StripEthernet(h) + 4 * (h[StripEthernet(h)] % 16)
  }

  function IpVersion(h: RawHeader): (v: nat)
    ensures v < 16
  {
    h[StripEthernet(h)] / 16
  }

  function IpProtocol(h: RawHeader): uint8 {
    h[StripEthernet(h) + 9]
  }

  predicate IsTcp(h: RawHeader) {
    IsIp(h) && IpProtocol(h) == PROTOCOL_TCP
  }

  predicate IsUdp(h: RawHeader) {
    IsIp(h) && IpProtocol(h) == PROTOCOL_UDP
  }

  function IpSource(h: RawHeader): uint32 {
    Net32(h, StripEthernet(h) + 12)
  }

  function IpDestination(h: RawHeader): uint32 {
    Net32(h, StripEthernet(h) + 16)
  }

  /** Flag bits of a TCP header, in the order in which the daemon counts them: URG, ACK,
      PSH, RST, SYN, FIN. */
  function TcpFlag(h: RawHeader, i: nat): nat
    requires i < 6
  {
    h[StripIp(h) + 13] / [32, 16, 8, 4, 2, 1][i] % 2
  }
}
