/** The sample records that the collecting daemon stores and the processing daemon reads. */
module Samples {

  const TWO_32: int := 0x1_0000_0000
  const TWO_64: int := 0x1_0000_0000_0000_0000

  type uint8 = x: int | 0 <= x < 0x100
  type uint16 = x: int | 0 <= x < 0x1_0000
  type uint32 = x: int | 0 <= x < 0x1_0000_0000
  type uint64 = x: int | 0 <= x < 0x1_0000_0000_0000_0000

  const RAW_HEADER_SIZE: nat := 128

  type RawHeader = h: seq<uint8> | |h| == 128 witness seq(128, _ => 0)

  datatype Option<+T> = None | Some(value: T)

  datatype FlowSample = FlowSample(
    timestamp: nat, agentAddress: uint32, subAgentId: uint32,
    sequenceNumber: uint32, sourceIdType: uint32, sourceIdIndex: uint32,
    samplingRate: uint32, samplePool: uint32, drops: uint32,
    inputIfFormat: uint32, inputIfValue: uint32, outputIfFormat: uint32, outputIfValue: uint32,
    rawHeaderProtocol: uint32, rawHeaderFrameLength: uint32, rawHeaderStripped: uint32,
    rawHeaderLength: uint32, rawHeader: RawHeader)

  datatype GenericCounters = GenericCounters(
    ifIndex: uint32, ifType: uint32, ifSpeed: uint64, ifDirection: uint32, ifStatus: uint32,
    inOctets: uint64, inUcast: uint32, inMcast: uint32, inBcast: uint32,
    inDiscards: uint32, inErrors: uint32, inUnknownProto: uint32,
    outOctets: uint64, outUcast: uint32, outMcast: uint32, outBcast: uint32,
    outDiscards: uint32, outErrors: uint32, promisc: uint32)

  datatype EthernetCounters = EthernetCounters(
    alignmentErrors: uint32, fcsErrors: uint32, singleCollisionFrames: uint32,
    multipleCollisionFrames: uint32, sqeTestErrors: uint32, deferredTransmissions: uint32,
    lateCollisions: uint32, excessiveCollisions: uint32, internalMacTransmitErrors: uint32,
    carrierSenseErrors: uint32, frameTooLongs: uint32, internalMacReceiveErrors: uint32,
    symbolErrors: uint32)

  datatype CntrSample = CntrSample(
    timestamp: nat, agentAddress: uint32, subAgentId: uint32,
    sequenceNumber: uint32, sourceIdType: uint32, sourceIdIndex: uint32,
    generic: GenericCounters, ethernet: EthernetCounters)

  datatype Kind = FlowKind | CntrKind

  datatype Sample = Flow(flow: FlowSample) | Cntr(cntr: CntrSample)
  {
    function Kind(): Kind {
      if Flow? then FlowKind else CntrKind
    }

    function Agent(): uint32 {
      if Flow? then flow.agentAddress else cntr.agentAddress
    }

    function Time(): nat {
      if Flow? then flow.timestamp else cntr.timestamp
    }
  }

  /** The samples of one kind, in order. */
  function OfKind(xs: seq<Sample>, k: Kind): seq<Sample> {
    if xs == [] then []
    else OfKind(xs[..|xs| - 1], k) + if xs[|xs| - 1].Kind() == k then [xs[|xs| - 1]] else []
  }

  /** The samples of one kind from one agent, in order. */
  function From(xs: seq<Sample>, a: uint32, k: Kind): seq<Sample> {
    if xs == [] then []
    else
      var x := xs[|xs| - 1];
      From(xs[..|xs| - 1], a, k) + if x.Agent() == a && x.Kind() == k then [x] else []
  }

  lemma {:induction false} FromOfKind(xs: seq<Sample>, a: uint32, k: Kind)
    ensures From(OfKind(xs, k), a, k) == From(xs, a, k)
  {
    if xs != [] {
      var front, x := xs[..|xs| - 1], xs[|xs| - 1];
      FromOfKind(front, a, k);
      if x.Kind() == k {
        assert OfKind(xs, k)[..|OfKind(xs, k)| - 1] == OfKind(front, k);
      } else {
        assert OfKind(xs, k) == OfKind(front, k);
      }
    }
  }
}
