/**
 The parser as the collecting daemon runs it: a cursor that moves through the datagram while
 the slots of the current buffers are filled in place.  Each method does what the decoder's
 function says, whatever the slots held before.
 */
module DatagramParser {
  import opened Samples
  import opened Decoder

  class Cursor {
    const mem: Memory
    var pos: nat

    constructor (data: Memory)
      ensures mem == data && pos == 0
    {
      mem, pos := data, 0;
    }

    method GetData32() returns (w: uint32)
      modifies this
      ensures w == mem(old(pos)) && pos == old(pos) + 1
    {
      w := mem(pos);
      pos := pos + 1;
    }

    method GetData64() returns (x: uint64)
      modifies this
      ensures x == Long(mem, old(pos)) && pos == old(pos) + 2
    {
      var high: int := GetData32();
      var low: int := GetData32();
      x := high * TWO_32 + low;
    }

    method SkipBytes(skip: uint32)
      modifies this
      ensures pos == Skip(old(pos), skip)
    {
      var bytes: int := skip;
      var quads := (bytes + 3) % TWO_32 / 4;
      pos := pos + quads;
    }

    /** The first word of the address; an IPv6 address has three more. */
    method GetAddress() returns (address: uint32)
      modifies this
      ensures address == mem(old(pos) + 1)
      ensures pos == old(pos) + if mem(old(pos)) == ADDRESS_IP_V4 then 2 else 5
    {
      var kind := GetData32();
      if kind == ADDRESS_IP_V4 {
        address := GetData32();
      } else {
        address := mem(pos);
        SkipBytes(16);
      }
    }

    method ParseCountersGeneric() returns (g: GenericCounters)
      modifies this
      ensures g == Generic(mem, old(pos)) && pos == old(pos) + 22
    {
      var ifIndex := GetData32();
      var ifType := GetData32();
      var ifSpeed := GetData64();
      var ifDirection := GetData32();
      var ifStatus := GetData32();
      var inOctets := GetData64();
      var inUcast := GetData32();
      var inMcast := GetData32();
      var inBcast := GetData32();
      var inDiscards := GetData32();
      var inErrors := GetData32();
      var inUnknownProto := GetData32();
      var outOctets := GetData64();
      var outUcast := GetData32();
      var outMcast := GetData32();
      var outBcast := GetData32();
      var outDiscards := GetData32();
      var outErrors := GetData32();
      var promisc := GetData32();
      g := GenericCounters(
        ifIndex, ifType, ifSpeed, ifDirection, ifStatus,
        inOctets, inUcast, inMcast, inBcast, inDiscards, inErrors, inUnknownProto,
        outOctets, outUcast, outMcast, outBcast, outDiscards, outErrors, promisc);
    }

    method ParseCountersEthernet() returns (e: EthernetCounters)
      modifies this
      ensures e == Ethernet(mem, old(pos)) && pos == old(pos) + 13
    {
      var alignmentErrors := GetData32();
      var fcsErrors := GetData32();
      var singleCollisionFrames := GetData32();
      var multipleCollisionFrames := GetData32();
      var sqeTestErrors := GetData32();
      var deferredTransmissions := GetData32();
      var lateCollisions := GetData32();
      var excessiveCollisions := GetData32();
      var internalMacTransmitErrors := GetData32();
      var carrierSenseErrors := GetData32();
      var frameTooLongs := GetData32();
      var internalMacReceiveErrors := GetData32();
      var symbolErrors := GetData32();
      e := EthernetCounters(
        alignmentErrors, fcsErrors, singleCollisionFrames, multipleCollisionFrames, sqeTestErrors,
        deferredTransmissions, lateCollisions, excessiveCollisions, internalMacTransmitErrors,
        carrierSenseErrors, frameTooLongs, internalMacReceiveErrors, symbolErrors);
    }

    method ParseSource(expanded: bool) returns (class_: uint32, index: uint32)
      modifies this
      ensures class_ == SourceClass(mem, old(pos), expanded) && index == SourceIndex(mem, old(pos), expanded)
      ensures pos == old(pos) + if expanded then 2 else 1
    {
      if expanded {
        class_ := GetData32();
        index := GetData32();
      } else {
        var tmp := GetData32();
        class_ := ShiftSigned(tmp, 0x100_0000);
        index := tmp % 0x100_0000;
      }
    }

    method ParseInterface(expanded: bool) returns (format: uint32, value: uint32)
      modifies this
      ensures format == InterfaceFormat(mem, old(pos), expanded) && value == InterfaceValue(mem, old(pos), expanded)
      ensures pos == old(pos) + if expanded then 2 else 1
    {
      if expanded {
        format := GetData32();
        value := GetData32();
      } else {
        var tmp := GetData32();
        format := ShiftSigned(tmp, 0x4000_0000);
        value := tmp % 0x4000_0000;
      }
    }

    method ParseFlowHead(slot: FlowSample, expanded: bool) returns (s: FlowSample)
      modifies this
      ensures s == FlowHeadAt(mem, old(pos), slot, expanded)
      ensures pos == old(pos) + if expanded then 11 else 8
    {
      hide SourceClass, SourceIndex, InterfaceFormat, InterfaceValue;
      var sequence := GetData32();
      var class_, index := ParseSource(expanded);
      var rate := GetData32();
      var pool := GetData32();
      var drops := GetData32();
      var inputFormat, input := ParseInterface(expanded);
      var outputFormat, output := ParseInterface(expanded);
      var records := GetData32();
      s := slot.(sequenceNumber := sequence, sourceIdType := class_, sourceIdIndex := index,
                 samplingRate := rate, samplePool := pool, drops := drops,
                 inputIfFormat := inputFormat, inputIfValue := input,
                 outputIfFormat := outputFormat, outputIfValue := output);
    }
  }

  lemma {:induction false} SamplesGrow(mem: Memory, pos: nat, i: nat, n: nat, t: Template, b: Buffers)
    requires i <= n
    ensures |SamplesAt(mem, pos, i, t, b).0.flows| <= |SamplesAt(mem, pos, n, t, b).0.flows|
    ensures |SamplesAt(mem, pos, i, t, b).0.cntrs| <= |SamplesAt(mem, pos, n, t, b).0.cntrs|
    decreases n
  {
    hide SampleAt;
    if i < n {
      SamplesGrow(mem, pos, i, n - 1, t, b);
      SampleGrows(mem, SamplesAt(mem, pos, n - 1, t, b).1, t, SamplesAt(mem, pos, n - 1, t, b).0);
    }
  }

  lemma SampleGrows(mem: Memory, pos: nat, t: Template, b: Buffers)
    ensures |b.flows| <= |SampleAt(mem, pos, t, b).0.flows| && |b.cntrs| <= |SampleAt(mem, pos, t, b).0.cntrs|
  {
    hide FlowSampleAt, CounterSample;
  }

  class Collector {
    /** The collector's current buffers. */
    const flow: array<FlowSample>
    const cntr: array<CntrSample>
    var flowCount: nat
    var cntrCount: nat
    /** The known agents by address. */
    var agents: map<uint32, Agent>

    constructor (flows: array<FlowSample>, cntrs: array<CntrSample>, known: map<uint32, Agent>)
      ensures flow == flows && cntr == cntrs && flowCount == 0 && cntrCount == 0 && agents == known
    {
      flow, cntr, flowCount, cntrCount, agents := flows, cntrs, 0, 0, known;
    }

    /** The filled slots hold `b`'s samples, the others its stale ones. */
    ghost predicate Holds(b: Buffers)
      reads this`flowCount, this`cntrCount, flow, cntr
    {
      && flowCount <= flow.Length && b.flows == flow[..flowCount]
      && cntrCount <= cntr.Length && b.cntrs == cntr[..cntrCount]
      && (forall i :: flowCount <= i < flow.Length ==> flow[i] == b.staleFlow(i))
      && (forall i :: cntrCount <= i < cntr.Length ==> cntr[i] == b.staleCntr(i))
    }

    /** These samples fit into the buffers. */
    predicate Room(b: Buffers) {
      |b.flows| <= flow.Length && |b.cntrs| <= cntr.Length
    }

    method ParseSampledHeader(d: Cursor, k: nat)
      requires k < flow.Length
      modifies d, flow
      ensures flow[..] == old(flow[..])[k := SampledHeader(d.mem, old(d.pos), old(flow[k])).0]
      ensures d.pos == SampledHeader(d.mem, old(d.pos), old(flow[k])).1
    {
      var protocol := d.GetData32();
      var frameLength := d.GetData32();
      var stripped := d.GetData32();
      var length := d.GetData32();
      flow[k] := flow[k].(rawHeaderProtocol := protocol, rawHeaderFrameLength := frameLength,
                          rawHeaderStripped := stripped, rawHeaderLength := length,
                          rawHeader := HeaderBytes(d.mem, d.pos, length));
      d.SkipBytes(length);
    }

    method ParseFlowRecordHeader(d: Cursor, k: nat)
      requires k < flow.Length
      modifies d, flow
      ensures flow[..] == old(flow[..])[k := FlowRecord(d.mem, old(d.pos), old(flow[k])).0]
      ensures d.pos == FlowRecord(d.mem, old(d.pos), old(flow[k])).1
    {
      hide SampledHeader;
      var tag := d.GetData32();
      var length := d.GetData32();
      if tag == FLOW_HEADER {
        ParseSampledHeader(d, k);
      } else {
        d.SkipBytes(length);
      }
    }

    method ParseFlowSample(d: Cursor, k: nat, expanded: bool)
      requires k < flow.Length
      modifies d, flow
      ensures flow[..] == old(flow[..])[k := FlowSampleAt(d.mem, old(d.pos), old(flow[k]), expanded).0]
      ensures d.pos == FlowSampleAt(d.mem, old(d.pos), old(flow[k]), expanded).1
    {
      hide FlowRecord, FlowHeadAt;
      flow[k] := d.ParseFlowHead(flow[k], expanded);
      ParseFlowRecordHeader(d, k);
    }

    method ParseCounterRecordHeader(d: Cursor, k: nat)
      requires k < cntr.Length
      modifies d, cntr
      ensures cntr[..] == old(cntr[..])[k := CounterRecord(d.mem, old(d.pos), old(cntr[k])).0]
      ensures d.pos == CounterRecord(d.mem, old(d.pos), old(cntr[k])).1
    {
      hide Generic, Ethernet;
      var tag := d.GetData32();
      var length := d.GetData32();
      if tag == COUNTERS_GENERIC {
        var g := d.ParseCountersGeneric();
        cntr[k] := cntr[k].(generic := g);
      } else if tag == COUNTERS_ETHERNET {
        var e := d.ParseCountersEthernet();
        cntr[k] := cntr[k].(ethernet := e);
      } else {
        d.SkipBytes(length);
      }
    }

    method ParseCounterSample(d: Cursor, k: nat, expanded: bool)
      requires k < cntr.Length
      modifies d, cntr
      ensures cntr[..] == old(cntr[..])[k := CounterSample(d.mem, old(d.pos), old(cntr[k]), expanded).0]
      ensures d.pos == CounterSample(d.mem, old(d.pos), old(cntr[k]), expanded).1
    {
      hide CounterRecord, SourceClass, SourceIndex;
      var sequence := d.GetData32();
      var class_, index := d.ParseSource(expanded);
      var elements := d.GetData32();
      cntr[k] := cntr[k].(sequenceNumber := sequence, sourceIdType := class_, sourceIdIndex := index);
      ghost var p, filled := d.pos, cntr[k];
      var i := 0;
      while i < elements
        invariant 0 <= i <= elements
        invariant cntr[..] == old(cntr[..])[k := CounterRecords(d.mem, p, i, filled).0]
        invariant d.pos == CounterRecords(d.mem, p, i, filled).1
      {
        ParseCounterRecordHeader(d, k);
        i := i + 1;
      }
    }

    method ParseSample(d: Cursor, t: Template, ghost b: Buffers)
      requires Holds(b) && Room(SampleAt(d.mem, d.pos, t, b).0)
      modifies d, flow, cntr, this`flowCount, this`cntrCount
      ensures Holds(SampleAt(d.mem, old(d.pos), t, b).0)
      ensures d.pos == SampleAt(d.mem, old(d.pos), t, b).1
    {
      hide FlowSampleAt, CounterSample;
      var tag := d.GetData32();
      var length := d.GetData32();
      if tag == FLOW_SAMPLE || tag == FLOW_SAMPLE_EXPANDED {
        var k := flowCount;
        flowCount := flowCount + 1;
        flow[k] := flow[k].(timestamp := t.timestamp, agentAddress := t.agentAddress, subAgentId := t.subAgentId);
        assert flow[k] == FlowSlot(b, t);
        ParseFlowSample(d, k, tag == FLOW_SAMPLE_EXPANDED);
      } else if tag == COUNTERS_SAMPLE || tag == COUNTERS_SAMPLE_EXPANDED {
        var k := cntrCount;
        cntrCount := cntrCount + 1;
        cntr[k] := cntr[k].(timestamp := t.timestamp, agentAddress := t.agentAddress, subAgentId := t.subAgentId);
        assert cntr[k] == CntrSlot(b, t);
        ParseCounterSample(d, k, tag == COUNTERS_SAMPLE_EXPANDED);
      } else {
        d.SkipBytes(length);
      }
    }

    lemma RoomBefore(before: Buffers, after: Buffers)
      requires Room(after) && |before.flows| <= |after.flows| && |before.cntrs| <= |after.cntrs|
      ensures Room(before)
    {
    }

    /** The samples of a datagram, in order. */
    method ParseSamples(d: Cursor, records: nat, t: Template, ghost b: Buffers)
      requires Holds(b) && Room(SamplesAt(d.mem, d.pos, records, t, b).0)
      modifies d, flow, cntr, this`flowCount, this`cntrCount
      ensures Holds(SamplesAt(d.mem, old(d.pos), records, t, b).0)
      ensures d.pos == SamplesAt(d.mem, old(d.pos), records, t, b).1
    {
      hide SampleAt, Holds, Room;
      ghost var p := d.pos;
      var i := 0;
      while i < records
        invariant 0 <= i <= records
        invariant Holds(SamplesAt(d.mem, p, i, t, b).0)
        invariant d.pos == SamplesAt(d.mem, p, i, t, b).1
      {
        SamplesGrow(d.mem, p, i + 1, records, t, b);
        RoomBefore(SamplesAt(d.mem, p, i + 1, t, b).0, SamplesAt(d.mem, p, records, t, b).0);
        ParseSample(d, t, SamplesAt(d.mem, p, i, t, b).0);
        i := i + 1;
      }
    }

    method CountDatagram(known: uint32, sequence: uint32, uptime: uint32, now: nat)
      requires known in agents
      modifies this`agents
      ensures agents == old(agents)[known := Account(old(agents)[known], sequence, uptime, now)]
    {
      var agent := agents[known];
      agent := agent.(datagrams := (agent.datagrams + 1) % TWO_64);
      agent := agent.(lastSeen := now);
      agent := agent.(uptime := uptime);
      if agent.sequence != 0 {
        var gap: int := sequence - agent.sequence;
        agent := agent.(drops := (agent.drops + gap % TWO_32) % TWO_64);
      }
      agent := agent.(sequence := sequence);
      agents := agents[known := agent];
    }

    /** Parses a datagram of a known agent whose samples, as far as they are stored, fit into the buffers. */
    method ParseDatagram(d: Cursor, sender: uint32, now: nat, ghost b: Buffers)
      requires d.pos == 0 && Holds(b)
      requires AgentAddress(d.mem, sender) in agents
      requires Room(DatagramAt(d.mem, agents[AgentAddress(d.mem, sender)], now, b).1)
      modifies d, flow, cntr, this
      ensures var known := AgentAddress(d.mem, sender);
              agents == old(agents)[known := DatagramAt(d.mem, old(agents)[known], now, b).0]
      ensures Holds(DatagramAt(d.mem, old(agents)[AgentAddress(d.mem, sender)], now, b).1)
      ensures d.pos == DatagramAt(d.mem, old(agents)[AgentAddress(d.mem, sender)], now, b).2
    {
      hide SamplesAt, Holds, Account, Room;
      var version := d.GetData32();
      var address := d.GetAddress();
      var subAgent := d.GetData32();
      var sequence := d.GetData32();
      var uptime := d.GetData32();
      var records := d.GetData32();
      if address == LOOPBACK {
        address := sender;
      }
      var t := Template(now, agents[address].address, subAgent);
      CountDatagram(address, sequence, uptime, now);
      ParseSamples(d, records, t, b);
    }
  }
}
