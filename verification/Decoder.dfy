/**
 The decoder of sFlow version 5 datagrams: a word cursor that runs over nested lists.  A
 datagram is the memory that the cursor can read, word by word in host order; what lies
 behind the received words is arbitrary.
 */
module Decoder {
  import opened Samples

  type Memory = nat -> uint32

  const FLOW_SAMPLE: uint32 := 1
  const COUNTERS_SAMPLE: uint32 := 2
  const FLOW_SAMPLE_EXPANDED: uint32 := 3
  const COUNTERS_SAMPLE_EXPANDED: uint32 := 4
  const FLOW_HEADER: uint32 := 1
  const COUNTERS_GENERIC: uint32 := 1
  const COUNTERS_ETHERNET: uint32 := 2
  const ADDRESS_IP_V4: uint32 := 1
  const LOOPBACK: uint32 := 0x7f000001

  function Long(mem: Memory, pos: nat): uint64 {
    var high: int := mem(pos);
    high * TWO_32 + mem(pos + 1)
  }

  /** Skips bytes in whole words; the rounding wraps around at 32 bits. */
  function Skip(pos: nat, bytes: uint32): nat {
    var b: int := bytes;
    pos + (b + 3) % TWO_32 / 4
  }

  /** The right shift of a word taken as a signed 32-bit number. */
  function ShiftSigned(w: uint32, divisor: nat): uint32
    requires divisor > 0
  {
    var v: int := if w >= 0x8000_0000 then w - TWO_32 else w;
    v / divisor % TWO_32
  }

  // ----- records -----

  function Generic(mem: Memory, pos: nat): GenericCounters {
    GenericCounters(
      mem(pos), mem(pos + 1), Long(mem, pos + 2), mem(pos + 4), mem(pos + 5),
      Long(mem, pos + 6), mem(pos + 8), mem(pos + 9), mem(pos + 10), mem(pos + 11), mem(pos + 12), mem(pos + 13),
      Long(mem, pos + 14), mem(pos + 16), mem(pos + 17), mem(pos + 18), mem(pos + 19), mem(pos + 20), mem(pos + 21))
  }

  function Ethernet(mem: Memory, pos: nat): EthernetCounters {
    EthernetCounters(
      mem(pos), mem(pos + 1), mem(pos + 2), mem(pos + 3), mem(pos + 4), mem(pos + 5), mem(pos + 6),
      mem(pos + 7), mem(pos + 8), mem(pos + 9), mem(pos + 10), mem(pos + 11), mem(pos + 12))
  }

  /** Byte `i` of the words from `pos`, most significant byte first. */
  function ByteAt(mem: Memory, pos: nat, i: nat): uint8 {
    var w: int := mem(pos + i / 4);
    match i % 4
    case 0 => w / 0x100_0000
    case 1 => w / 0x1_0000 % 0x100
    case 2 => w / 0x100 % 0x100
    case _ => w % 0x100
  }

  /** The stored packet header: at most 128 bytes are copied, the rest is zero. */
  function HeaderBytes(mem: Memory, pos: nat, length: uint32): RawHeader {
    seq(RAW_HEADER_SIZE, i requires 0 <= i < RAW_HEADER_SIZE => if i < length then ByteAt(mem, pos, i) else 0)
  }

  function SampledHeader(mem: Memory, pos: nat, slot: FlowSample): (FlowSample, nat) {
    var length := mem(pos + 3);
    (slot.(rawHeaderProtocol := mem(pos), rawHeaderFrameLength := mem(pos + 1), rawHeaderStripped := mem(pos + 2),
           rawHeaderLength := length, rawHeader := HeaderBytes(mem, pos + 4, length)),
     Skip(pos + 4, length))
  }

  function FlowRecord(mem: Memory, pos: nat, slot: FlowSample): (FlowSample, nat) {
    if mem(pos) == FLOW_HEADER then SampledHeader(mem, pos + 2, slot)
    else (slot, Skip(pos + 2, mem(pos + 1)))
  }

  function CounterRecord(mem: Memory, pos: nat, slot: CntrSample): (CntrSample, nat) {
    if mem(pos) == COUNTERS_GENERIC then (slot.(generic := Generic(mem, pos + 2)), pos + 24)
    else if mem(pos) == COUNTERS_ETHERNET then (slot.(ethernet := Ethernet(mem, pos + 2)), pos + 15)
    else (slot, Skip(pos + 2, mem(pos + 1)))
  }

  function CounterRecords(mem: Memory, pos: nat, n: nat, slot: CntrSample): (CntrSample, nat)
    decreases n
  {
    if n == 0 then (slot, pos)
    else
      var (slot', pos') := CounterRecords(mem, pos, n - 1, slot);
      CounterRecord(mem, pos', slot')
  }

  // ----- samples -----

  function SourceClass(mem: Memory, pos: nat, expanded: bool): uint32 {
    if expanded then mem(pos) else ShiftSigned(mem(pos), 0x100_0000)
  }

  function SourceIndex(mem: Memory, pos: nat, expanded: bool): uint32 {
    if expanded then mem(pos + 1) else mem(pos) % 0x100_0000
  }

  function InterfaceFormat(mem: Memory, pos: nat, expanded: bool): uint32 {
    if expanded then mem(pos) else ShiftSigned(mem(pos), 0x4000_0000)
  }

  function InterfaceValue(mem: Memory, pos: nat, expanded: bool): uint32 {
    if expanded then mem(pos + 1) else mem(pos) % 0x4000_0000
  }

  function CounterSample(mem: Memory, pos: nat, slot: CntrSample, expanded: bool): (CntrSample, nat) {
    var filled := slot.(
      sequenceNumber := mem(pos),
      sourceIdType := SourceClass(mem, pos + 1, expanded), sourceIdIndex := SourceIndex(mem, pos + 1, expanded));
    var p := if expanded then pos + 3 else pos + 2;
    CounterRecords(mem, p + 1, mem(p), filled)
  }

  /** A flow slot with the fields of the sample's head. */
  function FlowHeadAt(mem: Memory, pos: nat, slot: FlowSample, expanded: bool): FlowSample {
    var p := if expanded then pos + 3 else pos + 2;
    var q := if expanded then p + 5 else p + 4;
    slot.(
      sequenceNumber := mem(pos),
      sourceIdType := SourceClass(mem, pos + 1, expanded), sourceIdIndex := SourceIndex(mem, pos + 1, expanded),
      samplingRate := mem(p), samplePool := mem(p + 1), drops := mem(p + 2),
      inputIfFormat := InterfaceFormat(mem, p + 3, expanded), inputIfValue := InterfaceValue(mem, p + 3, expanded),
      outputIfFormat := InterfaceFormat(mem, q, expanded), outputIfValue := InterfaceValue(mem, q, expanded))
  }

  /** A flow sample reads one record, whatever number of records it announces. */
  function FlowSampleAt(mem: Memory, pos: nat, slot: FlowSample, expanded: bool): (FlowSample, nat) {
    FlowRecord(mem, if expanded then pos + 11 else pos + 8, FlowHeadAt(mem, pos, slot, expanded))
  }

  /** What every sample of a datagram gets from the datagram. */
  datatype Template = Template(timestamp: nat, agentAddress: uint32, subAgentId: uint32)

  /** The collector's buffers.  A slot is reused without being cleared: `staleFlow(i)` and
      `staleCntr(i)` are the old contents of slot `i`. */
  datatype Buffers = Buffers(
    flows: seq<FlowSample>, cntrs: seq<CntrSample>,
    staleFlow: nat -> FlowSample, staleCntr: nat -> CntrSample)

  function FlowSlot(b: Buffers, t: Template): FlowSample {
    b.staleFlow(|b.flows|).(timestamp := t.timestamp, agentAddress := t.agentAddress, subAgentId := t.subAgentId)
  }

  function CntrSlot(b: Buffers, t: Template): CntrSample {
    b.staleCntr(|b.cntrs|).(timestamp := t.timestamp, agentAddress := t.agentAddress, subAgentId := t.subAgentId)
  }

  function SampleAt(mem: Memory, pos: nat, t: Template, b: Buffers): (Buffers, nat) {
    var tag := mem(pos);
    if tag == FLOW_SAMPLE || tag == FLOW_SAMPLE_EXPANDED then
      var (s, pos') := FlowSampleAt(mem, pos + 2, FlowSlot(b, t), tag == FLOW_SAMPLE_EXPANDED);
      (b.(flows := b.flows + [s]), pos')
    else if tag == COUNTERS_SAMPLE || tag == COUNTERS_SAMPLE_EXPANDED then
      var (s, pos') := CounterSample(mem, pos + 2, CntrSlot(b, t), tag == COUNTERS_SAMPLE_EXPANDED);
      (b.(cntrs := b.cntrs + [s]), pos')
    else
      (b, Skip(pos + 2, mem(pos + 1)))
  }

  function SamplesAt(mem: Memory, pos: nat, n: nat, t: Template, b: Buffers): (Buffers, nat)
    decreases n
  {
    if n == 0 then (b, pos)
    else
      var (b', pos') := SamplesAt(mem, pos, n - 1, t, b);
      SampleAt(mem, pos', t, b')
  }

  // ----- datagrams -----

  /** What the daemon keeps per agent. */
  datatype Agent = Agent(
    address: uint32, lastSeen: nat, uptime: uint32, sequence: uint32, datagrams: uint64, drops: uint64)

  /** The position behind the agent address. */
  function AfterAddress(mem: Memory): nat {
    if mem(1) == ADDRESS_IP_V4 then 3 else 6
  }

  /** The address that selects the agent: the datagram's own, or its sender's if an agent
      calls itself the loopback address. */
  function AgentAddress(mem: Memory, sender: uint32): uint32 {
    if mem(2) == LOOPBACK then sender else mem(2)
  }

  /** Counts a datagram and the sequence numbers since the last one. */
  function Account(a: Agent, sequence: uint32, uptime: uint32, now: nat): Agent {
    var gap: int := sequence - a.sequence;
    a.(datagrams := (a.datagrams + 1) % TWO_64, lastSeen := now, uptime := uptime,
       drops := if a.sequence != 0 then (a.drops + gap % TWO_32) % TWO_64 else a.drops,
       sequence := sequence)
  }

  /** A datagram from a known agent: the agent's new state, the buffers and the final cursor. */
  function DatagramAt(mem: Memory, a: Agent, now: nat, b: Buffers): (Agent, Buffers, nat) {
    var p := AfterAddress(mem);
    var (b', pos) := SamplesAt(mem, p + 4, mem(p + 3), Template(now, a.address, mem(p)), b);
    (Account(a, mem(p + 1), mem(p + 2), now), b', pos)
  }
}
