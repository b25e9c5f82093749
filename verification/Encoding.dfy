/**
 An encoder for sFlow version 5 datagrams (sFlow Version 5 specification, section 5), and
 the proof that the decoder inverts it.  The encoder writes the specification's numbers out: samples
 1 and 3 are flow samples, 2 and 4 counter samples, in the compact and in the expanded form; flow
 record 1 is a sampled header, counter records 1 and 2 are the generic and the Ethernet counters; an
 address of type 1 is an IPv4 address.
 */
module Encoding {
  import opened Samples
  import opened Decoder

  datatype WireRecord =
    | GenericRecord(generic: GenericCounters)
    | EthernetRecord(ethernet: EthernetCounters)
    | OtherRecord(tag: uint32, length: uint32, body: seq<uint32>)

  datatype WireHeader = WireHeader(protocol: uint32, frameLength: uint32, stripped: uint32, bytes: seq<uint8>)

  datatype WireFlowRecord =
    | HeaderRecord(header: WireHeader)
    | OtherFlowRecord(tag: uint32, length: uint32, body: seq<uint32>)

  datatype WireSource = WireSource(class_: uint32, index: uint32)

  datatype WireInterface = WireInterface(format: uint32, value: uint32)

  datatype WireSample =
    | WireFlow(expanded: bool, sequence: uint32, source: WireSource, rate: uint32, pool: uint32, drops: uint32,
               input: WireInterface, output: WireInterface, flowRecords: seq<WireFlowRecord>)
    | WireCntr(expanded: bool, sequence: uint32, source: WireSource, records: seq<WireRecord>)
    | WireOther(tag: uint32, length: uint32, body: seq<uint32>)

  // ----- what can be encoded -----

  /** A length in bytes and the words that carry it, padded to a multiple of four (RFC 4506,
      section 4.10). */
  predicate Padded(length: uint32, body: seq<uint32>) {
    length + 3 < TWO_32 && |body| == (length + 3) / 4
  }

  predicate RecordOk(r: WireRecord) {
    r.OtherRecord? ==> r.tag != 1 && r.tag != 2 && Padded(r.length, r.body)
  }

  predicate RecordsOk(rs: seq<WireRecord>) {
    forall i :: 0 <= i < |rs| ==> RecordOk(rs[i])
  }

  predicate FlowRecordOk(r: WireFlowRecord) {
    match r
    case HeaderRecord(header) => |header.bytes| + 3 < TWO_32
    case OtherFlowRecord(tag, length, body) => tag != 1 && Padded(length, body)
  }

  predicate FlowRecordsOk(rs: seq<WireFlowRecord>) {
    forall i :: 0 <= i < |rs| ==> FlowRecordOk(rs[i])
  }

  /** The compact encoding has 8 bits for the class of a source and 24 for its index. */
  predicate SourceFits(s: WireSource) {
    s.class_ < 0x100 && s.index < 0x100_0000
  }

  /** The compact encoding has 2 bits for the format of an interface and 30 for its value. */
  predicate InterfaceFits(i: WireInterface) {
    i.format < 4 && i.value < 0x4000_0000
  }

  predicate SampleOk(w: WireSample) {
    match w
    case WireFlow(expanded, _, source, _, _, _, input, output, records) =>
      && |records| < TWO_32 && FlowRecordsOk(records)
      && (expanded || (SourceFits(source) && InterfaceFits(input) && InterfaceFits(output)))
    case WireCntr(expanded, _, source, records) =>
      && |records| < TWO_32 && RecordsOk(records)
      && (expanded || SourceFits(source))
    case WireOther(tag, length, body) =>
      && tag != 1 && tag != 3
      && tag != 2 && tag != 4
      && Padded(length, body)
  }

  /** The parser reads one record of a flow sample, whatever number the sample announces. */
  predicate OneRecord(w: WireSample) {
    w.WireFlow? ==> |w.flowRecords| == 1
  }

  predicate AllOneRecord(ws: seq<WireSample>) {
    forall i :: 0 <= i < |ws| ==> OneRecord(ws[i])
  }

  predicate SamplesOk(ws: seq<WireSample>) {
    forall i :: 0 <= i < |ws| ==> SampleOk(ws[i])
  }

  // ----- the encoder -----

  function High(x: uint64): uint32 { x / TWO_32 }

  function Low(x: uint64): uint32 { x % TWO_32 }

  function GenericWords(g: GenericCounters): (ws: seq<uint32>)
    ensures |ws| == 22
  {
    [g.ifIndex, g.ifType, High(g.ifSpeed), Low(g.ifSpeed), g.ifDirection, g.ifStatus,
     High(g.inOctets), Low(g.inOctets), g.inUcast, g.inMcast, g.inBcast, g.inDiscards, g.inErrors, g.inUnknownProto,
     High(g.outOctets), Low(g.outOctets), g.outUcast, g.outMcast, g.outBcast, g.outDiscards, g.outErrors, g.promisc]
  }

  function EthernetWords(e: EthernetCounters): (ws: seq<uint32>)
    ensures |ws| == 13
  {
    [e.alignmentErrors, e.fcsErrors, e.singleCollisionFrames, e.multipleCollisionFrames, e.sqeTestErrors,
     e.deferredTransmissions, e.lateCollisions, e.excessiveCollisions, e.internalMacTransmitErrors,
     e.carrierSenseErrors, e.frameTooLongs, e.internalMacReceiveErrors, e.symbolErrors]
  }

  function ByteOr0(bytes: seq<uint8>, i: nat): uint8 {
    if i < |bytes| then bytes[i] else 0
  }

  function PackedWord(bytes: seq<uint8>, i: nat): uint32 {
    var a: int := ByteOr0(bytes, 4 * i);
    var b: int := ByteOr0(bytes, 4 * i + 1);
    var c: int := ByteOr0(bytes, 4 * i + 2);
    a * 0x100_0000 + b * 0x1_0000 + c * 0x100 + ByteOr0(bytes, 4 * i + 3)
  }

  /** Bytes in words, the last word padded with zeros. */
  function Packed(bytes: seq<uint8>): seq<uint32> {
    seq((|bytes| + 3) / 4, i requires i >= 0 => PackedWord(bytes, i))
  }

  function WithHeader(tag: uint32, body: seq<uint32>): seq<uint32> {
    [tag, 4 * |body| % TWO_32] + body
  }

  function RecordWords(r: WireRecord): seq<uint32> {
    match r
    case GenericRecord(g) => WithHeader(1, GenericWords(g))
    case EthernetRecord(e) => WithHeader(2, EthernetWords(e))
    case OtherRecord(tag, length, body) => [tag, length] + body
  }

  function RecordsWords(rs: seq<WireRecord>): seq<uint32> {
    if rs == [] then [] else RecordsWords(rs[..|rs| - 1]) + RecordWords(rs[|rs| - 1])
  }

  function HeaderWords(h: WireHeader): seq<uint32>
    requires |h.bytes| < TWO_32
  {
    WithHeader(1, [h.protocol, h.frameLength, h.stripped, |h.bytes|] + Packed(h.bytes))
  }

  function FlowRecordWords(r: WireFlowRecord): (ws: seq<uint32>)
    requires FlowRecordOk(r)
    ensures |ws| >= 2
  {
    match r
    case HeaderRecord(header) => HeaderWords(header)
    case OtherFlowRecord(tag, length, body) => [tag, length] + body
  }

  function FlowRecordsWords(rs: seq<WireFlowRecord>): (ws: seq<uint32>)
    requires FlowRecordsOk(rs)
    ensures |ws| >= 2 * |rs|
  {
    if rs == [] then [] else FlowRecordWords(rs[0]) + FlowRecordsWords(rs[1..])
  }

  function SourceWords(expanded: bool, s: WireSource): seq<uint32>
    requires expanded || SourceFits(s)
  {
    var c: int := s.class_;
    if expanded then [s.class_, s.index] else [c * 0x100_0000 + s.index]
  }

  function InterfaceWords(expanded: bool, i: WireInterface): seq<uint32>
    requires expanded || InterfaceFits(i)
  {
    var f: int := i.format;
    if expanded then [i.format, i.value] else [f * 0x4000_0000 + i.value]
  }

  /** A counter sample up to its records. */
  function CounterHead(w: WireSample): seq<uint32>
    requires w.WireCntr? && SampleOk(w)
  {
    [w.sequence] + SourceWords(w.expanded, w.source) + [|w.records|]
  }

  /** A flow sample up to its records. */
  function FlowHead(w: WireSample): seq<uint32>
    requires w.WireFlow? && SampleOk(w)
  {
    [w.sequence] + SourceWords(w.expanded, w.source) + [w.rate, w.pool, w.drops]
    + InterfaceWords(w.expanded, w.input) + InterfaceWords(w.expanded, w.output) + [|w.flowRecords|]
  }

  function SampleBody(w: WireSample): seq<uint32>
    requires SampleOk(w)
  {
    match w
    case WireFlow(_, _, _, _, _, _, _, _, records) => FlowHead(w) + FlowRecordsWords(records)
    case WireCntr(_, _, _, records) => CounterHead(w) + RecordsWords(records)
    case WireOther(_, _, body) => body
  }

  function SampleWords(w: WireSample): seq<uint32>
    requires SampleOk(w)
  {
    match w
    case WireFlow(expanded, _, _, _, _, _, _, _, _) =>
      WithHeader(if expanded then 3 else 1, SampleBody(w))
    case WireCntr(expanded, _, _, _) =>
      WithHeader(if expanded then 4 else 2, SampleBody(w))
    case WireOther(tag, length, body) => [tag, length] + body
  }

  function SamplesWords(ws: seq<WireSample>): seq<uint32>
    requires SamplesOk(ws)
  {
    if ws == [] then [] else SamplesWords(ws[..|ws| - 1]) + SampleWords(ws[|ws| - 1])
  }

  /** A whole datagram of an IPv4 agent. */
  function DatagramWords(address: uint32, subAgent: uint32, sequence: uint32, uptime: uint32,
                         ws: seq<WireSample>): seq<uint32>
    requires |ws| < TWO_32 && SamplesOk(ws)
  {
    [5, 1, address, subAgent, sequence, uptime, |ws|] + SamplesWords(ws)
  }

  // ----- what the decoder stores -----

  /** The compact ids are shifted as signed numbers, so their top bit spreads. */
  function SeenClass(expanded: bool, s: WireSource): uint32
    requires expanded || SourceFits(s)
  {
    if expanded || s.class_ < 0x80 then s.class_ else s.class_ + 0xffff_ff00
  }

  function SeenFormat(expanded: bool, i: WireInterface): uint32
    requires expanded || InterfaceFits(i)
  {
    if expanded || i.format < 2 then i.format else i.format + 0xffff_fffc
  }

  function CutHeader(bytes: seq<uint8>): RawHeader {
    seq(RAW_HEADER_SIZE, i requires i >= 0 => ByteOr0(bytes, i))
  }

  function ApplyRecord(r: WireRecord, slot: CntrSample): CntrSample {
    match r
    case GenericRecord(g) => slot.(generic := g)
    case EthernetRecord(e) => slot.(ethernet := e)
    case OtherRecord(_, _, _) => slot
  }

  function ApplyRecords(rs: seq<WireRecord>, slot: CntrSample): CntrSample {
    if rs == [] then slot else ApplyRecord(rs[|rs| - 1], ApplyRecords(rs[..|rs| - 1], slot))
  }

  function FilledHeader(h: WireHeader, slot: FlowSample): FlowSample
    requires |h.bytes| < TWO_32
  {
    slot.(rawHeaderProtocol := h.protocol, rawHeaderFrameLength := h.frameLength, rawHeaderStripped := h.stripped,
          rawHeaderLength := |h.bytes|, rawHeader := CutHeader(h.bytes))
  }

  /** Only the first record of a flow sample counts, and only if it is a sampled header. */
  function ApplyFirst(rs: seq<WireFlowRecord>, slot: FlowSample): FlowSample
    requires FlowRecordsOk(rs)
  {
    if rs != [] && rs[0].HeaderRecord? then FilledHeader(rs[0].header, slot) else slot
  }

  /** A flow sample keeps the stale packet header of its slot if no sampled header overwrites it. */
  function StoredFlow(w: WireSample, t: Template, stale: FlowSample): FlowSample
    requires w.WireFlow? && SampleOk(w)
  {
    ApplyFirst(
      w.flowRecords,
      FlowSample(t.timestamp, t.agentAddress, t.subAgentId, w.sequence, SeenClass(w.expanded, w.source), w.source.index,
                 w.rate, w.pool, w.drops, SeenFormat(w.expanded, w.input), w.input.value,
                 SeenFormat(w.expanded, w.output), w.output.value,
                 stale.rawHeaderProtocol, stale.rawHeaderFrameLength, stale.rawHeaderStripped,
                 stale.rawHeaderLength, stale.rawHeader))
  }

  /** A counter sample keeps the stale counters of its slot that no record overwrites. */
  function StoredCntr(w: WireSample, t: Template, stale: CntrSample): CntrSample
    requires w.WireCntr? && SampleOk(w)
  {
    ApplyRecords(w.records,
                 CntrSample(t.timestamp, t.agentAddress, t.subAgentId, w.sequence,
                            SeenClass(w.expanded, w.source), w.source.index,
                            stale.generic, stale.ethernet))
  }

  function Stored(w: WireSample, t: Template, b: Buffers): Buffers
    requires SampleOk(w)
  {
    match w
    case WireFlow(_, _, _, _, _, _, _, _, _) => b.(flows := b.flows + [StoredFlow(w, t, b.staleFlow(|b.flows|))])
    case WireCntr(_, _, _, _) => b.(cntrs := b.cntrs + [StoredCntr(w, t, b.staleCntr(|b.cntrs|))])
    case WireOther(_, _, _) => b
  }

  function StoredAll(ws: seq<WireSample>, t: Template, b: Buffers): Buffers
    requires SamplesOk(ws)
  {
    if ws == [] then b else Stored(ws[|ws| - 1], t, StoredAll(ws[..|ws| - 1], t, b))
  }

  // ----- the decoder inverts the encoder -----

  /** The memory holds these words from `pos` on. */
  ghost predicate HoldsAt(mem: Memory, pos: nat, ws: seq<uint32>) {
    forall j {:trigger mem(j)} :: pos <= j < pos + |ws| ==> mem(j) == ws[j - pos]
  }

  lemma HoldsParts(mem: Memory, pos: nat, a: seq<uint32>, b: seq<uint32>)
    requires HoldsAt(mem, pos, a + b)
    ensures HoldsAt(mem, pos, a) && HoldsAt(mem, pos + |a|, b)
  {
    var ws := a + b;
    assert forall i :: 0 <= i < |a| ==> ws[i] == a[i];
    assert forall i :: 0 <= i < |b| ==> ws[|a| + i] == b[i];
    forall j {:trigger mem(j)} | pos + |a| <= j < pos + |a| + |b| ensures mem(j) == b[j - (pos + |a|)] {
      assert ws[|a| + (j - (pos + |a|))] == b[j - (pos + |a|)];
    }
  }

  /** Equality as a single fact: spelled out, that of two samples is about forty. */
  ghost predicate Same<T>(a: T, b: T) {
    a == b
  }

  lemma LongOf(mem: Memory, pos: nat, x: uint64)
    requires mem(pos) == High(x) && mem(pos + 1) == Low(x)
    ensures Long(mem, pos) == x
  {
  }

  lemma GenericInverts(mem: Memory, pos: nat, g: GenericCounters)
    requires HoldsAt(mem, pos, GenericWords(g))
    ensures Generic(mem, pos) == g
  {
    hide Long, High, Low;
    LongOf(mem, pos + 2, g.ifSpeed);
    LongOf(mem, pos + 6, g.inOctets);
    LongOf(mem, pos + 14, g.outOctets);
  }

  lemma EthernetInverts(mem: Memory, pos: nat, e: EthernetCounters)
    requires HoldsAt(mem, pos, EthernetWords(e))
    ensures Ethernet(mem, pos) == e
  {
  }

  lemma GenericRecordInverts(mem: Memory, pos: nat, g: GenericCounters, slot: CntrSample)
    requires HoldsAt(mem, pos, WithHeader(1, GenericWords(g)))
    ensures Same(CounterRecord(mem, pos, slot).0, slot.(generic := g)) && CounterRecord(mem, pos, slot).1 == pos + 24
  {
    hide Generic, GenericWords, Ethernet;
    HoldsParts(mem, pos, [1, 88], GenericWords(g));
    GenericInverts(mem, pos + 2, g);
    FirstWord(mem, pos, [1, 88]);
  }

  lemma EthernetRecordInverts(mem: Memory, pos: nat, e: EthernetCounters, slot: CntrSample)
    requires HoldsAt(mem, pos, WithHeader(2, EthernetWords(e)))
    ensures Same(CounterRecord(mem, pos, slot).0, slot.(ethernet := e)) && CounterRecord(mem, pos, slot).1 == pos + 15
  {
    hide Generic, Ethernet, EthernetWords;
    HoldsParts(mem, pos, [2, 52], EthernetWords(e));
    EthernetInverts(mem, pos + 2, e);
    FirstWord(mem, pos, [2, 52]);
  }

  lemma FirstWord(mem: Memory, pos: nat, ws: seq<uint32>)
    requires ws != [] && HoldsAt(mem, pos, ws)
    ensures mem(pos) == ws[0] && (|ws| > 1 ==> mem(pos + 1) == ws[1])
  {
  }

  lemma OtherRecordInverts(mem: Memory, pos: nat, tag: uint32, length: uint32, body: seq<uint32>)
    requires Padded(length, body) && HoldsAt(mem, pos, [tag, length] + body)
    ensures mem(pos) == tag && Skip(pos + 2, mem(pos + 1)) == pos + |[tag, length] + body|
  {
    HoldsParts(mem, pos, [tag, length], body);
    FirstWord(mem, pos, [tag, length]);
  }

  lemma RecordInverts(mem: Memory, pos: nat, r: WireRecord, slot: CntrSample)
    requires RecordOk(r) && HoldsAt(mem, pos, RecordWords(r))
    ensures Same(CounterRecord(mem, pos, slot).0, ApplyRecord(r, slot))
    ensures CounterRecord(mem, pos, slot).1 == pos + |RecordWords(r)|
  {
    hide Generic, Ethernet, GenericWords, EthernetWords, HoldsAt, Skip;
    match r
    case GenericRecord(g) => GenericRecordInverts(mem, pos, g, slot);
    case EthernetRecord(e) => EthernetRecordInverts(mem, pos, e, slot);
    case OtherRecord(tag, length, body) => OtherRecordInverts(mem, pos, tag, length, body);
  }

  /** Both sides take the last record last. */
  lemma RecordsStep(mem: Memory, pos: nat, rs: seq<WireRecord>, slot: CntrSample)
    ensures rs == [] ==>
            Same(CounterRecords(mem, pos, |rs|, slot).0, ApplyRecords(rs, slot))
            && CounterRecords(mem, pos, |rs|, slot).1 == pos + |RecordsWords(rs)|
    ensures rs != [] ==>
            var front, r := rs[..|rs| - 1], rs[|rs| - 1];
            && (RecordsOk(rs) ==> RecordsOk(front) && RecordOk(r))
            && RecordsWords(rs) == RecordsWords(front) + RecordWords(r)
            && ApplyRecords(rs, slot) == ApplyRecord(r, ApplyRecords(front, slot))
            && CounterRecords(mem, pos, |rs|, slot) ==
               CounterRecord(mem, CounterRecords(mem, pos, |front|, slot).1, CounterRecords(mem, pos, |front|, slot).0)
  {
    hide CounterRecord;
    hide ApplyRecord;
    hide RecordWords;
    hide RecordOk;
  }

  lemma {:induction false} RecordsInvert(mem: Memory, pos: nat, rs: seq<WireRecord>, slot: CntrSample)
    requires RecordsOk(rs) && HoldsAt(mem, pos, RecordsWords(rs))
    ensures Same(CounterRecords(mem, pos, |rs|, slot).0, ApplyRecords(rs, slot))
    ensures CounterRecords(mem, pos, |rs|, slot).1 == pos + |RecordsWords(rs)|
  {
    RecordsStep(mem, pos, rs, slot);
    hide HoldsAt, RecordsOk, RecordOk, RecordsWords, RecordWords;
    hide ApplyRecords, ApplyRecord, CounterRecords, CounterRecord;
    if rs != [] {
      var front, r := rs[..|rs| - 1], rs[|rs| - 1];
      HoldsParts(mem, pos, RecordsWords(front), RecordWords(r));
      RecordsInvert(mem, pos, front, slot);
      RecordInverts(mem, pos + |RecordsWords(front)|, r, ApplyRecords(front, slot));
    }
  }

  // ----- sources and interfaces -----

  lemma CompactInverts(s: WireSource, w: uint32)
    requires SourceFits(s) && SourceWords(false, s) == [w]
    ensures ShiftSigned(w, 0x100_0000) == SeenClass(false, s) && w % 0x100_0000 == s.index
  {
  }

  lemma CompactInterfaceInverts(i: WireInterface, w: uint32)
    requires InterfaceFits(i) && InterfaceWords(false, i) == [w]
    ensures ShiftSigned(w, 0x4000_0000) == SeenFormat(false, i) && w % 0x4000_0000 == i.value
  {
  }

  // ----- raw headers -----

  lemma PackedByte(a: uint8, b: uint8, c: uint8, d: uint8)
    ensures var w: int := a as int * 0x100_0000 + b as int * 0x1_0000 + c as int * 0x100 + d;
            && 0 <= w < TWO_32
            && w / 0x100_0000 == a && w / 0x1_0000 % 0x100 == b && w / 0x100 % 0x100 == c && w % 0x100 == d
  {
    var w: int := a as int * 0x100_0000 + b as int * 0x1_0000 + c as int * 0x100 + d;
    assert w / 0x1_0000 == a as int * 0x100 + b;
    assert w / 0x100 == (a as int * 0x100 + b) * 0x100 + c;
  }

  lemma ByteInverts(mem: Memory, pos: nat, bytes: seq<uint8>, i: nat)
    requires HoldsAt(mem, pos, Packed(bytes)) && i < |bytes|
    ensures ByteAt(mem, pos, i) == bytes[i]
  {
    var k := i / 4;
    assert mem(pos + k) == Packed(bytes)[k] == PackedWord(bytes, k);
    PackedByte(ByteOr0(bytes, 4 * k), ByteOr0(bytes, 4 * k + 1), ByteOr0(bytes, 4 * k + 2), ByteOr0(bytes, 4 * k + 3));
    assert i == 4 * k + i % 4;
  }

  /** The raw header comes back cut to 128 bytes and filled with zeros. */
  lemma HeaderBytesInvert(mem: Memory, pos: nat, bytes: seq<uint8>)
    requires |bytes| < TWO_32 && HoldsAt(mem, pos, Packed(bytes))
    ensures HeaderBytes(mem, pos, |bytes|) == CutHeader(bytes)
  {
    forall i | 0 <= i < RAW_HEADER_SIZE ensures HeaderBytes(mem, pos, |bytes|)[i] == CutHeader(bytes)[i] {
      if i < |bytes| {
        ByteInverts(mem, pos, bytes, i);
      }
    }
  }

  lemma HeaderInverts(mem: Memory, pos: nat, h: WireHeader, slot: FlowSample)
    requires |h.bytes| + 3 < TWO_32 && HoldsAt(mem, pos, HeaderWords(h))
    ensures Same(FlowRecord(mem, pos, slot).0, FilledHeader(h, slot))
    ensures FlowRecord(mem, pos, slot).1 == pos + |HeaderWords(h)|
  {
    var fixed: seq<uint32> := [h.protocol, h.frameLength, h.stripped, |h.bytes|];
    var body := fixed + Packed(h.bytes);
    var tag: seq<uint32> := [1, 4 * |body| % TWO_32];
    HoldsParts(mem, pos, tag, body);
    HoldsParts(mem, pos + 2, fixed, Packed(h.bytes));
    HeaderBytesInvert(mem, pos + 6, h.bytes);
    hide HeaderBytes;
    hide Packed;
  }

  // ----- samples -----

  /** The fields of a counter slot that the head of the sample fills. */
  function FilledCntr(w: WireSample, slot: CntrSample): CntrSample
    requires w.WireCntr? && SampleOk(w)
  {
    slot.(sequenceNumber := w.sequence,
          sourceIdType := SeenClass(w.expanded, w.source), sourceIdIndex := w.source.index)
  }

  lemma CounterHeadInverts(mem: Memory, pos: nat, w: WireSample, slot: CntrSample)
    requires w.WireCntr? && SampleOk(w) && HoldsAt(mem, pos, CounterHead(w))
    ensures CounterSample(mem, pos, slot, w.expanded) ==
            CounterRecords(mem, pos + |CounterHead(w)|, |w.records|, FilledCntr(w, slot))
  {
    hide RecordOk, CounterRecords;
    var head := CounterHead(w);
    if w.expanded {
      assert head == [w.sequence, w.source.class_, w.source.index, |w.records|];
    } else {
      var word := SourceWords(false, w.source)[0];
      CompactInverts(w.source, word);
      assert head == [w.sequence, word, |w.records|];
    }
  }

  lemma CounterSampleInverts(mem: Memory, pos: nat, w: WireSample, slot: CntrSample)
    requires w.WireCntr? && SampleOk(w) && HoldsAt(mem, pos, SampleBody(w))
    ensures Same(CounterSample(mem, pos, slot, w.expanded).0, ApplyRecords(w.records, FilledCntr(w, slot)))
    ensures CounterSample(mem, pos, slot, w.expanded).1 == pos + |SampleBody(w)|
  {
    hide HoldsAt, RecordsOk, CounterHead, RecordsWords, ApplyRecords, CounterRecords, CounterSample, FilledCntr;
    HoldsParts(mem, pos, CounterHead(w), RecordsWords(w.records));
    CounterHeadInverts(mem, pos, w, slot);
    RecordsInvert(mem, pos + |CounterHead(w)|, w.records, FilledCntr(w, slot));
  }

  /** The fields of a flow slot that the head of the sample fills. */
  function FilledFlow(w: WireSample, slot: FlowSample): FlowSample
    requires w.WireFlow? && SampleOk(w)
  {
    slot.(sequenceNumber := w.sequence,
          sourceIdType := SeenClass(w.expanded, w.source), sourceIdIndex := w.source.index,
          samplingRate := w.rate, samplePool := w.pool, drops := w.drops,
          inputIfFormat := SeenFormat(w.expanded, w.input), inputIfValue := w.input.value,
          outputIfFormat := SeenFormat(w.expanded, w.output), outputIfValue := w.output.value)
  }

  lemma FlowHeadInverts(mem: Memory, pos: nat, w: WireSample, slot: FlowSample)
    requires w.WireFlow? && SampleOk(w) && HoldsAt(mem, pos, FlowHead(w))
    ensures FlowSampleAt(mem, pos, slot, w.expanded) == FlowRecord(mem, pos + |FlowHead(w)|, FilledFlow(w, slot))
  {
    hide FlowRecord;
    var head := FlowHead(w);
    if w.expanded {
      assert head == [w.sequence, w.source.class_, w.source.index, w.rate, w.pool, w.drops,
                      w.input.format, w.input.value, w.output.format, w.output.value, |w.flowRecords|];
    } else {
      var source := SourceWords(false, w.source)[0];
      var input, output := InterfaceWords(false, w.input)[0], InterfaceWords(false, w.output)[0];
      CompactInverts(w.source, source);
      CompactInterfaceInverts(w.input, input);
      CompactInterfaceInverts(w.output, output);
      assert head == [w.sequence, source, w.rate, w.pool, w.drops, input, output, |w.flowRecords|];
    }
  }

  lemma FirstRecord(rs: seq<WireFlowRecord>)
    requires rs != [] && FlowRecordsOk(rs)
    ensures FlowRecordOk(rs[0]) && FlowRecordsOk(rs[1..])
    ensures FlowRecordsWords(rs) == FlowRecordWords(rs[0]) + FlowRecordsWords(rs[1..])
    ensures |FlowRecordsWords(rs)| == |FlowRecordWords(rs[0])| <==> |rs| == 1
  {
    hide FlowRecordOk, FlowRecordWords;
  }

  lemma FlowRecordInverts(mem: Memory, pos: nat, r: WireFlowRecord, slot: FlowSample)
    requires FlowRecordOk(r) && HoldsAt(mem, pos, FlowRecordWords(r))
    ensures Same(FlowRecord(mem, pos, slot).0, if r.HeaderRecord? then FilledHeader(r.header, slot) else slot)
    ensures FlowRecord(mem, pos, slot).1 == pos + |FlowRecordWords(r)|
  {
    hide HoldsAt, HeaderWords, FilledHeader, SampledHeader, Skip;
    match r
    case HeaderRecord(header) => HeaderInverts(mem, pos, header, slot);
    case OtherFlowRecord(tag, length, body) => OtherRecordInverts(mem, pos, tag, length, body);
  }

  /** A flow sample is stored from its head and its first record, and the cursor stops behind that
      record. */
  lemma FlowSampleInverts(mem: Memory, pos: nat, w: WireSample, slot: FlowSample)
    requires w.WireFlow? && SampleOk(w) && w.flowRecords != [] && HoldsAt(mem, pos, SampleBody(w))
    ensures Same(FlowSampleAt(mem, pos, slot, w.expanded).0, ApplyFirst(w.flowRecords, FilledFlow(w, slot)))
    ensures FlowRecordOk(w.flowRecords[0])
    ensures FlowSampleAt(mem, pos, slot, w.expanded).1 == pos + |FlowHead(w)| + |FlowRecordWords(w.flowRecords[0])|
  {
    hide HoldsAt, FlowHead, FlowRecordsWords, FlowRecordWords, FlowRecord, FlowSampleAt, FilledFlow, FilledHeader;
    hide FlowRecordsOk, FlowRecordOk;
    FirstRecord(w.flowRecords);
    var first, rest := FlowRecordWords(w.flowRecords[0]), FlowRecordsWords(w.flowRecords[1..]);
    HoldsParts(mem, pos, FlowHead(w), FlowRecordsWords(w.flowRecords));
    HoldsParts(mem, pos + |FlowHead(w)|, first, rest);
    FlowHeadInverts(mem, pos, w, slot);
    FlowRecordInverts(mem, pos + |FlowHead(w)|, w.flowRecords[0], FilledFlow(w, slot));
  }

  lemma FlowRecordAdvances(mem: Memory, pos: nat, slot: FlowSample)
    ensures FlowRecord(mem, pos, slot).1 >= pos + 2
  {
    hide HeaderBytes;
  }

  /** Parsing a flow sample ends where the sample ends exactly if the sample has one record. */
  lemma FlowCursorIff(mem: Memory, pos: nat, w: WireSample, slot: FlowSample)
    requires w.WireFlow? && SampleOk(w) && HoldsAt(mem, pos, SampleBody(w))
    ensures FlowSampleAt(mem, pos, slot, w.expanded).1 == pos + |SampleBody(w)| <==> |w.flowRecords| == 1
  {
    hide HoldsAt, FlowHead, FlowRecordsWords, FlowRecordWords, FlowRecord, FlowSampleAt, FilledFlow;
    hide FlowRecordsOk, FlowRecordOk;
    if w.flowRecords == [] {
      NoRecords(w);
      HoldsParts(mem, pos, FlowHead(w), []);
      FlowHeadInverts(mem, pos, w, slot);
      FlowRecordAdvances(mem, pos + |FlowHead(w)|, FilledFlow(w, slot));
    } else {
      FirstRecord(w.flowRecords);
      FlowSampleInverts(mem, pos, w, slot);
    }
  }

  lemma NoRecords(w: WireSample)
    requires w.WireFlow? && SampleOk(w) && w.flowRecords == []
    ensures SampleBody(w) == FlowHead(w) + [] && |SampleBody(w)| == |FlowHead(w)|
  {
    hide FlowHead;
    assert FlowHead(w) + [] == FlowHead(w);
  }

  /** Whatever the head and the first record do not say comes from the slot. */
  lemma FlowSlotFilled(w: WireSample, t: Template, b: Buffers)
    requires w.WireFlow? && SampleOk(w)
    ensures StoredFlow(w, t, b.staleFlow(|b.flows|)) == ApplyFirst(w.flowRecords, FilledFlow(w, FlowSlot(b, t)))
  {
    hide FlowRecordsOk, CutHeader;
  }

  lemma CntrSlotFilled(w: WireSample, t: Template, b: Buffers)
    requires w.WireCntr? && SampleOk(w)
    ensures StoredCntr(w, t, b.staleCntr(|b.cntrs|)) == ApplyRecords(w.records, FilledCntr(w, CntrSlot(b, t)))
  {
    hide ApplyRecords;
  }

  /** A sample is stored as it was encoded, and the cursor stands behind it exactly if it is not a
      flow sample with more than one record. */
  lemma SampleInverts(mem: Memory, pos: nat, w: WireSample, t: Template, b: Buffers)
    requires SampleOk(w) && HoldsAt(mem, pos, SampleWords(w)) && (w.WireFlow? ==> w.flowRecords != [])
    ensures Same(SampleAt(mem, pos, t, b).0, Stored(w, t, b))
    ensures SampleAt(mem, pos, t, b).1 == pos + |SampleWords(w)| <==> OneRecord(w)
  {
    hide FlowSampleAt, CounterSample, ApplyFirst, FilledFlow, FilledCntr;
    hide StoredFlow, StoredCntr, ApplyRecords, FlowSlot, CntrSlot, SampleBody;
    hide FlowRecordsOk, RecordsOk;
    SampleCursorIff(mem, pos, w, t, b);
    match w
    case WireFlow(expanded, _, _, _, _, _, _, _, _) =>
      HoldsParts(mem, pos, SampleWords(w)[..2], SampleBody(w));
      FlowSampleInverts(mem, pos + 2, w, FlowSlot(b, t));
      FlowSlotFilled(w, t, b);
    case WireCntr(expanded, _, _, _) =>
      HoldsParts(mem, pos, SampleWords(w)[..2], SampleBody(w));
      CounterSampleInverts(mem, pos + 2, w, CntrSlot(b, t));
      CntrSlotFilled(w, t, b);
    case WireOther(tag, length, body) =>
      OtherRecordInverts(mem, pos, tag, length, body);
  }

  lemma SampleCursorIff(mem: Memory, pos: nat, w: WireSample, t: Template, b: Buffers)
    requires SampleOk(w) && HoldsAt(mem, pos, SampleWords(w))
    ensures SampleAt(mem, pos, t, b).1 == pos + |SampleWords(w)| <==> OneRecord(w)
  {
    hide FlowSampleAt, CounterSample, FlowSlot, CntrSlot, SampleBody, ApplyRecords, FilledCntr;
    hide FlowRecordsOk, RecordsOk;
    match w
    case WireFlow(expanded, _, _, _, _, _, _, _, _) =>
      HoldsParts(mem, pos, SampleWords(w)[..2], SampleBody(w));
      FlowCursorIff(mem, pos + 2, w, FlowSlot(b, t));
    case WireCntr(expanded, _, _, _) =>
      HoldsParts(mem, pos, SampleWords(w)[..2], SampleBody(w));
      CounterSampleInverts(mem, pos + 2, w, CntrSlot(b, t));
    case WireOther(tag, length, body) =>
      OtherRecordInverts(mem, pos, tag, length, body);
  }

  // ----- datagrams -----

  lemma SamplesStep(mem: Memory, pos: nat, ws: seq<WireSample>, t: Template, b: Buffers)
    requires SamplesOk(ws)
    ensures ws == [] ==>
            && Same(SamplesAt(mem, pos, |ws|, t, b).0, StoredAll(ws, t, b))
            && SamplesAt(mem, pos, |ws|, t, b).1 == pos + |SamplesWords(ws)|
    ensures ws != [] ==>
            var front, w := ws[..|ws| - 1], ws[|ws| - 1];
            && SamplesOk(front) && SampleOk(w) && (AllOneRecord(ws) ==> AllOneRecord(front) && OneRecord(w))
            && SamplesWords(ws) == SamplesWords(front) + SampleWords(w)
            && StoredAll(ws, t, b) == Stored(w, t, StoredAll(front, t, b))
            && SamplesAt(mem, pos, |ws|, t, b) ==
               SampleAt(mem, SamplesAt(mem, pos, |front|, t, b).1, t, SamplesAt(mem, pos, |front|, t, b).0)
  {
    hide SampleAt, Stored, SampleWords, SampleOk, OneRecord;
  }

  lemma {:induction false} SamplesInvert(mem: Memory, pos: nat, ws: seq<WireSample>, t: Template, b: Buffers)
    requires SamplesOk(ws) && AllOneRecord(ws) && HoldsAt(mem, pos, SamplesWords(ws))
    ensures Same(SamplesAt(mem, pos, |ws|, t, b).0, StoredAll(ws, t, b))
    ensures SamplesAt(mem, pos, |ws|, t, b).1 == pos + |SamplesWords(ws)|
  {
    hide HoldsAt, SamplesOk, AllOneRecord, SampleOk, SamplesWords, SampleWords, StoredAll, Stored, SamplesAt, SampleAt;
    SamplesStep(mem, pos, ws, t, b);
    if ws != [] {
      var front, w := ws[..|ws| - 1], ws[|ws| - 1];
      HoldsParts(mem, pos, SamplesWords(front), SampleWords(w));
      SamplesInvert(mem, pos, front, t, b);
      SampleInverts(mem, pos + |SamplesWords(front)|, w, t, StoredAll(front, t, b));
    }
  }

  /** Parsing an encoded datagram reads exactly its words, appends its known samples in order
      to the buffers, whatever the slots held before, and does the agent's accounting. */
  lemma DatagramInverts(mem: Memory, address: uint32, subAgent: uint32, sequence: uint32, uptime: uint32,
                        ws: seq<WireSample>, sender: uint32, a: Agent, now: nat, b: Buffers)
    requires |ws| < TWO_32 && SamplesOk(ws) && AllOneRecord(ws)
    requires HoldsAt(mem, 0, DatagramWords(address, subAgent, sequence, uptime, ws))
    ensures var (a', b', end) := DatagramAt(mem, a, now, b);
            && a' == Account(a, sequence, uptime, now)
            && b' == StoredAll(ws, Template(now, a.address, subAgent), b)
            && end == |DatagramWords(address, subAgent, sequence, uptime, ws)|
    ensures AgentAddress(mem, sender) == if address == 0x7f00_0001 then sender else address
  {
    hide SamplesOk, AllOneRecord, SamplesWords, StoredAll, SamplesAt, Account;
    var head: seq<uint32> := [5, 1, address, subAgent, sequence, uptime, |ws|];
    HoldsParts(mem, 0, head, SamplesWords(ws));
    SamplesInvert(mem, 7, ws, Template(now, a.address, subAgent), b);
  }
}
