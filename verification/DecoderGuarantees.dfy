/**
 What the decoder guarantees beyond inverting the encoder: unknown tags leave no trace, which
 fields of a reused slot a datagram determines, when the two encodings of a sample agree, and
 what an agent's drop counter says after a run of datagrams.
 */
module DecoderGuarantees {
  import opened Samples
  import opened Decoder
  import opened Encoding

  // ----- what unknown tags and stale slots do -----

  /** The samples whose tag the decoder knows, each with the records it knows. */
  function Known(ws: seq<WireSample>): seq<WireSample> {
    if ws == [] then []
    else
      var w := ws[|ws| - 1];
      Known(ws[..|ws| - 1]) +
      match w
      case WireFlow(_, _, _, _, _, _, _, _, _) => [w]
      case WireCntr(_, _, _, records) => [w.(records := KnownRecords(records))]
      case WireOther(_, _, _) => []
  }

  function KnownRecords(rs: seq<WireRecord>): (ks: seq<WireRecord>)
    ensures |ks| <= |rs|
    ensures RecordsOk(ks)
  {
    if rs == [] then []
    else
      var r := rs[|rs| - 1];
      KnownRecords(rs[..|rs| - 1]) + if r.OtherRecord? then [] else [r]
  }

  lemma {:induction false} UnknownRecordsIgnored(rs: seq<WireRecord>, slot: CntrSample)
    ensures ApplyRecords(KnownRecords(rs), slot) == ApplyRecords(rs, slot)
  {
    if rs != [] {
      var front, r := rs[..|rs| - 1], rs[|rs| - 1];
      UnknownRecordsIgnored(front, slot);
      if !r.OtherRecord? {
        assert (KnownRecords(front) + [r])[..|KnownRecords(front)|] == KnownRecords(front);
      } else {
        assert KnownRecords(rs) == KnownRecords(front);
      }
    }
  }

  /** Samples and records with unknown tags leave no trace. */
  lemma {:induction false} UnknownIgnored(ws: seq<WireSample>, t: Template, b: Buffers)
    requires SamplesOk(ws)
    ensures SamplesOk(Known(ws)) && StoredAll(Known(ws), t, b) == StoredAll(ws, t, b)
  {
    if ws != [] {
      var front, w := ws[..|ws| - 1], ws[|ws| - 1];
      UnknownIgnored(front, t, b);
      var known := Known(front);
      if w.WireOther? {
        assert Known(ws) == known;
      } else {
        var k := if w.WireCntr? then w.(records := KnownRecords(w.records)) else w;
        assert Known(ws) == known + [k];
        assert (known + [k])[..|known|] == known;
        if w.WireCntr? {
          UnknownRecordsIgnored(w.records, FilledCntr(w, CntrSlot(StoredAll(front, t, b), t)));
          CntrSlotFilled(w, t, StoredAll(front, t, b));
          CntrSlotFilled(k, t, StoredAll(front, t, b));
        }
      }
    }
  }

  function LastGeneric(rs: seq<WireRecord>, otherwise: GenericCounters): GenericCounters {
    if rs == [] then otherwise
    else if rs[|rs| - 1].GenericRecord? then rs[|rs| - 1].generic
    else LastGeneric(rs[..|rs| - 1], otherwise)
  }

  function LastEthernet(rs: seq<WireRecord>, otherwise: EthernetCounters): EthernetCounters {
    if rs == [] then otherwise
    else if rs[|rs| - 1].EthernetRecord? then rs[|rs| - 1].ethernet
    else LastEthernet(rs[..|rs| - 1], otherwise)
  }

  /** The last record of a kind wins; without one the slot's stale counters stay. */
  lemma {:induction false} LastRecordWins(rs: seq<WireRecord>, slot: CntrSample)
    ensures ApplyRecords(rs, slot) ==
            slot.(generic := LastGeneric(rs, slot.generic), ethernet := LastEthernet(rs, slot.ethernet))
  {
    if rs != [] {
      LastRecordWins(rs[..|rs| - 1], slot);
    }
  }

  /** A counter sample says everything about its slot: old counters do not show. */
  ghost predicate Determined(rs: seq<WireRecord>) {
    forall s: CntrSample, g: GenericCounters, e: EthernetCounters ::
      ApplyRecords(rs, s.(generic := g, ethernet := e)) == ApplyRecords(rs, s)
  }

  predicate HasGeneric(rs: seq<WireRecord>) {
    exists i :: 0 <= i < |rs| && rs[i].GenericRecord?
  }

  predicate HasEthernet(rs: seq<WireRecord>) {
    exists i :: 0 <= i < |rs| && rs[i].EthernetRecord?
  }

  lemma {:induction false} LastOf(rs: seq<WireRecord>, g: GenericCounters, g': GenericCounters,
                                  e: EthernetCounters, e': EthernetCounters)
    ensures if HasGeneric(rs) then LastGeneric(rs, g) == LastGeneric(rs, g') else LastGeneric(rs, g) == g
    ensures if HasEthernet(rs) then LastEthernet(rs, e) == LastEthernet(rs, e') else LastEthernet(rs, e) == e
  {
    if rs != [] {
      var front, r := rs[..|rs| - 1], rs[|rs| - 1];
      LastOf(front, g, g', e, e');
      assert HasGeneric(rs) <==> HasGeneric(front) || r.GenericRecord? by {
        assert forall i :: 0 <= i < |front| ==> front[i] == rs[i];
      }
      assert HasEthernet(rs) <==> HasEthernet(front) || r.EthernetRecord? by {
        assert forall i :: 0 <= i < |front| ==> front[i] == rs[i];
      }
    }
  }

  /** Slots are reused without being cleared: the stored sample is free of the slot's old
      counters exactly if the datagram has records of both kinds. */
  lemma DeterminedIff(rs: seq<WireRecord>)
    ensures Determined(rs) <==> HasGeneric(rs) && HasEthernet(rs)
  {
    hide ApplyRecords, LastGeneric, LastEthernet, HasGeneric, HasEthernet;
    forall s: CntrSample, g: GenericCounters, e: EthernetCounters
      ensures HasGeneric(rs) && HasEthernet(rs) ==>
                ApplyRecords(rs, s.(generic := g, ethernet := e)) == ApplyRecords(rs, s)
    {
      LastRecordWins(rs, s);
      LastRecordWins(rs, s.(generic := g, ethernet := e));
      LastOf(rs, s.generic, g, s.ethernet, e);
    }
    if !HasGeneric(rs) || !HasEthernet(rs) {
      var g := GenericCounters(0, 0, 0, 0, 0, 0, 0, 0, 0, 0, 0, 0, 0, 0, 0, 0, 0, 0, 0);
      var e := EthernetCounters(0, 0, 0, 0, 0, 0, 0, 0, 0, 0, 0, 0, 0);
      var s := CntrSample(0, 0, 0, 0, 0, 0, g, e);
      var g', e' := g.(ifIndex := 1), e.(fcsErrors := 1);
      LastOf(rs, g, g, e, e);
      LastOf(rs, g', g', e', e');
      LastRecordWins(rs, s);
      LastRecordWins(rs, s.(generic := g', ethernet := e'));
      assert ApplyRecords(rs, s.(generic := g', ethernet := e')) != ApplyRecords(rs, s);
    }
  }

  // ----- the two encodings -----

  /** Classes below 128 and formats below 2 keep the sign bit of a compact id clear. */
  predicate SignClear(w: WireSample)
    requires !w.WireOther?
  {
    w.source.class_ < 0x80 && (w.WireFlow? ==> w.input.format < 2 && w.output.format < 2)
  }

  /** The compact and the expanded encoding of a sample are stored alike exactly if all sign bits are
      clear, and each leaves the cursor at the sample that follows exactly if a flow sample has one
      record. */
  lemma EncodingsAgreeIff(mem: Memory, pos: nat, mem': Memory, pos': nat, w: WireSample, t: Template, b: Buffers)
    requires !w.WireOther? && !w.expanded && SampleOk(w) && (w.WireFlow? ==> w.flowRecords != [])
    requires HoldsAt(mem, pos, SampleWords(w)) && HoldsAt(mem', pos', SampleWords(w.(expanded := true)))
    ensures SampleAt(mem, pos, t, b).0 == SampleAt(mem', pos', t, b).0 <==> SignClear(w)
    ensures SampleAt(mem, pos, t, b).1 == pos + |SampleWords(w)| <==> OneRecord(w)
    ensures SampleAt(mem', pos', t, b).1 == pos' + |SampleWords(w.(expanded := true))| <==> OneRecord(w)
  {
    hide HoldsAt, SampleWords, SampleAt, ApplyRecords, FlowRecordsOk;
    var w' := w.(expanded := true);
    SampleInverts(mem, pos, w, t, b);
    SampleInverts(mem', pos', w', t, b);
    if w.WireFlow? {
      var n, stale := |b.flows|, b.staleFlow(|b.flows|);
      assert Stored(w, t, b).flows[n] == StoredFlow(w, t, stale);
      assert Stored(w', t, b).flows[n] == StoredFlow(w', t, stale);
    } else {
      var n, stale := |b.cntrs|, b.staleCntr(|b.cntrs|);
      assert Stored(w, t, b).cntrs[n] == StoredCntr(w, t, stale);
      assert Stored(w', t, b).cntrs[n] == StoredCntr(w', t, stale);
      CntrSlotFilled(w, t, b);
      CntrSlotFilled(w', t, b);
      LastRecordWins(w.records, FilledCntr(w, CntrSlot(b, t)));
      LastRecordWins(w.records, FilledCntr(w', CntrSlot(b, t)));
    }
  }

  // ----- flow samples and their slots -----

  /** A slot with what every sample gets from its datagram. */
  function Stamped(slot: FlowSample, t: Template): FlowSample {
    slot.(timestamp := t.timestamp, agentAddress := t.agentAddress, subAgentId := t.subAgentId)
  }

  /** What is stored of a flow sample does not depend on its slot. */
  ghost predicate FlowDetermined(mem: Memory, pos: nat, t: Template, expanded: bool) {
    forall s, s' ::
      FlowSampleAt(mem, pos, Stamped(s, t), expanded).0 == FlowSampleAt(mem, pos, Stamped(s', t), expanded).0
  }

  lemma HeaderKeptOrNot(mem: Memory, pos: nat, slot: FlowSample)
    ensures mem(pos) != 1 ==> FlowRecord(mem, pos, slot).0 == slot
    ensures mem(pos) == 1 ==> FlowRecord(mem, pos, slot).0 == SampledHeader(mem, pos + 2, slot).0
  {
    hide HeaderBytes;
  }

  /** Slots are reused without being cleared: a stored flow sample is free of the packet header that
      its slot held before exactly if the record that is read is a sampled header. */
  lemma FlowDeterminedIff(mem: Memory, pos: nat, t: Template, expanded: bool)
    ensures FlowDetermined(mem, pos, t, expanded) <==> mem(if expanded then pos + 11 else pos + 8) == 1
  {
    hide FlowRecord, SourceClass, SourceIndex, InterfaceFormat, InterfaceValue, HeaderBytes;
    var p := if expanded then pos + 11 else pos + 8;
    forall s, s'
      ensures mem(p) == 1 ==>
                FlowSampleAt(mem, pos, Stamped(s, t), expanded).0 == FlowSampleAt(mem, pos, Stamped(s', t), expanded).0
    {
      HeaderKeptOrNot(mem, p, FlowHeadAt(mem, pos, Stamped(s, t), expanded));
      HeaderKeptOrNot(mem, p, FlowHeadAt(mem, pos, Stamped(s', t), expanded));
    }
    if mem(p) != 1 {
      var s: FlowSample :| true;
      var s' := s.(rawHeaderLength := if s.rawHeaderLength == 0 then 1 else 0);
      HeaderKeptOrNot(mem, p, FlowHeadAt(mem, pos, Stamped(s, t), expanded));
      HeaderKeptOrNot(mem, p, FlowHeadAt(mem, pos, Stamped(s', t), expanded));
      assert FlowSampleAt(mem, pos, Stamped(s, t), expanded).0 != FlowSampleAt(mem, pos, Stamped(s', t), expanded).0;
    }
  }

  // ----- flow samples with another number of records -----

  /** A datagram's words hold each of its samples where the ones before it end. */
  lemma {:induction false} HoldsSample(mem: Memory, pos: nat, ws: seq<WireSample>, i: nat)
    requires SamplesOk(ws) && i < |ws| && HoldsAt(mem, pos, SamplesWords(ws))
    ensures SamplesOk(ws[..i]) && SamplesOk(ws[..i + 1])
    ensures |SamplesWords(ws[..i + 1])| == |SamplesWords(ws[..i])| + |SampleWords(ws[i])|
    ensures HoldsAt(mem, pos, SamplesWords(ws[..i])) && HoldsAt(mem, pos + |SamplesWords(ws[..i])|, SampleWords(ws[i]))
  {
    hide HoldsAt, SampleWords, SampleOk;
    var front, w := ws[..|ws| - 1], ws[|ws| - 1];
    HoldsParts(mem, pos, SamplesWords(front), SampleWords(w));
    if i < |front| {
      HoldsSample(mem, pos, front, i);
      assert front[..i] == ws[..i] && front[..i + 1] == ws[..i + 1];
    } else {
      assert ws[..i] == front && ws[..i + 1] == ws;
    }
  }

  /** The cursor stands where the first `n` samples end. */
  ghost predicate InStep(mem: Memory, pos: nat, ws: seq<WireSample>, t: Template, b: Buffers, n: nat)
    requires SamplesOk(ws)
  {
    n <= |ws| ==> SamplesOk(ws[..n]) && SamplesAt(mem, pos, n, t, b).1 == pos + |SamplesWords(ws[..n])|
  }

  lemma StepStaysIff(mem: Memory, pos: nat, ws: seq<WireSample>, t: Template, b: Buffers, i: nat)
    requires SamplesOk(ws) && i < |ws| && HoldsAt(mem, pos, SamplesWords(ws)) && InStep(mem, pos, ws, t, b, i)
    ensures InStep(mem, pos, ws, t, b, i + 1) <==> OneRecord(ws[i])
  {
    hide HoldsAt, SampleWords, SamplesWords, SampleOk, SampleAt, OneRecord;
    HoldsSample(mem, pos, ws, i);
    SampleOkAt(ws, i);
    SampleCursorIff(mem, pos + |SamplesWords(ws[..i])|, ws[i], t, SamplesAt(mem, pos, i, t, b).0);
  }

  lemma SampleOkAt(ws: seq<WireSample>, i: nat)
    requires SamplesOk(ws) && i < |ws|
    ensures SampleOk(ws[i])
  {
  }

  lemma InStepAtFirst(mem: Memory, pos: nat, ws: seq<WireSample>, t: Template, b: Buffers)
    requires SamplesOk(ws)
    ensures InStep(mem, pos, ws, t, b, 0)
  {
    hide SampleOk;
    assert ws[..0] == [];
  }

  lemma {:induction false} InStepUpTo(mem: Memory, pos: nat, ws: seq<WireSample>, t: Template, b: Buffers, n: nat)
    requires SamplesOk(ws) && n <= |ws| && HoldsAt(mem, pos, SamplesWords(ws)) && AllOneRecord(ws)
    ensures InStep(mem, pos, ws, t, b, n)
    decreases n
  {
    hide HoldsAt, SamplesOk, OneRecord, SamplesWords, InStep;
    if n == 0 {
      InStepAtFirst(mem, pos, ws, t, b);
    } else {
      InStepUpTo(mem, pos, ws, t, b, n - 1);
      StepStaysIff(mem, pos, ws, t, b, n - 1);
    }
  }

  /** The cursor finds the start of every sample and the end of the datagram exactly if every flow
      sample has one record: the first one that has none or several puts the parser out of step. */
  lemma InStepIff(mem: Memory, pos: nat, ws: seq<WireSample>, t: Template, b: Buffers)
    requires SamplesOk(ws) && HoldsAt(mem, pos, SamplesWords(ws))
    ensures (forall n: nat :: InStep(mem, pos, ws, t, b, n)) <==> AllOneRecord(ws)
  {
    hide HoldsAt, SampleOk, OneRecord, SamplesWords, SamplesAt;
    if AllOneRecord(ws) {
      forall n: nat ensures InStep(mem, pos, ws, t, b, n) {
        if n <= |ws| {
          InStepUpTo(mem, pos, ws, t, b, n);
        }
      }
    } else if forall n: nat :: InStep(mem, pos, ws, t, b, n) {
      var i :| 0 <= i < |ws| && !OneRecord(ws[i]);
      assert InStep(mem, pos, ws, t, b, i) && InStep(mem, pos, ws, t, b, i + 1);
      StepStaysIff(mem, pos, ws, t, b, i);
    }
  }

  lemma {:induction false} HoldsFlowRecord(mem: Memory, pos: nat, rs: seq<WireFlowRecord>, i: nat)
    requires FlowRecordsOk(rs) && i < |rs| && HoldsAt(mem, pos, FlowRecordsWords(rs))
    ensures FlowRecordOk(rs[i]) && FlowRecordsOk(rs[..i]) && FlowRecordsOk(rs[..i + 1])
    ensures |FlowRecordsWords(rs[..i + 1])| == |FlowRecordsWords(rs[..i])| + |FlowRecordWords(rs[i])|
    ensures HoldsAt(mem, pos + |FlowRecordsWords(rs[..i])|, FlowRecordWords(rs[i]))
    decreases i
  {
    hide HoldsAt, FlowRecordWords, FlowRecordOk;
    FirstRecord(rs);
    HoldsParts(mem, pos, FlowRecordWords(rs[0]), FlowRecordsWords(rs[1..]));
    FirstRecord(rs[..i + 1]);
    if i > 0 {
      FirstRecord(rs[..i]);
      HoldsFlowRecord(mem, pos + |FlowRecordWords(rs[0])|, rs[1..], i - 1);
      assert rs[1..][..i - 1] == rs[..i][1..] && rs[1..][..i] == rs[..i + 1][1..];
    } else {
      assert rs[..1][1..] == [] && rs[..0] == [];
    }
  }

  predicate UnknownSampleTag(tag: uint32) {
    tag != 1 && tag != 3 && tag != 2 && tag != 4
  }

  /** The records behind the first one, none of them with the tag of a sample. */
  predicate ExtraRecords(w: WireSample) {
    w.WireFlow? && w.flowRecords != [] &&
    forall i :: 1 <= i < |w.flowRecords| ==> w.flowRecords[i].OtherFlowRecord? && UnknownSampleTag(w.flowRecords[i].tag)
  }

  lemma HoldsFlowParts(mem: Memory, pos: nat, w: WireSample)
    requires w.WireFlow? && SampleOk(w) && HoldsAt(mem, pos, SampleWords(w))
    ensures HoldsAt(mem, pos + 2, SampleBody(w)) && FlowRecordsOk(w.flowRecords)
    ensures HoldsAt(mem, pos + 2 + |FlowHead(w)|, FlowRecordsWords(w.flowRecords))
    ensures |SampleWords(w)| == 2 + |FlowHead(w)| + |FlowRecordsWords(w.flowRecords)|
    ensures mem(pos) == if w.expanded then 3 else 1
  {
    hide FlowHead, FlowRecordsWords, FlowRecordsOk;
    HoldsParts(mem, pos, SampleWords(w)[..2], SampleBody(w));
    HoldsParts(mem, pos + 2, FlowHead(w), FlowRecordsWords(w.flowRecords));
  }

  /** Every record behind the first one is taken for a sample of its own and skipped, so it takes
      the place of a real sample: `n` records use up `n` of the announced samples. */
  lemma {:induction false} RecordsTakenForSamples(mem: Memory, pos: nat, w: WireSample, t: Template, b: Buffers, n: nat)
    requires ExtraRecords(w) && SampleOk(w) && HoldsAt(mem, pos, SampleWords(w)) && 1 <= n <= |w.flowRecords|
    ensures FlowRecordsOk(w.flowRecords[..n])
    ensures Same(SamplesAt(mem, pos, n, t, b).0, Stored(w, t, b))
    ensures SamplesAt(mem, pos, n, t, b).1 == pos + 2 + |FlowHead(w)| + |FlowRecordsWords(w.flowRecords[..n])|
    decreases n
  {
    hide HoldsAt, SampleOk, FlowHead, FlowRecordsWords, FlowRecordWords, FlowRecordOk, SampleWords, Skip;
    hide FlowRecordsOk, StoredFlow, FlowSampleAt, CounterSample, ApplyFirst, FilledFlow, FlowSlot, CntrSlot, SampleBody;
    var rs, p := w.flowRecords, pos + 2 + |FlowHead(w)|;
    HoldsFlowParts(mem, pos, w);
    HoldsFlowRecord(mem, p, rs, n - 1);
    if n == 1 {
      assert rs[..0] == [];
      NoRecordWords();
      IsEncodable(w);
      FlowSampleInverts(mem, pos + 2, w, FlowSlot(b, t));
      FlowSlotFilled(w, t, b);
      assert SamplesAt(mem, pos, 0, t, b) == (b, pos);
    } else {
      RecordsTakenForSamples(mem, pos, w, t, b, n - 1);
      var r, q := rs[n - 1], p + |FlowRecordsWords(rs[..n - 1])|;
      OtherFlowWords(r);
      OtherRecordInverts(mem, q, r.tag, r.length, r.body);
    }
  }

  lemma NoRecordWords()
    ensures FlowRecordsWords([]) == []
  {
  }

  lemma IsEncodable(w: WireSample)
    requires SampleOk(w) && w.WireFlow?
    ensures FlowRecordsOk(w.flowRecords)
  {
  }

  lemma OtherFlowWords(r: WireFlowRecord)
    requires FlowRecordOk(r) && r.OtherFlowRecord?
    ensures FlowRecordWords(r) == [r.tag, r.length] + r.body && Padded(r.length, r.body)
  {
  }

  lemma LengthOfTwo(w: WireSample, x: WireSample)
    requires SamplesOk([w, x])
    ensures SampleOk(w) && SampleOk(x)
    ensures |SamplesWords([w, x])| == |SampleWords(w)| + |SampleWords(x)|
  {
    hide SampleBody, SampleOk, SampleWords;
    assert [w, x][0] == w && [w, x][1] == x;
    assert [w, x][..1] == [w] && [w][..0] == [];
    assert SamplesWords([w]) == SamplesWords([]) + SampleWords(w);
  }

  /** A flow sample with two records swallows the sample behind it. */
  lemma SecondSampleLost(mem: Memory, address: uint32, subAgent: uint32, sequence: uint32, uptime: uint32,
                         w: WireSample, x: WireSample, a: Agent, now: nat, b: Buffers)
    requires ExtraRecords(w) && |w.flowRecords| == 2 && SamplesOk([w, x]) && SampleOk(w) && SampleOk(x)
    requires HoldsAt(mem, 0, DatagramWords(address, subAgent, sequence, uptime, [w, x]))
    ensures DatagramAt(mem, a, now, b).1 == Stored(w, Template(now, a.address, subAgent), b)
    ensures DatagramAt(mem, a, now, b).2
            == |DatagramWords(address, subAgent, sequence, uptime, [w, x])| - |SampleWords(x)|
  {
    hide SampleOk, SamplesWords, SampleWords, SamplesOk, SamplesAt, Stored, FlowHead, FlowRecordsWords, FlowRecordsOk;
    var ws, t := [w, x], Template(now, a.address, subAgent);
    var head: seq<uint32> := [5, 1, address, subAgent, sequence, uptime, 2];
    LengthOfTwo(w, x);
    HoldsParts(mem, 0, head, SamplesWords(ws));
    HoldsSample(mem, 7, ws, 0);
    assert ws[..0] == [] && w.flowRecords[..2] == w.flowRecords;
    NoSampleWords();
    RecordsTakenForSamples(mem, 7, w, t, b, 2);
    HoldsFlowParts(mem, 7, w);
  }

  lemma NoSampleWords()
    ensures SamplesWords([]) == []
  {
  }

  /** A datagram and nothing but zeros behind it. */
  function Received(ws: seq<uint32>): Memory {
    (j: nat) => if j < |ws| then ws[j] else 0
  }

  /** A flow sample with a sampled header and an extended switch record. */
  function SwitchExample(): (w: WireSample)
    ensures SampleOk(w) && w.WireFlow? && ExtraRecords(w) && |w.flowRecords| == 2
  {
    WireFlow(false, 1, WireSource(0, 1), 512, 1000, 0, WireInterface(0, 1), WireInterface(0, 2),
             [HeaderRecord(WireHeader(1, 64, 4, [])), OtherFlowRecord(1001, 16, [0, 0, 0, 0])])
  }

  function CounterExample(): (x: WireSample)
    ensures SampleOk(x) && x.WireCntr?
  {
    WireCntr(false, 1, WireSource(0, 1), [])
  }

  lemma ReceivedHolds(ws: seq<uint32>)
    ensures HoldsAt(Received(ws), 0, ws)
  {
  }

  /** Two samples are announced, a flow sample and a counter sample; the counter sample is lost. */
  lemma CounterSampleLost(a: Agent, now: nat, b: Buffers)
    ensures SamplesOk([SwitchExample(), CounterExample()])
    ensures var words := DatagramWords(0x0a00_0001, 0, 7, 100, [SwitchExample(), CounterExample()]);
            var (_, b', end) := DatagramAt(Received(words), a, now, b);
            b'.cntrs == b.cntrs && |b'.flows| == |b.flows| + 1 && end < |words|
  {
    hide SwitchExample, CounterExample, DatagramWords, DatagramAt, Received;
    hide SampleOk, ExtraRecords, HoldsAt, StoredFlow;
    var w, x := SwitchExample(), CounterExample();
    var words := DatagramWords(0x0a00_0001, 0, 7, 100, [w, x]);
    ReceivedHolds(words);
    SecondSampleLost(Received(words), 0x0a00_0001, 0, 7, 100, w, x, a, now, b);
    SampleNotEmpty(x);
  }

  lemma SampleNotEmpty(x: WireSample)
    requires SampleOk(x)
    ensures |SampleWords(x)| >= 2
  {
    hide SampleBody;
  }
}
