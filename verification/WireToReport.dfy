/**
 From the words on the wire to the report: schedules of the collecting daemon in which every
 datagram is a memory of words that the parser decodes into slots with old contents.
 */
module WireToReport {
  import opened Samples
  import opened SampleStore
  import opened Pipeline
  import opened CounterReports
  import opened Decoder
  import opened Encoding
  import opened DecoderGuarantees
  import opened Accounting
  import opened EndToEnd
  import Conversations

  /** A datagram that arrives, with the times at which the collector began to wait for it and at which
      it is parsed, and with what the slots behind the filled ones still hold; or a step of a thread. */
  datatype WireAction =
    | Arrives(mem: Memory, sender: uint32, entered: nat, now: nat,
              staleFlow: nat -> FlowSample, staleCntr: nat -> CntrSample)
    | Thread(action: Action)

  predicate FromWire(ws: seq<WireAction>) {
    forall i :: 0 <= i < |ws| && ws[i].Thread? ==> !ws[i].action.Datagram?
  }

  /** What the parser appends to the buffers; `known` is the agent list. */
  function Decoded(known: uint32 -> uint32, w: WireAction): Buffers
    requires w.Arrives?
  {
    DatagramAt(w.mem, Fresh(known(AgentAddress(w.mem, w.sender))), w.now, Buffers([], [], w.staleFlow, w.staleCntr)).1
  }

  function FlowSamples(fs: seq<FlowSample>): (xs: seq<Sample>)
    ensures forall x <- xs :: x.Kind() == FlowKind
  {
    seq(|fs|, i requires 0 <= i < |fs| => Flow(fs[i]))
  }

  function CntrSamples(cs: seq<CntrSample>): (xs: seq<Sample>)
    ensures forall x <- xs :: x.Kind() == CntrKind
  {
    seq(|cs|, i requires 0 <= i < |cs| => Cntr(cs[i]))
  }

  function Lift(known: uint32 -> uint32, w: WireAction): Action {
    match w
    case Arrives(_, _, entered, _, _, _) =>
      Datagram(FlowSamples(Decoded(known, w).flows), CntrSamples(Decoded(known, w).cntrs), entered)
    case Thread(action) => action
  }

  function Lifted(known: uint32 -> uint32, ws: seq<WireAction>): (schedule: seq<Action>)
    ensures |schedule| == |ws|
  {
    if ws == [] then [] else Lifted(known, ws[..|ws| - 1]) + [Lift(known, ws[|ws| - 1])]
  }

  /** The state of the daemon after a schedule with datagrams from the wire. */
  function RunWire(c: Config, known: uint32 -> uint32, ws: seq<WireAction>): State
    requires CanStart(c)
  {
    Run(c, Lifted(known, ws))
  }

  /** The datagrams that the collector received; it does not receive while it waits for a buffer. */
  function Received(c: Config, known: uint32 -> uint32, ws: seq<WireAction>): (rs: seq<WireAction>)
    requires CanStart(c)
    ensures forall r <- rs :: r.Arrives?
  {
    if ws == [] then []
    else
      var front, w := ws[..|ws| - 1], ws[|ws| - 1];
      Received(c, known, front) +
      if w.Arrives? && Enabled(c, RunWire(c, known, front), Lift(known, w)) then [w] else []
  }

  /** The counter samples of received datagrams, in order. */
  function CntrsOf(known: uint32 -> uint32, rs: seq<WireAction>): seq<CntrSample>
    requires forall r <- rs :: r.Arrives?
  {
    if rs == [] then [] else CntrsOf(known, rs[..|rs| - 1]) + Decoded(known, rs[|rs| - 1]).cntrs
  }

  /** The flow samples of received datagrams, in order. */
  function FlowsOf(known: uint32 -> uint32, rs: seq<WireAction>): seq<FlowSample>
    requires forall r <- rs :: r.Arrives?
  {
    if rs == [] then [] else FlowsOf(known, rs[..|rs| - 1]) + Decoded(known, rs[|rs| - 1]).flows
  }

  lemma RunWireStep(c: Config, known: uint32 -> uint32, front: seq<WireAction>, w: WireAction)
    requires CanStart(c)
    ensures RunWire(c, known, front + [w]) == Step(c, RunWire(c, known, front), Lift(known, w))
  {
    hide Step, Lift;
    var ws := front + [w];
    assert ws[..|ws| - 1] == front;
    var schedule := Lifted(known, ws);
    assert schedule[..|schedule| - 1] == Lifted(known, front);
  }

  lemma ParsedStep(c: Config, s: State, a: Action)
    ensures Step(c, s, a).cntr.parsed ==
            s.cntr.parsed + if a.Datagram? && Enabled(c, s, a) then a.cntrs else []
    ensures Step(c, s, a).flow.parsed ==
            s.flow.parsed + if a.Datagram? && Enabled(c, s, a) then a.flows else []
  {
    assert s.cntr.parsed + [] == s.cntr.parsed && s.flow.parsed + [] == s.flow.parsed;
  }

  lemma {:induction false} CntrsOfSamples(cs: seq<CntrSample>)
    ensures Cntrs(CntrSamples(cs)) == cs
  {
    var xs := CntrSamples(cs);
    if cs != [] {
      CntrsOfSamples(cs[..|cs| - 1]);
      assert xs[..|xs| - 1] == CntrSamples(cs[..|cs| - 1]);
    }
  }

  lemma {:induction false} FlowsOfSamples(fs: seq<FlowSample>)
    ensures Flows(FlowSamples(fs)) == fs
  {
    var xs := FlowSamples(fs);
    if fs != [] {
      FlowsOfSamples(fs[..|fs| - 1]);
      assert xs[..|xs| - 1] == FlowSamples(fs[..|fs| - 1]);
    }
  }

  /** What the collector parsed is what the received datagrams decode to, for both kinds. */
  lemma {:induction false} ParsedIsReceived(c: Config, known: uint32 -> uint32, ws: seq<WireAction>)
    requires CanStart(c) && FromWire(ws)
    ensures Cntrs(RunWire(c, known, ws).cntr.parsed) == CntrsOf(known, Received(c, known, ws))
    ensures Flows(RunWire(c, known, ws).flow.parsed) == FlowsOf(known, Received(c, known, ws))
  {
    hide Enabled, Step, Decoded;
    if ws == [] {
      NothingParsed(c);
    } else {
      var front, w := ws[..|ws| - 1], ws[|ws| - 1];
      var s, a := RunWire(c, known, front), Lift(known, w);
      assert ws == front + [w];
      ParsedIsReceived(c, known, front);
      RunWireStep(c, known, front, w);
      ParsedStep(c, s, a);
      var rs := Received(c, known, front);
      if w.Arrives? && Enabled(c, s, a) {
        assert (rs + [w])[..|rs|] == rs;
        CntrsConcat(s.cntr.parsed, a.cntrs);
        CntrsOfSamples(Decoded(known, w).cntrs);
        FlowsConcat(s.flow.parsed, a.flows);
        FlowsOfSamples(Decoded(known, w).flows);
      } else {
        assert s.cntr.parsed + [] == s.cntr.parsed && s.flow.parsed + [] == s.flow.parsed;
        assert Received(c, known, ws) == rs;
      }
    }
  }

  lemma NothingParsed(c: Config)
    requires CanStart(c)
    ensures Run(c, []).cntr.parsed == [] && Run(c, []).flow.parsed == []
  {
  }

  // ----- what the wire says about an interface -----

  /** A datagram as its agent encoded it. */
  datatype WireDatagram = WireDatagram(
    address: uint32, subAgent: uint32, sequence: uint32, uptime: uint32, samples: seq<WireSample>)

  /** One record per flow sample keeps the parser in step. */
  ghost predicate Carries(r: WireAction, g: WireDatagram)
    requires r.Arrives?
  {
    && |g.samples| < TWO_32 && SamplesOk(g.samples) && AllOneRecord(g.samples)
    && HoldsAt(r.mem, 0, DatagramWords(g.address, g.subAgent, g.sequence, g.uptime, g.samples))
  }

  /** A generic record in every counter sample overwrites the old counters of its slot. */
  ghost predicate CountersSet(g: WireDatagram) {
    forall i :: 0 <= i < |g.samples| && g.samples[i].WireCntr? ==> HasGeneric(g.samples[i].records)
  }

  /** A sampled header in every flow sample overwrites the old header of its slot. */
  ghost predicate HeadersSet(g: WireDatagram) {
    forall i :: 0 <= i < |g.samples| && g.samples[i].WireFlow? ==>
                  g.samples[i].flowRecords != [] && g.samples[i].flowRecords[0].HeaderRecord?
  }

  /** A counter sample as far as the report looks at it. */
  datatype Reading = Reading(agent: uint32, time: nat, generic: GenericCounters)

  function ReadingOf(s: CntrSample): Reading {
    Reading(s.agentAddress, s.timestamp, s.generic)
  }

  function Readings(cs: seq<CntrSample>): (rs: seq<Reading>)
    ensures |rs| == |cs|
    ensures forall i :: 0 <= i < |cs| ==> rs[i] == ReadingOf(cs[i])
  {
    seq(|cs|, i requires 0 <= i < |cs| => ReadingOf(cs[i]))
  }

  const NO_COUNTERS := GenericCounters(0, 0, 0, 0, 0, 0, 0, 0, 0, 0, 0, 0, 0, 0, 0, 0, 0, 0, 0)

  /** The readings that some samples carry, whatever the slots hold. */
  function WireReadings(ws: seq<WireSample>, agent: uint32, now: nat): seq<Reading> {
    if ws == [] then []
    else
      var w := ws[|ws| - 1];
      WireReadings(ws[..|ws| - 1], agent, now) +
      if w.WireCntr? then [Reading(agent, now, LastGeneric(w.records, NO_COUNTERS))] else []
  }

  /** The address that selects the agent: the datagram's, or the sender's if that is the loopback. */
  function AgentOf(r: WireAction, g: WireDatagram): uint32
    requires r.Arrives?
  {
    if g.address == 0x7f00_0001 then r.sender else g.address
  }

  /** The readings of received datagrams, in order. */
  function AllReadings(known: uint32 -> uint32, rs: seq<WireAction>, gs: seq<WireDatagram>): seq<Reading>
    requires |gs| == |rs| && forall r <- rs :: r.Arrives?
  {
    if rs == [] then []
    else
      var n := |rs| - 1;
      AllReadings(known, rs[..n], gs[..n]) + WireReadings(gs[n].samples, known(AgentOf(rs[n], gs[n])), rs[n].now)
  }

  lemma StoredReading(w: WireSample, t: Template, stale: CntrSample)
    requires w.WireCntr? && SampleOk(w) && HasGeneric(w.records)
    ensures ReadingOf(StoredCntr(w, t, stale)) ==
            Reading(t.agentAddress, t.timestamp, LastGeneric(w.records, NO_COUNTERS))
  {
    hide ApplyRecords, LastGeneric, LastEthernet;
    var base := CntrSample(t.timestamp, t.agentAddress, t.subAgentId, w.sequence, SeenClass(w.expanded, w.source),
                           w.source.index, stale.generic, stale.ethernet);
    LastRecordWins(w.records, base);
    LastOf(w.records, stale.generic, NO_COUNTERS, stale.ethernet, stale.ethernet);
  }

  lemma {:induction false} StoredReadings(ws: seq<WireSample>, t: Template, b: Buffers)
    requires SamplesOk(ws)
    requires forall i :: 0 <= i < |ws| && ws[i].WireCntr? ==> HasGeneric(ws[i].records)
    ensures Readings(StoredAll(ws, t, b).cntrs) == Readings(b.cntrs) + WireReadings(ws, t.agentAddress, t.timestamp)
  {
    hide StoredCntr, StoredFlow, SampleOk, HasGeneric, LastGeneric;
    if ws != [] {
      var front, w := ws[..|ws| - 1], ws[|ws| - 1];
      StoredReadings(front, t, b);
      var b' := StoredAll(front, t, b);
      if w.WireCntr? {
        StoredReading(w, t, b'.staleCntr(|b'.cntrs|));
      }
    }
  }

  /** Whatever the slots held, a received datagram gives the readings that it carries. */
  lemma DecodedReadings(known: uint32 -> uint32, r: WireAction, g: WireDatagram)
    requires r.Arrives? && Carries(r, g) && CountersSet(g)
    ensures Readings(Decoded(known, r).cntrs) == WireReadings(g.samples, known(AgentOf(r, g)), r.now)
  {
    hide StoredAll, WireReadings, HoldsAt, DatagramWords, DatagramAt, SamplesOk, AllOneRecord, HasGeneric;
    var a := Fresh(known(AgentAddress(r.mem, r.sender)));
    var b := Buffers([], [], r.staleFlow, r.staleCntr);
    DatagramInverts(r.mem, g.address, g.subAgent, g.sequence, g.uptime, g.samples, r.sender, a, r.now, b);
    StoredReadings(g.samples, Template(r.now, a.address, g.subAgent), b);
    assert Readings([]) == [];
  }

  ghost predicate AllCarry(rs: seq<WireAction>, gs: seq<WireDatagram>)
    requires forall r <- rs :: r.Arrives?
  {
    |gs| == |rs| && forall i :: 0 <= i < |rs| ==> Carries(rs[i], gs[i])
  }

  lemma {:induction false} ReceivedReadings(known: uint32 -> uint32, rs: seq<WireAction>, gs: seq<WireDatagram>)
    requires forall r <- rs :: r.Arrives?
    requires AllCarry(rs, gs) && forall g <- gs :: CountersSet(g)
    ensures Readings(CntrsOf(known, rs)) == AllReadings(known, rs, gs)
  {
    hide Carries, CountersSet, Decoded, WireReadings, Readings;
    if rs != [] {
      var n := |rs| - 1;
      ReceivedReadings(known, rs[..n], gs[..n]);
      DecodedReadings(known, rs[n], gs[n]);
      ReadingsConcat(CntrsOf(known, rs[..n]), Decoded(known, rs[n]).cntrs);
    }
  }

  lemma ReadingsConcat(a: seq<CntrSample>, b: seq<CntrSample>)
    ensures Readings(a + b) == Readings(a) + Readings(b)
  {
    hide ReadingOf;
  }

  // ----- one interface -----

  function OwnReadings(rs: seq<Reading>, i: Interface): seq<Reading> {
    if rs == [] then []
    else
      var r := rs[|rs| - 1];
      OwnReadings(rs[..|rs| - 1], i) + if Interface(r.agent, r.generic.ifIndex) == i then [r] else []
  }

  function OctetsOf(r: Reading, d: Direction): uint64 {
    if d == In then r.generic.inOctets else r.generic.outOctets
  }

  /** The octets that an interface really moved at each of its readings. */
  ghost predicate Truthful(own: seq<Reading>, d: Direction, truth: seq<nat>) {
    && |truth| == |own|
    && (forall n :: 0 <= n < |own| ==> OctetsOf(own[n], d) == truth[n] % TWO_64)
    && (forall m, n :: 0 <= m && n == m + 1 && n < |own| ==> truth[m] <= truth[n] < truth[m] + TWO_64)
  }

  lemma {:induction false} OwnByReadings(cs: seq<CntrSample>, i: Interface)
    ensures Readings(Own(cs, i)) == OwnReadings(Readings(cs), i)
  {
    if cs != [] {
      var front := cs[..|cs| - 1];
      OwnByReadings(front, i);
      assert Readings(cs)[..|cs| - 1] == Readings(front);
    }
  }

  lemma TruthfulCounts(own: seq<CntrSample>, d: Direction, truth: seq<nat>)
    requires Truthful(Readings(own), d, truth)
    ensures Counts(own, d, truth)
  {
    forall n | 0 <= n < |own| ensures Octets(own[n], d) == truth[n] % TWO_64 {
      assert OctetsOf(Readings(own)[n], d) == truth[n] % TWO_64;
    }
  }

  // ----- times -----

  /** Receive times whose minutes never decrease, inside the 32-bit clock. */
  ghost predicate NowsOk(rs: seq<WireAction>)
    requires forall r <- rs :: r.Arrives?
  {
    && (forall i :: 0 <= i < |rs| ==> InRange(rs[i].now))
    && (forall i, j :: 0 <= i < j < |rs| ==> rs[i].now / 60 <= rs[j].now / 60)
  }

  /** All samples in the buffers have the receive time. */
  ghost predicate AllAt(b: Buffers, now: nat) {
    (forall f <- b.flows :: f.timestamp == now) && (forall c <- b.cntrs :: c.timestamp == now)
  }

  lemma FlowKeepsTime(mem: Memory, pos: nat, slot: FlowSample, expanded: bool)
    ensures FlowSampleAt(mem, pos, slot, expanded).0.timestamp == slot.timestamp
  {
    hide SourceClass, SourceIndex, InterfaceFormat, InterfaceValue, HeaderBytes;
  }

  lemma RecordKeepsTime(mem: Memory, pos: nat, slot: CntrSample)
    ensures CounterRecord(mem, pos, slot).0.timestamp == slot.timestamp
  {
    hide Generic, Ethernet;
  }

  lemma {:induction false} RecordsKeepTime(mem: Memory, pos: nat, n: nat, slot: CntrSample)
    ensures CounterRecords(mem, pos, n, slot).0.timestamp == slot.timestamp
  {
    hide CounterRecord;
    if n > 0 {
      RecordsKeepTime(mem, pos, n - 1, slot);
      RecordKeepsTime(mem, CounterRecords(mem, pos, n - 1, slot).1, CounterRecords(mem, pos, n - 1, slot).0);
    }
  }

  lemma {:induction false} SamplesInTime(mem: Memory, pos: nat, n: nat, t: Template, b: Buffers)
    requires AllAt(b, t.timestamp)
    ensures AllAt(SamplesAt(mem, pos, n, t, b).0, t.timestamp)
    decreases n
  {
    hide AllAt, SampleAt;
    if n > 0 {
      SamplesInTime(mem, pos, n - 1, t, b);
      SampleInTime(mem, SamplesAt(mem, pos, n - 1, t, b).1, t, SamplesAt(mem, pos, n - 1, t, b).0);
    }
  }

  lemma SampleInTime(mem: Memory, pos: nat, t: Template, b: Buffers)
    requires AllAt(b, t.timestamp)
    ensures AllAt(SampleAt(mem, pos, t, b).0, t.timestamp)
  {
    hide FlowSampleAt, CounterRecords, SourceClass, SourceIndex;
    FlowKeepsTime(mem, pos + 2, FlowSlot(b, t), mem(pos) == 3);
    forall p: nat, n: nat, slot: CntrSample ensures CounterRecords(mem, p, n, slot).0.timestamp == slot.timestamp {
      RecordsKeepTime(mem, p, n, slot);
    }
  }

  lemma DecodedInTime(known: uint32 -> uint32, w: WireAction)
    requires w.Arrives?
    ensures forall x <- FlowSamples(Decoded(known, w).flows) :: x.Time() == w.now
    ensures forall x <- CntrSamples(Decoded(known, w).cntrs) :: x.Time() == w.now
  {
    hide SamplesAt;
    var a := Fresh(known(AgentAddress(w.mem, w.sender)));
    var p := AfterAddress(w.mem);
    SamplesInTime(w.mem, p + 4, w.mem(p + 3), Template(w.now, a.address, w.mem(p)),
                  Buffers([], [], w.staleFlow, w.staleCntr));
  }

  /** The samples' minutes never decrease and reach at most that of `last`. */
  ghost predicate InTime(xs: seq<Sample>, last: nat) {
    TimesOk(xs) && forall x <- xs :: x.Time() / 60 <= last / 60
  }

  lemma InTimeAppend(xs: seq<Sample>, ys: seq<Sample>, before: nat, now: nat)
    requires InTime(xs, before) && before / 60 <= now / 60 && InRange(now)
    requires forall y <- ys :: y.Time() == now
    ensures InTime(xs + ys, now)
  {
    var all := xs + ys;
    assert forall i :: 0 <= i < |all| ==>
                         if i < |xs| then all[i] == xs[i] && all[i] in xs
                         else all[i] == ys[i - |xs|] && all[i] in ys;
  }

  function LastNow(rs: seq<WireAction>): nat
    requires forall r <- rs :: r.Arrives?
  {
    if rs == [] then 0 else rs[|rs| - 1].now
  }

  lemma NowsFront(rs: seq<WireAction>, w: WireAction)
    requires (forall r <- rs :: r.Arrives?) && w.Arrives?
    requires NowsOk(rs + [w])
    ensures NowsOk(rs) && InRange(w.now) && LastNow(rs) / 60 <= w.now / 60 && LastNow(rs + [w]) == w.now
  {
    var all := rs + [w];
    assert all[|rs|] == w && forall i :: 0 <= i < |rs| ==> all[i] == rs[i];
  }

  /** What the collector parsed is in time if the datagrams were. */
  lemma {:induction false} ParsedInTime(c: Config, known: uint32 -> uint32, ws: seq<WireAction>)
    requires CanStart(c) && FromWire(ws) && NowsOk(Received(c, known, ws))
    ensures InTime(RunWire(c, known, ws).flow.parsed, LastNow(Received(c, known, ws)))
    ensures InTime(RunWire(c, known, ws).cntr.parsed, LastNow(Received(c, known, ws)))
  {
    hide Enabled, Step, Decoded, InTime, NowsOk, FlowSamples, CntrSamples, LastNow, InRange, RunWire;
    if ws == [] {
      NothingInTime(c, known);
    } else {
      var front, w := ws[..|ws| - 1], ws[|ws| - 1];
      var s, a, rs := RunWire(c, known, front), Lift(known, w), Received(c, known, front);
      assert ws == front + [w];
      RunWireStep(c, known, front, w);
      ParsedStep(c, s, a);
      if w.Arrives? && Enabled(c, s, a) {
        NowsFront(rs, w);
        ParsedInTime(c, known, front);
        DecodedInTime(known, w);
        InTimeAppend(s.flow.parsed, a.flows, LastNow(rs), w.now);
        InTimeAppend(s.cntr.parsed, a.cntrs, LastNow(rs), w.now);
      } else {
        assert rs + [] == rs;
        ParsedInTime(c, known, front);
        assert s.cntr.parsed + [] == s.cntr.parsed && s.flow.parsed + [] == s.flow.parsed;
      }
    }
  }

  lemma NothingInTime(c: Config, known: uint32 -> uint32)
    requires CanStart(c)
    ensures InTime(RunWire(c, known, []).flow.parsed, LastNow(Received(c, known, [])))
    ensures InTime(RunWire(c, known, []).cntr.parsed, LastNow(Received(c, known, [])))
  {
  }

  /** The octets that the report accounts for are those that the interface moved between its first
      and its last reading handed over, in the words of its agent's datagrams: for every schedule of
      the daemon's threads, whatever the reused slots hold, across segments and counter wraps. */
  lemma ReportFromWire(c: Config, known: uint32 -> uint32, ws: seq<WireAction>, gs: seq<WireDatagram>,
                       i: Interface, d: Direction, truth: seq<nat>)
    requires ValidConfig(c) && FromWire(ws)
    requires AllCarry(Received(c, known, ws), gs) && NowsOk(Received(c, known, ws))
    requires forall g <- gs :: CountersSet(g)
    requires Truthful(OwnReadings(AllReadings(known, Received(c, known, ws), gs), i), d, truth)
    ensures var st := StoreOf(RunWire(c, known, ws).log);
            var n := |Own(ReadAll(st.files, st.queue), i)|;
            n <= |truth| &&
            (n > 0 ==> truth[0] + Reported(ReportOf(st.files, st.queue), i, d) == truth[n - 1])
  {
    hide Run, AllCarry, CountersSet, NowsOk, StoreOf, Own, OwnReadings, Reported, ReportOf, ReadAll, TimesOk, Counts;
    var rs, parsed := Received(c, known, ws), RunWire(c, known, ws).cntr.parsed;
    ParsedIsReceived(c, known, ws);
    CarriedAll(rs, gs);
    ReceivedReadings(known, rs, gs);
    ParsedInTime(c, known, ws);
    OwnByReadings(Cntrs(parsed), i);
    TruthfulCounts(Own(Cntrs(parsed), i), d, truth);
    ReportEndToEnd(c, Lifted(known, ws), i, d, truth);
  }

  lemma CarriedAll(rs: seq<WireAction>, gs: seq<WireDatagram>)
    requires forall r <- rs :: r.Arrives?
    requires AllCarry(rs, gs)
    ensures |gs| == |rs|
  {
  }

  // ----- flow samples -----

  function NoFlow(): FlowSample {
    FlowSample(0, 0, 0, 0, 0, 0, 0, 0, 0, 0, 0, 0, 0, 0, 0, 0, 0, seq(128, i requires 0 <= i < 128 => 0))
  }

  /** The flow samples that are carried, whatever the slots hold. */
  function WireFlows(ws: seq<WireSample>, t: Template): seq<FlowSample>
    requires SamplesOk(ws)
  {
    if ws == [] then []
    else
      var w := ws[|ws| - 1];
      WireFlows(ws[..|ws| - 1], t) + if w.WireFlow? then [StoredFlow(w, t, NoFlow())] else []
  }

  lemma {:induction false} StoredFlows(ws: seq<WireSample>, t: Template, b: Buffers)
    requires SamplesOk(ws)
    requires forall i :: 0 <= i < |ws| && ws[i].WireFlow? ==>
                           ws[i].flowRecords != [] && ws[i].flowRecords[0].HeaderRecord?
    ensures StoredAll(ws, t, b).flows == b.flows + WireFlows(ws, t)
  {
    hide StoredCntr, StoredFlow, SampleOk;
    if ws != [] {
      var front, w := ws[..|ws| - 1], ws[|ws| - 1];
      StoredFlows(front, t, b);
      var b' := StoredAll(front, t, b);
      if w.WireFlow? {
        HeaderDetermines(w, t, b'.staleFlow(|b'.flows|));
      }
    }
  }

  lemma HeaderDetermines(w: WireSample, t: Template, stale: FlowSample)
    requires w.WireFlow? && SampleOk(w) && w.flowRecords != [] && w.flowRecords[0].HeaderRecord?
    ensures StoredFlow(w, t, stale) == StoredFlow(w, t, NoFlow())
  {
    hide CutHeader, FlowRecordsOk;
  }

  /** Whatever the slots held, a received datagram gives the flow samples that it carries. */
  lemma DecodedFlows(known: uint32 -> uint32, r: WireAction, g: WireDatagram)
    requires r.Arrives? && Carries(r, g) && HeadersSet(g)
    ensures Decoded(known, r).flows == FlowsCarried(known, r, g)
  {
    hide StoredAll, WireFlows, HoldsAt, DatagramWords, DatagramAt, SamplesOk, AllOneRecord;
    var a := Fresh(known(AgentAddress(r.mem, r.sender)));
    var b := Buffers([], [], r.staleFlow, r.staleCntr);
    DatagramInverts(r.mem, g.address, g.subAgent, g.sequence, g.uptime, g.samples, r.sender, a, r.now, b);
    StoredFlows(g.samples, Template(r.now, a.address, g.subAgent), b);
  }

  /** The flow samples that one datagram carries. */
  function FlowsCarried(known: uint32 -> uint32, r: WireAction, g: WireDatagram): seq<FlowSample>
    requires r.Arrives? && SamplesOk(g.samples)
  {
    WireFlows(g.samples, Template(r.now, known(AgentOf(r, g)), g.subAgent))
  }

  /** The flow samples that received datagrams carry, in order. */
  ghost function AllFlows(known: uint32 -> uint32, rs: seq<WireAction>, gs: seq<WireDatagram>): seq<FlowSample>
    requires forall r <- rs :: r.Arrives?
    requires AllCarry(rs, gs)
  {
    if rs == [] then []
    else
      AllFlows(known, rs[..|rs| - 1], gs[..|rs| - 1]) + FlowsCarried(known, rs[|rs| - 1], gs[|rs| - 1])
  }

  lemma {:induction false} ReceivedFlows(known: uint32 -> uint32, rs: seq<WireAction>, gs: seq<WireDatagram>)
    requires forall r <- rs :: r.Arrives?
    requires AllCarry(rs, gs) && forall g <- gs :: HeadersSet(g)
    ensures FlowsOf(known, rs) == AllFlows(known, rs, gs)
  {
    hide HeadersSet, Decoded, FlowsCarried;
    if rs != [] {
      var n := |rs| - 1;
      ReceivedFlows(known, rs[..n], gs[..n]);
      DecodedFlows(known, rs[n], gs[n]);
    }
  }

  /** The flow samples of one agent, in order. */
  function FlowsFrom(fs: seq<FlowSample>, a: uint32): seq<FlowSample> {
    if fs == [] then []
    else
      var f := fs[|fs| - 1];
      FlowsFrom(fs[..|fs| - 1], a) + if f.agentAddress == a then [f] else []
  }

  lemma {:induction false} FlowsOfAgent(xs: seq<Sample>, a: uint32)
    ensures Flows(From(xs, a, FlowKind)) == FlowsFrom(Flows(xs), a)
  {
    if xs != [] {
      var front, x := xs[..|xs| - 1], xs[|xs| - 1];
      FlowsOfAgent(front, a);
      if x.Flow? {
        assert (Flows(front) + [x.flow])[..|Flows(front)|] == Flows(front);
        if x.Agent() == a {
          assert (From(front, a, FlowKind) + [x])[..|From(front, a, FlowKind)|] == From(front, a, FlowKind);
        } else {
          assert From(xs, a, FlowKind) == From(front, a, FlowKind);
        }
      } else {
        assert Flows(xs) == Flows(front) && From(xs, a, FlowKind) == From(front, a, FlowKind);
      }
    }
  }

  lemma FlowsPrefix(xs: seq<Sample>, ys: seq<Sample>)
    requires xs <= ys
    ensures Flows(xs) <= Flows(ys)
  {
    assert ys == xs + ys[|xs|..];
    FlowsConcat(xs, ys[|xs|..]);
  }

  /** The conversation tables of an agent count exactly the flow samples handed over, and these are, in
      order, the beginning of those that the agent's received datagrams carry: for every schedule,
      layer, set of conversations and counter, whatever the reused slots hold. */
  lemma ConversationsFromWire(c: Config, known: uint32 -> uint32, ws: seq<WireAction>, gs: seq<WireDatagram>,
                              a: uint32, layer: Conversations.Layer, p: Conversations.Key -> bool,
                              counter: Conversations.Counter)
    requires ValidConfig(c) && FromWire(ws) && Conversations.CountsAt(layer, counter)
    requires AllCarry(Received(c, known, ws), gs) && NowsOk(Received(c, known, ws))
    requires forall g <- gs :: HeadersSet(g)
    ensures var st := StoreOf(RunWire(c, known, ws).log);
            var ms := Announced(st.queue, a, FlowKind);
            var handed := Flows(Joined(st.files, ms));
            && handed <= FlowsFrom(AllFlows(known, Received(c, known, ws), gs), a)
            && SumOf(st.files, ms, layer, p, counter) % TWO_32 ==
               Conversations.Total(layer, handed, p, counter) % TWO_32
  {
    hide Run, AllCarry, HeadersSet, NowsOk, StoreOf, TimesOk, SumOf, Joined, Announced, Flows, From;
    hide FlowsFrom, AllFlows, Conversations.Total, Conversations.CountsAt;
    var rs, parsed := Received(c, known, ws), RunWire(c, known, ws).flow.parsed;
    var st := StoreOf(RunWire(c, known, ws).log);
    ParsedIsReceived(c, known, ws);
    ReceivedFlows(known, rs, gs);
    ParsedInTime(c, known, ws);
    ConversationsEndToEnd(c, Lifted(known, ws), a, layer, p, counter);
    FlowsPrefix(Joined(st.files, Announced(st.queue, a, FlowKind)), From(parsed, a, FlowKind));
    FlowsOfAgent(parsed, a);
  }
}
