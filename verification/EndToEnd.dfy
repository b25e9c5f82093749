/**
 Samples from the parser to the report and the conversations: through both threads of the
 collecting daemon, the segments, the messages, and the tables of the processing daemon.
 */
module EndToEnd {
  import opened Samples
  import opened SampleStore
  import opened Segmentation
  import opened Pipeline
  import opened PipelineInvariant
  import opened PipelineGuarantees
  import opened CounterReports
  import Conversations
  import RollUps

  function Cntrs(xs: seq<Sample>): seq<CntrSample> {
    if xs == [] then []
    else
      var x := xs[|xs| - 1];
      Cntrs(xs[..|xs| - 1]) + if x.Cntr? then [x.cntr] else []
  }

  // ----- the processing daemon -----

  /** The counter samples of an announced segment; other segments are not read here. */
  function ReadSegment(files: map<SegmentName, seq<Sample>>, m: Message): seq<CntrSample> {
    if m.kind == CntrKind then Cntrs(FileOf(files, m.name)) else []
  }

  function TableOf(files: map<SegmentName, seq<Sample>>, queue: seq<Message>): Table {
    if queue == [] then map[]
    else TableAfter(TableOf(files, queue[..|queue| - 1]), ReadSegment(files, queue[|queue| - 1]))
  }

  /** The report that grows message by message. */
  function ReportOf(files: map<SegmentName, seq<Sample>>, queue: seq<Message>): seq<Row> {
    if queue == [] then []
    else
      var front := queue[..|queue| - 1];
      ReportOf(files, front) + RowsAfter(TableOf(files, front), ReadSegment(files, queue[|queue| - 1]))
  }

  /** All counter samples that the messages announce. */
  function ReadAll(files: map<SegmentName, seq<Sample>>, queue: seq<Message>): seq<CntrSample> {
    if queue == [] then [] else ReadAll(files, queue[..|queue| - 1]) + ReadSegment(files, queue[|queue| - 1])
  }

  /** Segment by segment gives the same report as one long list. */
  lemma {:induction false} ReportIsOneList(files: map<SegmentName, seq<Sample>>, queue: seq<Message>)
    ensures TableOf(files, queue) == TableAfter(map[], ReadAll(files, queue))
    ensures ReportOf(files, queue) == RowsAfter(map[], ReadAll(files, queue))
  {
    if queue != [] {
      var front := queue[..|queue| - 1];
      ReportIsOneList(files, front);
      ListsConcatenate(map[], ReadAll(files, front), ReadSegment(files, queue[|queue| - 1]));
    }
  }

  // ----- one interface -----

  lemma {:induction false} OwnConcat(a: seq<CntrSample>, b: seq<CntrSample>, i: Interface)
    ensures Own(a + b, i) == Own(a, i) + Own(b, i)
  {
    if b == [] {
      assert a + b == a;
    } else {
      assert (a + b)[..|a + b| - 1] == a + b[..|b| - 1];
      OwnConcat(a, b[..|b| - 1], i);
    }
  }

  lemma {:induction false} CntrsConcat(a: seq<Sample>, b: seq<Sample>)
    ensures Cntrs(a + b) == Cntrs(a) + Cntrs(b)
  {
    if b == [] {
      assert a + b == a;
    } else {
      assert (a + b)[..|a + b| - 1] == a + b[..|b| - 1];
      CntrsConcat(a, b[..|b| - 1]);
    }
  }

  /** An interface's samples are among its agent's counter samples. */
  lemma {:induction false} OwnFrom(xs: seq<Sample>, i: Interface)
    ensures Own(Cntrs(From(xs, i.agent, CntrKind)), i) == Own(Cntrs(xs), i)
  {
    if xs != [] {
      var front, x := xs[..|xs| - 1], xs[|xs| - 1];
      OwnFrom(front, i);
      var one := if x.Cntr? then [x.cntr] else [];
      OwnConcat(Cntrs(front), one, i);
      if x.Agent() == i.agent && x.Kind() == CntrKind {
        CntrsConcat(From(front, i.agent, CntrKind), [x]);
        assert [x][..0] == [];
        assert Cntrs([x]) == one;
        OwnConcat(Cntrs(From(front, i.agent, CntrKind)), one, i);
      } else {
        assert From(xs, i.agent, CntrKind) == From(front, i.agent, CntrKind);
        assert one == [] || one[..0] == [];
        assert Own(one, i) == [];
      }
    }
  }

  lemma {:induction false} NoneFromOthers(xs: seq<Sample>, i: Interface)
    requires forall x <- xs :: x.Agent() != i.agent
    ensures Own(Cntrs(xs), i) == []
  {
    if xs != [] {
      var front, x := xs[..|xs| - 1], xs[|xs| - 1];
      NoneFromOthers(front, i);
      assert x.Agent() != i.agent;
      if x.Cntr? {
        assert (Cntrs(front) + [x.cntr])[..|Cntrs(front)|] == Cntrs(front);
      } else {
        assert Cntrs(xs) == Cntrs(front);
      }
    }
  }

  /** Every file in the queue holds samples of the agent that its message names. */
  ghost predicate FilesOfAgents(files: map<SegmentName, seq<Sample>>, queue: seq<Message>) {
    forall m <- queue :: m.kind == CntrKind ==> forall x <- FileOf(files, m.name) :: x.Agent() == m.agent
  }

  /** What an interface gets from the whole queue is what its agent's segments hold. */
  lemma {:induction false} OwnOfQueue(files: map<SegmentName, seq<Sample>>, queue: seq<Message>, i: Interface)
    requires FilesOfAgents(files, queue)
    ensures Own(ReadAll(files, queue), i) == Own(Cntrs(Joined(files, Announced(queue, i.agent, CntrKind))), i)
  {
    if queue != [] {
      var front, m := queue[..|queue| - 1], queue[|queue| - 1];
      var ms := Announced(front, i.agent, CntrKind);
      OwnOfQueue(files, front, i);
      OwnConcat(ReadAll(files, front), ReadSegment(files, m), i);
      if m.agent == i.agent && m.kind == CntrKind {
        assert (ms + [m])[..|ms|] == ms;
        CntrsConcat(Joined(files, ms), FileOf(files, m.name));
        OwnConcat(Cntrs(Joined(files, ms)), Cntrs(FileOf(files, m.name)), i);
      } else {
        assert Announced(queue, i.agent, CntrKind) == ms;
        if m.kind == CntrKind {
          NoneFromOthers(FileOf(files, m.name), i);
        }
      }
    }
  }

  // ----- from the wire to the report -----

  /** The agent's counter samples are cut into segments. */
  ghost predicate InSegments(st: Store, a: uint32) {
    exists xs :: Segmented(st, a, CntrKind, xs)
  }

  lemma FilesHoldAgents(st: Store)
    requires forall a: uint32 :: InSegments(st, a)
    ensures FilesOfAgents(st.files, st.queue)
  {
    forall m <- st.queue | m.kind == CntrKind
      ensures forall x <- FileOf(st.files, m.name) :: x.Agent() == m.agent
    {
      assert InSegments(st, m.agent);
      var xs :| Segmented(st, m.agent, CntrKind, xs);
      InAnnounced(st.queue, m);
      AnnouncedHoldsAgent(st, m, xs);
    }
  }

  lemma {:induction false} InAnnounced(queue: seq<Message>, m: Message)
    requires m in queue
    ensures m in Announced(queue, m.agent, m.kind)
  {
    if m != queue[|queue| - 1] {
      InAnnounced(queue[..|queue| - 1], m);
    }
  }

  lemma AnnouncedHoldsAgent(st: Store, m: Message, xs: seq<Sample>)
    requires Segmented(st, m.agent, m.kind, xs) && m in Announced(st.queue, m.agent, m.kind)
    ensures forall x <- FileOf(st.files, m.name) :: x.Agent() == m.agent
  {
    hide Joined, Announced;
  }

  lemma PrefixOwn(xs: seq<Sample>, ys: seq<Sample>, i: Interface)
    requires xs <= ys
    ensures Own(Cntrs(xs), i) <= Own(Cntrs(ys), i)
  {
    var rest := ys[|xs|..];
    assert ys == xs + rest;
    CntrsConcat(xs, rest);
    OwnConcat(Cntrs(xs), Cntrs(rest), i);
  }

  /** What the processing daemon reads of an interface is, in order, the beginning of what the
      collecting daemon parsed of it, whatever the schedule of its threads. */
  lemma ReadIsPrefixOfParsed(c: Config, schedule: seq<Action>, i: Interface)
    requires ValidConfig(c) && TimesOk(Run(c, schedule).cntr.parsed)
    ensures var s := Run(c, schedule);
            var st := StoreOf(s.log);
            Own(ReadAll(st.files, st.queue), i) <= Own(Cntrs(s.cntr.parsed), i)
  {
    hide Run, StoreOf, Segmented, TimesOk, Cuttable;
    var s := Run(c, schedule);
    var st := StoreOf(s.log);
    forall a: uint32 ensures InSegments(st, a) {
      SegmentsEndToEnd(c, schedule, a);
      ParsedTimesSuffice(s.cntr.parsed, s.cntr.written, a, CntrKind);
    }
    FilesHoldAgents(st);
    OwnOfQueue(st.files, st.queue, i);
    SegmentsEndToEnd(c, schedule, i.agent);
    ParsedTimesSuffice(s.cntr.parsed, s.cntr.written, i.agent, CntrKind);
    var written := From(s.cntr.written, i.agent, CntrKind);
    SealedIsPrefix(st, i.agent, written);
    PrefixOwn(Joined(st.files, Announced(st.queue, i.agent, CntrKind)), written, i);
    OwnFrom(s.cntr.written, i);
    PrefixOwn(s.cntr.written, s.cntr.parsed, i);
  }

  lemma SealedIsPrefix(st: Store, a: uint32, xs: seq<Sample>)
    requires Segmented(st, a, CntrKind, xs)
    ensures Joined(st.files, Announced(st.queue, a, CntrKind)) <= xs
  {
  }

  lemma {:induction false} OwnInside(log: seq<CntrSample>, i: Interface)
    ensures forall s <- Own(log, i) :: s in log
  {
    if log != [] {
      OwnInside(log[..|log| - 1], i);
    }
  }

  lemma {:induction false} CntrsTimed(xs: seq<Sample>)
    requires forall x <- xs :: InRange(x.Time())
    ensures forall s <- Cntrs(xs) :: InRange(s.timestamp)
  {
    if xs != [] {
      assert InRange(xs[|xs| - 1].Time());
      CntrsTimed(xs[..|xs| - 1]);
    }
  }

  lemma OwnTimed(xs: seq<Sample>, own: seq<CntrSample>, i: Interface)
    requires TimesOk(xs) && own <= Own(Cntrs(xs), i)
    ensures Timed(own)
  {
    CntrsTimed(xs);
    OwnInside(Cntrs(xs), i);
    forall n | 0 <= n < |own| - 1 ensures own[n].timestamp % TWO_32 != 0 {
      assert own[n] == Own(Cntrs(xs), i)[n];
      assert InRange(own[n].timestamp);
    }
  }

  /** For every interface and every schedule of the collecting daemon, the octets that the report
      accounts for are what the interface really moved between the first and the last of its
      samples that were handed over, across segments and counter wraps. */
  lemma ReportEndToEnd(c: Config, schedule: seq<Action>, i: Interface, d: Direction, truth: seq<nat>)
    requires ValidConfig(c) && TimesOk(Run(c, schedule).cntr.parsed)
    requires Counts(Own(Cntrs(Run(c, schedule).cntr.parsed), i), d, truth)
    ensures var st := StoreOf(Run(c, schedule).log);
            var n := |Own(ReadAll(st.files, st.queue), i)|;
            n <= |truth| &&
            (n > 0 ==> truth[0] + Reported(ReportOf(st.files, st.queue), i, d) == truth[n - 1])
  {
    hide Run, StoreOf, Own, Reported, RowsAfter, ReportOf, ReadAll, TimesOk;
    var s := Run(c, schedule);
    var st := StoreOf(s.log);
    var done, all := Own(ReadAll(st.files, st.queue), i), Own(Cntrs(s.cntr.parsed), i);
    ReadIsPrefixOfParsed(c, schedule, i);
    ReportIsOneList(st.files, st.queue);
    if done != [] {
      OwnTimed(s.cntr.parsed, done, i);
      CountsPrefix(done, all, d, truth);
      ReportIsTrue(ReadAll(st.files, st.queue), i, d, truth[..|done|]);
    }
  }

  lemma CountsPrefix(done: seq<CntrSample>, all: seq<CntrSample>, d: Direction, truth: seq<nat>)
    requires done <= all && Counts(all, d, truth)
    ensures Counts(done, d, truth[..|done|])
  {
  }

  // ----- flow samples -----

  function Flows(xs: seq<Sample>): seq<FlowSample> {
    if xs == [] then []
    else
      var x := xs[|xs| - 1];
      Flows(xs[..|xs| - 1]) + if x.Flow? then [x.flow] else []
  }

  lemma {:induction false} FlowsConcat(a: seq<Sample>, b: seq<Sample>)
    ensures Flows(a + b) == Flows(a) + Flows(b)
  {
    if b == [] {
      assert a + b == a;
    } else {
      assert (a + b)[..|a + b| - 1] == a + b[..|b| - 1];
      FlowsConcat(a, b[..|b| - 1]);
    }
  }

  /** A counter of a layer, summed over all announced segments and in each over all conversations
      that satisfy `p`. */
  ghost function SumOf(files: map<SegmentName, seq<Sample>>, ms: seq<Message>,
                       layer: Conversations.Layer, p: Conversations.Key -> bool, c: Conversations.Counter): nat
    requires Conversations.CountsAt(layer, c)
  {
    if ms == [] then 0
    else
      var m := ms[|ms| - 1];
      SumOf(files, ms[..|ms| - 1], layer, p, c) + RollUps.ColumnSum(layer, Flows(FileOf(files, m.name)), p, c)
  }

  lemma SumStep(files: map<SegmentName, seq<Sample>>, ms: seq<Message>,
                layer: Conversations.Layer, p: Conversations.Key -> bool, c: Conversations.Counter)
    requires Conversations.CountsAt(layer, c)
    ensures ms == [] ==> SumOf(files, ms, layer, p, c) == 0 && Flows(Joined(files, ms)) == []
    ensures ms != [] ==>
            var front, xs := ms[..|ms| - 1], FileOf(files, ms[|ms| - 1].name);
            && SumOf(files, ms, layer, p, c) ==
               SumOf(files, front, layer, p, c) + RollUps.ColumnSum(layer, Flows(xs), p, c)
            && Flows(Joined(files, ms)) == Flows(Joined(files, front)) + Flows(xs)
  {
    hide RollUps.ColumnSum;
    if ms != [] {
      FlowsConcat(Joined(files, ms[..|ms| - 1]), FileOf(files, ms[|ms| - 1].name));
    }
  }

  lemma {:induction false} SumIsTotal(files: map<SegmentName, seq<Sample>>, ms: seq<Message>,
                                      layer: Conversations.Layer,
                                      p: Conversations.Key -> bool, c: Conversations.Counter)
    requires Conversations.CountsAt(layer, c)
    ensures SumOf(files, ms, layer, p, c) % TWO_32
            == Conversations.Total(layer, Flows(Joined(files, ms)), p, c) % TWO_32
  {
    hide RollUps.ColumnSum, Conversations.Total, Conversations.CountsAt, SumOf, Flows, Joined;
    SumStep(files, ms, layer, p, c);
    if ms == [] {
      NothingCounts(layer, p, c);
    } else {
      var front, xs := ms[..|ms| - 1], FileOf(files, ms[|ms| - 1].name);
      var before := Flows(Joined(files, front));
      SumIsTotal(files, front, layer, p, c);
      RollUps.ColumnIsTotal(layer, Flows(xs), p, c);
      Conversations.TotalConcat(layer, before, Flows(xs), p, c);
      AddModulo(SumOf(files, front, layer, p, c), Conversations.Total(layer, before, p, c),
                RollUps.ColumnSum(layer, Flows(xs), p, c), Conversations.Total(layer, Flows(xs), p, c));
    }
  }

  lemma NothingCounts(layer: Conversations.Layer, p: Conversations.Key -> bool, c: Conversations.Counter)
    ensures Conversations.Total(layer, [], p, c) == 0
  {
  }

  lemma AddModulo(a: nat, b: nat, c: nat, d: nat)
    requires a % TWO_32 == b % TWO_32 && c % TWO_32 == d % TWO_32
    ensures (a + c) % TWO_32 == (b + d) % TWO_32
  {
    assert a + c == b + d + (a / TWO_32 - b / TWO_32 + c / TWO_32 - d / TWO_32) * TWO_32;
  }

  lemma {:induction false} FromConcat(xs: seq<Sample>, ys: seq<Sample>, a: uint32, k: Kind)
    ensures From(xs + ys, a, k) == From(xs, a, k) + From(ys, a, k)
  {
    if ys == [] {
      assert xs + ys == xs;
    } else {
      assert (xs + ys)[..|xs + ys| - 1] == xs + ys[..|ys| - 1];
      FromConcat(xs, ys[..|ys| - 1], a, k);
    }
  }

  lemma SealedFlowsArePrefix(st: Store, a: uint32, xs: seq<Sample>)
    requires Segmented(st, a, FlowKind, xs)
    ensures Joined(st.files, Announced(st.queue, a, FlowKind)) <= xs
  {
  }

  /** For every agent and every schedule, at every layer, for every set of conversations and every
      counter: what the tables of the announced segments hold adds up to the shares of exactly the
      samples handed over, and these are, in order, the beginning of what the collecting daemon
      parsed of the agent. */
  lemma ConversationsEndToEnd(c: Config, schedule: seq<Action>, a: uint32,
                              layer: Conversations.Layer, p: Conversations.Key -> bool, counter: Conversations.Counter)
    requires ValidConfig(c) && TimesOk(Run(c, schedule).flow.parsed) && Conversations.CountsAt(layer, counter)
    ensures var s := Run(c, schedule);
            var st := StoreOf(s.log);
            var ms := Announced(st.queue, a, FlowKind);
            && Joined(st.files, ms) <= From(s.flow.parsed, a, FlowKind)
            && SumOf(st.files, ms, layer, p, counter) % TWO_32
               == Conversations.Total(layer, Flows(Joined(st.files, ms)), p, counter) % TWO_32
  {
    hide Run, StoreOf, Segmented, TimesOk, Cuttable, Joined, SumOf, Announced;
    hide Conversations.Total, Conversations.CountsAt;
    var s := Run(c, schedule);
    var st := StoreOf(s.log);
    SegmentsEndToEnd(c, schedule, a);
    ParsedTimesSuffice(s.flow.parsed, s.flow.written, a, FlowKind);
    SealedFlowsArePrefix(st, a, From(s.flow.written, a, FlowKind));
    SumIsTotal(st.files, Announced(st.queue, a, FlowKind), layer, p, counter);
    var rest := s.flow.parsed[|s.flow.written|..];
    assert s.flow.written + rest == s.flow.parsed;
    FromConcat(s.flow.written, rest, a, FlowKind);
  }
}
