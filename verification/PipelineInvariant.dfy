/** What every interleaving of the two threads keeps. */
module PipelineInvariant {
  import opened Samples
  import opened BufferQueue
  import opened Pipeline

  // ----- invariants of one lane -----

  /** The samples of a flush queue in the order in which they are written: end to start. */
  function Queued(q: seq<SampleBuf>): seq<Sample> {
    if q == [] then [] else Queued(q[1..]) + q[0].items
  }

  function ItemsFrom(b: Option<SampleBuf>, pos: nat): seq<Sample> {
    if b.Some? && pos <= |b.value.items| then b.value.items[pos..] else []
  }

  /** The samples of a lane that were parsed and are not yet written, oldest first. */
  function InFlight(l: Lane, pos: nat): seq<Sample> {
    ItemsFrom(l.writing, pos) + Queued(l.flush) + ItemsFrom(l.collecting, 0)
  }

  ghost predicate Conserved(l: Lane, pos: nat) {
    l.parsed == l.written + InFlight(l, pos)
  }

  ghost predicate Fits(c: Config, l: Lane) {
    && (forall b <- l.free :: b.items == [])
    && (forall b <- l.flush :: |b.items| <= c.bufferSize)
    && (l.collecting.Some? ==> |l.collecting.value.items| <= c.bufferSize)
    && (l.writing.Some? ==> |l.writing.value.items| <= c.bufferSize)
  }

  function Held(b: Option<SampleBuf>): nat {
    if b.Some? then 1 else 0
  }

  /** The number of buffers of a lane. */
  function Live(l: Lane): nat {
    |l.free| + |l.flush| + Held(l.collecting) + Held(l.writing)
  }

  /** The buffers of a flush queue carry consecutive flush numbers, the newest `last`; the
      writer's buffer, if it has one, carries the number before them. */
  ghost predicate Numbered(l: Lane, last: nat) {
    && |l.flush| <= last
    && (forall j :: 0 <= j < |l.flush| ==> l.flush[j].batch == last - j)
    && (l.writing.Some? ==> l.writing.value.batch == last - |l.flush|)
  }

  lemma {:induction false} QueuedLast(q: seq<SampleBuf>)
    requires q != []
    ensures Queued(q) == Last(q).items + Queued(AllButLast(q))
  {
    if |q| == 1 {
      assert q[1..] == [] && AllButLast(q) == [];
    } else {
      QueuedLast(q[1..]);
      assert AllButLast(q)[1..] == AllButLast(q[1..]);
    }
  }

  lemma QueuedPush(q: seq<SampleBuf>, b: SampleBuf)
    ensures Queued(PushFront(q, b)) == Queued(q) + b.items
  {
    assert PushFront(q, b)[1..] == q;
  }

  /** What every lane keeps: its samples are conserved, they fit, free buffers are empty, the
      pool does not shrink below its configured size and flush numbers are consecutive. */
  ghost predicate LaneOk(c: Config, l: Lane, pos: nat, last: nat) {
    Conserved(l, pos) && Fits(c, l) && Live(l) >= c.bufferNum && Numbered(l, last)
  }

  lemma ReceiveKeeps(c: Config, l: Lane, pos: nat, last: nat, xs: seq<Sample>)
    requires LaneOk(c, l, pos, last) && l.collecting.Some?
    requires |l.collecting.value.items| + |xs| <= c.bufferSize
    ensures LaneOk(c, Receive(l, xs), pos, last)
  {
    assert InFlight(Receive(l, xs), pos) == InFlight(l, pos) + xs;
  }

  lemma PushFlushKeeps(c: Config, l: Lane, pos: nat, last: nat)
    requires LaneOk(c, l, pos, last) && l.collecting.Some?
    ensures LaneOk(c, PushFlush(l, last + 1), pos, last + 1)
  {
    QueuedPush(l.flush, l.collecting.value.(batch := last + 1));
    assert InFlight(PushFlush(l, last + 1), pos) == InFlight(l, pos);
  }

  /** The collector's pop hands out an empty buffer; growing and shrinking the pool touch
      only empty buffers and never leave fewer than the configured number alive. */
  lemma PopFreeKeeps(c: Config, l: Lane, pos: nat, last: nat, outcome: WaitOutcome)
    requires c.bufferNum >= 1 && l.free != [] && l.collecting.None?
    requires LaneOk(c, l, pos, last)
    ensures LaneOk(c, PopFree(l, c.bufferNum, outcome), pos, last)
    ensures PopFree(l, c.bufferNum, outcome).collecting == Some(Last(l.free))
    ensures Last(l.free).items == []
  {
    AdjustmentKeepsLast(l.free, c.bufferNum, outcome, Buf(0, []));
    var q := Adjusted(l.free, c.bufferNum, outcome, Buf(0, []));
    assert forall b <- q :: b.items == [];
    assert InFlight(PopFree(l, c.bufferNum, outcome), pos) == InFlight(l, pos);
  }

  lemma TakeFlushKeeps(c: Config, l: Lane, last: nat)
    requires LaneOk(c, l, 0, last) && l.flush != [] && l.writing.None?
    ensures LaneOk(c, TakeFlush(l), 0, last)
  {
    QueuedLast(l.flush);
    assert InFlight(TakeFlush(l), 0) == InFlight(l, 0);
  }

  lemma WriteKeeps(c: Config, l: Lane, pos: nat, last: nat)
    requires LaneOk(c, l, pos, last) && l.writing.Some? && pos < |l.writing.value.items|
    ensures LaneOk(c, Write(l, pos), pos + 1, last)
  {
    assert InFlight(l, pos) == [l.writing.value.items[pos]] + InFlight(l, pos + 1);
  }

  lemma ClearKeeps(c: Config, l: Lane, last: nat)
    requires l.writing.Some? && LaneOk(c, l, |l.writing.value.items|, last)
    ensures LaneOk(c, Clear(l), 0, last)
  {
    assert InFlight(Clear(l), 0) == InFlight(l, |l.writing.value.items|);
  }

  lemma ReturnKeeps(c: Config, l: Lane, last: nat)
    requires l.writing.Some? && l.writing.value.items == [] && LaneOk(c, l, 0, last)
    ensures LaneOk(c, Return(l), 0, last)
  {
    assert InFlight(Return(l), 0) == InFlight(l, 0);
  }

  // ----- the invariant of the system -----

  function FlowPos(w: WriterPc): nat {
    if w.WritingFlow? then w.pos else 0
  }

  function CntrPos(w: WriterPc): nat {
    if w.WritingCntr? then w.pos else 0
  }

  /** Who holds a buffer at each pair of program counters. */
  ghost predicate Owners(s: State) {
    && (s.flow.collecting.Some? <==> s.collector in {Collecting, PushingFlow, PoppingCntr})
    && (s.cntr.collecting.Some? <==> s.collector in {Collecting, PushingFlow, PushingCntr})
    && (s.flow.writing.Some? <==> !(s.writer.TakingFlow? || s.writer.ReturningCntr?))
    && (s.cntr.writing.Some? <==> !(s.writer.TakingFlow? || s.writer.TakingCntr?))
  }

  /** The writer's position is inside its buffer, and a buffer it is done with is empty. */
  ghost predicate WriterInside(s: State)
    requires Owners(s)
  {
    && (s.writer.WritingFlow? ==> s.writer.pos <= |s.flow.writing.value.items|)
    && (s.writer.WritingCntr? ==> s.writer.pos <= |s.cntr.writing.value.items|)
    && (s.writer.WritingCntr? || s.writer.ReturningFlow? ==> s.flow.writing.value.items == [])
    && (s.writer.ReturningFlow? || s.writer.ReturningCntr? ==> s.cntr.writing.value.items == [])
  }

  /** While it collects, each of the collector's buffers has room for one more datagram. */
  ghost predicate HasRoom(c: Config, s: State) {
    && (s.collector == Collecting ==>
          && (s.flow.collecting.Some? ==> |s.flow.collecting.value.items| + c.datagramLimit <= c.bufferSize)
          && (s.cntr.collecting.Some? ==> |s.cntr.collecting.value.items| + c.datagramLimit <= c.bufferSize))
    && (s.collector == PoppingCntr && s.flow.collecting.Some? ==> s.flow.collecting.value.items == [])
  }

  /** The flushes whose counter buffer is already on the flush queue. */
  function CntrFlushes(s: State): int {
    if s.collector == PushingCntr then s.flushes - 1 else s.flushes
  }

  /** Both lanes have handed the same flushes to the writer, so its buffers come in pairs. */
  ghost predicate Paired(s: State) {
    && CntrFlushes(s) >= 0
    && s.flushes - |s.flow.flush| == CntrFlushes(s) - |s.cntr.flush| + if s.writer.TakingCntr? then 1 else 0
  }

  ghost predicate LogOk(s: State) {
    && OfKind(s.log, FlowKind) == s.flow.written && OfKind(s.log, CntrKind) == s.cntr.written
    && (forall x <- s.flow.parsed :: x.Kind() == FlowKind)
    && (forall x <- s.cntr.parsed :: x.Kind() == CntrKind)
  }

  ghost predicate Inv(c: Config, s: State) {
    && Owners(s) && WriterInside(s) && HasRoom(c, s) && Paired(s) && LogOk(s)
    && LaneOk(c, s.flow, FlowPos(s.writer), s.flushes)
    && LaneOk(c, s.cntr, CntrPos(s.writer), CntrFlushes(s))
  }

  lemma InitialOk(c: Config)
    requires ValidConfig(c)
    ensures Inv(c, Initial(c))
  {
  }

  lemma DatagramOk(c: Config, s: State, a: Action)
    requires ValidConfig(c) && Inv(c, s) && a.Datagram? && Enabled(c, s, a)
    ensures Inv(c, Do(c, s, a))
  {
    hide LaneOk;
    ReceiveKeeps(c, s.flow, FlowPos(s.writer), s.flushes, a.flows);
    ReceiveKeeps(c, s.cntr, CntrPos(s.writer), CntrFlushes(s), a.cntrs);
  }

  lemma PushFlowOk(c: Config, s: State)
    requires ValidConfig(c) && Inv(c, s) && Enabled(c, s, PushFlow)
    ensures Inv(c, Do(c, s, PushFlow))
  {
    hide LaneOk;
    PushFlushKeeps(c, s.flow, FlowPos(s.writer), s.flushes);
    var s' := Do(c, s, PushFlow);
    assert s'.cntr == s.cntr && CntrFlushes(s') == CntrFlushes(s);
    assert |s'.flow.flush| == |s.flow.flush| + 1;
  }

  lemma PushCntrOk(c: Config, s: State)
    requires ValidConfig(c) && Inv(c, s) && Enabled(c, s, PushCntr)
    ensures Inv(c, Do(c, s, PushCntr))
  {
    hide LaneOk;
    PushFlushKeeps(c, s.cntr, CntrPos(s.writer), CntrFlushes(s));
    var s' := Do(c, s, PushCntr);
    assert s'.flow == s.flow && CntrFlushes(s') == CntrFlushes(s) + 1;
    assert |s'.cntr.flush| == |s.cntr.flush| + 1;
  }

  lemma PopOk(c: Config, s: State, a: Action)
    requires ValidConfig(c) && Inv(c, s) && (a.PopFlow? || a.PopCntr?) && Enabled(c, s, a)
    ensures Inv(c, Do(c, s, a))
  {
    hide LaneOk;
    if a.PopFlow? {
      PopFreeKeeps(c, s.flow, FlowPos(s.writer), s.flushes, a.outcome);
    } else {
      PopFreeKeeps(c, s.cntr, CntrPos(s.writer), s.flushes, a.outcome);
    }
  }

  lemma TakeOk(c: Config, s: State)
    requires ValidConfig(c) && Inv(c, s) && WriterEnabled(s) && (s.writer.TakingFlow? || s.writer.TakingCntr?)
    ensures Inv(c, WriterNext(s))
  {
    hide LaneOk;
    if s.writer.TakingFlow? {
      TakeFlushKeeps(c, s.flow, s.flushes);
    } else {
      TakeFlushKeeps(c, s.cntr, CntrFlushes(s));
    }
  }

  lemma ReturnOk(c: Config, s: State)
    requires ValidConfig(c) && Inv(c, s) && WriterEnabled(s) && (s.writer.ReturningFlow? || s.writer.ReturningCntr?)
    ensures Inv(c, WriterNext(s))
  {
    hide LaneOk;
    if s.writer.ReturningFlow? {
      ReturnKeeps(c, s.flow, s.flushes);
    } else {
      ReturnKeeps(c, s.cntr, CntrFlushes(s));
    }
  }

  lemma LogAppend(log: seq<Sample>, x: Sample, k: Kind)
    ensures OfKind(log + [x], k) == OfKind(log, k) + if x.Kind() == k then [x] else []
  {
    assert (log + [x])[..|log|] == log;
  }

  /** The next sample to write is a parsed one, so it is of the lane's kind. */
  lemma NextIsParsed(c: Config, l: Lane, pos: nat, last: nat)
    requires LaneOk(c, l, pos, last) && l.writing.Some? && pos < |l.writing.value.items|
    ensures l.writing.value.items[pos] in l.parsed
  {
    var x := l.writing.value.items[pos];
    assert InFlight(l, pos)[0] == x;
    assert x == l.parsed[|l.written|];
  }

  lemma WriteFlowOk(c: Config, s: State)
    requires ValidConfig(c) && Inv(c, s) && WriterEnabled(s) && s.writer.WritingFlow?
    requires s.writer.pos < |s.flow.writing.value.items|
    ensures Inv(c, WriterNext(s))
  {
    hide LaneOk;
    NextIsParsed(c, s.flow, s.writer.pos, s.flushes);
    WriteKeeps(c, s.flow, s.writer.pos, s.flushes);
    LogAppend(s.log, s.flow.writing.value.items[s.writer.pos], FlowKind);
    LogAppend(s.log, s.flow.writing.value.items[s.writer.pos], CntrKind);
  }

  lemma WriteCntrOk(c: Config, s: State)
    requires ValidConfig(c) && Inv(c, s) && WriterEnabled(s) && s.writer.WritingCntr?
    requires s.writer.pos < |s.cntr.writing.value.items|
    ensures Inv(c, WriterNext(s))
  {
    hide LaneOk;
    NextIsParsed(c, s.cntr, s.writer.pos, CntrFlushes(s));
    WriteKeeps(c, s.cntr, s.writer.pos, CntrFlushes(s));
    LogAppend(s.log, s.cntr.writing.value.items[s.writer.pos], FlowKind);
    LogAppend(s.log, s.cntr.writing.value.items[s.writer.pos], CntrKind);
  }

  lemma ClearOk(c: Config, s: State)
    requires ValidConfig(c) && Inv(c, s) && WriterEnabled(s)
    requires || (s.writer.WritingFlow? && s.writer.pos == |s.flow.writing.value.items|)
             || (s.writer.WritingCntr? && s.writer.pos == |s.cntr.writing.value.items|)
    ensures Inv(c, WriterNext(s))
  {
    hide LaneOk;
    if s.writer.WritingFlow? {
      ClearKeeps(c, s.flow, s.flushes);
    } else {
      ClearKeeps(c, s.cntr, CntrFlushes(s));
    }
  }

  lemma StepOk(c: Config, s: State, a: Action)
    requires ValidConfig(c) && Inv(c, s)
    ensures Inv(c, Step(c, s, a))
  {
    if Enabled(c, s, a) {
      match a
      case Datagram(_, _, _) => DatagramOk(c, s, a);
      case PushFlow => PushFlowOk(c, s);
      case PushCntr => PushCntrOk(c, s);
      case PopFlow(_) | PopCntr(_) => PopOk(c, s, a);
      case WriterStep =>
        match s.writer
        case TakingFlow | TakingCntr => TakeOk(c, s);
        case WritingFlow(pos) =>
          if pos < |s.flow.writing.value.items| { WriteFlowOk(c, s); } else { ClearOk(c, s); }
        case WritingCntr(pos) =>
          if pos < |s.cntr.writing.value.items| { WriteCntrOk(c, s); } else { ClearOk(c, s); }
        case ReturningFlow | ReturningCntr => ReturnOk(c, s);
    }
  }

  /** The invariant holds after every schedule of the two threads. */
  lemma {:induction false} RunOk(c: Config, schedule: seq<Action>)
    requires ValidConfig(c)
    ensures Inv(c, Run(c, schedule))
  {
    if schedule == [] {
      InitialOk(c);
    } else {
      RunOk(c, schedule[..|schedule| - 1]);
      StepOk(c, Run(c, schedule[..|schedule| - 1]), schedule[|schedule| - 1]);
    }
  }
}
