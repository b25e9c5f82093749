/**
 The collecting daemon on the heap: both lanes, the two threads' positions and the segment
 files.  Each method is one atomic step of one thread and takes exactly the step of module
 Pipeline, so all guarantees of the pipeline are guarantees about this heap.
 */
module Daemon {
  import opened Samples
  import opened BufferQueue
  import opened SampleStore
  import opened Pipeline
  import opened PipelineInvariant
  import opened LaneBuffers

  lemma ReceiveNothing(l: Lane)
    requires l.collecting.Some?
    ensures Pipeline.Receive(l, []) == l
  {
    assert l.collecting.value.items + [] == l.collecting.value.items && l.parsed + [] == l.parsed;
  }

  lemma ReceiveOneMore(l: Lane, xs: seq<Sample>, x: Sample)
    requires l.collecting.Some?
    ensures Pipeline.Receive(Pipeline.Receive(l, xs), [x]) == Pipeline.Receive(l, xs + [x])
  {
    assert l.collecting.value.items + xs + [x] == l.collecting.value.items + (xs + [x]);
    assert l.parsed + xs + [x] == l.parsed + (xs + [x]);
  }

  class Stcollectd {
    const config: Config
    const flow: LaneHeap
    const cntr: LaneHeap
    const segments: SegmentWriter
    var collector: CollectorPc
    var writer: WriterPc
    var lastFlush: nat
    ghost var flushes: nat
    ghost var log: seq<Sample>

    ghost function Model(): State
      reads this, flow, cntr
    {
      State(flow.model, cntr.model, collector, writer, flushes, lastFlush, log)
    }

    ghost function Repr(): set<object>
      reads this, flow, cntr
    {
      {this, segments} + flow.Repr + cntr.Repr
    }

    ghost predicate Valid()
      reads this, segments, flow, cntr, flow.Repr, cntr.Repr
    {
      && {this as object} !! {segments as object} !! flow.Repr !! cntr.Repr
      && flow.Valid() && cntr.Valid()
      && flow.free.bufferSize == cntr.free.bufferSize == config.bufferSize
      && segments.Model() == StoreOf(log)
    }

    constructor (c: Config)
      requires CanStart(c)
      ensures Valid() && fresh(Repr()) && config == c
      ensures Model() == Initial(c)
    {
      hide LaneHeap.Valid;
      config := c;
      flow := new LaneHeap(c);
      cntr := new LaneHeap(c);
      segments := new SegmentWriter();
      collector, writer, lastFlush := Collecting, TakingFlow, 0;
      flushes, log := 0, [];
    }

    // ----- the collecting thread -----

    /** Stores the samples of one datagram and decides whether to flush. */
    method ReceiveDatagram(flows: seq<Sample>, cntrs: seq<Sample>, entered: nat)
      requires Valid() && HasRoom(config, Model())
      requires Enabled(config, Model(), Datagram(flows, cntrs, entered))
      modifies Repr()
      ensures Valid() && Repr() == old(Repr())
      ensures Model() == Step(config, old(Model()), Datagram(flows, cntrs, entered))
    {
      hide LaneHeap.Valid;
      StoreFlows(flows);
      StoreCntrs(cntrs);
      var flowCount := flow.CollectingCount();
      var cntrCount := cntr.CollectingCount();
      var last := if lastFlush == 0 then entered else lastFlush;
      lastFlush := last;
      if MustFlush(config, flowCount, cntrCount, entered - last) {
        collector := PushingFlow;
        lastFlush := entered;
      }
    }

    method StoreFlows(xs: seq<Sample>)
      requires Valid() && flow.model.collecting.Some?
      requires |flow.model.collecting.value.items| + |xs| <= config.bufferSize
      modifies flow.Repr
      ensures Valid() && Repr() == old(Repr())
      ensures Model() == old(Model()).(flow := Pipeline.Receive(old(flow.model), xs))
    {
      hide LaneHeap.Valid;
      ReceiveNothing(flow.model);
      for i := 0 to |xs|
        invariant Valid() && flow.Repr == old(flow.Repr)
        invariant flow.model == Pipeline.Receive(old(flow.model), xs[..i])
      {
        ReceiveOneMore(old(flow.model), xs[..i], xs[i]);
        flow.Store(xs[i]);
        assert xs[..i + 1] == xs[..i] + [xs[i]];
      }
      assert xs[..|xs|] == xs;
    }

    method StoreCntrs(xs: seq<Sample>)
      requires Valid() && cntr.model.collecting.Some?
      requires |cntr.model.collecting.value.items| + |xs| <= config.bufferSize
      modifies cntr.Repr
      ensures Valid() && Repr() == old(Repr())
      ensures Model() == old(Model()).(cntr := Pipeline.Receive(old(cntr.model), xs))
    {
      hide LaneHeap.Valid;
      ReceiveNothing(cntr.model);
      for i := 0 to |xs|
        invariant Valid() && cntr.Repr == old(cntr.Repr)
        invariant cntr.model == Pipeline.Receive(old(cntr.model), xs[..i])
      {
        ReceiveOneMore(old(cntr.model), xs[..i], xs[i]);
        cntr.Store(xs[i]);
        assert xs[..i + 1] == xs[..i] + [xs[i]];
      }
      assert xs[..|xs|] == xs;
    }

    method FlushFlowBuffer()
      requires Valid() && Enabled(config, Model(), PushFlow)
      modifies Repr()
      ensures Valid() && Repr() == old(Repr())
      ensures Model() == Step(config, old(Model()), PushFlow)
    {
      hide LaneHeap.Valid;
      flow.Push(flushes + 1);
      flushes := flushes + 1;
      collector := PushingCntr;
    }

    method FlushCntrBuffer()
      requires Valid() && Enabled(config, Model(), PushCntr)
      modifies Repr()
      ensures Valid() && Repr() == old(Repr())
      ensures Model() == Step(config, old(Model()), PushCntr)
    {
      hide LaneHeap.Valid;
      cntr.Push(flushes);
      collector := PoppingFlow;
    }

    method RefillFlow(outcome: WaitOutcome)
      requires Valid() && Owners(Model()) && Enabled(config, Model(), PopFlow(outcome))
      modifies Repr()
      ensures Valid() && fresh(Repr() - old(Repr()))
      ensures Model() == Step(config, old(Model()), PopFlow(outcome))
    {
      hide LaneHeap.Valid;
      flow.Pop(config.bufferNum, outcome);
      collector := PoppingCntr;
    }

    method RefillCntr(outcome: WaitOutcome)
      requires Valid() && Owners(Model()) && Enabled(config, Model(), PopCntr(outcome))
      modifies Repr()
      ensures Valid() && fresh(Repr() - old(Repr()))
      ensures Model() == Step(config, old(Model()), PopCntr(outcome))
    {
      hide LaneHeap.Valid;
      cntr.Pop(config.bufferNum, outcome);
      collector := Collecting;
    }

    // ----- the writing thread -----

    /** One step of the loop of writeBufferToDisk. */
    method WriteBuffers()
      requires Valid() && Owners(Model()) && WriterEnabled(Model())
      modifies Repr()
      ensures Valid() && Repr() == old(Repr())
      ensures Model() == Step(config, old(Model()), WriterStep)
    {
      hide LaneHeap.Valid;
      match writer {
        case TakingFlow =>
          flow.Take();
          writer := TakingCntr;
        case TakingCntr =>
          cntr.Take();
          writer := WritingFlow(0);
        case WritingFlow(pos) =>
          WriteFlow(pos);
        case WritingCntr(pos) =>
          WriteCntr(pos);
        case ReturningFlow =>
          flow.GiveBack();
          writer := ReturningCntr;
        case ReturningCntr =>
          cntr.GiveBack();
          writer := TakingFlow;
      }
    }

    method WriteFlow(pos: nat)
      requires Valid() && WriterEnabled(Model()) && writer == WritingFlow(pos)
      modifies Repr()
      ensures Valid() && Repr() == old(Repr())
      ensures Model() == WriterNext(old(Model()))
    {
      hide LaneHeap.Valid;
      hide StoreOf;
      hide AddSample;
      var count := flow.WritingCount();
      if pos < count {
        var s := flow.Next(pos);
        segments.AddSampleToFile(s);
        StoreAppend(log, s);
        log := log + [s];
        writer := WritingFlow(pos + 1);
      } else {
        flow.Empty();
        writer := WritingCntr(0);
      }
    }

    method WriteCntr(pos: nat)
      requires Valid() && WriterEnabled(Model()) && writer == WritingCntr(pos)
      modifies Repr()
      ensures Valid() && Repr() == old(Repr())
      ensures Model() == WriterNext(old(Model()))
    {
      hide LaneHeap.Valid;
      hide StoreOf;
      hide AddSample;
      var count := cntr.WritingCount();
      if pos < count {
        var s := cntr.Next(pos);
        segments.AddSampleToFile(s);
        StoreAppend(log, s);
        log := log + [s];
        writer := WritingCntr(pos + 1);
      } else {
        cntr.Empty();
        writer := ReturningFlow;
      }
    }
  }
}
