/**
 The buffers of one kind of sample as stcollectd holds them: two linked queues on the heap
 and the pointers of the two threads.  Every operation refines the lane step of the same
 name in module Pipeline, and every live buffer has exactly one owner.
 */
module LaneBuffers {
  import opened Samples
  import opened BufferQueue
  import opened Pipeline

  lemma FirstPop(c: Config)
    requires CanStart(c)
    ensures var all: seq<SampleBuf> := seq(c.bufferNum, _ => Buf(0, []));
            && Adjusted(all, c.bufferNum, Signalled, Buf(0, [])) == all
            && AllButLast(all) == InitialLane(c).free && Last(all) == Buf(0, [])
            && InitialLane(c).flush == [] && InitialLane(c).collecting == Some(Buf(0, []))
            && InitialLane(c).writing == None
  {
  }

  class LaneHeap {
    const free: BQueue<Sample>
    const flush: BQueue<Sample>
    var collecting: Buffer?<Sample>  // keeps its old value after a push
    var writing: Buffer?<Sample>
    ghost var model: Lane
    ghost var Repr: set<object>

    /** The footprint of a thread's buffer, if the thread has one. */
    static ghost function Footprint(b: Buffer?<Sample>, m: Option<SampleBuf>): set<object> {
      if m.Some? && b != null then {b, b.data} else {}
    }

    /** The footprints of the two queues and the two threads are disjoint: every live
        buffer, with its data, has exactly one owner. */
    ghost predicate OneOwner()
      reads this, free, flush
    {
      && {this} !! free.Repr !! flush.Repr
              !! Footprint(collecting, model.collecting) !! Footprint(writing, model.writing)
      && this in Repr
      && free.Repr <= Repr && flush.Repr <= Repr
      && Footprint(collecting, model.collecting) <= Repr && Footprint(writing, model.writing) <= Repr
    }

    static ghost predicate ThreadHolds(b: Buffer?<Sample>, m: Option<SampleBuf>, size: nat)
      reads Footprint(b, m)
    {
      m.Some? ==> b != null && b.next == null && b.Ok(size) && b.held == m.value
    }

    ghost predicate Valid()
      reads this, Repr
      ensures Valid() ==> this in Repr
    {
      && free in Repr && flush in Repr && OneOwner() && free.bufferSize == flush.bufferSize
      && free.Valid() && flush.Valid()
      && free.held == model.free && flush.held == model.flush
      && ThreadHolds(collecting, model.collecting, free.bufferSize)
      && ThreadHolds(writing, model.writing, free.bufferSize)
    }

    /** The allocation at start-up: the queues, and the collector's first buffer. */
    constructor (c: Config)
      requires CanStart(c)
      ensures Valid() && fresh(Repr)
      ensures free.bufferSize == c.bufferSize && model == InitialLane(c)
    {
      hide BQueue.Valid, InitialLane, Adjusted, AllButLast, Last;
      free := new BQueue(c.bufferNum, c.bufferSize);
      flush := new BQueue(0, c.bufferSize);
      new;
      FirstPop(c);
      collecting := free.Pop(c.bufferNum, Signalled);
      model := InitialLane(c);
      Repr := {this} + free.Repr + flush.Repr + Footprint(collecting, model.collecting);
      assert free.held == model.free && collecting.held == Buf(0, []);
    }

    /** Stores one parsed sample in the collector's buffer. */
    method Store(s: Sample)
      requires Valid() && model.collecting.Some?
      requires |model.collecting.value.items| < free.bufferSize
      modifies Repr
      ensures Valid() && Repr == old(Repr)
      ensures model == Receive(old(model), [s])
    {
      hide BQueue.Valid;
      var b := collecting;
      b.data[b.count] := s;
      b.count := b.count + 1;
      b.held := b.held.(items := b.held.items + [s]);
      model := Receive(model, [s]);
    }

    /** Hands the collector's buffer to the flush queue. */
    method Push(ghost batch: nat)
      requires Valid() && model.collecting.Some?
      modifies Repr
      ensures Valid() && Repr == old(Repr)
      ensures model == PushFlush(old(model), batch)
    {
      hide BQueue.Valid;
      collecting.held := collecting.held.(batch := batch);
      flush.Push(collecting);
      model := PushFlush(model, batch);
    }

    /** Takes a buffer for the collector, from the moment the pop's wait loop is left. */
    method Pop(limit: nat, outcome: WaitOutcome)
      requires Valid() && model.free != [] && model.collecting.None? && limit >= 1
      modifies Repr
      ensures Valid() && fresh(Repr - old(Repr))
      ensures model == PopFree(old(model), limit, outcome)
    {
      hide BQueue.Valid;
      hide Adjusted;
      collecting := free.Pop(limit, outcome);
      Repr := Repr + free.Repr;
      model := PopFree(model, limit, outcome);
    }

    /** Takes the oldest flushed buffer for the writer. */
    method Take()
      requires Valid() && model.flush != [] && model.writing.None?
      modifies Repr
      ensures Valid() && Repr == old(Repr)
      ensures model == TakeFlush(old(model))
    {
      hide BQueue.Valid;
      writing := flush.PopWait();
      model := TakeFlush(model);
    }

    method CollectingCount() returns (n: nat)
      requires Valid() && model.collecting.Some?
      ensures n == |model.collecting.value.items|
    {
      n := collecting.count;
    }

    method WritingCount() returns (n: nat)
      requires Valid() && model.writing.Some?
      ensures n == |model.writing.value.items|
    {
      n := writing.count;
    }

    /** The sample that the writer writes next. */
    method Next(pos: nat) returns (s: Sample)
      requires Valid() && model.writing.Some? && pos < |model.writing.value.items|
      modifies this`model
      ensures Valid() && Repr == old(Repr)
      ensures s == old(model).writing.value.items[pos] && model == Write(old(model), pos)
    {
      hide BQueue.Valid;
      s := writing.data[pos];
      model := Write(model, pos);
    }

    /** Marks the writer's buffer empty. */
    method Empty()
      requires Valid() && model.writing.Some?
      modifies Repr
      ensures Valid() && Repr == old(Repr)
      ensures model == Clear(old(model))
    {
      hide BQueue.Valid;
      writing.count := 0;
      writing.held := writing.held.(items := []);
      model := Clear(model);
    }

    /** Puts the writer's buffer back on the free queue. */
    method GiveBack()
      requires Valid() && model.writing.Some?
      modifies Repr
      ensures Valid() && Repr == old(Repr)
      ensures model == Return(old(model))
    {
      hide BQueue.Valid;
      free.Push(writing);
      model := Return(model);
    }
  }
}
