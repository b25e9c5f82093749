/**
 The buffer queues that the collecting and the writing thread of stcollectd share.
 A queue is a doubly linked list of buffers; its abstract value is the sequence of
 its buffers from `start` to `end`.  Buffers are pushed at the start and popped at
 the end.
 */
module BufferQueue {

  /** How the wait loop of a pop ended: its last wait did not time out, or it did and
      the attempt to allocate one more buffer succeeded or failed. */
  datatype WaitOutcome = Signalled | TimedOutAllocated | TimedOutNoMemory

  // ----- the queue as a sequence, start first -----

  function PushFront<T>(q: seq<T>, b: T): seq<T> {
    [b] + q
  }

  /** The queue at the moment the pop takes its buffer: one buffer may just have been
      added at, or discarded from, the start. */
  function Adjusted<T>(q: seq<T>, limit: nat, outcome: WaitOutcome, extra: T): seq<T>
  {
    match outcome
    case TimedOutAllocated => PushFront(q, extra)
    case TimedOutNoMemory => q
    case Signalled => if |q| > limit then q[1..] else q
  }

  function Last<T>(q: seq<T>): T
    requires q != []
  {
    q[|q| - 1]
  }

  function AllButLast<T>(q: seq<T>): seq<T>
    requires q != []
  {
    q[..|q| - 1]
  }

  /** Growing or shrinking the pool during a pop never changes which buffer the pop
      returns, only what stays behind at the start of the queue. */
  lemma AdjustmentKeepsLast<T>(q: seq<T>, limit: nat, outcome: WaitOutcome, extra: T)
    requires q != [] && limit >= 1
    ensures Adjusted(q, limit, outcome, extra) != []
    ensures Last(Adjusted(q, limit, outcome, extra)) == Last(q)
    ensures var left := AllButLast(Adjusted(q, limit, outcome, extra));
            && (outcome.TimedOutAllocated? ==> left == PushFront(AllButLast(q), extra))
            && (outcome.TimedOutNoMemory? ==> left == AllButLast(q))
            && (outcome.Signalled? ==> left == if |q| > limit then AllButLast(q)[1..] else AllButLast(q))
  {
    if outcome.Signalled? && |q| > limit {
      assert AllButLast(q[1..]) == AllButLast(q)[1..];
    }
    if outcome.TimedOutAllocated? {
      assert AllButLast(PushFront(q, extra)) == PushFront(AllButLast(q), extra);
    }
  }

  // ----- the queue on the heap -----

  /** What a buffer holds, and the flush that last put it on a flush queue. */
  datatype Buf<T> = Buf(batch: nat, items: seq<T>)

  class Buffer<T> {
    var next: Buffer?<T>
    var prev: Buffer?<T>
    var count: nat
    const data: array<T>
    ghost var held: Buf<T>

    ghost predicate Ok(size: nat)
      reads this`count, this`held, data
    {
      data.Length == size && count <= size && held.items == data[..count]
    }

    constructor (data: array<T>)
      ensures next == null && prev == null && this.data == data
      ensures held == Buf(0, []) && Ok(data.Length)
    {
      next, prev, count, this.data := null, null, 0, data;
      held := Buf(0, []);
    }
  }

  class BQueue<T(0)> {
    var num: nat
    const bufferSize: nat
    var start: Buffer?<T>
    var end: Buffer?<T>
    ghost var contents: seq<Buffer<T>>
    ghost var held: seq<Buf<T>>
    ghost var Repr: set<object>

    /** The links of a well-formed queue.  The `prev` of the first buffer is left open:
        a popped buffer keeps its old one and a push onto an empty queue does not clear it. */
    ghost predicate Linked()
      reads this`num, this`start, this`end, this`contents, contents`next, contents`prev
    {
      && num == |contents|
      && (forall i, j :: 0 <= i < j < num ==> contents[i] != contents[j])
      && (num == 0 ==> start == null && end == null)
      && (num > 0 ==> start == contents[0] && end == contents[num - 1] && contents[num - 1].next == null)
      && (forall i {:trigger contents[i].next} :: 0 <= i < num - 1 ==> contents[i].next == contents[i + 1])
      && (forall i {:trigger contents[i].prev} :: 0 < i < num ==> contents[i].prev == contents[i - 1])
    }

    /** A well-formed queue and the footprint it owns: itself and its buffers, each with
        its own data. */
    ghost predicate Valid()
      reads this, Repr
      ensures Valid() ==> this in Repr && num == |contents| == |held|
    {
      && this in Repr
      && |held| == |contents|
      && (forall i {:trigger contents[i]} :: 0 <= i < |contents| ==>
            && contents[i] in Repr && contents[i].data in Repr
            && contents[i].Ok(bufferSize) && contents[i].held == held[i])
      && Linked()
      && (forall i, j :: 0 <= i < j < |contents| ==> contents[i].data != contents[j].data)
    }

    constructor (num: nat, bufferSize: nat)
      ensures Valid() && fresh(Repr) && this.bufferSize == bufferSize
      ensures held == seq(num, _ => Buf(0, []))
    {
      this.num, start, end, contents, held := 0, null, null, [], [];
      this.bufferSize := bufferSize;
      Repr := {this};
      new;
      for k := 0 to num
        invariant Valid() && fresh(Repr) && this.bufferSize == bufferSize
        invariant held == seq(k, _ => Buf(0, []))
      {
        var b := PushNew();
      }
    }

    method LinkStart(b: Buffer<T>)
      requires Linked() && b !in contents && b.next == null
      modifies this`num, this`start, this`end, this`contents, b`next, b`prev, contents`prev
      ensures Linked() && contents == PushFront(old(contents), b)
    {
      if num == 0 {
        start := b;
        end := b;
      } else {
        start.prev := b;
        b.next := start;
        b.prev := null;
        start := b;
      }
      num := num + 1;
      contents := PushFront(contents, b);
    }

    method UnlinkStart() returns (b: Buffer<T>)
      requires Linked() && num == |contents| >= 2
      modifies this`num, this`start, this`contents, contents`prev
      ensures Linked() && b == old(contents)[0] && contents == old(contents)[1..] && b !in contents
    {
      b := start;
      start := b.next;
      start.prev := null;
      num := num - 1;
      contents := contents[1..];
    }

    method UnlinkEnd() returns (b: Buffer<T>)
      requires Linked() && num > 0
      modifies this`num, this`start, this`end, this`contents, contents`next
      ensures Linked() && b == Last(old(contents)) && contents == AllButLast(old(contents)) && b !in contents
      ensures b.next == null
    {
      if num == 1 {
        b := start;
        start := null;
        end := null;
      } else {
        b := end;
        end.prev.next := null;
        end := end.prev;
      }
      num := num - 1;
      contents := AllButLast(contents);
    }

    /** Puts a detached buffer at the start; it becomes part of the queue. */
    method Push(b: Buffer<T>)
      requires Valid() && b !in Repr && b.data !in Repr && b.Ok(bufferSize) && b.next == null
      modifies Repr, b
      ensures Valid() && Repr == old(Repr) + {b, b.data}
      ensures held == PushFront(old(held), old(b.held))
      ensures contents == PushFront(old(contents), b)
    {
      hide Linked;
      LinkStart(b);
      held := PushFront(held, b.held);
      Repr := Repr + {b, b.data};
      assert forall i {:trigger contents[i]} :: 0 < i < |contents| ==>
               contents[i] == old(contents)[i - 1] && held[i] == old(held)[i - 1];
    }

    /** Allocates an empty buffer and puts it at the start. */
    method PushNew() returns (b: Buffer<T>)
      requires Valid()
      modifies Repr
      ensures Valid() && Repr == old(Repr) + {b, b.data} && fresh(b) && fresh(b.data)
      ensures held == PushFront(old(held), Buf(0, []))
      ensures contents == PushFront(old(contents), b)
    {
      var data := new T[bufferSize];
      b := new Buffer(data);
      Push(b);
    }

    /** Discards the buffer at the start.  The code is only right for a queue of at least
        two buffers: it follows the link of the new start without testing it. */
    method Free()
      requires Valid() && num >= 2
      modifies Repr
      ensures Valid() && Repr <= old(Repr)
      ensures contents == old(contents)[1..] && held == old(held)[1..]
    {
      hide Linked;
      var b := UnlinkStart();
      held := held[1..];
      Repr := Repr - {b, b.data};
    }

    /** Unlinks the buffer at the end, which leaves the queue's footprint; shared by the
        two pops. */
    method TakeEnd() returns (b: Buffer<T>)
      requires Valid() && num > 0
      modifies Repr
      ensures Valid() && Repr == old(Repr) - {b, b.data} && {b, b.data} <= old(Repr)
      ensures b == Last(old(contents)) && contents == AllButLast(old(contents))
      ensures held == AllButLast(old(held))
      ensures b.next == null && b.Ok(bufferSize) && b.held == Last(old(held))
    {
      hide Linked;
      b := UnlinkEnd();
      held := AllButLast(held);
      Repr := Repr - {b, b.data};
    }

    /** The pop of the writing thread, from the moment its wait loop is left. */
    method PopWait() returns (b: Buffer<T>)
      requires Valid() && num > 0
      modifies Repr
      ensures Valid() && Repr == old(Repr) - {b, b.data} && {b, b.data} <= old(Repr)
      ensures b == Last(old(contents)) && contents == AllButLast(old(contents))
      ensures held == AllButLast(old(held))
      ensures b.next == null && b.Ok(bufferSize) && b.held == Last(old(held))
    {
      b := TakeEnd();
    }

    /** What the collecting thread's pop does to the pool once its wait loop is left: it
        adds a buffer, discards one, or neither.  `limit` is the configured number. */
    method Settle(limit: nat, outcome: WaitOutcome)
      requires Valid() && num > 0 && limit >= 1
      modifies Repr
      ensures Valid() && fresh(Repr - old(Repr))
      ensures contents != [] && Last(contents) == Last(old(contents))
      ensures held == Adjusted(old(held), limit, outcome, Buf(0, []))
    {
      AdjustmentKeepsLast(contents, limit, Signalled, start);
      if outcome.TimedOutAllocated? || outcome.TimedOutNoMemory? {
        if outcome.TimedOutAllocated? {
          var extra := PushNew();
        }
      } else if num > limit {
        Free();
      }
    }

    /** The pop of the collecting thread, from the moment its wait loop is left: whatever
        happened to the pool, it returns the buffer at the end. */
    method Pop(limit: nat, outcome: WaitOutcome) returns (b: Buffer<T>)
      requires Valid() && num > 0 && limit >= 1
      modifies Repr
      ensures Valid() && fresh(Repr - old(Repr)) && {b, b.data} <= old(Repr) && {b, b.data} !! Repr
      ensures b == Last(old(contents))
      ensures Adjusted(old(held), limit, outcome, Buf(0, [])) != []
      ensures b.next == null && b.Ok(bufferSize)
      ensures b.held == Last(old(held)) == Last(Adjusted(old(held), limit, outcome, Buf(0, [])))
      ensures held == AllButLast(Adjusted(old(held), limit, outcome, Buf(0, [])))
    {
      AdjustmentKeepsLast(held, limit, outcome, Buf(0, []));
      Settle(limit, outcome);
      b := TakeEnd();
    }
  }
}
