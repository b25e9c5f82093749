/**
 The collecting and the writing thread as a system of atomic steps.  Every step is one
 locked queue operation, the reception of one datagram or the writing of one sample; the
 program counters are positions inside `collect`/`flushLists` and `writeBufferToDisk`.
 */
module Pipeline {
  import opened Samples
  import opened BufferQueue

  /** The room that the flush condition keeps free. */
  const MAX_DATAGRAM_SAMPLES: nat := 10

  type SampleBuf = Buf<Sample>

  /** Everything the daemon holds for one kind of sample: the two queues, start first, the
      collector's and the writer's buffer, and what was parsed and written so far. */
  datatype Lane = Lane(
    free: seq<SampleBuf>, flush: seq<SampleBuf>, collecting: Option<SampleBuf>, writing: Option<SampleBuf>,
    parsed: seq<Sample>, written: seq<Sample>)

  datatype CollectorPc = Collecting | PushingFlow | PushingCntr | PoppingFlow | PoppingCntr

  datatype WriterPc =
    | TakingFlow | TakingCntr
    | WritingFlow(pos: nat) | WritingCntr(pos: nat)
    | ReturningFlow | ReturningCntr

  datatype State = State(
    flow: Lane, cntr: Lane, collector: CollectorPc, writer: WriterPc,
    flushes: nat,        // calls of flushLists begun
    lastFlush: nat,      // when the collector entered its loop for the last one; 0 before the first datagram
    log: seq<Sample>)    // the samples written, both kinds

  /** The daemon's configuration, and what it does not know: the most samples that the agents put
      into one datagram. */
  datatype Config = Config(bufferNum: nat, bufferSize: nat, flushInterval: nat, datagramLimit: nat)

  /** Without a first buffer for the collector the daemon does not start. */
  predicate CanStart(c: Config) {
    c.bufferNum >= 1
  }

  /** A buffer that is not flushed after a datagram still has room for the next one.  The flush
      condition compares with `>=`, so it leaves one place more than it means to, and it compares
      unsigned numbers, so it never fires for buffers below its margin. */
  predicate RoomForDatagrams(c: Config) {
    || c.datagramLimit == 0
    || if c.flushInterval == 0 then c.datagramLimit <= c.bufferSize
       else
         && c.bufferSize >= 10
         && c.datagramLimit <= if c.bufferSize == 10 then 10 else 11
  }

  /** What the daemon's 32-bit configuration must satisfy to keep its buffers in bounds. */
  predicate ValidConfig(c: Config) {
    CanStart(c) && c.bufferSize < TWO_32 && RoomForDatagrams(c)
  }

  // ----- steps of one lane -----

  function Receive(l: Lane, xs: seq<Sample>): Lane
    requires l.collecting.Some?
  {
    var b := l.collecting.value;
    l.(collecting := Some(b.(items := b.items + xs)), parsed := l.parsed + xs)
  }

  function PushFlush(l: Lane, batch: nat): Lane
    requires l.collecting.Some?
  {
    l.(flush := PushFront(l.flush, l.collecting.value.(batch := batch)), collecting := None)
  }

  function PopFree(l: Lane, limit: nat, outcome: WaitOutcome): Lane
    requires l.free != [] && limit >= 1
  {
    AdjustmentKeepsLast(l.free, limit, outcome, Buf(0, []));
    var q := Adjusted(l.free, limit, outcome, Buf(0, []));
    l.(free := AllButLast(q), collecting := Some(Last(q)))
  }

  function TakeFlush(l: Lane): Lane
    requires l.flush != []
  {
    l.(flush := AllButLast(l.flush), writing := Some(Last(l.flush)))
  }

  function Write(l: Lane, pos: nat): Lane
    requires l.writing.Some? && pos < |l.writing.value.items|
  {
    l.(written := l.written + [l.writing.value.items[pos]])
  }

  function Clear(l: Lane): Lane
    requires l.writing.Some?
  {
    l.(writing := Some(l.writing.value.(items := [])))
  }

  function Return(l: Lane): Lane
    requires l.writing.Some?
  {
    l.(free := PushFront(l.free, l.writing.value), writing := None)
  }

  // ----- steps of the system -----

  /** A datagram is received with its samples; the collector took the time when it entered its loop,
      before it waited for the datagram. */
  datatype Action =
    | Datagram(flows: seq<Sample>, cntrs: seq<Sample>, entered: nat)
    | PushFlow | PushCntr
    | PopFlow(outcome: WaitOutcome) | PopCntr(outcome: WaitOutcome)
    | WriterStep

  predicate Enabled(c: Config, s: State, a: Action) {
    match a
    case Datagram(flows, cntrs, entered) =>
      && s.collector == Collecting && s.flow.collecting.Some? && s.cntr.collecting.Some?
      && |flows| + |cntrs| <= c.datagramLimit
      && (forall x <- flows :: x.Kind() == FlowKind) && (forall x <- cntrs :: x.Kind() == CntrKind)
    case PushFlow => s.collector == PushingFlow && s.flow.collecting.Some?
    case PushCntr => s.collector == PushingCntr && s.cntr.collecting.Some?
    case PopFlow(_) => s.collector == PoppingFlow && s.flow.free != [] && c.bufferNum >= 1
    case PopCntr(_) => s.collector == PoppingCntr && s.cntr.free != [] && c.bufferNum >= 1
    case WriterStep => WriterEnabled(s)
  }

  predicate WriterEnabled(s: State) {
    match s.writer
    case TakingFlow => s.flow.flush != []
    case TakingCntr => s.cntr.flush != []
    case WritingFlow(_) => s.flow.writing.Some?
    case WritingCntr(_) => s.cntr.writing.Some?
    case ReturningFlow => s.flow.writing.Some?
    case ReturningCntr => s.cntr.writing.Some?
  }

  /** Whether the collector flushes after a datagram: the interval has passed, or one of
      its two buffers has no room for the samples of another datagram (in unsigned arithmetic). */
  predicate MustFlush(c: Config, flowCount: nat, cntrCount: nat, elapsed: int) {
    || elapsed % TWO_32 >= c.flushInterval
    || flowCount >= (c.bufferSize - MAX_DATAGRAM_SAMPLES) % TWO_32
    || cntrCount >= (c.bufferSize - MAX_DATAGRAM_SAMPLES) % TWO_32
  }

  function Written(s: State, x: Sample): State {
    s.(log := s.log + [x])
  }

  function WriterNext(s: State): State
    requires WriterEnabled(s)
  {
    match s.writer
    case TakingFlow => s.(flow := TakeFlush(s.flow), writer := TakingCntr)
    case TakingCntr => s.(cntr := TakeFlush(s.cntr), writer := WritingFlow(0))
    case WritingFlow(pos) =>
      if pos < |s.flow.writing.value.items| then
        Written(s, s.flow.writing.value.items[pos]).(flow := Write(s.flow, pos), writer := WritingFlow(pos + 1))
      else
        s.(flow := Clear(s.flow), writer := WritingCntr(0))
    case WritingCntr(pos) =>
      if pos < |s.cntr.writing.value.items| then
        Written(s, s.cntr.writing.value.items[pos]).(cntr := Write(s.cntr, pos), writer := WritingCntr(pos + 1))
      else
        s.(cntr := Clear(s.cntr), writer := ReturningFlow)
    case ReturningFlow => s.(flow := Return(s.flow), writer := ReturningCntr)
    case ReturningCntr => s.(cntr := Return(s.cntr), writer := TakingFlow)
  }

  function Do(c: Config, s: State, a: Action): State
    requires Enabled(c, s, a)
  {
    match a
    case Datagram(flows, cntrs, entered) =>
      var flow, cntr := Receive(s.flow, flows), Receive(s.cntr, cntrs);
      var last := if s.lastFlush == 0 then entered else s.lastFlush;
      if MustFlush(c, |flow.collecting.value.items|, |cntr.collecting.value.items|, entered - last) then
        s.(flow := flow, cntr := cntr, lastFlush := entered, collector := PushingFlow)
      else
        s.(flow := flow, cntr := cntr, lastFlush := last)
    case PushFlow =>
      s.(flow := PushFlush(s.flow, s.flushes + 1), flushes := s.flushes + 1, collector := PushingCntr)
    case PushCntr => s.(cntr := PushFlush(s.cntr, s.flushes), collector := PoppingFlow)
    case PopFlow(outcome) => s.(flow := PopFree(s.flow, c.bufferNum, outcome), collector := PoppingCntr)
    case PopCntr(outcome) => s.(cntr := PopFree(s.cntr, c.bufferNum, outcome), collector := Collecting)
    case WriterStep => WriterNext(s)
  }

  /** One scheduling decision; a thread that cannot move stays where it is. */
  function Step(c: Config, s: State, a: Action): State {
    if Enabled(c, s, a) then Do(c, s, a) else s
  }

  function InitialLane(c: Config): Lane
    requires CanStart(c)
  {
    Lane(seq(c.bufferNum - 1, _ => Buf(0, [])), [], Some(Buf(0, [])), None, [], [])
  }

  /** After allocateMemory: the collector holds one buffer of each kind. */
  function Initial(c: Config): State
    requires CanStart(c)
  {
    State(InitialLane(c), InitialLane(c), Collecting, TakingFlow, 0, 0, [])
  }

  /** The state after any schedule of the two threads. */
  function Run(c: Config, schedule: seq<Action>): State
    requires CanStart(c)
  {
    if schedule == [] then Initial(c)
    else Step(c, Run(c, schedule[..|schedule| - 1]), schedule[|schedule| - 1])
  }
}
