/** The guarantees of the two-thread pipeline, for every schedule. */
module PipelineGuarantees {
  import opened Samples
  import opened BufferQueue
  import opened SampleStore
  import opened Segmentation
  import opened Pipeline
  import opened PipelineInvariant

  /** Nothing is lost, duplicated or reordered: the samples parsed so far are the samples
      written, then the rest of the writer's buffer, then the flush queue from end to
      start, then the collector's buffer. */
  lemma SamplesConserved(c: Config, schedule: seq<Action>)
    requires ValidConfig(c)
    ensures var s := Run(c, schedule);
            && s.flow.parsed == s.flow.written + InFlight(s.flow, FlowPos(s.writer))
            && s.cntr.parsed == s.cntr.written + InFlight(s.cntr, CntrPos(s.writer))
            && OfKind(s.log, FlowKind) == s.flow.written && OfKind(s.log, CntrKind) == s.cntr.written
  {
    RunOk(c, schedule);
  }

  /** When the writer holds both buffers, one flushLists call flushed them both. */
  lemma BuffersPaired(c: Config, schedule: seq<Action>)
    requires ValidConfig(c)
    ensures var s := Run(c, schedule);
            s.flow.writing.Some? && s.cntr.writing.Some? ==>
              s.flow.writing.value.batch == s.cntr.writing.value.batch
  {
    RunOk(c, schedule);
  }

  /** No buffer ever holds more than its capacity, a free buffer is empty, and the pool of
      each kind never falls below its configured size. */
  lemma BuffersBounded(c: Config, schedule: seq<Action>)
    requires ValidConfig(c)
    ensures var s := Run(c, schedule);
            && Fits(c, s.flow) && Fits(c, s.cntr)
            && Live(s.flow) >= c.bufferNum && Live(s.cntr) >= c.bufferNum
  {
    RunOk(c, schedule);
  }

  function OneSample(x: FlowSample): Action {
    Datagram([Flow(x)], [], 1)
  }

  /** The collector collects, and its flow buffer holds `n` samples. */
  ghost predicate Filled(s: State, n: nat) {
    && s.collector == Collecting && s.lastFlush <= 1
    && s.flow.collecting.Some? && |s.flow.collecting.value.items| == n
    && s.cntr.collecting.Some? && s.cntr.collecting.value.items == []
  }

  lemma OneMore(c: Config, s: State, x: FlowSample, n: nat)
    requires c.datagramLimit >= 1 && c.flushInterval >= 1 && Filled(s, n)
    requires n + 1 < (c.bufferSize - MAX_DATAGRAM_SAMPLES) % TWO_32
    ensures Filled(Step(c, s, OneSample(x)), n + 1)
  {
    assert Enabled(c, s, OneSample(x));
    var last := if s.lastFlush == 0 then 1 else s.lastFlush;
    assert (1 - last) % TWO_32 == 0;
  }

  /** Datagrams of one sample fill a buffer up to the flush condition. */
  lemma {:induction false} FilledSlowly(c: Config, x: FlowSample, n: nat)
    requires CanStart(c) && c.datagramLimit >= 1 && c.flushInterval >= 1
    requires n == 0 || n < (c.bufferSize - MAX_DATAGRAM_SAMPLES) % TWO_32
    ensures Filled(Run(c, seq(n, _ => OneSample(x))), n)
    decreases n
  {
    hide Step, OneSample;
    if n > 0 {
      var schedule := seq(n, _ => OneSample(x));
      assert schedule[..n - 1] == seq(n - 1, _ => OneSample(x));
      FilledSlowly(c, x, n - 1);
      OneMore(c, Run(c, schedule[..n - 1]), x, n - 1);
    }
  }

  lemma TooMuch(c: Config, s: State, x: FlowSample, n: nat, m: nat)
    requires Filled(s, n) && m <= c.datagramLimit && n + m > c.bufferSize
    ensures !Fits(c, Step(c, s, Datagram(seq(m, _ => Flow(x)), [], 1)).flow)
  {
    hide MustFlush;
    var a := Datagram(seq(m, _ => Flow(x)), [], 1);
    assert Enabled(c, s, a);
    assert |Do(c, s, a).flow.collecting.value.items| == n + m;
  }

  lemma NothingFilled(c: Config)
    requires CanStart(c)
    ensures Filled(Run(c, []), 0)
  {
  }

  lemma RunOneMore(c: Config, schedule: seq<Action>, a: Action)
    requires CanStart(c)
    ensures Run(c, schedule + [a]) == Step(c, Run(c, schedule), a)
  {
    hide Step;
    assert (schedule + [a])[..|schedule|] == schedule;
  }

  /** Some schedule overruns a buffer: `n` samples one by one, then `m` at once. */
  lemma Overrun(c: Config, n: nat, m: nat)
    requires CanStart(c) && 1 <= m <= c.datagramLimit && n + m > c.bufferSize
    requires n == 0 || (c.flushInterval >= 1 && n < (c.bufferSize - MAX_DATAGRAM_SAMPLES) % TWO_32)
    ensures exists schedule :: !Fits(c, Run(c, schedule).flow)
  {
    hide Run, Fits, Step, Filled, OneSample, Initial;
    var x: FlowSample :| true;
    var slow := seq(n, _ => OneSample(x));
    var a := Datagram(seq(m, _ => Flow(x)), [], 1);
    if n > 0 {
      FilledSlowly(c, x, n);
    } else {
      NothingFilled(c);
      assert slow == [];
    }
    TooMuch(c, Run(c, slow), x, n, m);
    RunOneMore(c, slow, a);
    assert !Fits(c, Run(c, slow + [a]).flow);
  }

  /** The buffers are bounded for every schedule exactly if what the flush condition leaves free
      is room for one datagram. */
  lemma BoundedIffRoomForDatagrams(c: Config)
    requires CanStart(c) && c.bufferSize < TWO_32
    ensures (forall schedule :: Fits(c, Run(c, schedule).flow) && Fits(c, Run(c, schedule).cntr))
            <==> RoomForDatagrams(c)
  {
    hide Run, Fits;
    if RoomForDatagrams(c) {
      forall schedule ensures Fits(c, Run(c, schedule).flow) && Fits(c, Run(c, schedule).cntr) {
        BuffersBounded(c, schedule);
      }
    } else if c.flushInterval == 0 {
      Overrun(c, 0, c.datagramLimit);
    } else if c.bufferSize < MAX_DATAGRAM_SAMPLES {
      Overrun(c, c.bufferSize, 1);
    } else if c.bufferSize == MAX_DATAGRAM_SAMPLES {
      Overrun(c, 0, c.datagramLimit);
    } else {
      Overrun(c, c.bufferSize - MAX_DATAGRAM_SAMPLES - 1, c.datagramLimit);
    }
  }

  // ----- deadlock freedom -----

  function WriterSteps(c: Config, s: State, n: nat): State
    decreases n
  {
    if n == 0 then s else WriterSteps(c, Step(c, s, WriterStep), n - 1)
  }

  predicate BlockedOnFlow(s: State) {
    s.collector == PoppingFlow && s.flow.free == []
  }

  predicate BlockedOnCntr(s: State) {
    s.collector == PoppingCntr && s.cntr.free == []
  }

  /** An upper bound on the writer steps until a flow buffer is returned. */
  function FlowDistance(c: Config, s: State): int {
    match s.writer
    case ReturningCntr => 2 * c.bufferSize + 6
    case TakingFlow => 2 * c.bufferSize + 5
    case TakingCntr => 2 * c.bufferSize + 4
    case WritingFlow(pos) => (if s.flow.writing.Some? then |s.flow.writing.value.items| - pos else 0) + c.bufferSize + 3
    case WritingCntr(pos) => (if s.cntr.writing.Some? then |s.cntr.writing.value.items| - pos else 0) + 2
    case ReturningFlow => 1
  }

  /** An upper bound on the writer steps until a counter buffer is returned. */
  function CntrDistance(c: Config, s: State): int {
    match s.writer
    case TakingFlow => 2 * c.bufferSize + 6
    case TakingCntr => 2 * c.bufferSize + 5
    case WritingFlow(pos) => (if s.flow.writing.Some? then |s.flow.writing.value.items| - pos else 0) + c.bufferSize + 4
    case WritingCntr(pos) => (if s.cntr.writing.Some? then |s.cntr.writing.value.items| - pos else 0) + 3
    case ReturningFlow => 2
    case ReturningCntr => 1
  }

  /** While the collector waits for a buffer the writer can always move. */
  lemma WriterCanMove(c: Config, s: State)
    requires ValidConfig(c) && Inv(c, s) && (BlockedOnFlow(s) || BlockedOnCntr(s))
    ensures WriterEnabled(s)
  {
    if s.writer.TakingFlow? {
      assert Live(s.flow) >= 1 && Live(s.cntr) >= 1;
    }
  }

  lemma WriterApproachesFlow(c: Config, s: State)
    requires ValidConfig(c) && Inv(c, s) && BlockedOnFlow(s)
    ensures var s' := Step(c, s, WriterStep);
            s'.collector == PoppingFlow && (s'.flow.free != [] || 0 <= FlowDistance(c, s') < FlowDistance(c, s))
  {
    WriterCanMove(c, s);
    StepOk(c, s, WriterStep);
  }

  lemma WriterApproachesCntr(c: Config, s: State)
    requires ValidConfig(c) && Inv(c, s) && BlockedOnCntr(s)
    ensures var s' := Step(c, s, WriterStep);
            s'.collector == PoppingCntr && (s'.cntr.free != [] || 0 <= CntrDistance(c, s') < CntrDistance(c, s))
  {
    WriterCanMove(c, s);
    StepOk(c, s, WriterStep);
  }

  lemma {:induction false} FlowBufferReturns(c: Config, s: State) returns (n: nat)
    requires ValidConfig(c) && Inv(c, s) && BlockedOnFlow(s)
    ensures n <= FlowDistance(c, s)
    ensures Enabled(c, WriterSteps(c, s, n), PopFlow(Signalled))
    decreases FlowDistance(c, s)
  {
    var s' := Step(c, s, WriterStep);
    WriterApproachesFlow(c, s);
    if s'.flow.free != [] {
      n := 1;
      assert WriterSteps(c, s, 1) == WriterSteps(c, s', 0);
    } else {
      StepOk(c, s, WriterStep);
      var m := FlowBufferReturns(c, s');
      n := m + 1;
    }
  }

  lemma {:induction false} CntrBufferReturns(c: Config, s: State) returns (n: nat)
    requires ValidConfig(c) && Inv(c, s) && BlockedOnCntr(s)
    ensures n <= CntrDistance(c, s)
    ensures Enabled(c, WriterSteps(c, s, n), PopCntr(Signalled))
    decreases CntrDistance(c, s)
  {
    var s' := Step(c, s, WriterStep);
    WriterApproachesCntr(c, s);
    if s'.cntr.free != [] {
      n := 1;
      assert WriterSteps(c, s, 1) == WriterSteps(c, s', 0);
    } else {
      StepOk(c, s, WriterStep);
      var m := CntrBufferReturns(c, s');
      n := m + 1;
    }
  }

  /** Deadlock freedom: after any schedule, either the collector can move, or it waits for a
      free buffer, the writer can move, and at most 2 * bufferSize + 6 writer steps later
      the collector's pop can complete. */
  lemma NeverDeadlocked(c: Config, schedule: seq<Action>) returns (n: nat)
    requires ValidConfig(c)
    ensures n <= 2 * c.bufferSize + 6
    ensures var s := Run(c, schedule);
            var later := WriterSteps(c, s, n);
            match s.collector
            case Collecting => forall entered :: Enabled(c, s, Datagram([], [], entered))
            case PushingFlow => Enabled(c, s, PushFlow)
            case PushingCntr => Enabled(c, s, PushCntr)
            case PoppingFlow =>
              Enabled(c, later, PopFlow(Signalled)) && (s.flow.free == [] ==> WriterEnabled(s))
            case PoppingCntr =>
              Enabled(c, later, PopCntr(Signalled)) && (s.cntr.free == [] ==> WriterEnabled(s))
  {
    var s := Run(c, schedule);
    RunOk(c, schedule);
    n := 0;
    if BlockedOnFlow(s) {
      WriterCanMove(c, s);
      n := FlowBufferReturns(c, s);
    } else if BlockedOnCntr(s) {
      WriterCanMove(c, s);
      n := CntrBufferReturns(c, s);
    }
  }

  // ----- end to end -----

  lemma {:induction false} FromInside(xs: seq<Sample>, a: uint32, k: Kind)
    ensures forall x <- From(xs, a, k) :: x in xs
  {
    if xs != [] {
      FromInside(xs[..|xs| - 1], a, k);
    }
  }

  lemma LastIsLatest(xs: seq<Sample>, s: Sample)
    requires TimesOk(xs + [s])
    ensures TimesOk(xs) && InRange(s.Time())
    ensures forall x <- xs :: x.Time() / 60 <= s.Time() / 60
  {
    NotEarlier(xs, s);
    forall x <- xs ensures x.Time() / 60 <= s.Time() / 60 {
      var i :| 0 <= i < |xs| && xs[i] == x;
      assert (xs + [s])[i] == x && (xs + [s])[|xs|] == s;
    }
  }

  lemma TimesOkAppend(xs: seq<Sample>, s: Sample)
    requires TimesOk(xs) && InRange(s.Time())
    requires forall x <- xs :: x.Time() / 60 <= s.Time() / 60
    ensures TimesOk(xs + [s])
  {
  }

  lemma {:induction false} FromTimesOk(xs: seq<Sample>, a: uint32, k: Kind)
    requires TimesOk(xs)
    ensures TimesOk(From(xs, a, k))
  {
    hide TimesOk;
    if xs != [] {
      var front, x := xs[..|xs| - 1], xs[|xs| - 1];
      assert front + [x] == xs;
      LastIsLatest(front, x);
      FromTimesOk(front, a, k);
      FromInside(front, a, k);
      if x.Agent() == a && x.Kind() == k {
        TimesOkAppend(From(front, a, k), x);
      } else {
        assert From(xs, a, k) == From(front, a, k);
      }
    }
  }

  lemma PrefixTimesOk(xs: seq<Sample>, ys: seq<Sample>)
    requires xs <= ys && TimesOk(ys)
    ensures TimesOk(xs)
  {
    assert forall i :: 0 <= i < |xs| ==> xs[i] == ys[i];
    assert forall x <- xs :: x in ys;
  }

  /** After any schedule, for every agent and kind, the announced segments followed by the open
      segment are, in order, that agent's samples written so far, each segment one minute,
      announced once, in increasing minute order, never the open one, if and only if the times of
      those samples can be cut.  The samples written are a prefix of the samples parsed. */
  lemma SegmentsEndToEnd(c: Config, schedule: seq<Action>, a: uint32)
    requires ValidConfig(c)
    ensures var s := Run(c, schedule);
            && s.flow.written <= s.flow.parsed && s.cntr.written <= s.cntr.parsed
            && (Segmented(StoreOf(s.log), a, FlowKind, From(s.flow.written, a, FlowKind))
                <==> Cuttable(From(s.flow.written, a, FlowKind)))
            && (Segmented(StoreOf(s.log), a, CntrKind, From(s.cntr.written, a, CntrKind))
                <==> Cuttable(From(s.cntr.written, a, CntrKind)))
  {
    hide Segmented, Cuttable;
    var s := Run(c, schedule);
    RunOk(c, schedule);
    assert s.flow.written <= s.flow.parsed;
    assert s.cntr.written <= s.cntr.parsed;
    SegmentedIff(s.log, a, FlowKind);
    SegmentedIff(s.log, a, CntrKind);
    FromOfKind(s.log, a, FlowKind);
    FromOfKind(s.log, a, CntrKind);
  }

  /** Receive times whose minutes never decrease can be cut, for every agent. */
  lemma ParsedTimesSuffice(parsed: seq<Sample>, written: seq<Sample>, a: uint32, k: Kind)
    requires written <= parsed && TimesOk(parsed)
    ensures Cuttable(From(written, a, k))
  {
    PrefixTimesOk(written, parsed);
    FromTimesOk(written, a, k);
  }
}
