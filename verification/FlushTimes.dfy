/**
 When the collector flushes: told from the outside, by the times at which it entered its receiving
 loop, before it waited for a datagram, and by whether it flushed after the datagram.
 */
module FlushTimes {
  import opened Samples
  import opened BufferQueue
  import opened Pipeline
  import opened PipelineInvariant
  import opened PipelineGuarantees

  /** A received datagram: when the collector began to wait for it, and whether a flush began after it. */
  datatype Reception = Reception(entered: nat, flushed: bool)

  function Receptions(c: Config, schedule: seq<Action>): seq<Reception>
    requires CanStart(c)
  {
    if schedule == [] then []
    else
      var front, a := schedule[..|schedule| - 1], schedule[|schedule| - 1];
      Receptions(c, front) +
      if a.Datagram? && Enabled(c, Run(c, front), a)
      then [Reception(a.entered, Run(c, schedule).collector == PushingFlow)] else []
  }

  /** The time from which the flush interval counts: that of the last reception that began a flush,
      before the first flush that of the first reception.  The time 0 counts as no time. */
  function Since(rs: seq<Reception>): nat {
    if rs == [] then 0
    else
      var front, r := rs[..|rs| - 1], rs[|rs| - 1];
      if r.flushed || Since(front) == 0 then r.entered else Since(front)
  }

  /** With real times it is just that. */
  lemma {:induction false} SinceLastFlush(rs: seq<Reception>, i: nat)
    requires forall j :: 0 <= j < |rs| ==> rs[j].entered > 0
    requires i < |rs| && (i == 0 || rs[i].flushed)
    requires forall j :: i < j < |rs| ==> !rs[j].flushed
    ensures Since(rs) == rs[i].entered
  {
    var front := rs[..|rs| - 1];
    if i < |front| {
      SinceLastFlush(front, i);
    } else if i > 0 {
      assert rs[i].flushed;
    } else {
      assert front == [];
    }
  }

  /** The daemon's own variable follows. */
  lemma {:induction false} LastFlushIsSince(c: Config, schedule: seq<Action>)
    requires CanStart(c)
    ensures Run(c, schedule).lastFlush == Since(Receptions(c, schedule))
  {
    if schedule != [] {
      var front, a := schedule[..|schedule| - 1], schedule[|schedule| - 1];
      var rs := Receptions(c, front);
      LastFlushIsSince(c, front);
      if a.Datagram? && Enabled(c, Run(c, front), a) {
        var r := Reception(a.entered, Run(c, schedule).collector == PushingFlow);
        assert (rs + [r])[..|rs|] == rs;
      } else {
        assert rs + [] == rs;
        LastFlushKept(c, Run(c, front), a);
      }
    }
  }

  lemma LastFlushKept(c: Config, s: State, a: Action)
    requires !(a.Datagram? && Enabled(c, s, a))
    ensures Step(c, s, a).lastFlush == s.lastFlush
  {
  }

  /** The seconds since a time, as an unsigned 32-bit number; none since no time. */
  function Elapsed(entered: nat, since: nat): nat {
    if since == 0 then 0 else (entered - since) % 0x1_0000_0000
  }

  /** A buffer of this capacity has at most ten places left; in unsigned arithmetic a buffer of less
      than ten never has. */
  predicate AlmostFull(size: nat, count: nat) {
    if size >= 10 then count + 10 >= size else count + 10 >= size + 0x1_0000_0000
  }

  lemma StepFlushes(c: Config, s: State, a: Action)
    requires a.Datagram? && Enabled(c, s, a)
    ensures Step(c, s, a).collector == PushingFlow <==>
            MustFlush(c, |s.flow.collecting.value.items| + |a.flows|, |s.cntr.collecting.value.items| + |a.cntrs|,
                      a.entered - if s.lastFlush == 0 then a.entered else s.lastFlush)
  {
    hide MustFlush;
  }

  /** A received datagram begins a flush exactly if the interval had passed when the collector began to
      wait for it, counted from the last flush or from the first reception, or if one of the two
      buffers is almost full. */
  lemma FlushIff(c: Config, schedule: seq<Action>, a: Action)
    requires CanStart(c) && c.bufferSize < TWO_32
    requires a.Datagram? && Enabled(c, Run(c, schedule), a)
    ensures var s := Run(c, schedule);
            Run(c, schedule + [a]).collector == PushingFlow <==>
            || Elapsed(a.entered, Since(Receptions(c, schedule))) >= c.flushInterval
            || AlmostFull(c.bufferSize, |s.flow.collecting.value.items| + |a.flows|)
            || AlmostFull(c.bufferSize, |s.cntr.collecting.value.items| + |a.cntrs|)
  {
    hide Run, Receptions, Step, AlmostFull, Elapsed;
    var s := Run(c, schedule);
    LastFlushIsSince(c, schedule);
    RunOneMore(c, schedule, a);
    StepFlushes(c, s, a);
    ElapsedIs(a.entered, s.lastFlush);
    AlmostFullIs(c.bufferSize, |s.flow.collecting.value.items| + |a.flows|);
    AlmostFullIs(c.bufferSize, |s.cntr.collecting.value.items| + |a.cntrs|);
  }

  lemma ElapsedIs(entered: nat, since: nat)
    ensures Elapsed(entered, since) == (entered - if since == 0 then entered else since) % TWO_32
  {
  }

  lemma AlmostFullIs(size: nat, count: nat)
    requires size < TWO_32
    ensures AlmostFull(size, count) <==> count >= (size - MAX_DATAGRAM_SAMPLES) % TWO_32
  {
  }

  /** Nothing stays in the collector's buffers past the first datagram that it waits for an interval
      after the last flush: all samples, its own included, go to the writer with the next two steps. */
  lemma QuietSamplesLeave(c: Config, schedule: seq<Action>, a: Action)
    requires CanStart(c) && c.bufferSize < TWO_32
    requires a.Datagram? && Enabled(c, Run(c, schedule), a)
    requires var since := Since(Receptions(c, schedule));
             0 < since <= a.entered < since + TWO_32 && a.entered - since >= c.flushInterval
    ensures var s, s' := Run(c, schedule), Run(c, schedule + [a] + [PushFlow] + [PushCntr]);
            && s'.flow.collecting == None && s'.cntr.collecting == None
            && s'.flow.flush != [] && s'.flow.flush[0].items == s.flow.collecting.value.items + a.flows
            && s'.cntr.flush != [] && s'.cntr.flush[0].items == s.cntr.collecting.value.items + a.cntrs
  {
    hide Run, MustFlush, Receptions;
    var s := Run(c, schedule);
    FlushIff(c, schedule, a);
    RunOneMore(c, schedule, a);
    RunOneMore(c, schedule + [a], PushFlow);
    RunOneMore(c, schedule + [a] + [PushFlow], PushCntr);
  }

  // ----- arrival times -----

  /** When the datagrams arrived: the collector begins to wait for one after the one before, and waits
      until it arrives. */
  ghost predicate Arrived(rs: seq<Reception>, arrivals: seq<nat>) {
    && |arrivals| == |rs|
    && (forall i :: 0 <= i < |rs| ==> rs[i].entered <= arrivals[i])
    && (forall i, j :: 0 <= i && j == i + 1 && j < |rs| ==> arrivals[i] <= rs[j].entered)
  }

  /** The interval is tested one datagram late: once a datagram has arrived an interval after the last
      flush, the next one flushes... */
  lemma NextArrivalFlushes(c: Config, schedule: seq<Action>, a: Action, arrivals: seq<nat>, last: nat)
    requires CanStart(c) && c.bufferSize < TWO_32
    requires a.Datagram? && Enabled(c, Run(c, schedule), a)
    requires Arrived(Receptions(c, schedule + [a]), arrivals) && last + 2 == |arrivals|
    requires var since := Since(Receptions(c, schedule));
             0 < since && since + c.flushInterval <= arrivals[last] && a.entered < since + TWO_32
    ensures Run(c, schedule + [a]).collector == PushingFlow
  {
    hide Run, Receptions, Since, AlmostFull;
    ReceptionsStep(c, schedule, a);
    assert arrivals[last] <= Receptions(c, schedule + [a])[last + 1].entered;
    FlushIff(c, schedule, a);
  }

  lemma ReceptionsStep(c: Config, schedule: seq<Action>, a: Action)
    requires CanStart(c) && a.Datagram? && Enabled(c, Run(c, schedule), a)
    ensures Receptions(c, schedule + [a]) ==
            Receptions(c, schedule) + [Reception(a.entered, Run(c, schedule + [a]).collector == PushingFlow)]
  {
    assert (schedule + [a])[..|schedule|] == schedule;
  }

  /** ...but that datagram itself need not: however late it comes, the sample before it stays. */
  lemma LateArrivalStays(c: Config, x: FlowSample, t: nat, delay: nat)
    returns (schedule: seq<Action>, arrivals: seq<nat>)
    requires CanStart(c) && c.bufferSize < TWO_32 && c.datagramLimit >= 1
    requires t > 0 && c.flushInterval >= 1 && !AlmostFull(c.bufferSize, 0) && !AlmostFull(c.bufferSize, 1)
    ensures var rs := Receptions(c, schedule);
            |rs| == 2 && Since(rs) == t && Arrived(rs, arrivals) && arrivals[1] == t + delay
    ensures Run(c, schedule).collector == Collecting
    ensures Run(c, schedule).flow.collecting == Some(Buf(0, [Flow(x)]))
  {
    var first, second := Datagram([Flow(x)], [], t), Datagram([], [], t);
    schedule, arrivals := [first] + [second], [t, t + delay];
    assert [] + [first] == [first] && [] + [Flow(x)] == [Flow(x)] + [] == [Flow(x)];
    RunOneMore(c, [], first);
    RunOneMore(c, [first], second);
    FlushIff(c, [], first);
    assert Receptions(c, []) == [];
    ReceptionsStep(c, [], first);
    assert Run(c, [first]).flow.collecting == Some(Buf(0, [Flow(x)]));
    assert Run(c, [first]).cntr.collecting == Some(Buf(0, []));
    FlushIff(c, [first], second);
    ReceptionsStep(c, [first], second);
  }
}
