/**
 What the processing daemon does with the lines that it receives: it scans each line and reads the
 named file, as flow samples, as counter samples or not at all.
 */
module Delivery {
  import opened Samples
  import opened SampleStore
  import opened Pipeline
  import opened CStrings
  import opened Messaging
  import opened HandOff
  import opened CounterReports
  import opened EndToEnd
  import Conversations
  import RollUps

  datatype Job =
    | ReadFlows(filename: string, agent: uint32, timestamp: uint32)
    | ReadCntrs(filename: string, agent: uint32, timestamp: uint32)
    | ReadNothing

  /** The receiver's dispatch. */
  function JobOf(line: string): Job {
    match Scanned(Terminated(line + [NUL]))
    case None => ReadNothing
    case Some(m) =>
      if m.kind == 0 then ReadFlows(m.filename, m.agent, m.timestamp)
      else if m.kind == 1 then ReadCntrs(m.filename, m.agent, m.timestamp)
      else ReadNothing
  }

  /** The lines in the queue after these messages were sent. */
  function Lines(stamp: nat -> string, queue: seq<Message>): seq<string> {
    if queue == [] then []
    else Sent(Lines(stamp, queue[..|queue| - 1]), AsText(stamp, queue[|queue| - 1]))
  }

  ghost predicate StampsOk(stamp: nat -> string, queue: seq<Message>) {
    forall m <- queue :: StampOk(stamp(m.name.minute))
  }

  /** Line by line, the receiver selects the sender's segments: each by its name, with its agent and
      its stamp, and as samples of its kind. */
  lemma {:induction false} LinesSelect(stamp: nat -> string, queue: seq<Message>, i: nat)
    requires StampsOk(stamp, queue) && i < |queue|
    ensures |Lines(stamp, queue)| == |queue|
    ensures var m, name := queue[i], NameText(stamp, queue[i].name);
            JobOf(Lines(stamp, queue)[i]) ==
            if m.kind.FlowKind? then ReadFlows(name, m.agent, m.timestamp) else ReadCntrs(name, m.agent, m.timestamp)
  {
    hide Scanned, Printed, NameText, AsText, StampOk;
    var front, last := queue[..|queue| - 1], queue[|queue| - 1];
    assert last in queue;
    MessageDelivered(stamp, last);
    LinesLength(stamp, front);
    if i < |front| {
      LinesSelect(stamp, front, i);
    }
  }

  lemma {:induction false} LinesLength(stamp: nat -> string, queue: seq<Message>)
    requires StampsOk(stamp, queue)
    ensures |Lines(stamp, queue)| == |queue|
  {
    hide Printed, AsText, StampOk;
    if queue != [] {
      assert queue[|queue| - 1] in queue;
      LinesLength(stamp, queue[..|queue| - 1]);
      MessageDelivered(stamp, queue[|queue| - 1]);
    }
  }

  // ----- the files under their names -----

  /** The stamps of the files tell their minutes apart. */
  ghost predicate StampsApart(stamp: nat -> string, files: map<SegmentName, seq<Sample>>) {
    && (forall n <- files :: StampOk(stamp(n.minute)))
    && (forall n, n' :: n in files && n' in files && stamp(n.minute) == stamp(n'.minute) ==> n.minute == n'.minute)
  }

  /** The shared-memory directory: every file under the text of its name. */
  ghost predicate Directory(stamp: nat -> string, files: map<SegmentName, seq<Sample>>,
                            text: map<string, seq<Sample>>)
  {
    forall n <- files :: NameText(stamp, n) in text && text[NameText(stamp, n)] == files[n]
  }

  /** There is one: no two files share a name. */
  lemma DirectoryExists(stamp: nat -> string, files: map<SegmentName, seq<Sample>>)
    returns (text: map<string, seq<Sample>>)
    requires StampsApart(stamp, files)
    ensures Directory(stamp, files, text)
  {
    hide NameText, StampOk;
    forall n, n' | n in files && n' in files && NameText(stamp, n) == NameText(stamp, n') ensures n == n' {
      NamesInjective(stamp, n, n');
    }
    text := map n <- files :: NameText(stamp, n) := files[n];
  }

  function Content(text: map<string, seq<Sample>>, name: string): seq<Sample> {
    if name in text then text[name] else []
  }

  /** Every open and every announced segment has a file. */
  ghost predicate NamesHaveFiles(st: Store) {
    && (forall m <- st.queue :: m.name in st.files)
    && (forall a, k :: SlotOf(st, a, k).fd.Open? ==> SlotOf(st, a, k).fd.name in st.files)
  }

  lemma {:induction false} NamesHaveFilesAlways(log: seq<Sample>)
    ensures NamesHaveFiles(StoreOf(log))
  {
    if log != [] {
      var st, s := StoreOf(log[..|log| - 1]), log[|log| - 1];
      NamesHaveFilesAlways(log[..|log| - 1]);
      RotatedHasFiles(st, s);
      AppendedHasFiles(Rotated(st, s), s);
      AppendedHasFiles(st, s);
    }
  }

  lemma RotatedHasFiles(st: Store, s: Sample)
    requires NamesHaveFiles(st)
    ensures NamesHaveFiles(Rotated(st, s))
  {
    var st' := Rotated(st, s);
    forall b: uint32, l | SlotOf(st', b, l).fd.Open? ensures SlotOf(st', b, l).fd.name in st'.files {
      assert (b, l) != (s.Agent(), s.Kind()) ==> SlotOf(st', b, l) == SlotOf(st, b, l);
    }
  }

  lemma AppendedHasFiles(st: Store, s: Sample)
    requires NamesHaveFiles(st)
    ensures NamesHaveFiles(Appended(st, s))
  {
    var st' := Appended(st, s);
    forall b: uint32, l | SlotOf(st', b, l).fd.Open? ensures SlotOf(st', b, l).fd.name in st'.files {
      assert (b, l) != (s.Agent(), s.Kind()) ==> SlotOf(st', b, l) == SlotOf(st, b, l);
    }
  }

  // ----- what the receiver reads -----

  function CntrsRead(text: map<string, seq<Sample>>, line: string): seq<CntrSample> {
    match JobOf(line)
    case ReadCntrs(filename, _, _) => Cntrs(Content(text, filename))
    case _ => []
  }

  /** The report's table after some lines... */
  function TableOfLines(text: map<string, seq<Sample>>, lines: seq<string>): Table {
    if lines == [] then map[]
    else TableAfter(TableOfLines(text, lines[..|lines| - 1]), CntrsRead(text, lines[|lines| - 1]))
  }

  /** ...and its rows. */
  function ReportOfLines(text: map<string, seq<Sample>>, lines: seq<string>): seq<Row> {
    if lines == [] then []
    else
      var front := lines[..|lines| - 1];
      ReportOfLines(text, front) + RowsAfter(TableOfLines(text, front), CntrsRead(text, lines[|lines| - 1]))
  }

  /** A counter summed over the conversation tables that are stored for an agent. */
  ghost function SumOfLines(text: map<string, seq<Sample>>, lines: seq<string>, a: uint32,
                            layer: Conversations.Layer, p: Conversations.Key -> bool, c: Conversations.Counter): nat
    requires Conversations.CountsAt(layer, c)
  {
    if lines == [] then 0
    else
      SumOfLines(text, lines[..|lines| - 1], a, layer, p, c) +
      match JobOf(lines[|lines| - 1])
      case ReadFlows(filename, agent, _) =>
        if agent == a then RollUps.ColumnSum(layer, Flows(Content(text, filename)), p, c) else 0
      case _ => 0
  }

  /** The directory holds these messages' files under the names in their lines. */
  ghost predicate Found(stamp: nat -> string, files: map<SegmentName, seq<Sample>>, text: map<string, seq<Sample>>,
                        queue: seq<Message>)
  {
    StampsOk(stamp, queue) && forall m <- queue :: Content(text, NameText(stamp, m.name)) == FileOf(files, m.name)
  }

  lemma FoundFront(stamp: nat -> string, files: map<SegmentName, seq<Sample>>, text: map<string, seq<Sample>>,
                   queue: seq<Message>)
    requires queue != [] && Found(stamp, files, text, queue)
    ensures var front, m := queue[..|queue| - 1], queue[|queue| - 1];
            && Found(stamp, files, text, front) && StampOk(stamp(m.name.minute))
            && Content(text, NameText(stamp, m.name)) == FileOf(files, m.name)
            && Lines(stamp, queue) == Lines(stamp, front) + [Printed(AsText(stamp, m))]
  {
    hide NameText, StampOk, Printed, AsText, Content;
    assert queue[|queue| - 1] in queue;
    MessageDelivered(stamp, queue[|queue| - 1]);
  }

  lemma CntrsReadIs(stamp: nat -> string, files: map<SegmentName, seq<Sample>>, text: map<string, seq<Sample>>,
                    m: Message)
    requires StampOk(stamp(m.name.minute)) && Content(text, NameText(stamp, m.name)) == FileOf(files, m.name)
    ensures CntrsRead(text, Printed(AsText(stamp, m))) == ReadSegment(files, m)
  {
    hide NameText, StampOk, Printed, AsText, Content, Scanned, Cntrs;
    MessageDelivered(stamp, m);
  }

  lemma {:induction false} ReportByLines(stamp: nat -> string, files: map<SegmentName, seq<Sample>>,
                                         text: map<string, seq<Sample>>, queue: seq<Message>)
    requires Found(stamp, files, text, queue)
    ensures TableOfLines(text, Lines(stamp, queue)) == TableOf(files, queue)
    ensures ReportOfLines(text, Lines(stamp, queue)) == ReportOf(files, queue)
  {
    hide Found, Printed, AsText, NameText, StampOk, Content, CntrsRead, ReadSegment, TableAfter, RowsAfter;
    if queue != [] {
      var front, m := queue[..|queue| - 1], queue[|queue| - 1];
      FoundFront(stamp, files, text, queue);
      ReportByLines(stamp, files, text, front);
      CntrsReadIs(stamp, files, text, m);
    }
  }

  lemma {:induction false} SumByLines(stamp: nat -> string, files: map<SegmentName, seq<Sample>>,
                                      text: map<string, seq<Sample>>, queue: seq<Message>, a: uint32,
                                      layer: Conversations.Layer, p: Conversations.Key -> bool,
                                      c: Conversations.Counter)
    requires Found(stamp, files, text, queue) && Conversations.CountsAt(layer, c)
    ensures SumOfLines(text, Lines(stamp, queue), a, layer, p, c)
            == SumOf(files, Announced(queue, a, FlowKind), layer, p, c)
  {
    hide Found, Printed, AsText, NameText, StampOk, Content, Scanned, RollUps.ColumnSum, Conversations.CountsAt;
    if queue != [] {
      var front, m := queue[..|queue| - 1], queue[|queue| - 1];
      var ms := Announced(front, a, FlowKind);
      FoundFront(stamp, files, text, queue);
      SumByLines(stamp, files, text, front, a, layer, p, c);
      MessageDelivered(stamp, m);
      if m.agent == a && m.kind == FlowKind {
        assert (ms + [m])[..|ms|] == ms;
      } else {
        assert Announced(queue, a, FlowKind) == ms;
      }
    }
  }

  lemma QueueFound(stamp: nat -> string, log: seq<Sample>, text: map<string, seq<Sample>>)
    requires StampsApart(stamp, StoreOf(log).files) && Directory(stamp, StoreOf(log).files, text)
    ensures Found(stamp, StoreOf(log).files, text, StoreOf(log).queue)
  {
    hide StoreOf, NameText, StampOk;
    NamesHaveFilesAlways(log);
  }

  // ----- from the schedule to the reports, line by line -----

  /** Whatever the schedule, the octets that the report of the delivered lines accounts for are what the
      interface really moved between the first and the last of its samples in the named files. */
  lemma ReportFromLines(c: Config, schedule: seq<Action>, stamp: nat -> string, text: map<string, seq<Sample>>,
                        i: Interface, d: Direction, truth: seq<nat>)
    requires ValidConfig(c) && TimesOk(Run(c, schedule).cntr.parsed)
    requires StampsApart(stamp, StoreOf(Run(c, schedule).log).files)
    requires Directory(stamp, StoreOf(Run(c, schedule).log).files, text)
    requires Counts(Own(Cntrs(Run(c, schedule).cntr.parsed), i), d, truth)
    ensures var st := StoreOf(Run(c, schedule).log);
            var n := |Own(ReadAll(st.files, st.queue), i)|;
            n <= |truth| &&
            (n > 0 ==> truth[0] + Reported(ReportOfLines(text, Lines(stamp, st.queue)), i, d) == truth[n - 1])
  {
    hide Run, StoreOf, Own, Reported, TimesOk, Counts, StampsApart, Directory;
    hide Found, ReadAll, ReportOf, ReportOfLines, Lines;
    var log := Run(c, schedule).log;
    QueueFound(stamp, log, text);
    ReportByLines(stamp, StoreOf(log).files, text, StoreOf(log).queue);
    ReportEndToEnd(c, schedule, i, d, truth);
  }

  /** Whatever the schedule, the conversation tables that the delivered lines make the daemon store for an
      agent add up to the shares of exactly the samples handed over. */
  lemma ConversationsFromLines(c: Config, schedule: seq<Action>, stamp: nat -> string, text: map<string, seq<Sample>>,
                               a: uint32, layer: Conversations.Layer, p: Conversations.Key -> bool,
                               counter: Conversations.Counter)
    requires ValidConfig(c) && TimesOk(Run(c, schedule).flow.parsed) && Conversations.CountsAt(layer, counter)
    requires StampsApart(stamp, StoreOf(Run(c, schedule).log).files)
    requires Directory(stamp, StoreOf(Run(c, schedule).log).files, text)
    ensures var s := Run(c, schedule);
            var st := StoreOf(s.log);
            var handed := Joined(st.files, Announced(st.queue, a, FlowKind));
            && handed <= From(s.flow.parsed, a, FlowKind)
            && SumOfLines(text, Lines(stamp, st.queue), a, layer, p, counter) % TWO_32
               == Conversations.Total(layer, Flows(handed), p, counter) % TWO_32
  {
    hide Run, StoreOf, TimesOk, StampsApart, Directory, Found, Joined, SumOf, SumOfLines, Announced, Lines;
    hide Conversations.Total, Conversations.CountsAt;
    var log := Run(c, schedule).log;
    QueueFound(stamp, log, text);
    SumByLines(stamp, StoreOf(log).files, text, StoreOf(log).queue, a, layer, p, counter);
    ConversationsEndToEnd(c, schedule, a, layer, p, counter);
  }
}
