/**
 The segment files.  The writing thread appends every sample to the file of its agent,
 kind and minute; when the minute changes it closes the file, announces it to the
 processing daemon and opens the next one.
 */
module SampleStore {
  import opened Samples

  /** The name of a segment.  The text that the daemon prints is an injective image of it,
      see module Messaging. */
  datatype SegmentName = SegmentName(agent: uint32, minute: nat, kind: Kind)

  datatype Message = Message(agent: uint32, timestamp: uint32, name: SegmentName, kind: Kind)

  datatype Descriptor = NoFile | Open(name: SegmentName, offset: nat)

  /** What an agent remembers for one kind of sample: the minute and the open file. */
  datatype Slot = Slot(minute: uint32, fd: Descriptor)

  datatype Store = Store(
    slots: map<(uint32, Kind), Slot>,
    files: map<SegmentName, seq<Sample>>,
    queue: seq<Message>)

  const EMPTY_STORE := Store(map[], map[], [])

  function SlotOf(st: Store, a: uint32, k: Kind): Slot {
    if (a, k) in st.slots then st.slots[(a, k)] else Slot(0, NoFile)
  }

  function FileOf(files: map<SegmentName, seq<Sample>>, name: SegmentName): seq<Sample> {
    if name in files then files[name] else []
  }

  /** Overwrites at the offset, or appends at the end of the file. */
  function WriteAt(content: seq<Sample>, offset: nat, s: Sample): seq<Sample> {
    if offset < |content| then content[offset := s] else content + [s]
  }

  /** The minute test truncates the time to 32 bits before it divides... */
  function TestedMinute(t: nat): uint32 {
    t % TWO_32 / 60
  }

  /** ...while the remembered minute is divided first. */
  function RememberedMinute(t: nat): uint32 {
    t / 60 % TWO_32
  }

  /** Closes the open file of the sample's agent and kind, announces it, opens the next. */
  function Rotated(st: Store, s: Sample): Store {
    var a, k, t := s.Agent(), s.Kind(), s.Time();
    var slot := SlotOf(st, a, k);
    var name := SegmentName(a, t / 60, k);
    Store(
      st.slots[(a, k) := Slot(RememberedMinute(t), Open(name, 0))],
      st.files[name := FileOf(st.files, name)],
      if slot.fd.NoFile? then st.queue
      else st.queue + [Message(a, (TestedMinute(t) - 1) % TWO_32, slot.fd.name, k)])
  }

  function Appended(st: Store, s: Sample): Store {
    var slot := SlotOf(st, s.Agent(), s.Kind());
    if slot.fd.NoFile? then st  // descriptor 0 is not a segment
    else
      var name, offset := slot.fd.name, slot.fd.offset;
      st.(slots := st.slots[(s.Agent(), s.Kind()) := slot.(fd := Open(name, offset + 1))],
          files := st.files[name := WriteAt(FileOf(st.files, name), offset, s)])
  }

  function AddSample(st: Store, s: Sample): Store {
    Appended(
      if TestedMinute(s.Time()) != SlotOf(st, s.Agent(), s.Kind()).minute then Rotated(st, s) else st,
      s)
  }

  function StoreOf(log: seq<Sample>): Store {
    if log == [] then EMPTY_STORE
    else AddSample(StoreOf(log[..|log| - 1]), log[|log| - 1])
  }

  lemma StoreAppend(log: seq<Sample>, s: Sample)
    ensures StoreOf(log + [s]) == AddSample(StoreOf(log), s)
  {
    assert (log + [s])[..|log|] == log;
  }

  /** The agents' file state and the shared-memory files, updated in place. */
  class SegmentWriter {
    var slots: map<(uint32, Kind), Slot>
    var files: map<SegmentName, seq<Sample>>
    var queue: seq<Message>

    function Model(): Store
      reads this
    {
      Store(slots, files, queue)
    }

    constructor ()
      ensures Model() == EMPTY_STORE
    {
      slots, files, queue := map[], map[], [];
    }

    method AddSampleToFile(s: Sample)
      modifies this
      ensures Model() == AddSample(old(Model()), s)
    {
      var a, k, t := s.Agent(), s.Kind(), s.Time();
      var slot := if (a, k) in slots then slots[(a, k)] else Slot(0, NoFile);
      if t % TWO_32 / 60 != slot.minute {
        var name := SegmentName(a, t / 60, k);
        if slot.fd.Open? {
          queue := queue + [Message(a, (t % TWO_32 / 60 - 1) % TWO_32, slot.fd.name, k)];
        }
        files := files[name := if name in files then files[name] else []];
        slot := Slot(t / 60 % TWO_32, Open(name, 0));
        slots := slots[(a, k) := slot];
      }
      if slot.fd.Open? {
        var name, offset := slot.fd.name, slot.fd.offset;
        var content := if name in files then files[name] else [];
        files := files[name := if offset < |content| then content[offset := s] else content + [s]];
        slots := slots[(a, k) := Slot(slot.minute, Open(name, offset + 1))];
      }
    }
  }

  // ----- what the rotation achieves -----

  /** The announcements for one agent and kind, oldest first. */
  function Announced(queue: seq<Message>, a: uint32, k: Kind): seq<Message> {
    if queue == [] then []
    else
      var m := queue[|queue| - 1];
      Announced(queue[..|queue| - 1], a, k) + if m.agent == a && m.kind == k then [m] else []
  }

  function Joined(files: map<SegmentName, seq<Sample>>, ms: seq<Message>): seq<Sample> {
    if ms == [] then []
    else Joined(files, ms[..|ms| - 1]) + FileOf(files, ms[|ms| - 1].name)
  }

  /** A file holds samples of one agent, one kind and one minute, at least one of them. */
  ghost predicate HoldsOneMinute(content: seq<Sample>, name: SegmentName) {
    && content != []
    && (forall x <- content ::
          x.Time() / 60 == name.minute && x.Agent() == name.agent && x.Kind() == name.kind)
  }

  /** Announced segments lie in increasing minute order before the open one, and a message
      is stamped with the minute before the segment that followed. */
  ghost predicate AnnouncedInOrder(ms: seq<Message>, openMinute: nat) {
    && (forall i, j :: 0 <= i < j < |ms| ==> ms[i].name.minute < ms[j].name.minute)
    && (forall i :: 0 <= i < |ms| ==> ms[i].name.minute < openMinute)
    && (forall i, j :: 0 <= i < j < |ms| && j == i + 1 ==> ms[i].timestamp == ms[j].name.minute - 1)
    && (ms != [] ==> ms[|ms| - 1].timestamp == openMinute - 1)
  }

  /** `xs` is cut into the announced files `ms` and the open file `name`, one minute each,
      and there is no other file of this agent and kind after the open one. */
  ghost predicate CutInto(files: map<SegmentName, seq<Sample>>, ms: seq<Message>, name: SegmentName, xs: seq<Sample>) {
    && name in files && HoldsOneMinute(files[name], name)
    && (forall m <- ms :: SameSource(m.name, name) && HoldsOneMinute(FileOf(files, m.name), m.name))
    && AnnouncedInOrder(ms, name.minute)
    && (forall n <- files :: SameSource(n, name) ==> n.minute <= name.minute)
    && xs == Joined(files, ms) + files[name]
  }

  ghost predicate SameSource(m: SegmentName, n: SegmentName) {
    m.agent == n.agent && m.kind == n.kind
  }

  /** The announced segments followed by the open one are exactly `xs`. */
  ghost predicate Segmented(st: Store, a: uint32, k: Kind, xs: seq<Sample>) {
    var ms, slot := Announced(st.queue, a, k), SlotOf(st, a, k);
    if xs == [] then
      && ms == [] && slot == Slot(0, NoFile)
      && (forall n <- st.files :: !(n.agent == a && n.kind == k))
    else
      && slot.fd.Open?
      && slot.fd.name == SegmentName(a, slot.minute, k)
      && slot.fd.offset == |FileOf(st.files, slot.fd.name)|
      && CutInto(st.files, ms, slot.fd.name, xs)
  }

  ghost predicate NamesOwnSlot(st: Store) {
    forall b, l :: SlotOf(st, b, l).fd.Open? ==>
                     SlotOf(st, b, l).fd.name.agent == b && SlotOf(st, b, l).fd.name.kind == l
  }

  ghost predicate InRange(t: nat) {
    60 <= t < TWO_32
  }

  /** Minutes that never decrease, from the second minute of the epoch to the end of the
      32-bit clock. */
  ghost predicate TimesOk(xs: seq<Sample>) {
    && (forall x <- xs :: InRange(x.Time()))
    && (forall i, j :: 0 <= i < j < |xs| ==> xs[i].Time() / 60 <= xs[j].Time() / 60)
  }

  lemma {:induction false} JoinedFrame(files: map<SegmentName, seq<Sample>>, files': map<SegmentName, seq<Sample>>,
                                       ms: seq<Message>)
    requires forall m <- ms :: FileOf(files, m.name) == FileOf(files', m.name)
    ensures Joined(files, ms) == Joined(files', ms)
  {
    if ms != [] {
      JoinedFrame(files, files', ms[..|ms| - 1]);
    }
  }

  lemma AnnouncedAppend(queue: seq<Message>, m: Message, a: uint32, k: Kind)
    ensures Announced(queue + [m], a, k) == Announced(queue, a, k) + if m.agent == a && m.kind == k then [m] else []
  {
    assert (queue + [m])[..|queue|] == queue;
  }

  lemma CutFrame(files: map<SegmentName, seq<Sample>>, files': map<SegmentName, seq<Sample>>, ms: seq<Message>,
                 name: SegmentName, xs: seq<Sample>)
    requires CutInto(files, ms, name, xs)
    requires forall n: SegmentName :: SameSource(n, name) ==>
               (n in files <==> n in files') && FileOf(files, n) == FileOf(files', n)
    ensures CutInto(files', ms, name, xs)
  {
    assert SameSource(name, name);
    assert FileOf(files', name) == FileOf(files, name) == files[name] == files'[name];
    JoinedFrame(files, files', ms);
  }

  lemma RotatedKeepsNames(st: Store, s: Sample)
    requires NamesOwnSlot(st)
    ensures NamesOwnSlot(Rotated(st, s))
  {
    var st' := Rotated(st, s);
    forall b, l | SlotOf(st', b, l).fd.Open?
      ensures SlotOf(st', b, l).fd.name.agent == b && SlotOf(st', b, l).fd.name.kind == l
    {
      assert (b, l) != (s.Agent(), s.Kind()) ==> SlotOf(st', b, l) == SlotOf(st, b, l);
    }
  }

  lemma AppendedKeepsNames(st: Store, s: Sample)
    requires NamesOwnSlot(st)
    ensures NamesOwnSlot(Appended(st, s))
  {
    var st' := Appended(st, s);
    forall b, l | SlotOf(st', b, l).fd.Open?
      ensures SlotOf(st', b, l).fd.name.agent == b && SlotOf(st', b, l).fd.name.kind == l
    {
      assert (b, l) != (s.Agent(), s.Kind()) ==> SlotOf(st', b, l) == SlotOf(st, b, l);
    }
  }

  lemma {:induction false} NamesOwnSlotAlways(log: seq<Sample>)
    ensures NamesOwnSlot(StoreOf(log))
  {
    if log != [] {
      var st, s := StoreOf(log[..|log| - 1]), log[|log| - 1];
      NamesOwnSlotAlways(log[..|log| - 1]);
      RotatedKeepsNames(st, s);
      AppendedKeepsNames(Rotated(st, s), s);
      AppendedKeepsNames(st, s);
    }
  }

  /** Nothing of this agent and kind differs between two stores. */
  ghost predicate SameFor(st: Store, st': Store, a: uint32, k: Kind) {
    && SlotOf(st, a, k) == SlotOf(st', a, k)
    && Announced(st.queue, a, k) == Announced(st'.queue, a, k)
    && (forall n: SegmentName :: n.agent == a && n.kind == k ==>
          (n in st.files <==> n in st'.files) && FileOf(st.files, n) == FileOf(st'.files, n))
  }

  lemma RotatedElsewhere(st: Store, a: uint32, k: Kind, s: Sample)
    requires !(s.Agent() == a && s.Kind() == k)
    ensures SameFor(st, Rotated(st, s), a, k)
  {
    var other := SlotOf(st, s.Agent(), s.Kind());
    if other.fd.Open? {
      var m := Message(s.Agent(), (TestedMinute(s.Time()) - 1) % TWO_32, other.fd.name, s.Kind());
      AnnouncedAppend(st.queue, m, a, k);
    }
  }

  lemma AppendedElsewhere(st: Store, a: uint32, k: Kind, s: Sample)
    requires !(s.Agent() == a && s.Kind() == k) && NamesOwnSlot(st)
    ensures SameFor(st, Appended(st, s), a, k)
  {
  }

  /** A sample of another agent or kind leaves the segments of this one alone. */
  lemma OthersUntouched(st: Store, a: uint32, k: Kind, xs: seq<Sample>, s: Sample)
    requires Segmented(st, a, k, xs)
    requires !(s.Agent() == a && s.Kind() == k)
    requires NamesOwnSlot(st)
    ensures Segmented(AddSample(st, s), a, k, xs)
  {
    var mid := if TestedMinute(s.Time()) != SlotOf(st, s.Agent(), s.Kind()).minute then Rotated(st, s) else st;
    RotatedElsewhere(st, a, k, s);
    assert NamesOwnSlot(mid) by { RotatedKeepsNames(st, s); }
    AppendedElsewhere(mid, a, k, s);
    SegmentedFrame(st, AddSample(st, s), a, k, xs);
  }

  lemma SegmentedFrame(st: Store, st': Store, a: uint32, k: Kind, xs: seq<Sample>)
    requires Segmented(st, a, k, xs) && SameFor(st, st', a, k)
    ensures Segmented(st', a, k, xs)
  {
    if xs != [] {
      CutFrame(st.files, st'.files, Announced(st.queue, a, k), SlotOf(st, a, k).fd.name, xs);
    }
  }

  lemma LongerOpenFile(files: map<SegmentName, seq<Sample>>, ms: seq<Message>, name: SegmentName, xs: seq<Sample>,
                       s: Sample)
    requires CutInto(files, ms, name, xs)
    requires HoldsOneMinute([s], name)
    ensures CutInto(files[name := files[name] + [s]], ms, name, xs + [s])
  {
    assert s in [s];
    JoinedFrame(files, files[name := files[name] + [s]], ms);
  }

  lemma SealedAndReopened(files: map<SegmentName, seq<Sample>>, ms: seq<Message>, name: SegmentName, xs: seq<Sample>,
                          m: Message, next: SegmentName, s: Sample)
    requires CutInto(files, ms, name, xs)
    requires SameSource(next, name) && name.minute < next.minute && HoldsOneMinute([s], next)
    requires m.name == name && m.timestamp == next.minute - 1
    ensures CutInto(files[next := [s]], ms + [m], next, xs + [s])
  {
    hide HoldsOneMinute;
    hide Joined;
    var files' := files[next := [s]];
    assert forall n <- ms :: n.name.minute < next.minute by {
      forall n <- ms ensures n.name.minute < next.minute {
        var i :| 0 <= i < |ms| && ms[i] == n;
      }
    }
    JoinedOneMore(files, files', ms, m);
    SealedInOrder(ms, name.minute, m, next.minute);
    assert s in [s];
    forall n <- ms + [m]
      ensures SameSource(n.name, next) && HoldsOneMinute(FileOf(files', n.name), n.name)
    {
      assert n.name != next;
      assert FileOf(files', n.name) == FileOf(files, n.name);
    }
    assert files'[next] == [s];
  }

  lemma JoinedOneMore(files: map<SegmentName, seq<Sample>>, files': map<SegmentName, seq<Sample>>,
                      ms: seq<Message>, m: Message)
    requires forall n <- ms :: FileOf(files, n.name) == FileOf(files', n.name)
    requires FileOf(files, m.name) == FileOf(files', m.name)
    ensures Joined(files', ms + [m]) == Joined(files, ms) + FileOf(files, m.name)
  {
    JoinedFrame(files, files', ms);
    assert (ms + [m])[..|ms|] == ms;
  }

  lemma SealedInOrder(ms: seq<Message>, openMinute: nat, m: Message, nextMinute: nat)
    requires AnnouncedInOrder(ms, openMinute) && openMinute < nextMinute
    requires m.name.minute == openMinute && m.timestamp == nextMinute - 1
    ensures AnnouncedInOrder(ms + [m], nextMinute)
  {
  }

  lemma OpenMinute(st: Store, a: uint32, k: Kind, xs: seq<Sample>)
    requires Segmented(st, a, k, xs)
    ensures xs != [] ==> SlotOf(st, a, k).minute == xs[|xs| - 1].Time() / 60
  {
    if xs != [] {
      var content := st.files[SlotOf(st, a, k).fd.name];
      assert xs[|xs| - 1] == content[|content| - 1];
      assert xs[|xs| - 1] in content;
    }
  }

  lemma MinuteOf(t: nat)
    requires InRange(t)
    ensures TestedMinute(t) == RememberedMinute(t) == t / 60 >= 1
    ensures (TestedMinute(t) - 1) % TWO_32 == t / 60 - 1
  {
  }

  /** A sample of the open minute joins the open segment. */
  lemma JoinsOpenSegment(st: Store, a: uint32, k: Kind, xs: seq<Sample>, s: Sample)
    requires xs != [] && Segmented(st, a, k, xs)
    requires s.Agent() == a && s.Kind() == k && s.Time() / 60 == SlotOf(st, a, k).minute
    ensures Segmented(Appended(st, s), a, k, xs + [s])
  {
    var name := SlotOf(st, a, k).fd.name;
    var st' := Appended(st, s);
    assert HoldsOneMinute([s], name);
    LongerOpenFile(st.files, Announced(st.queue, a, k), name, xs, s);
    assert st'.files == st.files[name := st.files[name] + [s]];
  }

  lemma StartsSegment(st: Store, a: uint32, k: Kind, s: Sample)
    requires s.Agent() == a && s.Kind() == k && InRange(s.Time())
    requires SegmentName(a, s.Time() / 60, k) !in st.files
    ensures var name, st' := SegmentName(a, s.Time() / 60, k), Appended(Rotated(st, s), s);
            && SlotOf(st', a, k) == Slot(s.Time() / 60, Open(name, 1))
            && st'.files == st.files[name := [s]]
            && st'.queue == Rotated(st, s).queue
  {
    MinuteOf(s.Time());
    assert [] + [s] == [s];
  }

  lemma StartsFirstSegment(st: Store, a: uint32, k: Kind, s: Sample)
    requires Segmented(st, a, k, [])
    requires s.Agent() == a && s.Kind() == k && InRange(s.Time())
    ensures Segmented(Appended(Rotated(st, s), s), a, k, [s])
  {
    StartsSegment(st, a, k, s);
    var name := SegmentName(a, s.Time() / 60, k);
    assert Joined(st.files, []) + [s] == [s];
    assert CutInto(st.files[name := [s]], [], name, [s]);
  }

  lemma LaterMinuteIsNew(st: Store, a: uint32, k: Kind, xs: seq<Sample>, name: SegmentName)
    requires xs != [] && Segmented(st, a, k, xs)
    requires SameSource(name, SlotOf(st, a, k).fd.name) && SlotOf(st, a, k).minute < name.minute
    ensures name !in st.files
  {
    hide HoldsOneMinute, Joined, AnnouncedInOrder;
  }

  lemma RotatedQueue(st: Store, a: uint32, k: Kind, s: Sample)
    requires s.Agent() == a && s.Kind() == k && InRange(s.Time()) && SlotOf(st, a, k).fd.Open?
    ensures Rotated(st, s).queue == st.queue + [Message(a, s.Time() / 60 - 1, SlotOf(st, a, k).fd.name, k)]
  {
    MinuteOf(s.Time());
  }

  lemma OneSample(s: Sample)
    ensures HoldsOneMinute([s], SegmentName(s.Agent(), s.Time() / 60, s.Kind()))
  {
  }

  /** A sample of a later minute seals and announces the open segment and starts the next. */
  lemma StartsNextSegment(st: Store, a: uint32, k: Kind, xs: seq<Sample>, s: Sample)
    requires xs != [] && Segmented(st, a, k, xs)
    requires s.Agent() == a && s.Kind() == k && InRange(s.Time())
    requires SlotOf(st, a, k).minute < s.Time() / 60
    ensures Segmented(Appended(Rotated(st, s), s), a, k, xs + [s])
  {
    hide CutInto, HoldsOneMinute, Announced, Rotated, Appended;
    var slot, name := SlotOf(st, a, k), SegmentName(a, s.Time() / 60, k);
    var m := Message(a, s.Time() / 60 - 1, slot.fd.name, k);
    assert SameSource(name, slot.fd.name);
    LaterMinuteIsNew(st, a, k, xs, name);
    StartsSegment(st, a, k, s);
    RotatedQueue(st, a, k, s);
    OneSample(s);
    AnnouncedAppend(st.queue, m, a, k);
    SealedAndReopened(st.files, Announced(st.queue, a, k), slot.fd.name, xs, m, name, s);
  }

  /** One more sample of the same agent and kind, not earlier than the last. */
  lemma AddKeepsSegments(st: Store, a: uint32, k: Kind, xs: seq<Sample>, s: Sample)
    requires Segmented(st, a, k, xs)
    requires s.Agent() == a && s.Kind() == k && InRange(s.Time())
    requires xs != [] ==> xs[|xs| - 1].Time() / 60 <= s.Time() / 60
    ensures Segmented(AddSample(st, s), a, k, xs + [s])
  {
    MinuteOf(s.Time());
    OpenMinute(st, a, k, xs);
    if SlotOf(st, a, k).minute == s.Time() / 60 {
      JoinsOpenSegment(st, a, k, xs, s);
    } else if xs == [] {
      StartsFirstSegment(st, a, k, s);
      assert xs + [s] == [s];
    } else {
      StartsNextSegment(st, a, k, xs, s);
    }
  }

  /** For every agent and kind whose minutes never decrease and stay in range, the announced
      segments and the open segment are, in order, exactly the samples written. */
  lemma {:induction false} WrittenIsSegmented(log: seq<Sample>, a: uint32, k: Kind)
    requires TimesOk(From(log, a, k))
    ensures Segmented(StoreOf(log), a, k, From(log, a, k))
  {
    if log != [] {
      var front, s := log[..|log| - 1], log[|log| - 1];
      var xs := From(front, a, k);
      if s.Agent() == a && s.Kind() == k {
        assert From(log, a, k) == xs + [s];
        NotEarlier(xs, s);
      } else {
        assert From(log, a, k) == xs;
      }
      WrittenIsSegmented(front, a, k);
      NamesOwnSlotAlways(front);
      if s.Agent() == a && s.Kind() == k {
        AddKeepsSegments(StoreOf(front), a, k, xs, s);
      } else {
        OthersUntouched(StoreOf(front), a, k, xs, s);
      }
    }
  }

  lemma NotEarlier(xs: seq<Sample>, s: Sample)
    requires TimesOk(xs + [s])
    ensures TimesOk(xs) && InRange(s.Time())
    ensures xs != [] ==> xs[|xs| - 1].Time() / 60 <= s.Time() / 60
  {
    var ys := xs + [s];
    assert s == ys[|xs|] && xs == ys[..|xs|];
    assert forall i :: 0 <= i < |xs| ==> xs[i] == ys[i];
  }

  /** A segment that is reopened is announced while it is open. */
  lemma ReopenedIsNotSegmented(st: Store, a: uint32, k: Kind, xs: seq<Sample>, s: Sample)
    requires s.Agent() == a && s.Kind() == k && xs != []
    requires SlotOf(st, a, k).fd.Open? && SlotOf(st, a, k).fd.name == SegmentName(a, s.Time() / 60, k)
    requires TestedMinute(s.Time()) != SlotOf(st, a, k).minute
    ensures !Segmented(AddSample(st, s), a, k, xs)
  {
    hide HoldsOneMinute;
    var name, st' := SlotOf(st, a, k).fd.name, AddSample(st, s);
    var m := Message(a, (TestedMinute(s.Time()) - 1) % TWO_32, name, k);
    AnnouncedAppend(st.queue, m, a, k);
    assert Announced(st'.queue, a, k)[|Announced(st.queue, a, k)|] == m;
    assert SlotOf(st', a, k).fd.name == name;
  }
}
