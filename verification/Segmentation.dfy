/**
 Exactly when the segments of an agent are its samples cut by the minute: for which times,
 over logs of any length.
 */
module Segmentation {
  import opened Samples
  import opened SampleStore

  ghost predicate IsAnnounced(ms: seq<Message>, n: SegmentName) {
    exists m <- ms :: m.name == n
  }

  /** The open segment knows its minute and has been written; where it is written over again, it
      was announced before. */
  ghost predicate OpenOk(st: Store, ms: seq<Message>, slot: Slot, own: SegmentName)
    requires slot.fd.Open?
  {
    var name, offset := slot.fd.name, slot.fd.offset;
    && SameSource(name, own) && slot.minute == name.minute % TWO_32
    && name in st.files && 1 <= offset <= |st.files[name]|
    && (offset < |st.files[name]| ==> IsAnnounced(ms, name))
  }

  /** Every file of an agent and kind is the open segment or was announced. */
  ghost predicate Accounted(st: Store, a: uint32, k: Kind) {
    var ms, slot, own := Announced(st.queue, a, k), SlotOf(st, a, k), SegmentName(a, 0, k);
    if slot.fd.NoFile? then
      && slot == Slot(0, NoFile) && ms == []
      && (forall n <- st.files :: !SameSource(n, own))
    else
      && OpenOk(st, ms, slot, own)
      && (forall n <- st.files :: SameSource(n, own) ==> n == slot.fd.name || IsAnnounced(ms, n))
  }

  lemma AnnouncedMore(ms: seq<Message>, m: Message)
    ensures forall n :: IsAnnounced(ms + [m], n) <==> IsAnnounced(ms, n) || n == m.name
  {
    assert m in ms + [m];
    assert forall x <- ms :: x in ms + [m];
  }

  lemma AppendedAccounted(st: Store, a: uint32, k: Kind, s: Sample)
    requires Accounted(st, a, k) && s.Agent() == a && s.Kind() == k
    ensures Accounted(Appended(st, s), a, k)
  {
    hide IsAnnounced;
  }

  lemma ReopenedAccounted(st: Store, a: uint32, k: Kind, s: Sample)
    requires Accounted(st, a, k) && s.Agent() == a && s.Kind() == k
    ensures Accounted(Appended(Rotated(st, s), s), a, k)
  {
    hide IsAnnounced;
    var slot, ms := SlotOf(st, a, k), Announced(st.queue, a, k);
    if slot.fd.Open? {
      var m := Message(a, (TestedMinute(s.Time()) - 1) % TWO_32, slot.fd.name, k);
      AnnouncedAppend(st.queue, m, a, k);
      AnnouncedMore(ms, m);
    }
  }

  lemma AccountedFrame(st: Store, st': Store, a: uint32, k: Kind)
    requires SameFor(st, st', a, k) && Accounted(st, a, k)
    ensures Accounted(st', a, k)
  {
    hide IsAnnounced, Announced;
  }

  /** What a sample of another agent or kind does not touch. */
  lemma SameForOthers(st: Store, a: uint32, k: Kind, s: Sample)
    requires !(s.Agent() == a && s.Kind() == k) && NamesOwnSlot(st)
    ensures SameFor(st, AddSample(st, s), a, k)
  {
    hide Announced;
    var mid := if TestedMinute(s.Time()) != SlotOf(st, s.Agent(), s.Kind()).minute then Rotated(st, s) else st;
    RotatedElsewhere(st, a, k, s);
    assert NamesOwnSlot(mid) by { RotatedKeepsNames(st, s); }
    AppendedElsewhere(mid, a, k, s);
  }

  lemma {:induction false} AccountedAlways(log: seq<Sample>, a: uint32, k: Kind)
    ensures Accounted(StoreOf(log), a, k)
  {
    hide Accounted, Rotated, Appended, SameFor;
    if log == [] {
      EmptyAccounted(a, k);
    } else {
      var front, s := log[..|log| - 1], log[|log| - 1];
      var st := StoreOf(front);
      AccountedAlways(front, a, k);
      if s.Agent() == a && s.Kind() == k {
        AppendedAccounted(st, a, k, s);
        ReopenedAccounted(st, a, k, s);
      } else {
        NamesOwnSlotAlways(front);
        SameForOthers(st, a, k, s);
        AccountedFrame(st, AddSample(st, s), a, k);
      }
    }
  }

  lemma EmptyAccounted(a: uint32, k: Kind)
    ensures Accounted(StoreOf([]), a, k)
  {
  }

  // ----- segmented after a sample, segmented before it -----

  lemma JoinedPrefix(xs: seq<Sample>, s: Sample, front: seq<Sample>, content: seq<Sample>)
    requires xs + [s] == front + content && content != []
    ensures content[|content| - 1] == s && xs == front + content[..|content| - 1]
  {
    var ys := xs + [s];
    assert ys[|ys| - 1] == s && (front + content)[|front + content| - 1] == content[|content| - 1];
    assert xs == ys[..|ys| - 1] && (front + content)[..|front + content| - 1] == front + content[..|content| - 1];
  }

  lemma NotAnnouncedItself(ms: seq<Message>, name: SegmentName)
    requires AnnouncedInOrder(ms, name.minute)
    ensures !IsAnnounced(ms, name)
  {
  }

  /** A sample that joined the open segment leaves it as a segment when it is taken away. */
  lemma AppendedUndone(st: Store, a: uint32, k: Kind, xs: seq<Sample>, s: Sample)
    requires Accounted(st, a, k) && s.Agent() == a && s.Kind() == k
    requires Segmented(Appended(st, s), a, k, xs + [s])
    ensures Segmented(st, a, k, xs) && xs != [] && s.Time() / 60 == SlotOf(st, a, k).minute
  {
    hide HoldsOneMinute, Joined, IsAnnounced, Announced, AnnouncedInOrder;
    var st' := Appended(st, s);
    var ms, slot := Announced(st.queue, a, k), SlotOf(st, a, k);
    var name := slot.fd.name;
    NotAnnouncedItself(ms, name);
    assert st'.files[name] == st.files[name] + [s];
    JoinedPrefix(xs, s, Joined(st'.files, ms), st'.files[name]);
    assert st.files[name] == st'.files[name][..|st.files[name]|];
    LastIsOfMinute(st.files[name], s, name);
    forall m <- ms ensures m.name != name {
      AnnouncedSooner(ms, name.minute, m);
    }
    JoinedFrame(st.files, st'.files, ms);
  }

  lemma LastIsOfMinute(content: seq<Sample>, s: Sample, name: SegmentName)
    requires HoldsOneMinute(content + [s], name)
    ensures s.Time() / 60 == name.minute && (content != [] ==> HoldsOneMinute(content, name))
  {
    assert s in content + [s];
    assert forall x <- content :: x in content + [s];
  }

  lemma AnnouncedSooner(ms: seq<Message>, openMinute: nat, m: Message)
    requires AnnouncedInOrder(ms, openMinute) && m in ms
    ensures m.name.minute < openMinute
  {
  }

  lemma OrderBefore(ms: seq<Message>, m: Message, nextMinute: nat)
    requires AnnouncedInOrder(ms + [m], nextMinute)
    ensures AnnouncedInOrder(ms, m.name.minute)
    ensures m.name.minute < nextMinute && m.timestamp == nextMinute - 1
  {
    var all := ms + [m];
    assert all[|ms|] == m;
    assert forall i :: 0 <= i < |ms| ==> all[i] == ms[i];
    if ms != [] {
      var j := |ms|;
      assert all[j - 1].timestamp == all[j].name.minute - 1;
    }
  }

  /** The file that a sample starts is its own, and the announced ones are as they were. */
  lemma StartedFile(st: Store, a: uint32, k: Kind, s: Sample, ms: seq<Message>, m: Message)
    requires Accounted(st, a, k) && s.Agent() == a && s.Kind() == k && SlotOf(st, a, k).fd.Open?
    requires ms == Announced(st.queue, a, k) && m.name == SlotOf(st, a, k).fd.name
    requires AnnouncedInOrder(ms + [m], s.Time() / 60)
    ensures var name, st' := SegmentName(a, s.Time() / 60, k), Appended(Rotated(st, s), s);
            && st'.files == st.files[name := [s]]
            && (forall n <- ms + [m] :: FileOf(st'.files, n.name) == FileOf(st.files, n.name))
  {
    hide HoldsOneMinute, Joined, Announced, AnnouncedInOrder, IsAnnounced;
    var name, st' := SegmentName(a, s.Time() / 60, k), Appended(Rotated(st, s), s);
    NotAnnouncedItself(ms + [m], name);
    AnnouncedMore(ms, m);
    assert name !in st.files;
    assert [] + [s] == [s];
    forall n <- ms + [m] ensures n.name != name {
      AnnouncedSooner(ms + [m], name.minute, n);
    }
  }

  /** A sample that started the open segment, after an announcement. */
  lemma NextUndone(st: Store, a: uint32, k: Kind, xs: seq<Sample>, s: Sample)
    requires Accounted(st, a, k) && s.Agent() == a && s.Kind() == k && SlotOf(st, a, k).fd.Open?
    requires Segmented(Appended(Rotated(st, s), s), a, k, xs + [s])
    ensures Segmented(st, a, k, xs) && xs != [] && SlotOf(st, a, k).minute < s.Time() / 60 < TWO_32
    ensures (TestedMinute(s.Time()) - 1) % TWO_32 == s.Time() / 60 - 1
  {
    hide HoldsOneMinute, Joined, IsAnnounced, Announced, AnnouncedInOrder;
    var st' := Appended(Rotated(st, s), s);
    var ms, slot, name := Announced(st.queue, a, k), SlotOf(st, a, k), SegmentName(a, s.Time() / 60, k);
    var m := Message(a, (TestedMinute(s.Time()) - 1) % TWO_32, slot.fd.name, k);
    AnnouncedAppend(st.queue, m, a, k);
    assert SlotOf(st', a, k).fd.name == name;
    OrderBefore(ms, m, name.minute);
    StartedFile(st, a, k, s, ms, m);
    JoinedPrefix(xs, s, Joined(st'.files, ms + [m]), [s]);
    JoinedOneMore(st.files, st'.files, ms, m);
    assert m in ms + [m];
    assert forall n <- ms :: n in ms + [m];
    OpenSegmentCloses(st, a, k, xs, ms, slot);
  }

  /** An open segment that a later announcement could close is one, and holds something. */
  lemma OpenSegmentCloses(st: Store, a: uint32, k: Kind, xs: seq<Sample>, ms: seq<Message>, slot: Slot)
    requires Accounted(st, a, k) && slot == SlotOf(st, a, k) && slot.fd.Open? && ms == Announced(st.queue, a, k)
    requires AnnouncedInOrder(ms, slot.fd.name.minute) && slot.fd.name.minute < TWO_32
    requires HoldsOneMinute(st.files[slot.fd.name], slot.fd.name)
    requires forall n <- ms :: SameSource(n.name, slot.fd.name) && HoldsOneMinute(FileOf(st.files, n.name), n.name)
    requires xs == Joined(st.files, ms) + st.files[slot.fd.name]
    ensures Segmented(st, a, k, xs) && xs != []
  {
    hide HoldsOneMinute, Joined, IsAnnounced, Announced, AnnouncedInOrder;
    var name := slot.fd.name;
    NotAnnouncedItself(ms, name);
    OneMinuteNonempty(st.files[name], name);
    forall n <- st.files | SameSource(n, name) ensures n.minute <= name.minute {
      if n != name {
        AnnouncedEarlier(ms, name.minute, n);
      }
    }
  }

  lemma OneMinuteNonempty(content: seq<Sample>, name: SegmentName)
    requires HoldsOneMinute(content, name)
    ensures content != []
  {
  }

  lemma AnnouncedEarlier(ms: seq<Message>, openMinute: nat, n: SegmentName)
    requires AnnouncedInOrder(ms, openMinute) && IsAnnounced(ms, n)
    ensures n.minute < openMinute
  {
  }

  /** A sample that started the very first segment. */
  lemma FirstUndone(st: Store, a: uint32, k: Kind, xs: seq<Sample>, s: Sample)
    requires Accounted(st, a, k) && s.Agent() == a && s.Kind() == k && SlotOf(st, a, k).fd.NoFile?
    requires Segmented(Appended(Rotated(st, s), s), a, k, xs + [s])
    ensures xs == [] && Segmented(st, a, k, xs) && s.Time() / 60 < TWO_32
  {
    hide HoldsOneMinute, IsAnnounced, AnnouncedInOrder;
    var st', name := Appended(Rotated(st, s), s), SegmentName(a, s.Time() / 60, k);
    assert [] + [s] == [s];
    assert st'.files[name] == [s] && Joined(st'.files, []) == [];
    assert xs + [s] == [] + [s];
    assert |xs| == 0;
  }

  // ----- the exact condition -----

  /** One sample alone, later than the 32-bit clock can tell: it still gets its segment, but no other
      sample can follow or precede it. */
  ghost predicate LoneLate(xs: seq<Sample>) {
    |xs| == 1 && TWO_32 <= xs[0].Time() < 60 * TWO_32 && xs[0].Time() % TWO_32 >= 60
  }

  /** The samples that the daemon cuts correctly. */
  ghost predicate Cuttable(xs: seq<Sample>) {
    TimesOk(xs) || LoneLate(xs)
  }

  /** Truncated to 32 bits, a late time has another minute. */
  lemma LateMinute(t: nat)
    ensures TestedMinute(t) <= t / 60
    ensures t < TWO_32 <==> TestedMinute(t) == t / 60
    ensures t < TWO_32 ==> t / 60 <= 71582788
    ensures t >= TWO_32 && t % TWO_32 >= 60 ==> t / 60 > 71582788
  {
    var q, r := t / TWO_32, t % TWO_32;
    assert t == q * TWO_32 + r;
    if t >= TWO_32 {
      assert t >= TWO_32 + r;
      assert t / 60 >= (TWO_32 + r) / 60 > r / 60;
    }
  }

  lemma MinutesAppend(xs: seq<Sample>, s: Sample)
    requires TimesOk(xs) && InRange(s.Time())
    requires xs != [] ==> xs[|xs| - 1].Time() / 60 <= s.Time() / 60
    ensures TimesOk(xs + [s])
  {
    var ys := xs + [s];
    forall i, j | 0 <= i < j < |ys| ensures ys[i].Time() / 60 <= ys[j].Time() / 60 {
      if j == |xs| && i < |xs| - 1 {
        assert xs[i].Time() / 60 <= xs[|xs| - 1].Time() / 60;
      }
    }
  }

  lemma AfterCuttable(xs: seq<Sample>, s: Sample)
    requires xs != [] && Cuttable(xs) && s.Time() < TWO_32
    requires 1 <= s.Time() / 60 && xs[|xs| - 1].Time() / 60 <= s.Time() / 60
    ensures Cuttable(xs + [s])
  {
    LateMinute(s.Time());
    LateMinute(xs[0].Time());
    MinuteAtLeastOne(s.Time());
    if TimesOk(xs) {
      MinutesAppend(xs, s);
    }
  }

  lemma MinuteAtLeastOne(t: nat)
    ensures t / 60 >= 1 <==> t >= 60
  {
  }

  lemma SampleNeeds(st: Store, a: uint32, k: Kind, xs: seq<Sample>, s: Sample)
    requires Accounted(st, a, k) && s.Agent() == a && s.Kind() == k
    requires Segmented(st, a, k, xs) ==> Cuttable(xs)
    requires Segmented(AddSample(st, s), a, k, xs + [s])
    ensures Cuttable(xs + [s])
  {
    hide Segmented, Accounted, Rotated, Appended, Cuttable;
    var t, slot := s.Time(), SlotOf(st, a, k);
    LateMinute(t);
    MinuteAtLeastOne(t);
    if TestedMinute(t) == slot.minute {
      AppendedUndone(st, a, k, xs, s);
      OpenMinute(st, a, k, xs);
      LastInRange(xs);
      AfterCuttable(xs, s);
    } else if slot.fd.NoFile? {
      FirstUndone(st, a, k, xs, s);
      NoFileMinute(st, a, k);
      assert xs + [s] == [s];
      OneCuttable(s);
    } else {
      NextUndone(st, a, k, xs, s);
      OpenMinute(st, a, k, xs);
      AfterCuttable(xs, s);
    }
  }

  lemma LastInRange(xs: seq<Sample>)
    requires xs != [] && Cuttable(xs)
    ensures xs[|xs| - 1].Time() / 60 >= 1
  {
    assert xs[|xs| - 1] in xs;
  }

  lemma NoFileMinute(st: Store, a: uint32, k: Kind)
    requires Accounted(st, a, k) && SlotOf(st, a, k).fd.NoFile?
    ensures SlotOf(st, a, k).minute == 0
  {
  }

  lemma OneCuttable(s: Sample)
    requires TestedMinute(s.Time()) != 0 && s.Time() / 60 < TWO_32
    ensures Cuttable([s])
  {
    MinuteAtLeastOne(s.Time() % TWO_32);
    MinuteAtLeastOne(s.Time());
  }

  lemma {:induction false} SegmentedNeeds(log: seq<Sample>, a: uint32, k: Kind)
    requires Segmented(StoreOf(log), a, k, From(log, a, k))
    ensures Cuttable(From(log, a, k))
  {
    hide Segmented, Accounted, AddSample, Cuttable, SameFor;
    if log == [] {
      NothingCuttable();
    } else {
      var front, s := log[..|log| - 1], log[|log| - 1];
      var xs, st := From(front, a, k), StoreOf(front);
      if Segmented(st, a, k, xs) {
        SegmentedNeeds(front, a, k);
      }
      AccountedAlways(front, a, k);
      if s.Agent() == a && s.Kind() == k {
        SampleNeeds(st, a, k, xs, s);
      } else {
        assert From(log, a, k) == xs;
        NamesOwnSlotAlways(front);
        SameForOthers(st, a, k, s);
        SameForBack(st, AddSample(st, s), a, k);
        SegmentedFrame(AddSample(st, s), st, a, k, xs);
      }
    }
  }

  lemma NothingCuttable()
    ensures Cuttable([])
  {
  }

  lemma SameForBack(st: Store, st': Store, a: uint32, k: Kind)
    requires SameFor(st, st', a, k)
    ensures SameFor(st', st, a, k)
  {
    hide Announced;
  }

  lemma LateSegment(st: Store, a: uint32, k: Kind, s: Sample)
    requires Segmented(st, a, k, []) && s.Agent() == a && s.Kind() == k
    requires TestedMinute(s.Time()) != 0 && s.Time() / 60 < TWO_32
    ensures Segmented(AddSample(st, s), a, k, [s])
  {
    var name := SegmentName(a, s.Time() / 60, k);
    assert [] + [s] == [s];
    assert Joined(st.files[name := [s]], []) + [s] == [s];
    assert CutInto(st.files[name := [s]], [], name, [s]);
  }

  lemma {:induction false} LateIsSegmented(log: seq<Sample>, a: uint32, k: Kind)
    requires LoneLate(From(log, a, k))
    ensures Segmented(StoreOf(log), a, k, From(log, a, k))
  {
    hide Segmented, AddSample, TestedMinute;
    var front, s := log[..|log| - 1], log[|log| - 1];
    var xs, st := From(front, a, k), StoreOf(front);
    if s.Agent() == a && s.Kind() == k {
      assert From(log, a, k) == xs + [s] && |xs| == 0;
      assert xs == [] && xs + [s] == [s];
      WrittenIsSegmented(front, a, k);
      LateTested(s.Time());
      LateSegment(st, a, k, s);
    } else {
      assert From(log, a, k) == xs;
      LateIsSegmented(front, a, k);
      NamesOwnSlotAlways(front);
      OthersUntouched(st, a, k, xs, s);
    }
  }

  lemma LateTested(t: nat)
    requires TWO_32 <= t < 60 * TWO_32 && t % TWO_32 >= 60
    ensures TestedMinute(t) != 0 && t / 60 < TWO_32
  {
  }

  /** For every log: the announced segments and the open segment of an agent are, in order, exactly
      its samples, one minute each, announced once and in minute order, if and only if its minutes
      never decrease and its times lie between the second minute of the epoch and the end of the
      32-bit clock, or it has a single late sample. */
  lemma SegmentedIff(log: seq<Sample>, a: uint32, k: Kind)
    ensures Segmented(StoreOf(log), a, k, From(log, a, k)) <==> Cuttable(From(log, a, k))
  {
    hide Segmented;
    if TimesOk(From(log, a, k)) {
      WrittenIsSegmented(log, a, k);
    } else if LoneLate(From(log, a, k)) {
      LateIsSegmented(log, a, k);
    } else if Segmented(StoreOf(log), a, k, From(log, a, k)) {
      SegmentedNeeds(log, a, k);
    }
  }

  /** In particular, a log of just two samples of one minute is kept exactly if both times are in range. */
  lemma SameMinuteKeptIff(s1: Sample, s2: Sample)
    requires s1.Agent() == s2.Agent() && s1.Kind() == s2.Kind() && s1.Time() / 60 == s2.Time() / 60
    ensures Segmented(StoreOf([s1, s2]), s1.Agent(), s1.Kind(), [s1, s2])
            <==> InRange(s1.Time()) && InRange(s2.Time())
  {
    hide Segmented, StoreOf, From;
    FromPair(s1, s2);
    assert s1 in [s1, s2] && s2 in [s1, s2];
    SegmentedIff([s1, s2], s1.Agent(), s1.Kind());
  }

  lemma FromPair(s1: Sample, s2: Sample)
    requires s1.Agent() == s2.Agent() && s1.Kind() == s2.Kind()
    ensures From([s1, s2], s1.Agent(), s1.Kind()) == [s1, s2]
  {
    assert [s1, s2][..1] == [s1] && [s1][..0] == [];
    assert From([s1], s1.Agent(), s1.Kind()) == [] + [s1];
  }
}
