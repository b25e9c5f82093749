/**
 The hand-off from the collecting to the processing daemon: a segment's name and message as
 text, and a sealed segment that is never written again.
 */
module HandOff {
  import opened Samples
  import opened SampleStore
  import opened Decimal
  import opened CStrings
  import opened Messaging

  // ----- names and messages as text -----

  function KindText(k: Kind): string {
    if k == FlowKind then "flow" else "cntr"
  }

  /** The name that the daemon prints: the local time of the minute, then agent and kind. */
  function NameText(stamp: nat -> string, n: SegmentName): string {
    stamp(n.minute) + (Dec(n.agent) + ("_" + KindText(n.kind)))
  }

  function AsText(stamp: nat -> string, m: Message): TextMessage {
    TextMessage(m.agent, m.timestamp, NameText(stamp, m.name), if m.kind == FlowKind then 0 else 1)
  }

  /** A stamp has the form `YYYYMMDD_hhmm_`. */
  predicate StampOk(s: string) {
    |s| == 14 && NoSpace(s) && NoNul(s)
  }

  lemma TailInjective(a: uint32, b: uint32, k: Kind, l: Kind)
    requires Dec(a) + ("_" + KindText(k)) == Dec(b) + ("_" + KindText(l))
    ensures a == b && k == l
  {
    var s, r, r' := Dec(a) + ("_" + KindText(k)), "_" + KindText(k), "_" + KindText(l);
    DigitRunStops(Dec(a), r);
    DigitRunStops(Dec(b), r');
    assert s[..DigitRun(s)] == Dec(a) == Dec(b) && s[DigitRun(s)..] == r == r';
    ValueOfDec(a);
    ValueOfDec(b);
    assert r[1] == KindText(k)[0] && r'[1] == KindText(l)[0];
  }

  /** Names differ as texts exactly if they differ as segments, as long as the two minutes have
      different stamps. */
  lemma NamesInjective(stamp: nat -> string, n: SegmentName, n': SegmentName)
    requires StampOk(stamp(n.minute)) && StampOk(stamp(n'.minute))
    requires stamp(n.minute) == stamp(n'.minute) ==> n.minute == n'.minute
    ensures NameText(stamp, n) == NameText(stamp, n') <==> n == n'
  {
    hide Dec, KindText;
    if NameText(stamp, n) == NameText(stamp, n') {
      var s := NameText(stamp, n);
      assert s[..14] == stamp(n.minute) == stamp(n'.minute);
      assert s[14..] == Dec(n.agent) + ("_" + KindText(n.kind)) == Dec(n'.agent) + ("_" + KindText(n'.kind));
      TailInjective(n.agent, n'.agent, n.kind, n'.kind);
    }
  }

  lemma NameIsToken(stamp: nat -> string, n: SegmentName)
    requires StampOk(stamp(n.minute))
    ensures var s := NameText(stamp, n);
            s != [] && |s| <= 29 && NoSpace(s) && NoNul(s)
  {
    DecWidths(n.agent);
    var digits := Dec(n.agent);
    forall i | 0 <= i < |digits| ensures !IsSpace(digits[i]) && digits[i] != NUL {
      assert IsDigit(digits[i]);
    }
  }

  /** Every message that the collecting daemon sends is short, and the receiver scans its agent, its
      stamp, the name of its segment, and 0 for flow and 1 for counter samples. */
  lemma MessageDelivered(stamp: nat -> string, m: Message)
    requires StampOk(stamp(m.name.minute))
    ensures var line := Printed(AsText(stamp, m));
            && |line| <= 63
            && Scanned(Terminated(line + [NUL])) ==
               Some(TextMessage(m.agent, m.timestamp, NameText(stamp, m.name), if m.kind.FlowKind? then 0 else 1))
  {
    hide NameText, Printed, Scanned;
    NameIsToken(stamp, m.name);
    PrintedFits(AsText(stamp, m));
    DeliveredIff(AsText(stamp, m));
  }

  /** A name is the stamp, the agent's decimal number and the kind, as the code puts them together. */
  lemma NameForm(stamp: nat -> string, n: SegmentName)
    ensures NameText(stamp, n) == stamp(n.minute) + Dec(n.agent) + if n.kind == FlowKind then "_flow" else "_cntr"
  {
    assert "_" + "flow" == "_flow" && "_" + "cntr" == "_cntr";
  }

  // ----- the time stamp of a message -----

  /** A message is stamped with a time from the sealed minute up to the next segment, and
      with the sealed minute itself exactly if no minute was skipped. */
  lemma HandOffStamps(ms: seq<Message>, openMinute: nat, i: nat)
    requires AnnouncedInOrder(ms, openMinute) && i < |ms|
    ensures var next := if i + 1 < |ms| then ms[i + 1].name.minute else openMinute;
            && ms[i].name.minute <= ms[i].timestamp < next
            && (ms[i].timestamp == ms[i].name.minute <==> next == ms[i].name.minute + 1)
  {
  }

  // ----- sealed segments -----

  /** Every announcement stays, and what it announced does not change. */
  ghost predicate SealedKept(st: Store, st': Store, a: uint32, k: Kind) {
    && Announced(st.queue, a, k) <= Announced(st'.queue, a, k)
    && (forall m <- Announced(st.queue, a, k) :: FileOf(st'.files, m.name) == FileOf(st.files, m.name))
  }

  lemma RotatedKeepsSealed(st: Store, a: uint32, k: Kind, xs: seq<Sample>, s: Sample)
    requires Segmented(st, a, k, xs)
    requires s.Agent() == a && s.Kind() == k
    ensures SealedKept(st, Rotated(st, s), a, k)
  {
    hide HoldsOneMinute, Joined;
    var slot := SlotOf(st, a, k);
    if slot.fd.Open? {
      AnnouncedAppend(st.queue, Message(a, (TestedMinute(s.Time()) - 1) % TWO_32, slot.fd.name, k), a, k);
    }
  }

  lemma AppendedKeepsSealed(st: Store, a: uint32, k: Kind, xs: seq<Sample>, s: Sample)
    requires Segmented(st, a, k, xs)
    requires s.Agent() == a && s.Kind() == k
    ensures SealedKept(st, Appended(st, s), a, k)
  {
    hide HoldsOneMinute, Joined;
  }

  lemma AddKeepsSealed(st: Store, a: uint32, k: Kind, xs: seq<Sample>, s: Sample)
    requires Segmented(st, a, k, xs)
    requires s.Agent() == a && s.Kind() == k && InRange(s.Time())
    requires xs != [] ==> xs[|xs| - 1].Time() / 60 <= s.Time() / 60
    ensures SealedKept(st, AddSample(st, s), a, k)
  {
    hide HoldsOneMinute, Joined;
    MinuteOf(s.Time());
    OpenMinute(st, a, k, xs);
    if SlotOf(st, a, k).minute == s.Time() / 60 {
      AppendedKeepsSealed(st, a, k, xs, s);
    } else {
      RotatedKeepsSealed(st, a, k, xs, s);
      var name := SegmentName(a, s.Time() / 60, k);
      assert SlotOf(Rotated(st, s), a, k).fd == Open(name, 0);
      forall m <- Announced(st.queue, a, k) ensures m.name != name {
        if xs != [] {
          AnnouncedBefore(Announced(st.queue, a, k), SlotOf(st, a, k).fd.name.minute, m);
        }
      }
    }
  }

  lemma AnnouncedBefore(ms: seq<Message>, openMinute: nat, m: Message)
    requires AnnouncedInOrder(ms, openMinute) && m in ms
    ensures m.name.minute < openMinute
  {
  }

  lemma OthersKeepSealed(st: Store, a: uint32, k: Kind, s: Sample)
    requires !(s.Agent() == a && s.Kind() == k) && NamesOwnSlot(st)
    requires forall m <- Announced(st.queue, a, k) :: m.name.agent == a && m.name.kind == k
    ensures SealedKept(st, AddSample(st, s), a, k)
  {
    hide Announced;
    var mid := if TestedMinute(s.Time()) != SlotOf(st, s.Agent(), s.Kind()).minute then Rotated(st, s) else st;
    RotatedElsewhere(st, a, k, s);
    assert NamesOwnSlot(mid) by { RotatedKeepsNames(st, s); }
    AppendedElsewhere(mid, a, k, s);
  }

  /** An announced segment is never written again: what the processing daemon reads is the
      same whenever it reads it. */
  lemma {:induction false} SealedIsFinal(log: seq<Sample>, log': seq<Sample>, a: uint32, k: Kind)
    requires log <= log' && TimesOk(From(log', a, k))
    ensures SealedKept(StoreOf(log), StoreOf(log'), a, k)
    decreases |log'|
  {
    if log != log' {
      var front, s := log'[..|log'| - 1], log'[|log'| - 1];
      var xs, st := From(front, a, k), StoreOf(front);
      if s.Agent() == a && s.Kind() == k {
        assert From(log', a, k) == xs + [s];
        NotEarlier(xs, s);
      } else {
        assert From(log', a, k) == xs;
      }
      SealedIsFinal(log, front, a, k);
      WrittenIsSegmented(front, a, k);
      NamesOwnSlotAlways(front);
      if s.Agent() == a && s.Kind() == k {
        AddKeepsSealed(st, a, k, xs, s);
      } else {
        SealedNames(st, a, k, xs);
        OthersKeepSealed(st, a, k, s);
      }
      SealedKeptTwice(StoreOf(log), st, AddSample(st, s), a, k);
    }
  }

  lemma SealedNames(st: Store, a: uint32, k: Kind, xs: seq<Sample>)
    requires Segmented(st, a, k, xs)
    ensures forall m <- Announced(st.queue, a, k) :: m.name.agent == a && m.name.kind == k
  {
    hide HoldsOneMinute, Joined;
  }

  lemma SealedKeptTwice(st: Store, st': Store, st'': Store, a: uint32, k: Kind)
    requires SealedKept(st, st', a, k) && SealedKept(st', st'', a, k)
    ensures SealedKept(st, st'', a, k)
  {
    forall m <- Announced(st.queue, a, k) ensures m in Announced(st'.queue, a, k) {
    }
  }
}
