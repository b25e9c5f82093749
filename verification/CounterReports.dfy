/**
 The counter report: every counter sample becomes a row that holds its octet counters'
 increments since the previous sample of the same interface.
 */
module CounterReports {
  import opened Samples

  datatype Interface = Interface(agent: uint32, ifIndex: uint32)

  datatype Status = Status(timestamp: uint32, octetsIn: uint64, octetsOut: uint64, linespeed: uint64)

  const UNSEEN := Status(0, 0, 0, 0)

  /** The computed part of a row.  The loads are left as the numbers that they are quotients of. */
  datatype Row = Row(
    interface: Interface, known: bool, seconds: uint32, deltaIn: uint64, deltaOut: uint64, bytesPerSecond: uint64)

  function InterfaceOf(s: CntrSample): Interface {
    Interface(s.agentAddress, s.generic.ifIndex)
  }

  function StatusOf(s: CntrSample): Status {
    Status(s.timestamp % TWO_32, s.generic.inOctets, s.generic.outOctets, s.generic.ifSpeed)
  }

  /** The magnitude of a difference that was cut to a signed 32-bit number. */
  function Magnitude(difference: int): uint32 {
    var d := difference % TWO_32;
    if d >= 0x8000_0000 then TWO_32 - d else d
  }

  function Delta(next: uint64, previous: uint64): uint64 {
    var x: int := next;
    (x - previous) % TWO_64
  }

  function RowOf(s: CntrSample, previous: Status): Row {
    Row(InterfaceOf(s), previous.timestamp != 0, Magnitude(s.timestamp - previous.timestamp),
        Delta(s.generic.inOctets, previous.octetsIn), Delta(s.generic.outOctets, previous.octetsOut),
        previous.linespeed / 8)
  }

  // ----- the table of interfaces as a map -----

  type Table = map<Interface, Status>

  function Find(t: Table, i: Interface): Status {
    if i in t then t[i] else UNSEEN
  }

  function TableAfter(t: Table, log: seq<CntrSample>): Table {
    if log == [] then t
    else
      var s := log[|log| - 1];
      TableAfter(t, log[..|log| - 1])[InterfaceOf(s) := StatusOf(s)]
  }

  function RowsAfter(t: Table, log: seq<CntrSample>): seq<Row> {
    if log == [] then []
    else
      var s, front := log[|log| - 1], log[..|log| - 1];
      RowsAfter(t, front) + [RowOf(s, Find(TableAfter(t, front), InterfaceOf(s)))]
  }

  /** One list after another is the same as their concatenation: files do not matter. */
  lemma {:induction false} ListsConcatenate(t: Table, a: seq<CntrSample>, b: seq<CntrSample>)
    ensures TableAfter(t, a + b) == TableAfter(TableAfter(t, a), b)
    ensures RowsAfter(t, a + b) == RowsAfter(t, a) + RowsAfter(TableAfter(t, a), b)
  {
    if b == [] {
      assert a + b == a;
    } else {
      var front, s := b[..|b| - 1], b[|b| - 1];
      assert (a + b)[..|a + b| - 1] == a + front;
      ListsConcatenate(t, a, front);
    }
  }

  // ----- the previous sample of an interface -----

  datatype Direction = In | Out

  function Octets(s: CntrSample, d: Direction): uint64 {
    if d == In then s.generic.inOctets else s.generic.outOctets
  }

  function Increment(r: Row, d: Direction): uint64 {
    if d == In then r.deltaIn else r.deltaOut
  }

  /** The samples of one interface, in order. */
  function Own(log: seq<CntrSample>, i: Interface): seq<CntrSample> {
    if log == [] then []
    else
      var s := log[|log| - 1];
      Own(log[..|log| - 1], i) + if InterfaceOf(s) == i then [s] else []
  }

  function Latest(own: seq<CntrSample>): Status {
    if own == [] then UNSEEN else StatusOf(own[|own| - 1])
  }

  /** The table knows exactly the interfaces that were seen, each by its latest sample. */
  lemma {:induction false} TableIsLatest(log: seq<CntrSample>, i: Interface)
    ensures i in TableAfter(map[], log) <==> Own(log, i) != []
    ensures Find(TableAfter(map[], log), i) == Latest(Own(log, i))
  {
    if log != [] {
      TableIsLatest(log[..|log| - 1], i);
    }
  }

  lemma {:induction false} RowsAgainstPrevious(log: seq<CntrSample>, n: nat)
    requires n < |log|
    ensures |RowsAfter(map[], log)| == |log|
    ensures RowsAfter(map[], log)[n] == RowOf(log[n], Latest(Own(log[..n], InterfaceOf(log[n]))))
  {
    var front := log[..|log| - 1];
    RowsLength(log);
    RowsLength(front);
    if n == |front| {
      TableIsLatest(front, InterfaceOf(log[n]));
    } else {
      RowsAgainstPrevious(front, n);
      assert front[..n] == log[..n];
    }
  }

  /** The C function is not defined on the lowest number, where `Magnitude` gives 2^31. */
  predicate AbsDefined(difference: int) {
    difference % TWO_32 != 0x8000_0000
  }

  /** The time between two samples is defined and right exactly if it is below 2^31 seconds. */
  lemma SecondsIff(t: nat, previous: nat)
    requires t < TWO_32 && previous < TWO_32
    ensures AbsDefined(t - previous)
            && Magnitude(t - previous) == (if t < previous then previous - t else t - previous)
            <==> -0x8000_0000 < t - previous < 0x8000_0000
  {
  }

  lemma DeltaAdds(next: uint64, previous: uint64)
    ensures (previous + Delta(next, previous)) % TWO_64 == next
  {
  }

  /** Every row is taken against the previous sample of its interface, whatever came between:
      its increments lead from that sample's counters to this one's, and the first row of an
      interface is not known. */
  lemma RowMeaning(log: seq<CntrSample>, n: nat, d: Direction)
    requires n < |log| == |RowsAfter(map[], log)|
    ensures var s, r, own := log[n], RowsAfter(map[], log)[n], Own(log[..n], InterfaceOf(log[n]));
            && r.interface == InterfaceOf(s)
            && (own == [] ==> !r.known)
            && (own != [] ==>
                  var p := own[|own| - 1];
                  && (r.known <==> p.timestamp % TWO_32 != 0)
                  && (Octets(p, d) + Increment(r, d)) % TWO_64 == Octets(s, d)
                  && r.bytesPerSecond * 8 <= p.generic.ifSpeed < (r.bytesPerSecond + 1) * 8
                  && (p.timestamp <= s.timestamp < TWO_32 && s.timestamp - p.timestamp < 0x8000_0000 ==>
                        p.timestamp + r.seconds == s.timestamp))
  {
    hide RowsAfter, Own, Delta, Magnitude;
    RowsAgainstPrevious(log, n);
    var s, own := log[n], Own(log[..n], InterfaceOf(log[n]));
    if own != [] {
      var p := own[|own| - 1];
      DeltaAdds(Octets(s, d), Octets(p, d));
      if p.timestamp <= s.timestamp < TWO_32 {
        SecondsIff(s.timestamp, p.timestamp);
      }
    }
  }

  lemma {:induction false} RowsLength(log: seq<CntrSample>)
    ensures |RowsAfter(map[], log)| == |log|
  {
    if log != [] {
      RowsLength(log[..|log| - 1]);
    }
  }

  // ----- increments telescope -----

  /** What the report says in total about an interface: the increments of its known rows. */
  function Reported(rows: seq<Row>, i: Interface, d: Direction): nat {
    if rows == [] then 0
    else
      var r := rows[|rows| - 1];
      Reported(rows[..|rows| - 1], i, d) + if r.interface == i && r.known then Increment(r, d) else 0
  }

  /** The same total taken from the interface's samples alone. */
  function Total(own: seq<CntrSample>, d: Direction): nat {
    if own == [] then 0
    else
      var front, s := own[..|own| - 1], own[|own| - 1];
      Total(front, d) +
      if Latest(front).timestamp != 0 then Delta(Octets(s, d), Octets(front[|front| - 1], d)) else 0
  }

  lemma {:induction false} ReportedIsTotal(log: seq<CntrSample>, i: Interface, d: Direction)
    ensures Reported(RowsAfter(map[], log), i, d) == Total(Own(log, i), d)
  {
    if log != [] {
      var front, s := log[..|log| - 1], log[|log| - 1];
      var own := Own(front, i);
      ReportedIsTotal(front, i, d);
      TableIsLatest(front, i);
      var rows := RowsAfter(map[], log);
      assert rows[..|rows| - 1] == RowsAfter(map[], front);
      if InterfaceOf(s) == i {
        assert (own + [s])[..|own|] == own;
      } else {
        assert Own(log, i) == own;
      }
    }
  }

  /** The sum of the counters that came while the stored time was 0: no row was known then. */
  function Restarted(own: seq<CntrSample>, d: Direction): nat {
    if own == [] then 0
    else
      var front, s := own[..|own| - 1], own[|own| - 1];
      Restarted(front, d) +
      if Latest(front).timestamp != 0 then 0
      else if front == [] then Octets(s, d)
      else Delta(Octets(s, d), Octets(front[|front| - 1], d))
  }

  lemma {:induction false} TotalModulo(own: seq<CntrSample>, d: Direction)
    requires own != []
    ensures Total(own, d) % TWO_64 == (Octets(own[|own| - 1], d) - Restarted(own, d)) % TWO_64
  {
    var front, s := own[..|own| - 1], own[|own| - 1];
    if front != [] {
      TotalModulo(front, d);
      DeltaStep(Total(front, d), Restarted(front, d), Octets(front[|front| - 1], d), Octets(s, d));
    }
  }

  lemma DeltaStep(total: nat, restarted: nat, previous: uint64, next: uint64)
    requires total % TWO_64 == (previous - restarted) % TWO_64
    ensures (total + Delta(next, previous)) % TWO_64 == (next - restarted) % TWO_64
    ensures total % TWO_64 == (next - (restarted + Delta(next, previous))) % TWO_64
  {
    var q := total / TWO_64 - (previous - restarted) / TWO_64;
    assert total == previous - restarted + q * TWO_64;
    var difference: int := next - previous;
    var r := difference / TWO_64;
    assert Delta(next, previous) == difference - r * TWO_64;
    assert total + Delta(next, previous) == next - restarted + (q - r) * TWO_64;
    assert total == next - (restarted + Delta(next, previous)) + (q - r) * TWO_64;
  }

  /** Over any run the reported increments add up to the last counter less what arrived while
      no earlier sample was known, modulo the width of the counters. */
  lemma Telescopes(log: seq<CntrSample>, i: Interface, d: Direction)
    requires Own(log, i) != []
    ensures var own := Own(log, i);
            Reported(RowsAfter(map[], log), i, d) % TWO_64 == (Octets(own[|own| - 1], d) - Restarted(own, d)) % TWO_64
  {
    ReportedIsTotal(log, i, d);
    TotalModulo(Own(log, i), d);
  }

  /** No sample but the last has a time that is 0 in 32 bits. */
  predicate Timed(own: seq<CntrSample>) {
    forall n :: 0 <= n < |own| - 1 ==> own[n].timestamp % TWO_32 != 0
  }

  lemma {:induction false} RestartedOnce(own: seq<CntrSample>, d: Direction)
    requires own != [] && Timed(own)
    ensures Restarted(own, d) == Octets(own[0], d)
  {
    if |own| > 1 {
      RestartedOnce(own[..|own| - 1], d);
    }
  }

  /** With real times that is last minus first, across any number of files and counter wraps. */
  lemma TelescopesToLastMinusFirst(log: seq<CntrSample>, i: Interface, d: Direction)
    requires Own(log, i) != [] && Timed(Own(log, i))
    ensures var own := Own(log, i);
            Reported(RowsAfter(map[], log), i, d) % TWO_64 == (Octets(own[|own| - 1], d) - Octets(own[0], d)) % TWO_64
  {
    Telescopes(log, i, d);
    RestartedOnce(Own(log, i), d);
  }

  // ----- true increments -----

  /** An increment is exact, even across a wrap of the counter, just if it is below 2^64. */
  lemma DeltaIsTrueIff(previous: nat, next: nat)
    requires previous <= next
    ensures Delta(next % TWO_64, previous % TWO_64) == next - previous <==> next - previous < TWO_64
  {
    var p, n := previous / TWO_64, next / TWO_64;
    assert next - previous == (n - p) * TWO_64 + (next % TWO_64 - previous % TWO_64);
  }

  /** The octets that an interface really moved at each of its samples. */
  ghost predicate Counts(own: seq<CntrSample>, d: Direction, truth: seq<nat>) {
    && |truth| == |own|
    && (forall n :: 0 <= n < |own| ==> Octets(own[n], d) == truth[n] % TWO_64)
    && (forall m, n :: 0 <= m && n == m + 1 && n < |own| ==> truth[m] <= truth[n] < truth[m] + TWO_64)
  }

  lemma {:induction false} TotalIsTrue(own: seq<CntrSample>, d: Direction, truth: seq<nat>)
    requires own != [] && Timed(own) && Counts(own, d, truth)
    ensures truth[0] + Total(own, d) == truth[|own| - 1]
  {
    var last := |own| - 1;
    if last > 0 {
      TotalIsTrue(own[..last], d, truth[..last]);
      DeltaIsTrueIff(truth[last - 1], truth[last]);
    }
  }

  /** The report accounts for every octet of an interface from its first sample to its last. */
  lemma ReportIsTrue(log: seq<CntrSample>, i: Interface, d: Direction, truth: seq<nat>)
    requires Own(log, i) != [] && Timed(Own(log, i)) && Counts(Own(log, i), d, truth)
    ensures truth[0] + Reported(RowsAfter(map[], log), i, d) == truth[|truth| - 1]
  {
    ReportedIsTotal(log, i, d);
    TotalIsTrue(Own(log, i), d, truth);
  }
}
