/**
 What an agent's drop counter says after any run of its datagrams.
 */
module Accounting {
  import opened Samples
  import opened Decoder

  /** The part of a datagram that its agent's counters see. */
  datatype Arrival = Arrival(sequence: uint32, uptime: uint32, now: nat)

  function Fresh(address: uint32): Agent {
    Agent(address, 0, 0, 0, 0, 0)
  }

  function AgentAfter(address: uint32, ds: seq<Arrival>): Agent {
    if ds == [] then Fresh(address)
    else
      var d := ds[|ds| - 1];
      Account(AgentAfter(address, ds[..|ds| - 1]), d.sequence, d.uptime, d.now)
  }

  function LastSequence(ds: seq<Arrival>): uint32 {
    if ds == [] then 0 else ds[|ds| - 1].sequence
  }

  /** The sum of the numbers that arrived while the stored number was 0: gaps up to these are
      not counted. */
  function Uncounted(ds: seq<Arrival>): nat {
    if ds == [] then 0
    else
      var front := ds[..|ds| - 1];
      Uncounted(front) + if LastSequence(front) == 0 then ds[|ds| - 1].sequence else 0
  }

  lemma GapStep(drops: uint64, stored: uint32, uncounted: nat, next: uint32)
    requires drops % TWO_32 == (stored - uncounted) % TWO_32
    ensures (drops + (next - stored) % TWO_32) % TWO_64 % TWO_32 == (next - uncounted) % TWO_32
    ensures stored == 0 ==> drops % TWO_32 == (next - (uncounted + next)) % TWO_32
  {
    var sum: int := drops + (next - stored) % TWO_32;
    assert sum % TWO_64 == sum - sum / TWO_64 * TWO_32 * TWO_32;
  }

  /** The agent shows its latest datagram. */
  lemma {:induction false} LastIsStored(address: uint32, ds: seq<Arrival>)
    ensures AgentAfter(address, ds).sequence == LastSequence(ds) && AgentAfter(address, ds).address == address
    ensures ds != [] ==> AgentAfter(address, ds).uptime == ds[|ds| - 1].uptime
    ensures ds != [] ==> AgentAfter(address, ds).lastSeen == ds[|ds| - 1].now
  {
    if ds != [] {
      LastIsStored(address, ds[..|ds| - 1]);
    }
  }

  /** Every datagram of the agent is counted. */
  lemma {:induction false} DatagramsCounted(address: uint32, ds: seq<Arrival>)
    requires |ds| < TWO_64
    ensures AgentAfter(address, ds).datagrams == |ds|
  {
    if ds != [] {
      DatagramsCounted(address, ds[..|ds| - 1]);
    }
  }

  lemma EmptyRun(address: uint32)
    ensures AgentAfter(address, []).drops == 0
  {
  }

  lemma DropsStep(address: uint32, ds: seq<Arrival>)
    requires ds != []
    ensures var front, next := ds[..|ds| - 1], ds[|ds| - 1].sequence;
            var drops, stored := AgentAfter(address, front).drops, LastSequence(front);
            AgentAfter(address, ds).drops == if stored != 0 then (drops + (next - stored) % TWO_32) % TWO_64 else drops
  {
    LastIsStored(address, ds[..|ds| - 1]);
  }

  /** The drop counter of any run, modulo the width of a sequence number. */
  lemma {:induction false} DropsExact(address: uint32, ds: seq<Arrival>)
    ensures AgentAfter(address, ds).drops % TWO_32 == (LastSequence(ds) - Uncounted(ds)) % TWO_32
  {
    hide AgentAfter;
    if ds != [] {
      var front, d := ds[..|ds| - 1], ds[|ds| - 1];
      DropsExact(address, front);
      DropsStep(address, ds);
      GapStep(AgentAfter(address, front).drops, LastSequence(front), Uncounted(front), d.sequence);
    } else {
      EmptyRun(address);
    }
  }

  /** Without a 0 before the last number, drops are last minus first. */
  lemma {:induction false} DropsTelescope(address: uint32, ds: seq<Arrival>)
    requires ds != [] && forall i :: 0 <= i < |ds| - 1 ==> ds[i].sequence != 0
    ensures AgentAfter(address, ds).drops % TWO_32 == (LastSequence(ds) - ds[0].sequence) % TWO_32
  {
    DropsExact(address, ds);
    UncountedFirst(ds);
  }

  lemma {:induction false} UncountedFirst(ds: seq<Arrival>)
    requires ds != [] && forall i :: 0 <= i < |ds| - 1 ==> ds[i].sequence != 0
    ensures Uncounted(ds) == ds[0].sequence
  {
    if |ds| > 1 {
      UncountedFirst(ds[..|ds| - 1]);
    }
  }

  // ----- runs with increasing numbers -----

  predicate Increasing(ds: seq<Arrival>) {
    forall i, j :: 0 <= i < j < |ds| ==> ds[i].sequence < ds[j].sequence
  }

  function Numbers(ds: seq<Arrival>): set<int> {
    if ds == [] then {} else Numbers(ds[..|ds| - 1]) + {ds[|ds| - 1].sequence as int}
  }

  function Range(low: int, high: int): (r: set<int>)
    ensures forall x :: x in r <==> low <= x <= high
    decreases high - low
  {
    if high < low then {} else Range(low, high - 1) + {high}
  }

  /** How many datagrams between the first and the last one never arrived. */
  function Missing(ds: seq<Arrival>): nat
    requires ds != []
  {
    |Range(ds[0].sequence, LastSequence(ds)) - Numbers(ds)|
  }

  lemma {:induction false} RangeSize(low: int, high: int)
    requires low <= high + 1
    ensures |Range(low, high)| == high + 1 - low
    decreases high - low
  {
    if low <= high {
      RangeSize(low, high - 1);
    }
  }

  lemma {:induction false} NumbersSize(ds: seq<Arrival>)
    requires Increasing(ds)
    ensures |Numbers(ds)| == |ds|
    ensures forall x <- Numbers(ds) :: ds != [] && ds[0].sequence <= x <= LastSequence(ds)
  {
    if |ds| > 1 {
      assert ds[|ds| - 2].sequence < ds[|ds| - 1].sequence;
    }
    if ds != [] {
      NumbersSize(ds[..|ds| - 1]);
    }
  }

  lemma MissingCount(ds: seq<Arrival>)
    requires ds != [] && Increasing(ds)
    ensures Missing(ds) == LastSequence(ds) - ds[0].sequence - (|ds| - 1)
  {
    NumbersSize(ds);
    RangeSize(ds[0].sequence, LastSequence(ds));
    var all, seen := Range(ds[0].sequence, LastSequence(ds)), Numbers(ds);
    assert all == (all - seen) + seen;
  }

  lemma {:induction false} DropsOfIncreasing(address: uint32, ds: seq<Arrival>)
    requires ds != [] && Increasing(ds)
    ensures AgentAfter(address, ds).drops ==
            if ds[0].sequence != 0 || |ds| == 1 then LastSequence(ds) - ds[0].sequence
            else LastSequence(ds) - ds[1].sequence
  {
    hide AgentAfter;
    var front := ds[..|ds| - 1];
    DropsStep(address, ds);
    EmptyRun(address);
    if |ds| > 1 {
      assert LastSequence(front) == ds[|ds| - 2].sequence < ds[|ds| - 1].sequence;
      DropsOfIncreasing(address, front);
    }
  }

  /** Over a run of increasing numbers the daemon's loss estimate, drops minus the datagrams after
      the first, is the number of missing datagrams exactly if the run does not continue from 0. */
  lemma LossEstimateIff(address: uint32, ds: seq<Arrival>)
    requires ds != [] && Increasing(ds)
    ensures var a := AgentAfter(address, ds);
            a.drops - (a.datagrams - 1) == Missing(ds) <==> ds[0].sequence != 0 || |ds| == 1
  {
    hide AgentAfter, Missing;
    DropsOfIncreasing(address, ds);
    MissingCount(ds);
    DatagramsCounted(address, ds);
  }
}
