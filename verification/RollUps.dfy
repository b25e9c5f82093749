/** How the four conversation tables agree with each other. */
module RollUps {
  import opened Samples
  import opened Packets
  import opened Conversations

  // ----- sums over sets -----

  ghost function SetSum<K>(s: set<K>, f: K -> nat): nat {
    if s == {} then 0
    else
      var k :| k in s;
      f(k) + SetSum(s - {k}, f)
  }

  lemma {:induction false} SetSumPick<K>(s: set<K>, f: K -> nat, k: K)
    requires k in s
    ensures SetSum(s, f) == f(k) + SetSum(s - {k}, f)
    decreases s
  {
    var j :| j in s && SetSum(s, f) == f(j) + SetSum(s - {j}, f);
    if j != k {
      SetSumPick(s - {j}, f, k);
      SetSumPick(s - {k}, f, j);
      assert s - {j} - {k} == s - {k} - {j};
    }
  }

  lemma {:induction false} SetSumSame<K>(s: set<K>, f: K -> nat, g: K -> nat)
    requires forall k <- s :: f(k) == g(k)
    ensures SetSum(s, f) == SetSum(s, g)
    decreases s
  {
    if s != {} {
      var k :| k in s;
      SetSumPick(s, f, k);
      SetSumPick(s, g, k);
      SetSumSame(s - {k}, f, g);
    }
  }

  lemma {:induction false} SetSumMod<K>(s: set<K>, f: K -> nat, g: K -> nat)
    requires forall k <- s :: f(k) == g(k) % TWO_32
    ensures SetSum(s, f) % TWO_32 == SetSum(s, g) % TWO_32
    decreases s
  {
    if s != {} {
      var k :| k in s;
      SetSumPick(s, f, k);
      SetSumPick(s, g, k);
      SetSumMod(s - {k}, f, g);
      AddMod(SetSum(s - {k}, f), SetSum(s - {k}, g), g(k));
    }
  }

  lemma AddMod(a: nat, b: nat, c: nat)
    requires a % TWO_32 == b % TWO_32
    ensures (c % TWO_32 + a) % TWO_32 == (c + b) % TWO_32
  {
  }

  /** Raising one summand, which may be a new one, raises the sum. */
  lemma SetSumExtend<K>(s: set<K>, f: K -> nat, g: K -> nat, k: K, d: nat)
    requires k !in s ==> f(k) == 0
    requires g(k) == f(k) + d && (forall j <- s :: j != k ==> g(j) == f(j))
    ensures SetSum(s + {k}, g) == SetSum(s, f) + d
  {
    SetSumPick(s + {k}, g, k);
    assert s + {k} - {k} == s - {k};
    SetSumSame(s - {k}, f, g);
    if k in s {
      SetSumPick(s, f, k);
    } else {
      assert s - {k} == s;
    }
  }

  // ----- a table adds up to its samples -----

  function Keys(layer: Layer, xs: seq<FlowSample>, p: Key -> bool): set<Key> {
    set k <- Table(layer, xs) | p(k)
  }

  function TotalOf(layer: Layer, xs: seq<FlowSample>, c: Counter): Key -> nat {
    (k: Key) => Total(layer, xs, Is(k), c)
  }

  lemma {:induction false} TotalOfAbsent(layer: Layer, xs: seq<FlowSample>, k: Key, c: Counter)
    requires k !in Table(layer, xs)
    ensures Total(layer, xs, Is(k), c) == 0
  {
    if xs != [] {
      TotalOfAbsent(layer, xs[..|xs| - 1], k, c);
    }
  }

  lemma TotalOfNext(layer: Layer, front: seq<FlowSample>, s: FlowSample, c: Counter, k: Key)
    ensures TotalOf(layer, front + [s], c)(k)
            == TotalOf(layer, front, c)(k) + if KeyAt(layer, s) == Some(k) then Share(s, c) else 0
  {
    assert (front + [s])[..|front|] == front;
    ShareOfIs(layer, s, k, c);
  }

  /** One more sample raises the sum by its share, if its conversation satisfies `p`. */
  lemma TotalsAddOne(layer: Layer, front: seq<FlowSample>, s: FlowSample, p: Key -> bool, c: Counter)
    ensures SetSum(Keys(layer, front + [s], p), TotalOf(layer, front + [s], c))
            == SetSum(Keys(layer, front, p), TotalOf(layer, front, c)) + ShareOf(layer, s, p, c)
  {
    hide Table;
    hide TotalOf;
    hide KeyAt;
    hide Share;
    var f, g, keys := TotalOf(layer, front, c), TotalOf(layer, front + [s], c), Keys(layer, front, p);
    forall k ensures g(k) == f(k) + if KeyAt(layer, s) == Some(k) then Share(s, c) else 0 {
      TotalOfNext(layer, front, s, c, k);
    }
    if KeyAt(layer, s).Some? && p(KeyAt(layer, s).value) {
      var k := KeyAt(layer, s).value;
      NewKey(layer, front, s, p);
      if k !in keys {
        NoTotalYet(layer, front, k, c);
      }
      SetSumExtend(keys, f, g, k, Share(s, c));
    } else {
      NoNewKey(layer, front, s, p);
      assert forall k <- keys :: p(k);
      SetSumSame(keys, f, g);
    }
  }

  lemma NoTotalYet(layer: Layer, xs: seq<FlowSample>, k: Key, c: Counter)
    requires k !in Table(layer, xs)
    ensures TotalOf(layer, xs, c)(k) == 0
  {
    TotalOfAbsent(layer, xs, k, c);
  }

  /** The totals of the conversations that satisfy `p` add up to the total over all samples
      whose conversation satisfies `p`. */
  lemma {:induction false} TotalsAddUp(layer: Layer, xs: seq<FlowSample>, p: Key -> bool, c: Counter)
    ensures SetSum(Keys(layer, xs, p), TotalOf(layer, xs, c)) == Total(layer, xs, p, c)
  {
    if xs == [] {
      assert Keys(layer, xs, p) == {};
    } else {
      var front, s := xs[..|xs| - 1], xs[|xs| - 1];
      assert front + [s] == xs;
      TotalsAddUp(layer, front, p, c);
      TotalsAddOne(layer, front, s, p, c);
    }
  }

  lemma NewKey(layer: Layer, front: seq<FlowSample>, s: FlowSample, p: Key -> bool)
    requires KeyAt(layer, s).Some? && p(KeyAt(layer, s).value)
    ensures Keys(layer, front + [s], p) == Keys(layer, front, p) + {KeyAt(layer, s).value}
  {
    assert (front + [s])[..|front|] == front;
  }

  lemma NoNewKey(layer: Layer, front: seq<FlowSample>, s: FlowSample, p: Key -> bool)
    requires KeyAt(layer, s).None? || !p(KeyAt(layer, s).value)
    ensures Keys(layer, front + [s], p) == Keys(layer, front, p)
  {
    assert (front + [s])[..|front|] == front;
  }

  /** The value of a counter in a table, per conversation. */
  function ValueOf(layer: Layer, xs: seq<FlowSample>, c: Counter): Key -> nat
    requires CountsAt(layer, c)
  {
    (k: Key) => ValueAt(layer, Table(layer, xs), k, c)
  }

  /** The sum of a counter over the conversations of a table that satisfy `p`. */
  ghost function ColumnSum(layer: Layer, xs: seq<FlowSample>, p: Key -> bool, c: Counter): nat
    requires CountsAt(layer, c)
  {
    SetSum(Keys(layer, xs, p), ValueOf(layer, xs, c))
  }

  lemma ColumnIsTotal(layer: Layer, xs: seq<FlowSample>, p: Key -> bool, c: Counter)
    requires CountsAt(layer, c)
    ensures ColumnSum(layer, xs, p, c) % TWO_32 == Total(layer, xs, p, c) % TWO_32
  {
    TotalsAddUp(layer, xs, p, c);
    forall k <- Keys(layer, xs, p)
      ensures ValueOf(layer, xs, c)(k) == TotalOf(layer, xs, c)(k) % TWO_32
    {
      TableCounts(layer, xs, k, c);
    }
    SetSumMod(Keys(layer, xs, p), ValueOf(layer, xs, c), TotalOf(layer, xs, c));
  }

  // ----- roll-ups between layers -----

  /** The transport conversations below one IP conversation. */
  function Below(k: Key): Key -> bool {
    (t: Key) => !t.EthernetKey? && k.IpKey? && IpKey(t.inputIf, t.outputIf, t.src, t.dst) == k
  }

  function Any(): Key -> bool {
    (k: Key) => true
  }

  lemma {:induction false} TransportTotals(layer: Layer, xs: seq<FlowSample>, k: Key)
    requires layer.Tcp? || layer.Udp?
    ensures Total(layer, xs, Below(k), Frames)
            == Total(Ip, xs, Is(k), Protocol(if layer.Tcp? then PROTOCOL_TCP else PROTOCOL_UDP))
  {
    if xs != [] {
      TransportTotals(layer, xs[..|xs| - 1], k);
    }
  }

  /** `protocol[6]` of an IP conversation is the number of frames of all TCP conversations
      between the same interfaces and addresses, and `protocol[17]` that of the UDP ones; where
      there is no such IP conversation there is no transport frame either. */
  lemma TransportRollUp(xs: seq<FlowSample>, k: Key)
    ensures ColumnSum(Tcp, xs, Below(k), Frames) % TWO_32
            == ValueAt(Ip, Table(Ip, xs), k, Protocol(PROTOCOL_TCP))
    ensures ColumnSum(Udp, xs, Below(k), Frames) % TWO_32
            == ValueAt(Ip, Table(Ip, xs), k, Protocol(PROTOCOL_UDP))
  {
    ColumnIsTotal(Tcp, xs, Below(k), Frames);
    ColumnIsTotal(Udp, xs, Below(k), Frames);
    TransportTotals(Tcp, xs, k);
    TransportTotals(Udp, xs, k);
    TableCounts(Ip, xs, k, Protocol(PROTOCOL_TCP));
    TableCounts(Ip, xs, k, Protocol(PROTOCOL_UDP));
  }

  lemma {:induction false} IpTotals(xs: seq<FlowSample>)
    ensures Total(Ethernet, xs, Any(), TypeIp) == Total(Ip, xs, Any(), Frames) == IpSamples(xs)
    ensures Total(Ethernet, xs, Any(), Frames) == |xs|
  {
    if xs != [] {
      IpTotals(xs[..|xs| - 1]);
    }
  }

  /** The number of samples that carry IP, with or without one VLAN tag. */
  function IpSamples(xs: seq<FlowSample>): nat {
    if xs == [] then 0 else IpSamples(xs[..|xs| - 1]) + One(IsIp(xs[|xs| - 1].rawHeader))
  }

  /** The Ethernet and the IP table count the same IP samples, and the Ethernet table counts
      every sample. */
  lemma LayersAgree(xs: seq<FlowSample>)
    ensures ColumnSum(Ethernet, xs, Any(), TypeIp) % TWO_32
            == ColumnSum(Ip, xs, Any(), Frames) % TWO_32
            == IpSamples(xs) % TWO_32
    ensures ColumnSum(Ethernet, xs, Any(), Frames) % TWO_32 == |xs| % TWO_32
  {
    ColumnIsTotal(Ethernet, xs, Any(), TypeIp);
    ColumnIsTotal(Ip, xs, Any(), Frames);
    ColumnIsTotal(Ethernet, xs, Any(), Frames);
    IpTotals(xs);
  }

  // ----- histograms -----

  function SeqSum(s: seq<uint32>): nat {
    if s == [] then 0 else SeqSum(s[..|s| - 1]) + s[|s| - 1]
  }

  lemma {:induction false} SeqSumRaise(s: seq<uint32>, i: nat)
    requires i < |s|
    ensures SeqSum(s[i := Plus(s[i], 1)]) % TWO_32 == (SeqSum(s) + 1) % TWO_32
  {
    var t, front := s[i := Plus(s[i], 1)], s[..|s| - 1];
    if i < |front| {
      SeqSumRaise(front, i);
      assert t[..|s| - 1] == front[i := Plus(s[i], 1)];
      AddMod(SeqSum(t[..|s| - 1]), SeqSum(front) + 1, s[|s| - 1]);
      Small(s[|s| - 1]);
    } else {
      assert t[..|s| - 1] == front;
      var x: int := s[i];
      AddMod(SeqSum(front), SeqSum(front), x + 1);
    }
  }

  lemma {:induction false} SeqSumZero(n: nat)
    ensures SeqSum(seq(n, _ => 0)) == 0
  {
    if n > 0 {
      assert seq(n, _ => 0 as uint32)[..n - 1] == seq(n - 1, _ => 0);
      SeqSumZero(n - 1);
    }
  }

  predicate HistogramsMatch(c: Conv)
    requires Conversations.Fits(Ip, c)
  {
    SeqSum(c.protocol) % TWO_32 == SeqSum(c.version) % TWO_32 == c.frames
  }

  lemma UpdateKeepsHistograms(c: Conv, s: FlowSample)
    requires Conversations.Fits(Ip, c) && HistogramsMatch(c)
    ensures HistogramsMatch(Update(Ip, c, s))
  {
    SeqSumRaise(c.version, IpVersion(s.rawHeader));
    SeqSumRaise(c.protocol, IpProtocol(s.rawHeader));
    AddMod(SeqSum(c.version), c.frames, 1);
    AddMod(SeqSum(c.protocol), c.frames, 1);
  }

  /** The protocol and the version histogram of an IP conversation each add up to its
      number of frames. */
  lemma {:induction false} HistogramsAddUp(xs: seq<FlowSample>, k: Key)
    requires k in Table(Ip, xs)
    ensures HistogramsMatch(Table(Ip, xs)[k])
  {
    hide HistogramsMatch;
    hide Update;
    var front, s := xs[..|xs| - 1], xs[|xs| - 1];
    var t := Table(Ip, front);
    if k in t {
      HistogramsAddUp(front, k);
    } else {
      ZeroHistograms();
    }
    if KeyAt(Ip, s) == Some(k) {
      UpdateKeepsHistograms(if k in t then t[k] else Zero(Ip), s);
    }
  }

  lemma ZeroHistograms()
    ensures HistogramsMatch(Zero(Ip))
  {
    SeqSumZero(16);
    SeqSumZero(256);
  }
}
