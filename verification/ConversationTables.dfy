/**
 The hash tables of conversations, updated in place.  A table is an array of buckets, a
 bucket a chain of conversations that starts with the newest.  Every table refines the map
 of module Conversations.
 */
module ConversationTables {
  import opened Chains
  import opened Samples
  import opened Packets
  import opened Conversations

  const HASH_RANGE: int := 50000

  newtype int32 = x: int | -0x8000_0000 <= x < 0x8000_0000

  predicate KeyOk(k: Key) {
    k.EthernetKey? ==> |k.macSrc| == 6 && |k.macDst| == 6
  }

  /** The sum of the first `n` bytes of two hardware addresses. */
  function BytesSum(a: seq<uint8>, b: seq<uint8>, n: nat): nat
    requires n <= |a| && n <= |b|
    ensures BytesSum(a, b, n) <= 2 * 255 * n
  {
    if n == 0 then 0 else BytesSum(a, b, n - 1) + a[n - 1] + b[n - 1]
  }

  /** The bucket of a key. */
  function HashOf(k: Key): (h: nat)
    requires KeyOk(k)
    ensures h < HASH_RANGE
  {
    var interfaces: int := k.inputIf % HASH_RANGE + k.outputIf % HASH_RANGE;
    match k
    case EthernetKey(_, _, a, b) => (interfaces + BytesSum(a, b, 6)) % HASH_RANGE
    case IpKey(_, _, src, dst) => (interfaces + src % HASH_RANGE + dst % HASH_RANGE) % HASH_RANGE
    case TcpKey(_, _, src, dst, sport, dport) =>
      (interfaces + src % HASH_RANGE + dst % HASH_RANGE + sport % HASH_RANGE + dport % HASH_RANGE) % HASH_RANGE
    case UdpKey(_, _, src, dst, sport, dport) =>
      (interfaces + src % HASH_RANGE + dst % HASH_RANGE + sport % HASH_RANGE + dport % HASH_RANGE) % HASH_RANGE
  }

  /** The hash functions, in 32-bit signed arithmetic: no intermediate sum overflows. */
  method HashKey(k: Key) returns (h: int32)
    requires KeyOk(k)
    ensures h as int == HashOf(k) && 0 <= h < 50000
  {
    var result: int32 := 0;
    result := result + (k.inputIf % HASH_RANGE) as int32;
    result := result + (k.outputIf % HASH_RANGE) as int32;
    match k {
      case EthernetKey(_, _, a, b) =>
        ghost var before := result as int;
        for i := 0 to 6
          invariant result as int == before + BytesSum(a, b, i)
          invariant before < 100000
        {
          result := result + (a[i] % HASH_RANGE) as int32;
          result := result + (b[i] % HASH_RANGE) as int32;
        }
      case IpKey(_, _, src, dst) =>
        result := result + (src % HASH_RANGE) as int32;
        result := result + (dst % HASH_RANGE) as int32;
      case TcpKey(_, _, src, dst, sport, dport) =>
        result := result + (src % HASH_RANGE) as int32;
        result := result + (dst % HASH_RANGE) as int32;
        result := result + (sport % HASH_RANGE) as int32;
        result := result + (dport % HASH_RANGE) as int32;
      case UdpKey(_, _, src, dst, sport, dport) =>
        result := result + (src % HASH_RANGE) as int32;
        result := result + (dst % HASH_RANGE) as int32;
        result := result + (sport % HASH_RANGE) as int32;
        result := result + (dport % HASH_RANGE) as int32;
    }
    h := result % 50000;
  }

  type ConvNode = Node<Key, Conv>

  /** `conv_list_t`: a bucket that is in use counts its nodes. */
  datatype Bucket = NoList | ConvList(num: nat, data: Node?<Key, Conv>)

  /** A bucket's chain is sound, holds keys of the bucket, and is counted. */
  ghost predicate BucketOk(bucket: Bucket, h: nat, chain: seq<ConvNode>, nodes: map<Key, ConvNode>)
    reads nodes.Values`next
  {
    && ChainOk(if bucket.NoList? then null else bucket.data, chain, nodes)
    && (forall n :: 0 <= n < |chain| ==> KeyOk(chain[n].key) && HashOf(chain[n].key) == h)
    && (bucket.ConvList? ==> bucket.num == |chain|)
  }

  lemma PrependedInBucket(h: nat, e: ConvNode, chain: seq<ConvNode>)
    requires KeyOk(e.key) && HashOf(e.key) == h
    requires forall n :: 0 <= n < |chain| ==> KeyOk(chain[n].key) && HashOf(chain[n].key) == h
    ensures forall n :: 0 <= n < |[e] + chain| ==> KeyOk(([e] + chain)[n].key) && HashOf(([e] + chain)[n].key) == h
  {
    hide HashOf;
    assert forall n :: 0 <= n < |[e] + chain| ==> ([e] + chain)[n] == if n == 0 then e else chain[n - 1];
  }

  class ConvTable {
    const layer: Layer
    const buckets: array<Bucket>
    ghost var chains: seq<seq<ConvNode>>
    ghost var nodes: map<Key, ConvNode>

    /** Exactly one node per key, in the bucket of its hash. */
    ghost predicate Valid()
      reads this, buckets, nodes.Values`next
    {
      && buckets.Length == HASH_RANGE && |chains| == HASH_RANGE
      && (forall h :: 0 <= h < HASH_RANGE ==> BucketOk(buckets[h], h, chains[h], nodes))
      && (forall k <- nodes :: nodes[k].key == k && KeyOk(k) && nodes[k] in chains[HashOf(k)])
    }

    /** The map that the table stands for. */
    ghost function Contents(): map<Key, Conv>
      reads this`nodes, nodes.Values`value
    {
      map k <- nodes :: nodes[k].value
    }

    constructor (layer: Layer)
      ensures Valid() && fresh(buckets) && this.layer == layer && nodes == map[] && Contents() == map[]
    {
      this.layer := layer;
      buckets := new Bucket[HASH_RANGE](_ => NoList);
      chains := seq(HASH_RANGE, _ => []);
      nodes := map[];
    }

    /** The start of a bucket's chain. */
    function First(h: nat): Node?<Key, Conv>
      requires h < buckets.Length
      reads buckets
    {
      if buckets[h].NoList? then null else buckets[h].data
    }

    /** What a search relies on: the chain of a key is linked, and its node is there or nowhere. */
    lemma ChainOf(key: Key)
      requires Valid() && KeyOk(key)
      ensures buckets.Length == |chains| == HASH_RANGE
      ensures var h := HashOf(key);
              && Linked(First(h), chains[h])
              && (buckets[h].ConvList? ==> buckets[h].num == |chains[h]|) && (buckets[h].NoList? ==> chains[h] == [])
              && (chains[h] == [] ==> First(h) == null)
              && (forall e <- chains[h] :: e.key in nodes && nodes[e.key] == e)
              && (key in nodes ==> nodes[key].key == key && nodes[key] in chains[h])
    {
      hide HashOf;
      var h := HashOf(key);
      assert BucketOk(buckets[h], h, chains[h], nodes);
    }

    lemma InstallOk(h: nat, num: nat, e: ConvNode)
      requires Valid() && KeyOk(e.key) && h == HashOf(e.key) && e.key !in nodes
      requires num == |chains[h]| + 1 && e.next == First(h)
      ensures forall b :: 0 <= b < HASH_RANGE && b != h ==> BucketOk(buckets[b], b, chains[b], nodes[e.key := e])
      ensures BucketOk(ConvList(num, e), h, [e] + chains[h], nodes[e.key := e])
    {
      hide ChainOk, HashOf, KeyOk;
      forall b | 0 <= b < HASH_RANGE ensures BucketOk(buckets[b], b, chains[b], nodes[e.key := e]) {
        assert BucketOk(buckets[b], b, chains[b], nodes);
        ExtendedOk(e, First(b), chains[b], nodes);
      }
      assert BucketOk(buckets[h], h, chains[h], nodes);
      PrependedOk(e, First(h), chains[h], nodes);
      PrependedInBucket(h, e, chains[h]);
    }

    /** Puts a new node in front of its chain. */
    method Install(h: nat, num: nat, e: ConvNode)
      requires Valid() && KeyOk(e.key) && h == HashOf(e.key) && e.key !in nodes
      requires num == |chains[h]| + 1 && e.next == First(h)
      modifies this`chains, this`nodes, buckets
      ensures Valid() && nodes == old(nodes)[e.key := e]
      ensures Contents() == old(Contents())[e.key := e.value]
    {
      hide BucketOk, HashOf, KeyOk;
      InstallOk(h, num, e);
      buckets[h] := ConvList(num, e);
      chains := chains[h := [e] + chains[h]];
      nodes := nodes[e.key := e];
    }

    /** Finds the node of a key, or puts a new one with zero counters in front of its chain. */
    method FindOrCreate(key: Key) returns (e: ConvNode)
      requires Valid() && KeyOk(key)
      modifies this`chains, this`nodes, buckets
      ensures Valid() && key in nodes && nodes[key] == e && e.key == key
      ensures if key in old(nodes) then nodes == old(nodes) else nodes == old(nodes)[key := e] && fresh(e)
      ensures e.value == if key in old(Contents()) then old(Contents())[key] else Zero(layer)
      ensures Contents() == old(Contents())[key := e.value]
    {
      hide Linked, Valid, KeyOk, HashOf, Zero;
      var hash := HashKey(key);
      var h := hash as int;
      ChainOf(key);
      var list := if buckets[h].NoList? then ConvList(0, null) else buckets[h];
      var ptr := Search(list.data, chains[h], key);
      if ptr == null {
        e := new Node(key, Zero(layer));
        if list.num != 0 {
          e.next := list.data;
        }
        Install(h, list.num + 1, e);
      } else {
        e := ptr;
      }
    }

    /** Updates a conversation of the table. */
    method Count(e: ConvNode, s: FlowSample)
      requires Valid() && e.key in nodes && nodes[e.key] == e && Conversations.Fits(layer, e.value)
      modifies e`value
      ensures Valid() && Contents() == old(Contents())[e.key := Update(layer, old(e.value), s)]
    {
      hide BucketOk, Update;
      assert forall k <- nodes :: k != e.key ==> nodes[k] != e;
      e.value := Update(layer, e.value, s);
    }

    /** Finds or creates the conversation of a key and counts the sample in it. */
    method Add(key: Key, s: FlowSample)
      requires Valid() && KeyOk(key) && TableOk(layer, Contents())
      modifies this`chains, this`nodes, buckets, nodes.Values
      ensures Valid() && fresh(nodes.Values - old(nodes.Values))
      ensures Contents() == AddTo(layer, old(Contents()), key, s)
    {
      hide Valid, Contents, KeyOk, Update, Zero;
      ZeroReads(layer, Frames);
      var e := FindOrCreate(key);
      Count(e, s);
    }
  }

  lemma KeysOk(s: FlowSample)
    ensures KeyOk(KeyEthernet(s)) && KeyOk(KeyIp(s)) && KeyOk(KeyTcp(s)) && KeyOk(KeyUdp(s))
  {
  }

  /** The four tables that one segment of flow samples is counted in. */
  class Aggregator {
    const ethernet: ConvTable
    const ip: ConvTable
    const tcp: ConvTable
    const udp: ConvTable

    function TableOf(layer: Layer): ConvTable {
      match layer
      case Ethernet => ethernet
      case Ip => ip
      case Tcp => tcp
      case Udp => udp
    }

    ghost function Tables(): set<ConvTable> {
      {ethernet, ip, tcp, udp}
    }

    /** The nodes of all tables. */
    ghost function Nodes(): set<ConvNode>
      reads Tables()`nodes
    {
      ethernet.nodes.Values + ip.nodes.Values + tcp.nodes.Values + udp.nodes.Values
    }

    ghost predicate Apart(l: Layer, m: Layer)
      reads Tables()`nodes
    {
      && TableOf(l) != TableOf(m) && TableOf(l).buckets != TableOf(m).buckets
      && TableOf(l).nodes.Values !! TableOf(m).nodes.Values
    }

    /** Each table is valid, and no two of them share anything. */
    ghost predicate Valid()
      reads Tables(), set t <- Tables() :: t.buckets
      reads Nodes()`next
    {
      && (forall l :: TableOf(l).Valid() && TableOf(l).layer == l)
      && (forall l, m :: l != m ==> Apart(l, m))
    }

    /** The tables agree with the maps of module Conversations for these samples. */
    ghost predicate Counted(xs: seq<FlowSample>)
      reads Tables()`nodes, Nodes()`value
    {
      forall l :: TableOf(l).Contents() == Table(l, xs)
    }

    /** The four empty tables. */
    constructor (ethernet: ConvTable, ip: ConvTable, tcp: ConvTable, udp: ConvTable)
      requires ethernet.Valid() && ip.Valid() && tcp.Valid() && udp.Valid()
      requires ethernet.layer == Ethernet && ip.layer == Ip && tcp.layer == Tcp && udp.layer == Udp
      requires ethernet.nodes == ip.nodes == tcp.nodes == udp.nodes == map[]
      requires {ethernet.buckets} !! {ip.buckets} !! {tcp.buckets} !! {udp.buckets}
      ensures Valid() && Counted([])
      ensures this.ethernet == ethernet && this.ip == ip && this.tcp == tcp && this.udp == udp
    {
      hide ConvTable.Valid;
      this.ethernet, this.ip, this.tcp, this.udp := ethernet, ip, tcp, udp;
    }

    /** Counts a sample in one table. */
    method ConvListAdd(layer: Layer, key: Key, s: FlowSample)
      requires Valid() && KeyOk(key) && TableOk(layer, TableOf(layer).Contents())
      modifies TableOf(layer)`chains, TableOf(layer)`nodes, TableOf(layer).buckets, TableOf(layer).nodes.Values
      ensures Valid() && fresh(Nodes() - old(Nodes()))
      ensures forall l :: TableOf(l).Contents() ==
                          if l == layer then AddTo(layer, old(TableOf(layer).Contents()), key, s)
                          else old(TableOf(l).Contents())
    {
      hide ConvTable.Valid, ConvTable.Contents, AddTo;
      var table := TableOf(layer);
      table.Add(key, s);
      forall l | l != layer
        ensures TableOf(l).Valid() && TableOf(l).Contents() == old(TableOf(l).Contents())
        ensures Apart(l, layer) && Apart(layer, l)
      {
        assert old(Apart(l, layer)) && old(TableOf(l).Valid());
      }
      forall l, m | l != m ensures Apart(l, m) {
        assert old(Apart(l, m));
      }
    }

    /** The sample `s` that follows `xs` is counted in the tables of these layers. */
    ghost predicate CountedIn(layers: set<Layer>, xs: seq<FlowSample>, s: FlowSample)
      reads Tables()`nodes, Nodes()`value
    {
      forall l :: TableOf(l).Contents() == if l in layers then Add(l, Table(l, xs), s) else Table(l, xs)
    }

    lemma AllCounted(layers: set<Layer>, xs: seq<FlowSample>, s: FlowSample)
      requires CountedIn(layers, xs, s) && forall l :: KeyAt(l, s).Some? ==> l in layers
      ensures Counted(xs + [s])
    {
      hide ConvTable.Contents, KeyAt;
      assert (xs + [s])[..|xs|] == xs;
    }

    method CountAt(layer: Layer, key: Key, s: FlowSample, ghost layers: set<Layer>, ghost xs: seq<FlowSample>)
      requires Valid() && CountedIn(layers, xs, s) && layer !in layers
      requires KeyAt(layer, s) == Some(key) && KeyOk(key)
      modifies Tables()`chains, Tables()`nodes, (set t <- Tables() :: t.buckets), Nodes()
      ensures Valid() && CountedIn(layers + {layer}, xs, s)
      ensures forall o <- Nodes() :: o in old(Nodes()) || fresh(o)
    {
      hide Valid, ConvTable.Contents, AddTo, KeyOk, KeyAt;
      ConvListAdd(layer, key, s);
    }

    /** Counts one sample at every layer that it reaches. */
    method ProcessSample(s: FlowSample, ghost xs: seq<FlowSample>)
      requires Valid() && Counted(xs)
      modifies Tables()`chains, Tables()`nodes, (set t <- Tables() :: t.buckets), Nodes()
      ensures Valid() && Counted(xs + [s])
      ensures forall o <- Nodes() :: o in old(Nodes()) || fresh(o)
    {
      hide Valid, CountedIn, Nodes, Tables, KeyOk;
      KeysOk(s);
      NoneCounted(xs, s);
      ghost var layers: set<Layer> := {};
      CountAt(Ethernet, KeyEthernet(s), s, layers, xs);
      layers := layers + {Ethernet};
      if IsIp(s.rawHeader) {
        CountAt(Ip, KeyIp(s), s, layers, xs);
        layers := layers + {Ip};
        if IsTcp(s.rawHeader) {
          CountAt(Tcp, KeyTcp(s), s, layers, xs);
          layers := layers + {Tcp};
        } else if IsUdp(s.rawHeader) {
          CountAt(Udp, KeyUdp(s), s, layers, xs);
          layers := layers + {Udp};
        }
      }
      AllCounted(layers, xs, s);
    }

    lemma NoneCounted(xs: seq<FlowSample>, s: FlowSample)
      requires Counted(xs)
      ensures CountedIn({}, xs, s)
    {
      hide ConvTable.Contents;
    }

    /** Counts one segment file, from empty tables. */
    method ProcessFile(xs: seq<FlowSample>)
      requires Valid() && Counted([])
      modifies Tables()`chains, Tables()`nodes, (set t <- Tables() :: t.buckets), Nodes()
      ensures Valid() && Counted(xs)
    {
      hide Valid, Counted, Nodes, Tables;
      for i := 0 to |xs|
        invariant Valid() && Counted(xs[..i])
        invariant forall o <- Nodes() :: o in old(Nodes()) || fresh(o)
      {
        ProcessSample(xs[i], xs[..i]);
        assert xs[..i] + [xs[i]] == xs[..i + 1];
      }
      assert xs[..|xs|] == xs;
    }
  }
}
