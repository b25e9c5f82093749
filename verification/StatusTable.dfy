/**
 The counter report's hash table: an array of chains of linked entries, one chain per low
 24 bits of the agent address.  It refines the map of module CounterReports.
 */
module StatusTable {
  import opened Samples
  import opened Chains
  import opened CounterReports

  const HASH_SIZE: nat := 0x100_0000

  function HashOf(agent: uint32): (h: nat)
    ensures h < HASH_SIZE
  {
    agent % HASH_SIZE
  }

  type Entry = Node<Interface, Status>

  /** A chain is sound and holds entries of its bucket. */
  ghost predicate BucketOk(h: nat, first: Node?<Interface, Status>, chain: seq<Entry>, entries: map<Interface, Entry>)
    reads entries.Values`next
  {
    && ChainOk(first, chain, entries)
    && (forall n :: 0 <= n < |chain| ==> HashOf(chain[n].key.agent) == h)
  }

  lemma PrependedInBucket(h: nat, e: Entry, chain: seq<Entry>)
    requires HashOf(e.key.agent) == h && forall n :: 0 <= n < |chain| ==> HashOf(chain[n].key.agent) == h
    ensures forall n :: 0 <= n < |[e] + chain| ==> HashOf(([e] + chain)[n].key.agent) == h
  {
    assert forall n :: 0 <= n < |[e] + chain| ==> ([e] + chain)[n] == if n == 0 then e else chain[n - 1];
  }

  class CounterTable {
    const buckets: array<Node?<Interface, Status>>
    ghost var chains: seq<seq<Entry>>
    ghost var entries: map<Interface, Entry>

    /** Exactly one entry per interface, in the chain of its agent. */
    ghost predicate Valid()
      reads this, buckets, entries.Values`next
    {
      && buckets.Length == HASH_SIZE && |chains| == HASH_SIZE
      && (forall h :: 0 <= h < HASH_SIZE ==> BucketOk(h, buckets[h], chains[h], entries))
      && (forall i <- entries :: entries[i].key == i && entries[i] in chains[HashOf(i.agent)])
    }

    /** The map that the table stands for. */
    ghost function Contents(): Table
      reads this`entries, entries.Values`value
    {
      map i <- entries :: entries[i].value
    }

    constructor ()
      ensures Valid() && fresh(buckets) && Contents() == map[]
    {
      buckets := new Node?<Interface, Status>[HASH_SIZE](_ => null);
      chains := seq(HASH_SIZE, _ => []);
      entries := map[];
    }

    /** Puts a new entry in front of its chain. */
    method Install(key: nat, e: Entry)
      requires Valid() && e.key !in entries && key == HashOf(e.key.agent) && e.next == buckets[key]
      modifies this`chains, this`entries, buckets
      ensures Valid() && entries == old(entries)[e.key := e]
      ensures Contents() == old(Contents())[e.key := e.value]
    {
      hide ChainOk, HashOf;
      forall h | 0 <= h < HASH_SIZE ensures BucketOk(h, buckets[h], chains[h], entries[e.key := e]) {
        assert BucketOk(h, buckets[h], chains[h], entries);
        ExtendedOk(e, buckets[h], chains[h], entries);
      }
      assert BucketOk(key, buckets[key], chains[key], entries);
      PrependedOk(e, buckets[key], chains[key], entries);
      PrependedInBucket(key, e, chains[key]);
      hide BucketOk;
      buckets[key] := e;
      chains := chains[key := [e] + chains[key]];
      entries := entries[e.key := e];
    }

    /** What a lookup relies on: the chain of an interface is linked, and its entry is there or nowhere. */
    lemma ChainOf(i: Interface)
      requires Valid()
      ensures buckets.Length == |chains| == HASH_SIZE
      ensures Linked(buckets[HashOf(i.agent)], chains[HashOf(i.agent)])
      ensures forall e <- chains[HashOf(i.agent)] :: e.key in entries && entries[e.key] == e
      ensures i in entries ==> entries[i].key == i && entries[i] in chains[HashOf(i.agent)]
    {
      hide Linked, HashOf;
      var h := HashOf(i.agent);
      assert BucketOk(h, buckets[h], chains[h], entries);
    }

    /** Finds the entry of an interface, or puts a new one in front of its chain. */
    method HashLookup(i: Interface) returns (e: Entry)
      requires Valid()
      modifies this`chains, this`entries, buckets
      ensures Valid() && i in entries && entries[i] == e && e.key == i
      ensures if i in old(entries) then entries == old(entries) else entries == old(entries)[i := e] && fresh(e)
      ensures Contents() == old(Contents())[i := Find(old(Contents()), i)]
      ensures e.value == Find(old(Contents()), i)
    {
      hide Linked, Valid;
      var key := i.agent % HASH_SIZE;
      ChainOf(i);
      var ptr := Search(buckets[key], chains[key], i);
      if ptr == null {
        e := new Node(i, UNSEEN);
        e.next := buckets[key];
        Install(key, e);
      } else {
        e := ptr;
      }
    }

    /** Remembers a sample as the latest of its interface. */
    method Remember(e: Entry, status: Status)
      requires Valid() && e.key in entries && entries[e.key] == e
      modifies e`value
      ensures Valid() && Contents() == old(Contents())[e.key := status]
    {
      hide ChainOk;
      assert forall i <- entries :: i != e.key ==> entries[i] != e;
      e.value := status;
    }

    /** Reports one sample. */
    method StoreSample(s: CntrSample) returns (row: Row)
      requires Valid()
      modifies this`chains, this`entries, buckets, entries.Values
      ensures Valid() && fresh(entries.Values - old(entries.Values))
      ensures row == RowOf(s, Find(old(Contents()), InterfaceOf(s)))
      ensures Contents() == old(Contents())[InterfaceOf(s) := StatusOf(s)]
    {
      hide Valid, Contents, RowOf, StatusOf, InterfaceOf;
      var i := InterfaceOf(s);
      var cstat := HashLookup(i);
      row := RowOf(s, cstat.value);
      Remember(cstat, StatusOf(s));
    }

    /** Reports a list of counter samples. */
    method StoreCntr(list: seq<CntrSample>) returns (rows: seq<Row>)
      requires Valid()
      modifies this`chains, this`entries, buckets, entries.Values
      ensures Valid() && fresh(entries.Values - old(entries.Values))
      ensures rows == RowsAfter(old(Contents()), list)
      ensures Contents() == TableAfter(old(Contents()), list)
    {
      hide Valid, Contents, RowOf, StatusOf;
      rows := [];
      var n := 0;
      while n < |list|
        invariant 0 <= n <= |list|
        invariant Valid() && fresh(entries.Values - old(entries.Values))
        invariant rows == RowsAfter(old(Contents()), list[..n])
        invariant Contents() == TableAfter(old(Contents()), list[..n])
      {
        assert list[..n + 1][..n] == list[..n];
        var row := StoreSample(list[n]);
        rows := rows + [row];
        n := n + 1;
      }
      assert list[..n] == list;
    }
  }
}
