/** Chains of linked nodes, as the hash tables of the processing daemon keep them in their buckets. */
module Chains {

  class Node<K, V> {
    const key: K
    var value: V
    var next: Node?<K, V>

    constructor (k: K, v: V)
      ensures key == k && value == v && next == null
    {
      key, value, next := k, v, null;
    }
  }

  /** The node behind position `n` of a chain. */
  ghost function Behind<K, V>(chain: seq<Node<K, V>>, n: nat): Node?<K, V> {
    if n + 1 < |chain| then chain[n + 1] else null
  }

  /** `chain` lists the nodes from `first` on. */
  ghost predicate Linked<K, V>(first: Node?<K, V>, chain: seq<Node<K, V>>)
    reads (set e | e in chain)`next
  {
    && first == (if chain == [] then null else chain[0])
    && (forall n :: 0 <= n < |chain| ==> chain[n].next == Behind(chain, n))
  }

  /** A chain is linked, and every node in it is its table's node for its key. */
  ghost predicate ChainOk<K, V>(first: Node?<K, V>, chain: seq<Node<K, V>>, nodes: map<K, Node<K, V>>)
    reads nodes.Values`next
  {
    && (forall n :: 0 <= n < |chain| ==>
          chain[n] in nodes.Values && chain[n].key in nodes && nodes[chain[n].key] == chain[n])
    && Linked(first, chain)
  }

  lemma {:induction false} NoNodeTwice<K, V>(first: Node?<K, V>, chain: seq<Node<K, V>>, i: nat, j: nat)
    requires Linked(first, chain) && i < j < |chain|
    ensures chain[i] != chain[j]
    decreases |chain| - j
  {
    if j + 1 < |chain| {
      NoNodeTwice(first, chain, i + 1, j + 1);
    }
    assert chain[i].next == Behind(chain, i) && chain[j].next == Behind(chain, j);
  }

  /** A chain holds no key twice. */
  lemma KeysDistinct<K, V>(first: Node?<K, V>, chain: seq<Node<K, V>>, nodes: map<K, Node<K, V>>)
    requires ChainOk(first, chain, nodes)
    ensures forall i, j :: 0 <= i < j < |chain| ==> chain[i].key != chain[j].key
  {
    forall i, j | 0 <= i < j < |chain| ensures chain[i].key != chain[j].key {
      NoNodeTwice(first, chain, i, j);
    }
  }

  lemma PrependedLinked<K, V>(e: Node<K, V>, first: Node?<K, V>, chain: seq<Node<K, V>>)
    requires Linked(first, chain) && e.next == first
    ensures Linked(e, [e] + chain)
  {
    var chain' := [e] + chain;
    forall n | 0 <= n < |chain'| ensures chain'[n].next == Behind(chain', n) {
      if n > 0 {
        assert chain'[n] == chain[n - 1] && Behind(chain', n) == Behind(chain, n - 1);
      }
    }
  }

  /** A new node in front of its chain. */
  lemma PrependedOk<K, V>(e: Node<K, V>, first: Node?<K, V>, chain: seq<Node<K, V>>, nodes: map<K, Node<K, V>>)
    requires ChainOk(first, chain, nodes) && e.key !in nodes && e.next == first
    ensures ChainOk(e, [e] + chain, nodes[e.key := e])
  {
    hide Linked;
    ExtendedOk(e, first, chain, nodes);
    PrependedLinked(e, first, chain);
    var chain', nodes' := [e] + chain, nodes[e.key := e];
    assert nodes'[e.key] == e;
    assert forall n :: 0 <= n < |chain'| ==> chain'[n] == if n == 0 then e else chain[n - 1];
  }

  /** A new node in another chain. */
  lemma ExtendedOk<K, V>(e: Node<K, V>, first: Node?<K, V>, chain: seq<Node<K, V>>, nodes: map<K, Node<K, V>>)
    requires ChainOk(first, chain, nodes) && e.key !in nodes
    ensures ChainOk(first, chain, nodes[e.key := e])
  {
    forall n | 0 <= n < |chain| ensures chain[n] in nodes[e.key := e].Values {
      assert nodes[e.key := e][chain[n].key] == chain[n];
    }
  }

  /** Walks a chain to the node of a key, or to its end. */
  method Search<K(==), V>(first: Node?<K, V>, ghost chain: seq<Node<K, V>>, key: K) returns (ptr: Node?<K, V>)
    requires Linked(first, chain)
    ensures if ptr == null then forall e <- chain :: e.key != key else ptr in chain && ptr.key == key
  {
    ptr := first;
    ghost var n := 0;
    while ptr != null && ptr.key != key
      invariant 0 <= n <= |chain|
      invariant ptr == if n < |chain| then chain[n] else null
      invariant forall m :: 0 <= m < n ==> chain[m].key != key
      decreases |chain| - n
    {
      assert ptr == chain[n];
      ptr := ptr.next;
      n := n + 1;
    }
  }
}
