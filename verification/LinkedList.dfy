/** The intrusive circular list: nodes that are embedded in their hosts, and a
    sentinel that closes the circle. */
module LinkedLists {
  import opened Lists

  class Node {
    var next: Node?
    var prev: Node?
    /** The sentinel of the list that the node is in. */
    var listSentinel: Node?

    /** A node outside all lists. */
    constructor ()
      ensures IsFree()
    {
      next, prev, listSentinel := null, null, null;
    }

    predicate IsFree()
      reads this
    {
      next == null && prev == null && listSentinel == null
    }

    /** LinkedListNode::InsertBefore */
    method InsertBefore(next: Node)
      requires IsFree() && next != this && next.listSentinel != null
      requires next.next != null && next.prev != null && next.prev != this
      modifies this, next, next.prev
      ensures this.next == next && this.prev == old(next.prev) && listSentinel == old(next.listSentinel)
      ensures next.prev == this && old(next.prev).next == this
      ensures next.listSentinel == old(next.listSentinel)
      ensures old(next.prev).listSentinel == old(next.prev.listSentinel)
      ensures old(next.prev) != next ==> next.next == old(next.next) && old(next.prev).prev == old(next.prev.prev)
    {
      listSentinel := next.listSentinel;
      this.prev := next.prev;
      next.prev.next := this;
      this.next := next;
      next.prev := this;
    }

    /** LinkedListNode::Remove */
    method Remove()
      requires listSentinel != null && next != null && prev != null && next != this && prev != this
      modifies this, next, prev
      ensures IsFree()
      ensures old(next).prev == old(prev) && old(prev).next == old(next)
      ensures old(next).listSentinel == old(next.listSentinel) && old(prev).listSentinel == old(prev.listSentinel)
      ensures old(next) != old(prev) ==> old(next).next == old(next.next) && old(prev).prev == old(prev.prev)
    {
      listSentinel := null;
      next.prev := prev;
      prev.next := next;
      next := null;
      prev := null;
    }
  }

  class LinkedList {
    const sentinel: Node
    var size: nat
    /** The nodes of the list, front first. */
    ghost var nodes: seq<Node>

    /** The node at an index; the sentinel is before the first and after the last. */
    ghost function At(i: int): Node
      reads this
    {
      if 0 <= i < |nodes| then nodes[i] else sentinel
    }

    ghost predicate Linked(i: int)
      reads this, sentinel, nodes
    {
      At(i).next == At(i + 1) && At(i + 1).prev == At(i)
    }

    ghost predicate Valid()
      reads this, sentinel, nodes
    {
      && size == |nodes|
      && NoDup(nodes) && sentinel !in nodes
      && sentinel.listSentinel == sentinel
      && (forall i :: 0 <= i < |nodes| ==> nodes[i].listSentinel == sentinel)
      && (forall i :: -1 <= i < |nodes| ==> Linked(i))
    }

    /** Another list, with a sentinel of its own. */
    predicate Other(l: LinkedList) {
      l != this && l.sentinel != sentinel
    }

    constructor ()
      ensures Valid() && nodes == [] && fresh(sentinel)
    {
      sentinel := new Node();
      size := 0;
      nodes := [];
      new;
      sentinel.next, sentinel.prev, sentinel.listSentinel := sentinel, sentinel, sentinel;
    }

    method Empty() returns (b: bool)
      requires Valid()
      ensures b <==> nodes == []
    {
      assert Linked(-1);
      b := sentinel.next == sentinel;
    }

    method Front() returns (n: Node)
      requires Valid() && nodes != []
      ensures n == nodes[0]
    {
      assert Linked(-1);
      n := sentinel.next;
    }

    method Back() returns (n: Node)
      requires Valid() && nodes != []
      ensures n == nodes[|nodes| - 1]
    {
      assert Linked(|nodes| - 1);
      n := sentinel.prev;
    }

    lemma InsertedNoDup(was: seq<Node>, node: Node, k: nat)
      requires NoDup(was) && node !in was && k <= |was| && nodes == was[..k] + [node] + was[k..]
      requires sentinel !in was && node != sentinel
      ensures NoDup(nodes) && sentinel !in nodes
    {
    }

    /** The links of the circle with a node inserted at position k. */
    twostate lemma Inserted(new node: Node, k: nat)
      requires old(Valid()) && k <= |old(nodes)| && node !in old(nodes) && node != sentinel
      requires nodes == old(nodes)[..k] + [node] + old(nodes)[k..] && NoDup(nodes) && sentinel !in nodes
      requires node.next == old(At(k)) && old(At(k)).prev == node
      requires node.prev == old(At(k - 1)) && old(At(k - 1)).next == node
      requires forall n :: n in old(nodes) && n != old(At(k - 1)) ==> n.next == old(n.next)
      requires forall n :: n in old(nodes) && n != old(At(k)) ==> n.prev == old(n.prev)
      requires sentinel != old(At(k - 1)) ==> sentinel.next == old(sentinel.next)
      requires sentinel != old(At(k)) ==> sentinel.prev == old(sentinel.prev)
      ensures forall i :: -1 <= i < |nodes| ==> Linked(i)
    {
      forall i | -1 <= i < |nodes| ensures Linked(i) {
        if i < k - 1 {
          assert old(Linked(i)) && At(i) == old(At(i)) && At(i + 1) == old(At(i + 1));
          assert old(At(i)) != old(At(k - 1)) && old(At(i + 1)) != old(At(k));
        } else if i > k {
          assert old(Linked(i - 1)) && At(i) == old(At(i - 1)) && At(i + 1) == old(At(i));
          assert old(At(i - 1)) != old(At(k - 1)) && old(At(i)) != old(At(k));
        } else if i == k {
          assert At(i) == node && At(i + 1) == old(At(k));
        } else {
          assert At(i) == old(At(k - 1)) && At(i + 1) == node;
        }
      }
    }

    /** Insertion of a node into the circle. */
    method LinkBefore(pos: Node, node: Node, ghost k: nat)
      requires Valid() && k <= |nodes| && pos == At(k) && node.IsFree()
      modifies this, sentinel, nodes, node
      ensures Valid() && nodes == old(nodes[..k] + [node] + nodes[k..])
    {
      assert node !in nodes && node != sentinel;
      assert Linked(k - 1) && Linked(if k < |nodes| then k else -1);
      node.InsertBefore(pos);
      size := size + 1;
      nodes := nodes[..k] + [node] + nodes[k..];
      InsertedNoDup(old(nodes), node, k);
      Inserted(node, k);
    }

    /** LinkedList::insert, before position k. */
    method Insert(pos: Node, node: Node, ghost k: nat)
      requires Valid() && k <= |nodes| && pos == At(k) && node.IsFree()
      modifies this, sentinel, nodes, node
      ensures Valid() && nodes == old(nodes[..k] + [node] + nodes[k..])
      ensures forall l: LinkedList ::
        old(allocated(l)) && Other(l) && old(l.Valid()) ==> l.Valid() && l.nodes == old(l.nodes)
    {
      LinkBefore(pos, node, k);
    }

    /** Removal of a node from the circle. */
    method Unlink(node: Node)
      requires Valid() && node in nodes
      modifies this, sentinel, nodes
      ensures Valid() && nodes == Remove(old(nodes), node) && node.IsFree()
    {
      ghost var k: int := IndexOf(nodes, node);
      assert Linked(k - 1) && Linked(k);
      assert Linked(-1);
      node.Remove();
      size := size - 1;
      nodes := nodes[..k] + nodes[k + 1..];
      forall i | -1 <= i < |nodes| ensures Linked(i) {
        assert old(Linked(i)) && old(Linked(i + 1));
      }
    }

    /** LinkedList::erase */
    method Erase(node: Node)
      requires Valid() && node in nodes
      modifies this, sentinel, nodes
      ensures Valid() && nodes == Remove(old(nodes), node) && node.IsFree()
      ensures forall l: LinkedList ::
        old(allocated(l)) && Other(l) && old(l.Valid()) ==> l.Valid() && l.nodes == old(l.nodes)
    {
      Unlink(node);
    }

    method PushFront(node: Node)
      requires Valid() && node.IsFree()
      modifies this, sentinel, nodes, node
      ensures Valid() && nodes == [node] + old(nodes)
      ensures forall l: LinkedList ::
        old(allocated(l)) && Other(l) && old(l.Valid()) ==> l.Valid() && l.nodes == old(l.nodes)
    {
      assert Linked(-1);
      Insert(sentinel.next, node, 0);
    }

    method PushBack(node: Node)
      requires Valid() && node.IsFree()
      modifies this, sentinel, nodes, node
      ensures Valid() && nodes == old(nodes) + [node]
      ensures forall l: LinkedList ::
        old(allocated(l)) && Other(l) && old(l.Valid()) ==> l.Valid() && l.nodes == old(l.nodes)
    {
      Insert(sentinel, node, |nodes|);
    }

    method PopFront()
      requires Valid() && nodes != []
      modifies this, sentinel, nodes
      ensures Valid() && nodes == old(nodes)[1..] && old(nodes)[0].IsFree()
      ensures forall l: LinkedList ::
        old(allocated(l)) && Other(l) && old(l.Valid()) ==> l.Valid() && l.nodes == old(l.nodes)
    {
      var n := Front();
      RemoveHead(nodes);
      Erase(n);
    }

    method PopBack()
      requires Valid() && nodes != []
      modifies this, sentinel, nodes
      ensures Valid() && nodes == old(nodes)[..|old(nodes)| - 1] && old(nodes)[|old(nodes)| - 1].IsFree()
      ensures forall l: LinkedList ::
        old(allocated(l)) && Other(l) && old(l.Valid()) ==> l.Valid() && l.nodes == old(l.nodes)
    {
      var n := Back();
      RemoveLast(nodes);
      Erase(n);
    }

    /** The circle is closed and the nodes are distinct. */
    ghost predicate Circular()
      reads this, sentinel, nodes
    {
      NoDup(nodes) && sentinel !in nodes && forall i :: -1 <= i < |nodes| ==> Linked(i)
    }

    /** The sentinel takes the place of another list's sentinel. */
    method TakeLinks(other: LinkedList)
      requires other != this && other.Valid() && nodes == other.nodes
      requires sentinel != other.sentinel && sentinel !in nodes
      modifies sentinel, other.sentinel, nodes
      ensures Circular() && other.sentinel.next == other.sentinel.prev == other.sentinel
      ensures sentinel.listSentinel == old(sentinel.listSentinel)
      ensures other.sentinel.listSentinel == old(other.sentinel.listSentinel)
    {
      assert other.Linked(-1) && other.Linked(|nodes| - 1);
      if other.sentinel.next == other.sentinel {
        sentinel.next, sentinel.prev := sentinel, sentinel;
      } else {
        sentinel.next := other.sentinel.next;
        other.sentinel.next := other.sentinel;
        sentinel.prev := other.sentinel.prev;
        other.sentinel.prev := other.sentinel;
        sentinel.next.prev := sentinel;
        sentinel.prev.next := sentinel;
        forall i | -1 <= i < |nodes| ensures Linked(i) {
          assert old(other.Linked(i));
        }
      }
    }

    /** Every node of the list learns its new sentinel. */
    method AdoptNodes()
      requires Circular()
      modifies nodes
      ensures Circular() && forall i :: 0 <= i < |nodes| ==> nodes[i].listSentinel == sentinel
    {
      assert Linked(-1);
      var node := sentinel.next;
      ghost var k := 0;
      while node != sentinel
        invariant 0 <= k <= |nodes| && node == At(k) && Circular()
        invariant forall i :: 0 <= i < k ==> nodes[i].listSentinel == sentinel
        decreases |nodes| - k
      {
        assert Linked(k);
        label Before:
        node.listSentinel := sentinel;
        forall i | -1 <= i < |nodes| ensures Linked(i) { assert old@Before(Linked(i)); }
        node := node.next;
        k := k + 1;
      }
    }

    /** The move constructor: the new list takes the nodes, the old one is empty. */
    constructor Move(other: LinkedList)
      requires other.Valid()
      modifies other, other.sentinel, other.nodes
      ensures Valid() && nodes == old(other.nodes) && fresh(sentinel)
      ensures other.Valid() && other.nodes == []
      ensures forall l: LinkedList ::
        old(allocated(l)) && other.Other(l) && old(l.Valid()) ==> l.Valid() && l.nodes == old(l.nodes)
    {
      sentinel := new Node();
      size := other.size;
      nodes := other.nodes;
      new;
      sentinel.listSentinel := sentinel;
      assert other.Valid() by {
        forall i | -1 <= i < |nodes| ensures other.Linked(i) { assert old(other.Linked(i)); }
      }
      TakeLinks(other);
      AdoptNodes();
      other.size := 0;
      other.nodes := [];
    }
  }

  /** A host, such as a page, that sits in two lists through two nodes. */
  class Host {
    const lruNode: Node
    const txnNode: Node

    constructor ()
      ensures fresh(lruNode) && fresh(txnNode) && lruNode != txnNode && lruNode.IsFree() && txnNode.IsFree()
    {
      lruNode := new Node();
      txnNode := new Node();
    }
  }

  ghost function Footprint(l: LinkedList): set<object>
    reads l
  {
    {l, l.sentinel} + set n | n in l.nodes
  }

  /** Two valid lists with different sentinels share no object: every node names
      the sentinel of its list. */
  lemma ListsApart(a: LinkedList, b: LinkedList)
    requires a.Valid() && b.Valid() && a.Other(b)
    ensures Footprint(a) !! Footprint(b)
  {
  }

  /** PinStorePage takes a host off a list through one node and leaves the list
      that holds it through the other node as it is. */
  method EraseThroughOneNode(lru: LinkedList, txn: LinkedList, host: Host)
    requires lru.Valid() && txn.Valid() && lru.Other(txn)
    requires host.lruNode in lru.nodes && host.txnNode in txn.nodes
    modifies lru, lru.sentinel, lru.nodes
    ensures lru.Valid() && lru.nodes == Remove(old(lru.nodes), host.lruNode)
    ensures txn.Valid() && txn.nodes == old(txn.nodes) && host.txnNode in txn.nodes
  {
    lru.Erase(host.lruNode);
  }

  /** Takes the front node of a list and appends it to another list. */
  method MoveFront(from: LinkedList, to: LinkedList, node: Node)
    requires from.Valid() && to.Valid() && from.Other(to)
    requires from.nodes != [] && node == from.nodes[0]
    modifies Footprint(from), Footprint(to)
    ensures from.Valid() && to.Valid()
    ensures from.nodes == old(from.nodes)[1..] && to.nodes == old(to.nodes) + [node]
    ensures Footprint(from) + Footprint(to) <= old(Footprint(from) + Footprint(to))
  {
    RemoveHead(from.nodes);
    from.Erase(node);
    to.PushBack(node);
  }

  lemma NextSlices(was: seq<Node>, now: seq<Node>, before: seq<Node>, k: nat)
    requires k < |was| && now == before + was[..k]
    ensures was[k..][0] == was[k] && was[k..][1..] == was[k + 1..] && now + [was[k]] == before + was[..k + 1]
  {
  }

  /** A walk over a list with an iterator that moves on before the current node is
      erased and appended to another list. Every node is visited once, in order. */
  method MoveNodes(from: LinkedList, to: LinkedList)
    requires from.Valid() && to.Valid() && from.Other(to)
    modifies Footprint(from), Footprint(to)
    ensures from.Valid() && to.Valid() && from.nodes == []
    ensures to.nodes == old(to.nodes) + old(from.nodes)
  {
    ghost var was := from.nodes;
    ghost var k := 0;
    assert from.Linked(-1);
    var it := from.sentinel.next;
    while it != from.sentinel
      invariant 0 <= k <= |was| && from.Valid() && to.Valid()
      invariant from.nodes == was[k..] && to.nodes == old(to.nodes) + was[..k]
      invariant it == from.At(0)
      invariant Footprint(from) + Footprint(to) <= old(Footprint(from) + Footprint(to))
      invariant k < |was| <==> it != from.sentinel
      decreases |was| - k
    {
      var node := it;
      assert from.Linked(0);
      it := it.next;
      NextSlices(was, to.nodes, old(to.nodes), k);
      MoveFront(from, to, node);
      k := k + 1;
    }
  }

  /** The list work of TransactionImpl::Commit. */
  method MoveOneByOne(from: LinkedList, to: LinkedList)
    requires from.Valid() && to.Valid() && from.Other(to)
    modifies Footprint(from), Footprint(to)
    ensures from.Valid() && to.Valid() && from.nodes == []
    ensures to.nodes == old(to.nodes) + old(from.nodes)
    ensures forall l: LinkedList ::
      old(allocated(l)) && from.Other(l) && to.Other(l) && old(l.Valid()) ==> l.Valid() && l.nodes == old(l.nodes)
  {
    MoveNodes(from, to);
  }
}
