/** The intrusive circular doubly linked list of quectel-qmi-proxy.c: qlist_init, qlist_add_tail and
    qlist_remove relink nodes in place; a ghost sequence says which list they form. */
module QList {
  import opened Options

  /** struct qlistnode embedded in a record: `item` is what qnode_to_item recovers, None in a head. */
  class QNode<T> {
    var next: QNode<T>
    var prev: QNode<T>
    const item: Option<T>

    /** A new node is linked to itself. */
    constructor (item: Option<T>)
      ensures this.item == item && next == this && prev == this
    {
      this.item := item;
      next := this;
      prev := this;
    }
  }

  /** The i-th node of the ring head, nodes[0], nodes[1], ..., head. */
  ghost function At<T>(head: QNode<T>, nodes: seq<QNode<T>>, i: int): QNode<T>
    requires 0 <= i <= |nodes| + 1
  {
    if i == 0 || i == |nodes| + 1 then head else nodes[i - 1]
  }

  /** The i-th and the following node point at each other. */
  ghost predicate Linked<T>(head: QNode<T>, nodes: seq<QNode<T>>, i: int)
    requires 0 <= i <= |nodes|
    reads head, nodes
  {
    At(head, nodes, i).next == At(head, nodes, i + 1) && At(head, nodes, i + 1).prev == At(head, nodes, i)
  }

  /** `head` is the head of the circular list of exactly `nodes`, in order. */
  ghost predicate Ring<T>(head: QNode<T>, nodes: seq<QNode<T>>)
    reads head, nodes
  {
    && head !in nodes
    && (forall i, j :: 0 <= i < j < |nodes| ==> nodes[i] != nodes[j])
    && (forall i :: 0 <= i <= |nodes| ==> Linked(head, nodes, i))
  }

  /** qlist_init. */
  method Init<T>(node: QNode<T>)
    modifies node
    ensures Ring(node, [])
  {
    node.next := node;
    node.prev := node;
  }

  /** qlist_empty. */
  predicate Empty<T>(head: QNode<T>)
    reads head
  {
    head == head.next
  }

  /** The emptiness test and the head of the list agree with the sequence. */
  lemma Front<T>(head: QNode<T>, nodes: seq<QNode<T>>)
    requires Ring(head, nodes)
    ensures head !in nodes && (Empty(head) <==> nodes == [])
    ensures nodes == [] ==> head.prev == head
    ensures nodes != [] ==> head.next == nodes[0] && head.prev == nodes[|nodes| - 1]
  {
    assert Linked(head, nodes, 0) && Linked(head, nodes, |nodes|);
  }

  /** From any node, next leads to the following one, and from the last back to the head. */
  lemma Following<T>(head: QNode<T>, nodes: seq<QNode<T>>, i: nat)
    requires Ring(head, nodes) && i < |nodes|
    ensures nodes[i].next == if i + 1 < |nodes| then nodes[i + 1] else head
    ensures nodes[i].prev == if i == 0 then head else nodes[i - 1]
  {
    assert Linked(head, nodes, i) && Linked(head, nodes, i + 1);
  }

  /** next and prev are inverse to each other on every node of a list. */
  lemma Mutual<T>(head: QNode<T>, nodes: seq<QNode<T>>, n: QNode<T>)
    requires Ring(head, nodes) && (n == head || n in nodes)
    ensures n.next.prev == n && n.prev.next == n
  {
    if n == head {
      assert Linked(head, nodes, 0) && Linked(head, nodes, |nodes|);
    } else {
      var i :| 0 <= i < |nodes| && nodes[i] == n;
      assert Linked(head, nodes, i) && Linked(head, nodes, i + 1);
    }
  }

  /** The links determine the sequence: a head is the head of one list only. */
  lemma OneList<T>(head: QNode<T>, a: seq<QNode<T>>, b: seq<QNode<T>>)
    requires Ring(head, a) && Ring(head, b)
    ensures a == b
  {
    NotShorter(head, a, b);
    NotShorter(head, b, a);
    SamePrefix(head, a, b, |a|);
  }

  lemma NotShorter<T>(head: QNode<T>, a: seq<QNode<T>>, b: seq<QNode<T>>)
    requires Ring(head, a) && Ring(head, b)
    ensures |a| >= |b|
  {
    if |a| <= |b| {
      SamePrefix(head, a, b, |a|);
      assert Linked(head, a, |a|) && Linked(head, b, |a|);
    }
  }

  lemma {:induction false} SamePrefix<T>(head: QNode<T>, a: seq<QNode<T>>, b: seq<QNode<T>>, k: nat)
    requires Ring(head, a) && Ring(head, b) && k <= |a| <= |b|
    ensures a[..k] == b[..k]
    ensures At(head, a, k) == At(head, b, k)
  {
    if k > 0 {
      SamePrefix(head, a, b, k - 1);
      assert Linked(head, a, k - 1) && Linked(head, b, k - 1);
      assert a[..k] == a[..k - 1] + [a[k - 1]] && b[..k] == b[..k - 1] + [b[k - 1]];
    }
  }

  /** qlist_add_tail. */
  method AddTail<T>(head: QNode<T>, item: QNode<T>, ghost nodes: seq<QNode<T>>)
    requires Ring(head, nodes) && item != head && item !in nodes
    modifies item, head`prev, head.prev`next
    ensures Ring(head, nodes + [item])
  {
    ghost var n, after := |nodes|, nodes + [item];
    Front(head, nodes);
    item.next := head;
    item.prev := head.prev;
    head.prev.next := item;
    head.prev := item;
    forall i | 0 <= i <= n + 1 ensures Linked(head, after, i) {
      if i < n {
        assert old(Linked(head, nodes, i));
      }
    }
  }

  ghost function Cut<T>(nodes: seq<T>, k: nat): seq<T>
    requires k < |nodes|
  {
    nodes[..k] + nodes[k + 1..]
  }

  /** qlist_remove: only the neighbours' links change, so every other node and list is untouched. */
  method Remove<T>(item: QNode<T>, ghost head: QNode<T>, ghost nodes: seq<QNode<T>>, ghost k: nat)
    requires Ring(head, nodes) && k < |nodes| && nodes[k] == item
    modifies item.next`prev, item.prev`next
    ensures Ring(head, Cut(nodes, k))
    ensures item.next == old(item.next) && item.prev == old(item.prev)
  {
    Following(head, nodes, k);
    item.next.prev := item.prev;
    item.prev.next := item.next;
    ghost var after := Cut(nodes, k);
    forall i | 0 <= i <= |after| ensures Linked(head, after, i) {
      if i < k {
        assert old(Linked(head, nodes, i));
      } else {
        assert old(Linked(head, nodes, i)) && old(Linked(head, nodes, i + 1));
      }
    }
  }
}
