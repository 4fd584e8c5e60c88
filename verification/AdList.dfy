/** adlist.c: the doubly linked list, updated in place.  `nodes` is the list as a sequence; what a
    method does is stated on it. */
module AdList {

  class Node<T> {
    var prev: Node?<T>
    var next: Node?<T>
    const value: T

    /** listInitNode. */
    constructor (v: T)
      ensures value == v && prev == null && next == null
    {
      value, prev, next := v, null, null;
    }
  }

  ghost predicate Distinct<T>(nodes: seq<Node<T>>) {
    forall i, j :: 0 <= i < j < |nodes| ==> nodes[i] != nodes[j]
  }

  function At<T>(nodes: seq<Node<T>>, i: int): Node?<T> {
    if 0 <= i < |nodes| then nodes[i] else null
  }

  /** Each node's links are its neighbours in the sequence. */
  ghost predicate Linked<T>(nodes: seq<Node<T>>)
    reads nodes
  {
    && (forall i {:trigger nodes[i].prev} :: 0 <= i < |nodes| ==> nodes[i].prev == At(nodes, i - 1))
    && (forall i {:trigger nodes[i].next} :: 0 <= i < |nodes| ==> nodes[i].next == At(nodes, i + 1))
  }

  function Without<T>(nodes: seq<Node<T>>, i: nat): seq<Node<T>>
    requires i < |nodes|
  {
    nodes[..i] + nodes[i + 1..]
  }

  function Inserted<T>(nodes: seq<Node<T>>, k: nat, node: Node<T>): seq<Node<T>>
    requires k <= |nodes|
  {
    nodes[..k] + [node] + nodes[k..]
  }

  /** The links of `nodes` when `node` has been put in at position k. */
  ghost predicate LinkedAround<T>(nodes: seq<Node<T>>, k: nat, node: Node<T>)
    reads nodes, node
  {
    && k <= |nodes| && node.prev == At(nodes, k - 1) && node.next == At(nodes, k)
    && (forall i {:trigger nodes[i].prev} :: 0 <= i < |nodes| ==>
        nodes[i].prev == if i == k then node else At(nodes, i - 1))
    && (forall i {:trigger nodes[i].next} :: 0 <= i < |nodes| ==>
        nodes[i].next == if i == k - 1 then node else At(nodes, i + 1))
  }

  lemma InsertedValid<T>(nodes: seq<Node<T>>, k: nat, node: Node<T>)
    requires Distinct(nodes) && node !in nodes && LinkedAround(nodes, k, node)
    ensures var t := Inserted(nodes, k, node);
            && Distinct(t) && Linked(t) && |t| == |nodes| + 1
            && At(t, 0) == (if k == 0 then node else At(nodes, 0))
            && At(t, |nodes|) == (if k == |nodes| then node else At(nodes, |nodes| - 1))
  {
  }

  /** The links of `nodes` when the node at position i is skipped. */
  ghost predicate LinkedPast<T>(nodes: seq<Node<T>>, i: nat)
    reads nodes
  {
    && (forall j {:trigger nodes[j].prev} :: 0 <= j < |nodes| && j != i ==>
          nodes[j].prev == At(nodes, if j == i + 1 then i - 1 else j - 1))
    && (forall j {:trigger nodes[j].next} :: 0 <= j < |nodes| && j != i ==>
          nodes[j].next == At(nodes, if j == i - 1 then i + 1 else j + 1))
  }

  lemma WithoutValid<T>(nodes: seq<Node<T>>, i: nat)
    requires Distinct(nodes) && i < |nodes| && LinkedPast(nodes, i)
    ensures var t := Without(nodes, i);
            && Distinct(t) && nodes[i] !in t && Linked(t) && |t| == |nodes| - 1
            && (forall j :: 0 <= j < |t| ==> t[j] in nodes)
            && At(t, 0) == At(nodes, if i == 0 then 1 else 0)
            && At(t, |nodes| - 2) == At(nodes, if i == |nodes| - 1 then i - 1 else |nodes| - 1)
  {
  }

  /** The links of `nodes` as a ring that starts behind its first `n` nodes. */
  ghost predicate LinkedFrom<T>(nodes: seq<Node<T>>, n: nat)
    reads nodes
  {
    && (forall i {:trigger nodes[i].prev} :: 0 <= i < |nodes| ==>
          nodes[i].prev == if i == n then null else At(nodes, if i == 0 then |nodes| - 1 else i - 1))
    && (forall i {:trigger nodes[i].next} :: 0 <= i < |nodes| ==>
          nodes[i].next == if i == n - 1 then null else At(nodes, if i == |nodes| - 1 then 0 else i + 1))
  }

  /** The list that starts behind the first `n` nodes and ends with them. */
  function Rotated<T>(nodes: seq<Node<T>>, n: nat): seq<Node<T>>
    requires n <= |nodes|
  {
    nodes[n..] + nodes[..n]
  }

  lemma RotatedValid<T>(nodes: seq<Node<T>>, n: nat)
    requires Distinct(nodes) && 0 < n < |nodes| && LinkedFrom(nodes, n)
    ensures var t := Rotated(nodes, n);
            Distinct(t) && Linked(t) && |t| == |nodes| && At(t, 0) == nodes[n] && At(t, |t| - 1) == nodes[n - 1]
  {
  }

  /** The links of two lists put together. */
  ghost predicate LinkedAcross<T>(a: seq<Node<T>>, b: seq<Node<T>>)
    reads a, b
  {
    && (forall i {:trigger a[i].prev} :: 0 <= i < |a| ==> a[i].prev == At(a, i - 1))
    && (forall i {:trigger a[i].next} :: 0 <= i < |a| ==>
        a[i].next == At(if i == |a| - 1 then b else a, if i == |a| - 1 then 0 else i + 1))
    && (forall i {:trigger b[i].prev} :: 0 <= i < |b| ==>
        b[i].prev == At(if i == 0 then a else b, if i == 0 then |a| - 1 else i - 1))
    && (forall i {:trigger b[i].next} :: 0 <= i < |b| ==> b[i].next == At(b, i + 1))
  }

  lemma JoinedValid<T>(a: seq<Node<T>>, b: seq<Node<T>>)
    requires Distinct(a) && Distinct(b) && LinkedAcross(a, b) && b != []
    requires forall i, j :: 0 <= i < |a| && 0 <= j < |b| ==> a[i] != b[j]
    ensures Distinct(a + b) && Linked(a + b)
    ensures At(a + b, 0) == (if a == [] then At(b, 0) else At(a, 0)) && At(a + b, |a + b| - 1) == At(b, |b| - 1)
  {
  }

  /** The nodes whose value passes. */
  function Filter<T>(nodes: seq<Node<T>>, keep: T -> bool): seq<Node<T>> {
    if nodes == [] then []
    else Filter(nodes[..|nodes| - 1], keep) + (if keep(nodes[|nodes| - 1].value) then [nodes[|nodes| - 1]] else [])
  }

  class List<T> {
    var head: Node?<T>
    var tail: Node?<T>
    var len: nat
    ghost var nodes: seq<Node<T>>

    ghost predicate Valid()
      reads this, nodes
    {
      && len == |nodes| && Distinct(nodes) && Linked(nodes)
      && head == At(nodes, 0) && tail == At(nodes, |nodes| - 1)
    }

    /** listCreate. */
    constructor ()
      ensures Valid() && nodes == []
    {
      head, tail, len, nodes := null, null, 0, [];
    }

    /** listLinkNodeHead. */
    method LinkNodeHead(node: Node<T>)
      requires Valid() && node !in nodes
      modifies this, node, nodes
      ensures Valid() && nodes == [node] + old(nodes)
    {
      if len == 0 {
        head, tail := node, node;
        node.prev, node.next := null, null;
      } else {
        node.prev := null;
        node.next := head;
        head.prev := node;
        head := node;
      }
      len := len + 1;
      nodes := [node] + nodes;
    }

    /** listLinkNodeTail. */
    method LinkNodeTail(node: Node<T>)
      requires Valid() && node !in nodes
      modifies this, node, nodes
      ensures Valid() && nodes == old(nodes) + [node]
    {
      if len == 0 {
        head, tail := node, node;
        node.prev, node.next := null, null;
      } else {
        node.prev := tail;
        node.next := null;
        tail.next := node;
        tail := node;
      }
      len := len + 1;
      nodes := nodes + [node];
    }

    /** listAddNodeHead. */
    method AddNodeHead(value: T)
      requires Valid()
      modifies this, nodes
      ensures Valid() && |nodes| == |old(nodes)| + 1 && nodes[1..] == old(nodes)
      ensures nodes[0].value == value && fresh(nodes[0])
    {
      var node := new Node(value);
      LinkNodeHead(node);
    }

    /** listAddNodeTail. */
    method AddNodeTail(value: T)
      requires Valid()
      modifies this, nodes
      ensures Valid() && |nodes| == |old(nodes)| + 1 && nodes[..|old(nodes)|] == old(nodes)
      ensures nodes[|old(nodes)|].value == value && fresh(nodes[|old(nodes)|])
    {
      var node := new Node(value);
      LinkNodeTail(node);
    }

    /** listInsertNode: right behind or right before the node at position i. */
    method InsertNode(oldNode: Node<T>, value: T, after: bool, ghost i: nat)
      requires Valid() && i < |nodes| && nodes[i] == oldNode
      modifies this, nodes
      ensures var k := if after then i + 1 else i;
              && Valid() && |nodes| == |old(nodes)| + 1
              && nodes == Inserted(old(nodes), k, nodes[k])
              && nodes[k].value == value && fresh(nodes[k])
    {
      var node := new Node(value);
      if after {
        node.prev := oldNode;
        node.next := oldNode.next;
        if tail == oldNode {
          tail := node;
        }
        LinkNeighbours(node, i + 1);
      } else {
        node.next := oldNode;
        node.prev := oldNode.prev;
        if head == oldNode {
          head := node;
        }
        LinkNeighbours(node, i);
      }
    }

    /** The second half of listInsertNode: the node's own links, and the list's ends, are set. */
    method LinkNeighbours(node: Node<T>, ghost k: nat)
      requires len == |nodes| && Distinct(nodes) && Linked(nodes) && node !in nodes && 0 < |nodes|
      requires k <= |nodes| && node.prev == At(nodes, k - 1) && node.next == At(nodes, k)
      requires head == (if k == 0 then node else At(nodes, 0))
      requires tail == (if k == |nodes| then node else At(nodes, |nodes| - 1))
      modifies this, nodes
      ensures Valid() && nodes == Inserted(old(nodes), k, node)
    {
      hide Inserted;
      if node.prev != null {
        node.prev.next := node;
      }
      if node.next != null {
        node.next.prev := node;
      }
      len := len + 1;
      InsertedValid(nodes, k, node);
      nodes := Inserted(nodes, k, node);
    }

    /** listUnlinkNode. */
    method UnlinkNode(node: Node<T>, ghost i: nat)
      requires Valid() && i < |nodes| && nodes[i] == node
      modifies this, nodes
      ensures Valid() && nodes == Without(old(nodes), i)
      ensures node.prev == null && node.next == null
    {
      hide Without, Linked, Distinct, At, LinkedPast;
      Bypass(node, i);
      WithoutValid(nodes, i);
      node.next := null;
      node.prev := null;
      len := len - 1;
      nodes := Without(nodes, i);
    }

    /** The first half of listUnlinkNode: the neighbours, or the list's ends, skip the node. */
    method Bypass(node: Node<T>, ghost i: nat)
      requires Valid() && i < |nodes| && nodes[i] == node
      modifies `head, `tail, nodes
      ensures LinkedPast(nodes, i)
      ensures head == At(nodes, if i == 0 then 1 else 0)
      ensures tail == At(nodes, if i == |nodes| - 1 then i - 1 else |nodes| - 1)
    {
      if node.prev != null {
        node.prev.next := node.next;
      } else {
        head := node.next;
      }
      if node.next != null {
        node.next.prev := node.prev;
      } else {
        tail := node.prev;
      }
    }

    /** listRotateTailToHead. */
    method RotateTailToHead()
      requires Valid()
      modifies this, nodes
      ensures Valid()
      ensures var s := old(nodes); nodes == if |s| <= 1 then s else Rotated(s, |s| - 1)
    {
      hide Rotated;
      if len <= 1 {
        return;
      }
      var t := tail;
      tail := t.prev;
      tail.next := null;
      head.prev := t;
      t.prev := null;
      t.next := head;
      head := t;
      RotatedValid(nodes, len - 1);
      nodes := Rotated(nodes, len - 1);
    }

    /** listRotateHeadToTail. */
    method RotateHeadToTail()
      requires Valid()
      modifies this, nodes
      ensures Valid()
      ensures var s := old(nodes); nodes == if |s| <= 1 then s else Rotated(s, 1)
    {
      hide Rotated;
      if len <= 1 {
        return;
      }
      var h := head;
      head := h.next;
      head.prev := null;
      tail.next := h;
      h.next := null;
      h.prev := tail;
      tail := h;
      RotatedValid(nodes, 1);
      nodes := Rotated(nodes, 1);
    }

    /** listIndex: negative positions count from the tail. */
    method Index(index: int) returns (n: Node?<T>)
      requires Valid()
      ensures n == At(nodes, if index < 0 then |nodes| + index else index)
    {
      var k := if index < 0 then -index - 1 else index;
      if index < 0 {
        n := tail;
        while k != 0 && n != null
          invariant -1 < k <= -index - 1 && n == At(nodes, |nodes| - 1 - (-index - 1 - k))
          decreases k
        {
          n := n.prev;
          k := k - 1;
        }
      } else {
        n := head;
        while k != 0 && n != null
          invariant 0 <= k <= index && n == At(nodes, index - k)
          decreases k
        {
          n := n.next;
          k := k - 1;
        }
      }
    }

    ghost predicate Apart(other: List<T>)
      reads this, other
    {
      other != this && forall i, j :: 0 <= i < |nodes| && 0 <= j < |other.nodes| ==> nodes[i] != other.nodes[j]
    }

    /** listJoin: the other list is left empty. */
    method Join(other: List<T>)
      requires Valid() && other.Valid() && Apart(other)
      modifies this, nodes, other, other.nodes
      ensures Valid() && other.Valid() && nodes == old(nodes) + old(other.nodes) && other.nodes == []
    {
      if other.len == 0 {
        assert nodes == nodes + other.nodes;
        return;
      }
      JoinNonempty(other);
    }

    method JoinNonempty(other: List<T>)
      requires Valid() && other.Valid() && Apart(other) && other.len > 0
      modifies this, nodes, other, other.nodes
      ensures Valid() && other.Valid() && nodes == old(nodes) + old(other.nodes) && other.nodes == []
    {
      hide Linked, Distinct, LinkedAcross;
      Bridge(other);
      JoinedValid(nodes, other.nodes);
      EmptyValid<T>();
      tail := other.tail;
      len := len + other.len;
      nodes := nodes + other.nodes;
      other.head, other.tail, other.len, other.nodes := null, null, 0, [];
    }

    /** The part of listJoin that links the two lists. */
    method Bridge(other: List<T>)
      requires Valid() && other.Valid() && Apart(other) && other.len > 0
      modifies `head, nodes, other.nodes
      ensures LinkedAcross(nodes, other.nodes) && head == if nodes == [] then At(other.nodes, 0) else At(nodes, 0)
    {
      other.head.prev := tail;
      if tail != null {
        tail.next := other.head;
      } else {
        head := other.head;
      }
    }
  }

  lemma EmptyValid<T>()
    ensures Distinct<T>([]) && Linked<T>([])
  {
  }

  /** listIter. */
  class Iter<T> {
    var next: Node?<T>
    var fromHead: bool

    /** listRewind and listRewindTail. */
    constructor (list: List<T>, headFirst: bool)
      ensures next == (if headFirst then list.head else list.tail) && fromHead == headFirst
    {
      next := if headFirst then list.head else list.tail;
      fromHead := headFirst;
    }

    /** listNext: the cursor moves on before the node is handed out. */
    method Next() returns (current: Node?<T>)
      modifies `next
      ensures current == old(next)
      ensures next == if current == null then null else if fromHead then current.next else current.prev
    {
      current := next;
      if current != null {
        next := if fromHead then current.next else current.prev;
      }
    }
  }

  /** listSearchKey: the first node that matches. */
  method SearchKey<T>(list: List<T>, matches: T -> bool) returns (node: Node?<T>)
    requires list.Valid()
    ensures node == null ==> forall i :: 0 <= i < |list.nodes| ==> !matches(list.nodes[i].value)
    ensures node != null ==> exists k :: 0 <= k < |list.nodes| && list.nodes[k] == node && matches(node.value)
                                         && forall i :: 0 <= i < k ==> !matches(list.nodes[i].value)
  {
    var iter := new Iter(list, true);
    ghost var k := 0;
    node := iter.Next();
    while node != null
      invariant 0 <= k <= |list.nodes| && node == At(list.nodes, k)
      invariant iter.fromHead && iter.next == if node == null then null else node.next
      invariant forall i :: 0 <= i < k ==> !matches(list.nodes[i].value)
      decreases |list.nodes| - k
    {
      if matches(node.value) {
        return;
      }
      node := iter.Next();
      k := k + 1;
    }
  }

  /** A node handed out, kept or deleted. */
  lemma FilterStep<T>(nodes: seq<Node<T>>, all: seq<Node<T>>, k: nat, keep: T -> bool)
    requires k < |all| && nodes == Filter(all[..k], keep) + all[k..]
    ensures var m := |Filter(all[..k], keep)|;
            && m < |nodes| && nodes[m] == all[k]
            && Filter(all[..k + 1], keep) + all[k + 1..] == if keep(all[k].value) then nodes else Without(nodes, m)
  {
    assert all[..k + 1][..k] == all[..k];
  }

  lemma NextInTail<T>(front: seq<Node<T>>, all: seq<Node<T>>, j: nat)
    requires j < |all| && Linked(front + all[j..])
    ensures all[j].next == At(all, j + 1)
  {
    assert (front + all[j..])[|front|] == all[j];
  }

  lemma {:induction false} FilterSubset<T>(nodes: seq<Node<T>>, keep: T -> bool)
    ensures forall i :: 0 <= i < |Filter(nodes, keep)| ==> Filter(nodes, keep)[i] in nodes
    decreases |nodes|
  {
    if nodes != [] {
      FilterSubset(nodes[..|nodes| - 1], keep);
    }
  }

  method DeleteIfRejected<T>(list: List<T>, node: Node<T>, keep: T -> bool, ghost all: seq<Node<T>>, ghost k: nat)
    requires list.Valid() && k < |all| && node == all[k] && list.nodes == Filter(all[..k], keep) + all[k..]
    modifies list, list.nodes
    ensures list.Valid() && list.nodes == Filter(all[..k + 1], keep) + all[k + 1..]
  {
    hide Filter, Linked, Distinct, Without;
    FilterStep(list.nodes, all, k, keep);
    if !keep(node.value) {
      list.UnlinkNode(node, |Filter(all[..k], keep)|);
    }
  }

  /** The use the iterator promises to support: every node is handed out once, in order, while
      the ones that fail are deleted on the way. */
  method DeleteRejected<T>(list: List<T>, keep: T -> bool) returns (visited: seq<Node<T>>)
    requires list.Valid()
    modifies list, list.nodes
    ensures list.Valid() && visited == old(list.nodes) && list.nodes == Filter(old(list.nodes), keep)
  {
    hide Filter, Linked, Distinct, Without;
    ghost var all, k: nat := list.nodes, 0;
    var iter := new Iter(list, true);
    visited := [];
    FilterStart(all, keep);
    while iter.next != null
      invariant k <= |all| && visited == all[..k]
      invariant iter.fromHead && iter.next == At(all, k) && fresh(iter)
      invariant list.Valid() && list.nodes == Filter(all[..k], keep) + all[k..]
      decreases |all| - k
    {
      NextInTail(Filter(all[..k], keep), all, k);
      var node: Node<T> := iter.Next();
      FilterSubset(all[..k], keep);
      DeleteIfRejected(list, node, keep, all, k);
      TakeMore(all, k);
      visited := visited + [node];
      k := k + 1;
    }
    assert all[k..] == [] && all[..k] == all;
  }

  lemma TakeMore<T>(all: seq<Node<T>>, k: nat)
    requires k < |all|
    ensures all[..k + 1] == all[..k] + [all[k]]
  {
  }

  lemma FilterStart<T>(all: seq<Node<T>>, keep: T -> bool)
    ensures all == Filter([], keep) + all[0..]
  {
  }
}
