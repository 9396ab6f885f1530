/** The intrusive doubly linked list that threads requests, communicators and waiting guards. */
module IntrusiveList {
  import opened Common

  /** The link fields that every list element carries. */
  class Node {
    var prev: Node?
    var next: Node?
    var inserted: bool

    predicate Detached()
      reads this
    {
      prev == null && next == null && !inserted
    }

    constructor ()
      ensures Detached()
    {
      prev, next, inserted := null, null, false;
    }
  }

  /** The first position of `x` in `s`. */
  ghost function Index<T>(s: seq<T>, x: T): (k: nat)
    requires x in s
    ensures k < |s| && s[k] == x
  {
    if s[0] == x then 0 else 1 + Index(s[1..], x)
  }

  /** Removing an element closes the gap at its position. */
  lemma {:induction false} RemoveByIndex<T>(s: seq<T>, x: T)
    requires x in s
    ensures Remove(s, x) == s[..Index(s, x)] + s[Index(s, x) + 1..]
  {
    if s[0] != x {
      RemoveByIndex(s[1..], x);
    }
  }

  class DoubleLinkedList {
    var head: Node?
    var tail: Node?
    var size: nat
    /** The node sequence that the links represent. */
    ghost var spine: seq<Node>

    ghost predicate Valid()
      reads this, spine
    {
      && Distinct(spine)
      && size == |spine|
      && head == (if spine == [] then null else spine[0])
      && tail == (if spine == [] then null else spine[|spine| - 1])
      && forall i :: 0 <= i < |spine| ==> Linked(i)
    }

    ghost predicate Linked(i: nat)
      requires i < |spine|
      reads this, spine
    {
      && spine[i].inserted
      && spine[i].prev == (if i == 0 then null else spine[i - 1])
      && spine[i].next == (if i == |spine| - 1 then null else spine[i + 1])
    }

    /** A node that is not marked as inserted is in no list. */
    lemma DetachedIsNoMember(node: Node)
      requires Valid() && !node.inserted
      ensures node !in spine
    {
      assert forall i :: 0 <= i < |spine| && Linked(i) ==> spine[i].inserted;
    }

    constructor ()
      ensures Valid() && spine == []
    {
      head, tail, size, spine := null, null, 0, [];
    }

    method PushBack(node: Node?)
      requires Valid()
      requires node != null ==> node.Detached()
      modifies this, node, tail
      ensures Valid()
      ensures spine == if node == null then old(spine) else old(spine) + [node]
    {
      if node == null {
        return;
      }
      DetachedIsNoMember(node);
      ghost var was := spine;
      assert forall i :: 0 <= i < |was| ==> was[i] != node;
      if tail == null {
        head, tail := node, node;
      } else {
        tail.next := node;
        node.prev := tail;
        tail := node;
      }
      node.inserted := true;
      size := size + 1;
      spine := was + [node];
      forall i | 0 <= i < |spine| ensures Linked(i) {
        if i < |was| {
          assert spine[i] == was[i] && old(Linked(i));
        }
      }
    }

    method PushFront(node: Node?)
      requires Valid()
      requires node != null ==> node.Detached()
      modifies this, node, head
      ensures Valid()
      ensures spine == if node == null then old(spine) else [node] + old(spine)
    {
      if node == null {
        return;
      }
      DetachedIsNoMember(node);
      ghost var was := spine;
      assert forall i :: 0 <= i < |was| ==> was[i] != node;
      if head == null {
        head, tail := node, node;
      } else {
        head.prev := node;
        node.next := head;
        head := node;
      }
      node.inserted := true;
      size := size + 1;
      spine := [node] + was;
      forall i | 0 <= i < |spine| ensures Linked(i) {
        if i > 0 {
          assert spine[i] == was[i - 1] && old(Linked(i - 1));
        }
      }
    }

    /** The links around a member are closed over it. */
    method Unlink(node: Node) returns (after: Node?)
      requires Valid() && node in spine
      modifies this, node, node.prev, node.next
      ensures Valid() && node.Detached()
      ensures
        var was, k := old(spine), Index(old(spine), node);
        spine == was[..k] + was[k + 1..] && after == if k + 1 < |was| then was[k + 1] else null
    {
      ghost var was, k := spine, Index(spine, node);
      assert Linked(k);
      assert k > 0 ==> Linked(k - 1);
      assert k + 1 < |was| ==> Linked(k + 1);
      after := node.next;
      if node.prev != null {
        node.prev.next := node.next;
      } else {
        head := node.next;
      }
      if node.next != null {
        node.next.prev := node.prev;
      } else {
        tail := node.prev;
      }
      node.inserted := false;
      node.next := null;
      node.prev := null;
      size := size - 1;
      spine := was[..k] + was[k + 1..];
      forall i | 0 <= i < |spine| ensures Linked(i) {
        var j := if i < k then i else i + 1;
        assert old(Linked(j)) && spine[i] == was[j] && was[j] != node;
      }
    }

    /** Unlinks a member and returns its successor, the position at which an iteration goes on. */
    method Erase(node: Node?) returns (after: Node?)
      requires Valid()
      requires node != null ==> node in spine
      modifies this, node, if node == null then {} else {node.prev, node.next}
      ensures Valid()
      ensures node == null ==> after == null && spine == old(spine)
      ensures node != null ==> node.Detached() && spine == Remove<Node>(old(spine), node)
      ensures node != null ==>
        var k := Index<Node>(old(spine), node);
        after == if k + 1 < |old(spine)| then old(spine)[k + 1] else null
    {
      if node == null {
        return null;
      }
      RemoveByIndex<Node>(spine, node);
      after := Unlink(node);
    }

    /** Walking from begin() along next until the end meets exactly the represented sequence. */
    method Iterate() returns (seen: seq<Node>)
      requires Valid()
      ensures seen == spine
    {
      seen := [];
      var node := head;
      while node != null
        invariant |seen| <= |spine| && seen == spine[..|seen|]
        invariant node == if |seen| < |spine| then spine[|seen|] else null
        decreases |spine| - |seen|
      {
        assert Linked(|seen|);
        seen := seen + [node];
        node := node.next;
      }
    }
  }

  datatype ListOp = Back(node: Node) | Front(node: Node) | Unlink(node: Node)

  /** What one operation does to the represented sequence. */
  ghost function Apply(s: seq<Node>, op: ListOp): seq<Node>
    requires op.Unlink? ==> op.node in s
  {
    match op
    case Back(n) => s + [n]
    case Front(n) => [n] + s
    case Unlink(n) => Remove(s, n)
  }

  /** Every insertion is of a non-member and every removal of a member, step by step. */
  ghost predicate Legal(s: seq<Node>, ops: seq<ListOp>)
    decreases |ops|
  {
    ops == [] ||
    ((ops[0].Unlink? <==> ops[0].node in s) && Legal(Apply(s, ops[0]), ops[1..]))
  }

  ghost function ApplyAll(s: seq<Node>, ops: seq<ListOp>): seq<Node>
    requires Legal(s, ops)
    decreases |ops|
  {
    if ops == [] then s else ApplyAll(Apply(s, ops[0]), ops[1..])
  }

  /** How often `ops` inserts (or, for `removals`, removes) the node `x`. */
  ghost function Occurrences(ops: seq<ListOp>, x: Node, removals: bool): nat {
    if ops == [] then 0
    else (if ops[0].node == x && ops[0].Unlink? == removals then 1 else 0) + Occurrences(ops[1..], x, removals)
  }

  lemma ApplyKeepsDistinct(s: seq<Node>, op: ListOp)
    requires Distinct(s) && (op.Unlink? <==> op.node in s)
    ensures Distinct(Apply(s, op))
    ensures forall y :: y in Apply(s, op) <==> if y == op.node then !op.Unlink? else y in s
  {
    if op.Unlink? {
      RemoveKeepsTheRest(s, op.node);
    }
  }

  /** No legal run duplicates a node, and membership is what was inserted and not removed again. */
  lemma {:induction false} LegalRunsConserveNodes(s: seq<Node>, ops: seq<ListOp>, x: Node)
    requires Distinct(s) && Legal(s, ops)
    ensures Distinct(ApplyAll(s, ops))
    ensures (if x in ApplyAll(s, ops) then 1 else 0) + Occurrences(ops, x, true)
      == (if x in s then 1 else 0) + Occurrences(ops, x, false)
    decreases |ops|
  {
    if ops != [] {
      ApplyKeepsDistinct(s, ops[0]);
      LegalRunsConserveNodes(Apply(s, ops[0]), ops[1..], x);
    }
  }

  method Perform(list: DoubleLinkedList, op: ListOp)
    requires list.Valid() && (op.Unlink? <==> op.node in list.spine)
    requires !op.Unlink? ==> op.node.Detached()
    modifies list, list.spine, op.node
    ensures list.Valid() && list.spine == Apply(old(list.spine), op)
    ensures op.Unlink? ==> op.node.Detached()
    ensures op.Back? ==> list.spine == old(list.spine) + [op.node]
    ensures op.Front? ==> list.spine == [op.node] + old(list.spine)
    ensures op.Unlink? ==>
      exists i :: 0 <= i < |old(list.spine)| && old(list.spine)[i] == op.node
                  && list.spine == old(list.spine)[..i] + old(list.spine)[i + 1..]
  {
    ghost var before := list.spine;
    assert list.tail != null ==> list.tail in list.spine;
    assert list.head != null ==> list.head in list.spine;
    match op {
      case Back(n) => list.PushBack(n);
      case Front(n) => list.PushFront(n);
      case Unlink(n) =>
        assert list.Linked(Index(list.spine, n));
        var _ := list.Erase(n);
        ghost var i := Index(before, n);
        RemoveByIndex(before, n);
        assert before[i] == n && list.spine == before[..i] + before[i + 1..];
    }
  }

  /** The list's nodes are among `nodes`, and the nodes outside the list are detached. */
  ghost predicate Tracks(list: DoubleLinkedList, nodes: set<Node>)
    reads list, nodes
  {
    && (forall n :: n in list.spine ==> n in nodes)
    && (forall n :: n in nodes && n !in list.spine ==> n.Detached())
  }

  method PerformAmong(list: DoubleLinkedList, op: ListOp, ghost nodes: set<Node>)
    requires list.Valid() && Tracks(list, nodes) && op.node in nodes && (op.Unlink? <==> op.node in list.spine)
    modifies list, nodes
    ensures list.Valid() && Tracks(list, nodes) && list.spine == Apply(old(list.spine), op)
  {
    ghost var before := list.spine;
    Perform(list, op);
    ApplyKeepsDistinct(before, op);
    assert forall n :: n in nodes && n !in list.spine && n != op.node ==> n !in before && old(n.Detached());
  }

  lemma NextOp(s: seq<Node>, ops: seq<ListOp>, i: nat)
    requires i < |ops| && Legal(s, ops[i..])
    ensures (ops[i].Unlink? <==> ops[i].node in s) && Legal(Apply(s, ops[i]), ops[i + 1..])
    ensures ApplyAll(s, ops[i..]) == ApplyAll(Apply(s, ops[i]), ops[i + 1..])
  {
    assert ops[i..][0] == ops[i] && ops[i..][1..] == ops[i + 1..];
  }

  /** Any legal sequence of calls on the linked structure is the same sequence on its represented nodes. */
  method Replay(list: DoubleLinkedList, ops: seq<ListOp>, ghost nodes: set<Node>)
    requires list.Valid() && Tracks(list, nodes) && Legal(list.spine, ops)
    requires forall op :: op in ops ==> op.node in nodes
    modifies list, nodes
    ensures list.Valid() && Tracks(list, nodes)
    ensures list.spine == ApplyAll(old(list.spine), ops)
  {
    var i := 0;
    while i < |ops|
      invariant i <= |ops| && list.Valid() && Tracks(list, nodes) && Legal(list.spine, ops[i..])
      invariant ApplyAll(list.spine, ops[i..]) == ApplyAll(old(list.spine), ops)
    {
      NextOp(list.spine, ops, i);
      assert ops[i] in ops;
      PerformAmong(list, ops[i], nodes);
      i := i + 1;
    }
  }
}
