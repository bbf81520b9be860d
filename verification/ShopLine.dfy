/** The line of people as the linked list it is. */
module ShopLine {
  import opened ShopModel

  /** What a person makes at the start of a visit. */
  class Node {
    const person: nat
    const race: Race
    const start: nat
    var next: Node?

    constructor (person: nat, race: Race, start: nat)
      ensures this.person == person && this.race == race && this.start == start && this.next == null
    {
      this.person, this.race, this.start, this.next := person, race, start, null;
    }
  }

  class Line {
    var head: Node?
    ghost var spine: seq<Node>

    ghost predicate Valid()
      reads this, spine
    {
      && head == NodeAt(0)
      && (forall i | 0 <= i < |spine| :: spine[i].next == NodeAt(i + 1))
      && (forall i, j | 0 <= i < j < |spine| :: spine[i] != spine[j])
    }

    ghost function NodeAt(i: nat): Node?
      reads this
    {
      if i < |spine| then spine[i] else null
    }

    constructor ()
      ensures Valid() && spine == []
    {
      head, spine := null, [];
    }

    method Add(node: Node)
      requires Valid() && node !in spine && node.next == null
      modifies this, spine
      ensures Valid() && spine == old(spine) + [node] && node.next == null
    {
      if head == null {
        head, spine := node, [node];
        return;
      }
      var cur := head;
      ghost var k := 0;
      while cur.next != null
        invariant k < |spine| && cur == spine[k]
        decreases |spine| - k
      {
        cur := cur.next;
        k := k + 1;
      }
      cur.next := node;
      spine := spine + [node];
    }

    method Delete(node: Node)
      requires Valid()
      modifies this, spine
      ensures Valid() && spine == Unlinked(old(spine), node)
    {
      ghost var q := spine;
      if head == node {
        head, spine := head.next, spine[1..];
        return;
      }
      var cur := head;
      if cur == null {
        return;
      }
      ghost var k := 1;
      while cur.next != null
        invariant Valid() && spine == q && 1 <= k <= |spine| && cur == spine[k - 1]
        invariant Unlinked(q, node) == q[..k] + Unlinked(q[k..], node)
        decreases |spine| - k
      {
        if cur.next == node {
          Unlink(cur, k);
          assert Unlinked(q[k..], node) == q[k + 1..];
          return;
        }
        UnlinkedStep(q, k, node);
        cur := cur.next;
        k := k + 1;
      }
      assert q[..k] + q[k..] == q;
    }

    /** Link cur, the (k-1)-st node, to the one behind its next. */
    method Unlink(cur: Node, ghost k: nat)
      requires Valid() && 1 <= k < |spine| && cur == spine[k - 1]
      modifies this`spine, cur`next
      ensures Valid() && spine == old(spine)[..k] + old(spine)[k + 1..]
    {
      cur.next := cur.next.next;
      spine := spine[..k] + spine[k + 1..];
    }

    method Contains(node: Node) returns (found: bool)
      requires Valid()
      ensures found == (node in spine)
    {
      if head == node {
        return true;
      }
      if head == null {
        return false;
      }
      var cur := head;
      ghost var k := 1;
      while cur.next != null
        invariant 1 <= k <= |spine| && cur == spine[k - 1] && node !in spine[..k]
        decreases |spine| - k
      {
        if cur.next == node {
          assert spine[k] == node;
          return true;
        }
        assert spine[..k + 1] == spine[..k] + [cur.next];
        cur := cur.next;
        k := k + 1;
      }
      assert spine[..k] == spine;
      found := false;
    }
  }

  /** The list without the given node. */
  ghost function Unlinked(q: seq<Node>, x: Node): seq<Node> {
    if q == [] then [] else if q[0] == x then q[1..] else [q[0]] + Unlinked(q[1..], x)
  }

  lemma UnlinkedStep(q: seq<Node>, k: nat, x: Node)
    requires k < |q| && q[k] != x && Unlinked(q, x) == q[..k] + Unlinked(q[k..], x)
    ensures Unlinked(q, x) == q[..k + 1] + Unlinked(q[k + 1..], x)
  {
    assert q[k..][1..] == q[k + 1..];
    assert q[..k + 1] == q[..k] + [q[k]];
  }
}
