/**
 The linked lists of cars waiting for a quadrant, node by node. The ghost spine lists the
 nodes from the head on; its elements being pairwise different is what makes the list acyclic.
 */
module IntersectionLists {
  import opened IntersectionModel

  class Node {
    const car: nat
    var next: Node?
    ghost const home: IntentList  // the list the node was made for

    constructor (car: nat, next: Node?, ghost home: IntentList)
      ensures this.car == car && this.next == next && this.home == home
    {
      this.car, this.next, this.home := car, next, home;
    }
  }

  ghost function CarsOf(spine: seq<Node>): (r: seq<nat>)
    ensures |r| == |spine| && forall i | 0 <= i < |r| :: r[i] == spine[i].car
  {
    seq(|spine|, i requires 0 <= i < |spine| => spine[i].car)
  }

  lemma CarsSpliced(spine: seq<Node>, k: nat, node: Node)
    requires k <= |spine|
    ensures CarsOf(spine[..k] + [node] + spine[k..]) == CarsOf(spine)[..k] + [node.car] + CarsOf(spine)[k..]
  {
  }

  class IntentList {
    var head: Node?
    ghost var spine: seq<Node>

    ghost predicate Valid()
      reads this, spine
    {
      && head == NodeAt(0)
      && (forall i | 0 <= i < |spine| :: spine[i].next == NodeAt(i + 1) && spine[i].home == this)
      && (forall i, j | 0 <= i < j < |spine| :: spine[i] != spine[j])
    }

    /** The i-th node, or null behind the last. */
    ghost function NodeAt(i: nat): Node?
      reads this
    {
      if i < |spine| then spine[i] else null
    }

    ghost function Cars(): (r: seq<nat>)
      reads this
    {
      CarsOf(spine)
    }

    constructor ()
      ensures Valid() && Cars() == [] && spine == []
    {
      head, spine := null, [];
    }

    /** A list none of whose objects was written is still a list. */
    twostate lemma Untouched()
      requires old(Valid()) && unchanged(this) && unchanged(spine)
      ensures Valid()
    {
      forall i | 0 <= i < |spine|
        ensures spine[i].next == NodeAt(i + 1)
      {
        assert spine[i] in spine && old(spine[i].next) == old(NodeAt(i + 1));
      }
    }

    method Contains(car: nat) returns (found: bool)
      requires Valid()
      ensures found == (car in Cars())
    {
      var cur := head;
      ghost var n := 0;
      while cur != null
        invariant n <= |spine| && cur == NodeAt(n) && car !in Cars()[..n]
        decreases |spine| - n
      {
        if cur.car == car {
          assert Cars()[n] == car;
          return true;
        }
        assert Cars()[..n + 1] == Cars()[..n] + [cur.car];
        cur := cur.next;
        n := n + 1;
      }
      assert Cars()[..n] == Cars();
      found := false;
    }

    /** add_car, the node having been made. */
    method Add(cars: seq<Car>, node: Node)
      requires Valid() && node !in spine && node.home == this
      requires node.car < |cars| && forall i | 0 <= i < |Cars()| :: Cars()[i] < |cars|
      modifies this, spine, node
      ensures Valid() && Cars() == Added(cars, old(Cars()), node.car)
      ensures forall n | n in spine :: n in old(spine) || n == node
    {
      assert head != null ==> Cars()[0] == head.car;
      if head == null || cars[head.car].spawnTime > cars[node.car].spawnTime {
        AddFront(node);
      } else {
        var cur, k := Walk(cars, node.car);
        AddBehind(cur, node, k);
      }
    }

    method AddFront(node: Node)
      requires Valid() && node !in spine && node.home == this
      modifies this, node
      ensures Valid() && spine == [node] + old(spine)
    {
      node.next := head;
      head := node;
      spine := [node] + spine;
    }

    method AddBehind(cur: Node, node: Node, ghost k: nat)
      requires Valid() && 1 <= k <= |spine| && cur == spine[k - 1] && node !in spine && node.home == this
      modifies this`spine, cur`next, node`next
      ensures Valid() && spine == old(spine)[..k] + [node] + old(spine)[k..]
      ensures Cars() == old(Cars())[..k] + [node.car] + old(Cars())[k..]
    {
      CarsSpliced(spine, k, node);
      node.next := cur.next;
      InsertAfter(cur, node, k);
    }

    /** The walk of add_car past the head: the node to link behind, and its position. */
    method Walk(cars: seq<Car>, car: nat) returns (cur: Node, ghost k: nat)
      requires Valid() && spine != [] && car < |cars| && forall i | 0 <= i < |Cars()| :: Cars()[i] < |cars|
      ensures 1 <= k <= |spine| && cur == spine[k - 1] && k == Place(cars, Cars(), car, 1)
    {
      cur, k := head, 1;
      while cur.next != null && cars[cur.next.car].spawnTime < cars[car].spawnTime
        invariant 1 <= k <= |spine| && cur == spine[k - 1] && Place(cars, Cars(), car, 1) == Place(cars, Cars(), car, k)
        decreases |spine| - k
      {
        cur := cur.next;
        k := k + 1;
      }
    }

    /** Link a new node behind cur, the (k-1)-st. */
    method InsertAfter(cur: Node, node: Node, ghost k: nat)
      requires Valid() && 1 <= k <= |spine| && cur == spine[k - 1] && node !in spine && node.home == this
      requires node.next == cur.next
      modifies this`spine, cur`next
      ensures Valid() && spine == old(spine)[..k] + [node] + old(spine)[k..]
    {
      cur.next := node;
      spine := spine[..k] + [node] + spine[k..];
    }

    /** Link cur, the (k-1)-st node, to the one behind its next. */
    method Unlink(cur: Node, ghost k: nat)
      requires Valid() && 1 <= k < |spine| && cur == spine[k - 1]
      modifies this`spine, cur`next
      ensures Valid() && spine == old(spine)[..k] + old(spine)[k + 1..]
    {
      cur.next := cur.next.next;
      spine := spine[..k] + spine[k + 1..];
    }

    method Remove(car: nat)
      requires Valid()
      modifies this, spine
      ensures Valid() && Cars() == Removed(old(Cars()), car)
      ensures forall n | n in spine :: n in old(spine)
    {
      if head == null {
        return;
      }
      if head.car == car {
        head := head.next;
        spine := spine[1..];
        return;
      }
      var cur, k := FindBefore(car);
      if cur != null {
        Unlink(cur, k);
      }
    }

    /** The node whose next is the first one of the car, and the position of that; null if there is none. */
    method FindBefore(car: nat) returns (cur: Node?, ghost k: nat)
      requires Valid() && spine != [] && head.car != car
      ensures cur == null ==> Removed(Cars(), car) == Cars()
      ensures cur != null ==>
        1 <= k < |spine| && cur == spine[k - 1] && Removed(Cars(), car) == CarsOf(spine[..k] + spine[k + 1..])
    {
      ghost var q := Cars();
      cur, k := head, 1;
      while cur.next != null
        invariant cur != null && 1 <= k <= |spine| && cur == spine[k - 1]
        invariant Removed(q, car) == q[..k] + Removed(q[k..], car)
        decreases |spine| - k
      {
        if cur.next.car == car {
          assert Removed(q[k..], car) == q[k + 1..];
          assert CarsOf(spine[..k] + spine[k + 1..]) == q[..k] + q[k + 1..];
          return;
        }
        RemovedStep(q, k, car);
        cur := cur.next;
        k := k + 1;
      }
      assert q[..k] + q[k..] == q;
      cur := null;
    }

    lemma RemovedStep(q: seq<nat>, k: nat, car: nat)
      requires k < |q| && q[k] != car && Removed(q, car) == q[..k] + Removed(q[k..], car)
      ensures Removed(q, car) == q[..k + 1] + Removed(q[k + 1..], car)
    {
      assert q[k..][1..] == q[k + 1..];
      assert q[..k + 1] == q[..k] + [q[k]];
    }
  }
}
