/**
 `move` and the respawn step on the shared data they update in place: the car records, the
 quadrant flags, the permit counter and the four linked lists.
 */
module IntersectionMachine {
  import opened IntersectionModel
  import opened IntersectionLists

  class Crossing {
    const cars: array<Car>
    const quads: array<bool>
    const intents: seq<IntentList>
    var drivingPermits: int
    ghost var queue: seq<seq<nat>>  // what the lists hold
    ghost var nodes: set<Node>      // all the nodes they consist of

    /** What main sets up, given the records of the cars. */
    constructor (vehicles: array<Car>)
      requires forall c | 0 <= c < vehicles.Length :: CarShape(vehicles[c])
      ensures Valid() && View() == State(vehicles[..], [true, true, true, true], 3, [[], [], [], []])
    {
      var lists := EmptyLists();
      cars, quads, intents, drivingPermits := vehicles, new bool[4](_ => true), lists, 3;
      queue, nodes := [[], [], [], []], {};
      new;
      assert quads[..] == [true, true, true, true];
      FreshShape(View());
    }

    /** The lists are four different objects; having different homes, they have no node in common. */
    ghost predicate ListsOk()
      reads this`queue, this`nodes, intents, nodes
    {
      && |intents| == 4 && |queue| == 4
      && (forall k, l | 0 <= k < l < 4 :: intents[k] != intents[l])
      && (forall k | 0 <= k < 4 :: forall n | n in intents[k].spine :: n in nodes)
      && (forall k | 0 <= k < 4 :: intents[k].Valid() && intents[k].Cars() == queue[k])
    }

    ghost predicate Valid()
      reads this, cars, quads, intents, nodes
    {
      quads.Length == 4 && ListsOk() && Shape(View())
    }

    ghost function View(): State
      reads this, cars, quads
    {
      State(cars[..], quads[..], drivingPermits, queue)
    }

    /** Only list k was written, so the others are as they were. */
    twostate lemma OthersStand(k: nat)
      requires old(ListsOk()) && k < 4
      requires forall l | 0 <= l < 4 && l != k :: unchanged(intents[l]) && unchanged(intents[l].spine)
      ensures forall l | 0 <= l < 4 && l != k :: intents[l].Valid()
    {
      forall l | 0 <= l < 4 && l != k
        ensures intents[l].Valid()
      {
        intents[l].Untouched();
      }
    }

    /** The first half of both queueing branches of move. */
    method JoinQueue(c: nat, k: nat)
      requires Valid() && c < cars.Length && k == Target(cars[c])
      modifies this`queue, this`nodes, intents[k], intents[k].spine
      ensures Valid() && View() == Enqueue(old(View()), c)
      ensures intents[k].head != null && intents[k].head.car == View().queue[k][0]
      ensures forall n | n in nodes :: n in old(nodes) || fresh(n)
    {
      assert ListShape(View(), View().queue[k]);
      EnterList(c, k);
      assert View() == Enqueue(old(View()), c);
    }

    method EnterList(c: nat, k: nat)
      requires ListsOk() && c < cars.Length && k < 4 && forall i | 0 <= i < |queue[k]| :: queue[k][i] < cars.Length
      modifies this`queue, this`nodes, intents[k], intents[k].spine
      ensures ListsOk() && queue == old(queue)[k := Queued(cars[..], old(queue)[k], c)]
      ensures forall n | n in nodes :: n in old(nodes) || fresh(n)
    {
      var found := intents[k].Contains(c);
      if !found {
        AddToList(c, k);
      }
    }

    method AddToList(c: nat, k: nat)
      requires ListsOk() && c < cars.Length && k < 4 && forall i | 0 <= i < |queue[k]| :: queue[k][i] < cars.Length
      modifies this`queue, this`nodes, intents[k], intents[k].spine
      ensures ListsOk() && queue == old(queue)[k := Added(cars[..], old(queue)[k], c)]
      ensures forall n | n in nodes :: n in old(nodes) || fresh(n)
    {
      var node := new Node(c, null, intents[k]);
      queue, nodes := queue[k := Added(cars[..], queue[k], c)], nodes + {node};
      intents[k].Add(cars[..], node);
      OthersStand(k);
    }

    /** remove_car on list k. */
    method LeaveList(c: nat, k: nat)
      requires ListsOk() && k < 4
      modifies this`queue, intents[k], intents[k].spine
      ensures ListsOk() && queue == old(queue)[k := Removed(old(queue)[k], c)]
    {
      intents[k].Remove(c);
      OthersStand(k);
      queue := queue[k := Removed(queue[k], c)];
    }

    method Move(c: nat) returns (advanced: bool)
      requires Valid() && c < cars.Length && cars[c].movesLeft > 0
      modifies this, cars, quads, intents, nodes
      ensures Valid() && View() == IntersectionModel.Move(old(View()), c).state
      ensures advanced == IntersectionModel.Move(old(View()), c).advanced
    {
      assert CarShape(View().cars[c]);
      var car := cars[c];
      if car.location == 0 {
        JoinQueue(c, car.lane - 1);
        advanced := quads[car.lane - 1] && drivingPermits != 0 && cars[intents[car.lane - 1].head.car].tid == car.tid;
        if advanced {
          Enter(c);
        }
      } else if car.movesLeft == 1 {
        Leave(c);
        advanced := true;
      } else {
        var k := car.location % 4;
        JoinQueue(c, k);
        advanced := quads[k] && (cars[intents[k].head.car].tid == car.tid || drivingPermits == 0);
        if advanced {
          Cross(c);
        }
      }
    }

    method Enter(c: nat)
      requires Valid() && c < cars.Length && cars[c].location == 0
      modifies this, cars, quads, intents, nodes
      ensures Valid() && View() == IntersectionModel.Enter(old(View()), c)
    {
      assert CarShape(View().cars[c]);
      EnterShape(View(), c);
      LeaveList(c, cars[c].lane - 1);
      TakeLaneQuad(c);
      assert ListsOk();
    }

    /** The writes of the entering branch to permits, car and flags. */
    method TakeLaneQuad(c: nat)
      requires quads.Length == 4 && c < cars.Length && CarShape(cars[c])
      modifies this`drivingPermits, cars, quads
      ensures drivingPermits == old(drivingPermits) - 1
      ensures cars[..] == old(cars[..])[c := old(cars[c]).(location := old(cars[c].lane))]
      ensures quads[..] == old(quads[..])[old(cars[c].lane) - 1 := false]
    {
      drivingPermits := drivingPermits - 1;
      cars[c] := cars[c].(location := cars[c].lane);
      quads[cars[c].location - 1] := false;
    }

    method Leave(c: nat)
      requires Valid() && c < cars.Length && cars[c].location != 0 && cars[c].movesLeft == 1
      modifies this`drivingPermits, cars, quads
      ensures Valid() && View() == IntersectionModel.Leave(old(View()), c)
    {
      assert CarShape(View().cars[c]);
      LeaveShape(View(), c);
      FreeQuad(c);
      assert ListsOk();
    }

    method FreeQuad(c: nat)
      requires quads.Length == 4 && c < cars.Length && CarShape(cars[c]) && cars[c].location != 0
      requires cars[c].movesLeft == 1
      modifies this`drivingPermits, cars, quads
      ensures drivingPermits == old(drivingPermits) + 1
      ensures cars[..] == old(cars[..])[c := old(cars[c]).(location := 0, movesLeft := 0)]
      ensures quads[..] == old(quads[..])[old(cars[c].location) - 1 := true]
    {
      drivingPermits := drivingPermits + 1;
      quads[cars[c].location - 1] := true;
      cars[c] := cars[c].(location := 0);
      cars[c] := cars[c].(movesLeft := cars[c].movesLeft - 1);
    }

    method Cross(c: nat)
      requires Valid() && c < cars.Length && cars[c].location != 0 && cars[c].movesLeft > 1
      modifies this, cars, quads, intents, nodes
      ensures Valid() && View() == IntersectionModel.Cross(old(View()), c)
    {
      assert CarShape(View().cars[c]);
      CrossShape(View(), c);
      LeaveList(c, cars[c].location % 4);
      Advance(c);
      assert ListsOk();
    }

    method Advance(c: nat)
      requires quads.Length == 4 && c < cars.Length && CarShape(cars[c]) && cars[c].location != 0
      requires cars[c].movesLeft > 1
      modifies cars, quads
      ensures var car := old(cars[c]);
        cars[..] == old(cars[..])[c := car.(location := car.location % 4 + 1, movesLeft := car.movesLeft - 1)]
      ensures quads[..] == old(quads[..])[old(cars[c].location) - 1 := true][old(cars[c].location) % 4 := false]
    {
      quads[cars[c].location - 1] := true;
      cars[c] := cars[c].(location := cars[c].location % 4 + 1);
      quads[cars[c].location - 1] := false;
      cars[c] := cars[c].(movesLeft := cars[c].movesLeft - 1);
    }

    method Respawn(c: nat, time: nat, lane: nat, moves: nat)
      requires Valid() && c < cars.Length && cars[c].movesLeft == 0 && 1 <= lane <= 4 && 1 <= moves <= 3
      modifies cars
      ensures Valid() && View() == IntersectionModel.Respawn(old(View()), c, time, lane, moves)
      ensures cars[..] == old(cars[..])[c := Car(time, old(cars[c].tid), lane, moves, 0)]
    {
      cars[c] := cars[c].(spawnTime := time, location := 0, lane := lane, movesLeft := moves);
    }
  }

  lemma {:induction false} RemovedShape(s: State, q: seq<nat>, c: nat)
    requires ListShape(s, q)
    ensures ListShape(s, Removed(q, c))
  {
    if q != [] && q[0] != c {
      RemovedShape(s, q[1..], c);
    }
  }

  method EmptyLists() returns (lists: seq<IntentList>)
    ensures |lists| == 4 && forall k | 0 <= k < 4 :: fresh(lists[k]) && lists[k].Valid() && lists[k].spine == []
    ensures forall k, l | 0 <= k < l < 4 :: lists[k] != lists[l]
  {
    var a := new IntentList();
    var b := new IntentList();
    var c := new IntentList();
    var d := new IntentList();
    lists := [a, b, c, d];
  }

  lemma FreshShape(s: State)
    requires |s.free| == 4 && s.queue == [[], [], [], []] && forall c | 0 <= c < |s.cars| :: CarShape(s.cars[c])
    ensures Shape(s)
  {
  }

  lemma EnterShape(s: State, c: nat)
    requires Shape(s) && c < |s.cars| && s.cars[c].location == 0
    ensures Shape(Enter(s, c))
  {
    var k := s.cars[c].lane - 1;
    RemovedShape(s, s.queue[k], c);
  }

  lemma LeaveShape(s: State, c: nat)
    requires Shape(s) && c < |s.cars| && s.cars[c].location != 0 && s.cars[c].movesLeft == 1
    ensures Shape(Leave(s, c))
  {
  }

  lemma CrossShape(s: State, c: nat)
    requires Shape(s) && c < |s.cars| && s.cars[c].location != 0 && s.cars[c].movesLeft > 1
    ensures Shape(Cross(s, c))
  {
    var k := s.cars[c].location % 4;
    RemovedShape(s, s.queue[k], c);
  }
}
