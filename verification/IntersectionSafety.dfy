/**
 Safety of the intersection: the invariant holds in every reachable state.
 */
module IntersectionSafety {
  import opened IntersectionModel

  // ----- Lists -----

  /** Where add_car puts the car: behind all that spawned no later, as far as it looks. */
  lemma AddedAt(cars: seq<Car>, q: seq<nat>, c: nat) returns (k: nat)
    requires c < |cars| && forall i | 0 <= i < |q| :: q[i] < |cars|
    ensures k <= |q| && Added(cars, q, c) == q[..k] + [c] + q[k..]
    ensures forall i | 0 <= i < k :: cars[q[i]].spawnTime <= cars[c].spawnTime
    ensures k < |q| ==> cars[c].spawnTime <= cars[q[k]].spawnTime
  {
    if q == [] || cars[q[0]].spawnTime > cars[c].spawnTime {
      k := 0;
      assert q[..0] == [] && q[0..] == q;
    } else {
      k := Place(cars, q, c, 1);
    }
  }

  lemma AddedElements(cars: seq<Car>, q: seq<nat>, c: nat)
    requires c < |cars| && forall i | 0 <= i < |q| :: q[i] < |cars|
    ensures forall x :: x in Added(cars, q, c) <==> x in q || x == c
    ensures Distinct(q) && c !in q ==> Distinct(Added(cars, q, c))
    ensures |Added(cars, q, c)| == |q| + 1
  {
    var k := AddedAt(cars, q, c);
    SplicedElements(q, k, c);
  }

  lemma SplicedElements(q: seq<nat>, k: nat, c: nat)
    requires k <= |q|
    ensures var r := q[..k] + [c] + q[k..];
      (forall x :: x in r <==> x in q || x == c) && (Distinct(q) && c !in q ==> Distinct(r))
  {
    var r := q[..k] + [c] + q[k..];
    assert q == q[..k] + q[k..];
    assert forall i | 0 <= i < |r| :: r[i] == if i < k then q[i] else if i == k then c else q[i - 1];
  }

  lemma AddedSorted(cars: seq<Car>, q: seq<nat>, c: nat)
    requires c < |cars| && Sorted(cars, q)
    ensures Sorted(cars, Added(cars, q, c))
  {
    var k := AddedAt(cars, q, c);
    SplicedSorted(cars, q, k, c);
  }

  lemma SplicedSorted(cars: seq<Car>, q: seq<nat>, k: nat, c: nat)
    requires c < |cars| && Sorted(cars, q) && k <= |q|
    requires forall i | 0 <= i < k :: cars[q[i]].spawnTime <= cars[c].spawnTime
    requires k < |q| ==> cars[c].spawnTime <= cars[q[k]].spawnTime
    ensures Sorted(cars, q[..k] + [c] + q[k..])
  {
    var r := q[..k] + [c] + q[k..];
    assert forall i | 0 <= i < |r| :: r[i] == if i < k then q[i] else if i == k then c else q[i - 1];
  }

  lemma {:induction false} RemovedElements(q: seq<nat>, c: nat)
    requires Distinct(q)
    ensures Distinct(Removed(q, c))
    ensures forall x :: x in Removed(q, c) <==> x in q && x != c
  {
    if q != [] && q[0] != c {
      RemovedElements(q[1..], c);
      assert q[0] !in q[1..];
      var r := Removed(q[1..], c);
      assert q[0] !in r && Removed(q, c) == [q[0]] + r;
    }
  }

  lemma {:induction false} RemovedSorted(cars: seq<Car>, q: seq<nat>, c: nat)
    requires Sorted(cars, q)
    ensures Sorted(cars, Removed(q, c))
    ensures forall x | x in Removed(q, c) :: x in q
  {
    if q != [] && q[0] != c {
      RemovedSorted(cars, q[1..], c);
      var r := Removed(q[1..], c);
      assert Removed(q, c) == [q[0]] + r;
      forall j | 0 <= j < |r|
        ensures r[j] < |cars| && cars[q[0]].spawnTime <= cars[r[j]].spawnTime
      {
        assert r[j] in r;
        var m :| 0 <= m < |q[1..]| && q[1..][m] == r[j];
        assert q[m + 1] == r[j];
      }
    }
  }

  // ----- Joining a queue -----

  lemma EnqueueKeepsQueues(s: State, c: nat)
    requires Inv(s) && c < |s.cars| && Wants(s.cars[c], Target(s.cars[c]))
    ensures QueuesOk(Enqueue(s, c)) && c in Enqueue(s, c).queue[Target(s.cars[c])]
  {
    var k, e := Target(s.cars[c]), Enqueue(s, c);
    assert QueueOk(s, k);
    AddedElements(s.cars, s.queue[k], c);
    AddedSorted(s.cars, s.queue[k], c);
    forall m | 0 <= m < 4
      ensures QueueOk(e, m)
    {
      assert QueueOk(s, m);
      if m == k {
        forall i | 0 <= i < |e.queue[k]|
          ensures Wants(e.cars[e.queue[k][i]], k)
        {
          assert e.queue[k][i] in e.queue[k];
        }
      }
    }
  }

  lemma EnqueueKeepsInv(s: State, c: nat)
    requires Inv(s) && c < |s.cars| && Wants(s.cars[c], Target(s.cars[c]))
    ensures Inv(Enqueue(s, c)) && c in Enqueue(s, c).queue[Target(s.cars[c])]
  {
    var e := Enqueue(s, c);
    EnqueueKeepsQueues(s, c);
    assert Inside(e) == Inside(s);
    assert QuadsOk(e) by {
      forall k | 0 <= k < 4 && !e.free[k]
        ensures exists d :: 0 <= d < |e.cars| && e.cars[d].location == k + 1
      {
        var d :| 0 <= d < |s.cars| && s.cars[d].location == k + 1;
        assert e.cars[d].location == k + 1;
      }
    }
  }

  // ----- One car changes and is in no queue afterwards -----

  ghost predicate OnlyCar(s: State, s': State, c: nat) {
    && c < |s.cars| && |s'.cars| == |s.cars| && |s'.free| == 4 && |s'.queue| == 4
    && (forall d | 0 <= d < |s.cars| && d != c :: s'.cars[d] == s.cars[d])
    && CarShape(s'.cars[c]) && s'.cars[c].tid == (s.cars[c].tid)
    && (s'.cars[c].location != 0 ==> s'.cars[c].movesLeft > 0)
  }

  lemma {:induction false} RemovedAbsent(q: seq<nat>, c: nat)
    requires c !in q
    ensures Removed(q, c) == q
  {
    if q != [] {
      RemovedAbsent(q[1..], c);
    }
  }

  /** A car is only ever in the queue of its target. */
  lemma OnlyTargetQueue(s: State, c: nat, k: nat)
    requires Shape(s) && QueuesOk(s) && c < |s.cars| && k < 4 && !Wants(s.cars[c], k)
    ensures c !in s.queue[k] && Removed(s.queue[k], c) == s.queue[k]
  {
    assert QueueOk(s, k);
    RemovedAbsent(s.queue[k], c);
  }

  lemma RemovalKeepsQueue(s: State, s': State, c: nat, k: nat)
    requires Shape(s) && QueuesOk(s) && OnlyCar(s, s', c) && k < 4 && s'.queue[k] == Removed(s.queue[k], c)
    ensures ListShape(s', s'.queue[k])
    ensures Shape(s') ==> QueueOk(s', k)
  {
    assert QueueOk(s, k);
    RemovedElements(s.queue[k], c);
    RemovedSorted(s.cars, s.queue[k], c);
    var q := s'.queue[k];
    forall i | 0 <= i < |q|
      ensures q[i] != c && q[i] < |s.cars| && s'.cars[q[i]] == s.cars[q[i]] && Wants(s.cars[q[i]], k)
    {
      assert q[i] in q;
      var j :| 0 <= j < |s.queue[k]| && s.queue[k][j] == q[i];
    }
  }

  /** Car c has left the queue it may have been in. */
  ghost predicate OffQueues(s: State, s': State, c: nat) {
    |s.queue| == |s'.queue| == 4 && forall k | 0 <= k < 4 :: s'.queue[k] == Removed(s.queue[k], c)
  }

  lemma ChangeKeepsCars(s: State, s': State, c: nat)
    requires CarsOk(s) && QueuesOk(s) && OnlyCar(s, s', c) && OffQueues(s, s', c)
    ensures CarsOk(s') && QueuesOk(s')
  {
    forall k | 0 <= k < 4
      ensures ListShape(s', s'.queue[k]) && (Shape(s') ==> QueueOk(s', k))
    {
      RemovalKeepsQueue(s, s', c, k);
    }
  }

  /** Car c moves or stays, onto a quadrant that was free, and frees the one it leaves. */
  ghost predicate QuadsFollow(s: State, s': State, c: nat)
    requires Shape(s) && Shape(s') && OnlyCar(s, s', c)
  {
    && (forall k | 0 <= k < 4 :: s'.free[k] == if s'.cars[c].location == k + 1 then false
      else if s.cars[c].location == k + 1 then true else s.free[k])
    && (s'.cars[c].location != 0 && s'.cars[c].location != s.cars[c].location ==> s.free[s'.cars[c].location - 1])
  }

  /** A quadrant held by another car stays taken, and car c does not go there. */
  lemma StaysTaken(s: State, s': State, c: nat, l: nat)
    requires Shape(s) && Shape(s') && OnlyCar(s, s', c) && QuadsFollow(s, s', c)
    requires 1 <= l <= 4 && !s.free[l - 1] && l != s.cars[c].location
    ensures !s'.free[l - 1] && l != s'.cars[c].location
  {
    var k := l - 1;
    assert s'.free[k] == if s'.cars[c].location == k + 1 then false else if s.cars[c].location == k + 1 then true
      else s.free[k];
  }

  lemma HeldApart(s: State, c: nat, d: nat)
    requires Shape(s) && CarsHoldQuads(s) && c < |s.cars| && d < |s.cars| && c != d && s.cars[d].location != 0
    ensures !s.free[s.cars[d].location - 1] && s.cars[c].location != s.cars[d].location
  {
  }

  lemma ChangeKeepsHolding(s: State, s': State, c: nat)
    requires Shape(s) && CarsHoldQuads(s) && Shape(s') && OnlyCar(s, s', c) && QuadsFollow(s, s', c)
    ensures CarsHoldQuads(s')
  {
    forall d | 0 <= d < |s'.cars| && s'.cars[d].location != 0
      ensures !s'.free[s'.cars[d].location - 1] && (d != c ==> s'.cars[d].location != s'.cars[c].location)
    {
      if d != c {
        HeldApart(s, c, d);
        StaysTaken(s, s', c, s.cars[d].location);
      }
    }
  }

  lemma ChangeKeepsHeld(s: State, s': State, c: nat)
    requires Shape(s) && TakenQuadsHeld(s) && Shape(s') && OnlyCar(s, s', c) && QuadsFollow(s, s', c)
    ensures TakenQuadsHeld(s')
  {
    forall k | 0 <= k < 4 && !s'.free[k]
      ensures exists d :: 0 <= d < |s'.cars| && s'.cars[d].location == k + 1
    {
      if s'.cars[c].location != k + 1 {
        var d :| 0 <= d < |s.cars| && s.cars[d].location == k + 1;
        assert s'.cars[d].location == k + 1;
      }
    }
  }

  lemma ChangeKeepsQuads(s: State, s': State, c: nat)
    requires Shape(s) && QuadsOk(s) && Shape(s') && OnlyCar(s, s', c) && QuadsFollow(s, s', c)
    ensures QuadsOk(s')
  {
    ChangeKeepsHolding(s, s', c);
    ChangeKeepsHeld(s, s', c);
  }

  lemma ChangeKeepsInv(s: State, s': State, c: nat)
    requires Inv(s) && OnlyCar(s, s', c) && OffQueues(s, s', c) && PermitsOk(s')
    requires Shape(s') ==> QuadsFollow(s, s', c)
    ensures Inv(s')
  {
    ChangeKeepsCars(s, s', c);
    ChangeKeepsQuads(s, s', c);
  }

  // ----- Entering -----

  lemma EnterOffQueues(s: State, c: nat)
    requires Shape(s) && QueuesOk(s) && c < |s.cars| && s.cars[c].movesLeft > 0 && s.cars[c].location == 0
    ensures OffQueues(s, Enter(s, c), c)
  {
    forall m | 0 <= m < 4
      ensures Enter(s, c).queue[m] == Removed(s.queue[m], c)
    {
      if m != s.cars[c].lane - 1 {
        OnlyTargetQueue(s, c, m);
      }
    }
  }

  lemma EnterFollows(s: State, c: nat)
    requires Shape(s) && c < |s.cars| && s.cars[c].movesLeft > 0 && s.cars[c].location == 0
    requires s.free[s.cars[c].lane - 1]
    ensures OnlyCar(s, Enter(s, c), c) && (Shape(Enter(s, c)) ==> QuadsFollow(s, Enter(s, c), c))
    ensures Inside(Enter(s, c)) == Inside(s) + {c} && c !in Inside(s)
  {
  }

  lemma EnterKeepsInv(s: State, c: nat)
    requires Inv(s) && c < |s.cars| && s.cars[c].movesLeft > 0 && s.cars[c].location == 0
    requires s.free[s.cars[c].lane - 1] && s.permits != 0
    ensures Inv(Enter(s, c))
  {
    EnterOffQueues(s, c);
    EnterFollows(s, c);
    ChangeKeepsInv(s, Enter(s, c), c);
  }

  // ----- Leaving -----

  lemma LeaveOffQueues(s: State, c: nat)
    requires Shape(s) && QueuesOk(s) && c < |s.cars| && s.cars[c].location != 0 && s.cars[c].movesLeft == 1
    ensures OffQueues(s, Leave(s, c), c)
  {
    forall m | 0 <= m < 4
      ensures Leave(s, c).queue[m] == Removed(s.queue[m], c)
    {
      OnlyTargetQueue(s, c, m);
    }
  }

  lemma LeaveFollows(s: State, c: nat)
    requires Shape(s) && c < |s.cars| && s.cars[c].location != 0 && s.cars[c].movesLeft == 1
    ensures OnlyCar(s, Leave(s, c), c) && (Shape(Leave(s, c)) ==> QuadsFollow(s, Leave(s, c), c))
    ensures Inside(Leave(s, c)) == Inside(s) - {c} && c in Inside(s)
  {
  }

  lemma LeaveKeepsInv(s: State, c: nat)
    requires Inv(s) && c < |s.cars| && s.cars[c].location != 0 && s.cars[c].movesLeft == 1
    ensures Inv(Leave(s, c))
  {
    LeaveOffQueues(s, c);
    LeaveFollows(s, c);
    ChangeKeepsInv(s, Leave(s, c), c);
  }

  // ----- Crossing -----

  lemma CrossOffQueues(s: State, c: nat)
    requires Shape(s) && QueuesOk(s) && c < |s.cars| && s.cars[c].location != 0 && s.cars[c].movesLeft > 1
    ensures OffQueues(s, Cross(s, c), c)
  {
    forall m | 0 <= m < 4
      ensures Cross(s, c).queue[m] == Removed(s.queue[m], c)
    {
      if m != s.cars[c].location % 4 {
        OnlyTargetQueue(s, c, m);
      }
    }
  }

  lemma CrossFollows(s: State, c: nat)
    requires Shape(s) && c < |s.cars| && s.cars[c].location != 0 && s.cars[c].movesLeft > 1
    requires s.free[s.cars[c].location % 4]
    ensures OnlyCar(s, Cross(s, c), c) && (Shape(Cross(s, c)) ==> QuadsFollow(s, Cross(s, c), c))
    ensures Inside(Cross(s, c)) == Inside(s)
  {
  }

  lemma CrossKeepsInv(s: State, c: nat)
    requires Inv(s) && c < |s.cars| && s.cars[c].location != 0 && s.cars[c].movesLeft > 1
    requires s.free[s.cars[c].location % 4]
    ensures Inv(Cross(s, c))
  {
    CrossOffQueues(s, c);
    CrossFollows(s, c);
    ChangeKeepsInv(s, Cross(s, c), c);
  }

  /** What a call of move can come to. */
  lemma MoveIsOneOf(s: State, c: nat)
    requires Shape(s) && c < |s.cars| && s.cars[c].movesLeft > 0
    ensures var car, e, r := s.cars[c], Enqueue(s, c), Move(s, c).state;
      if car.location != 0 && car.movesLeft == 1 then r == Leave(s, c)
      else
        || r == e
        || (car.location == 0 && e.free[car.lane - 1] && e.permits != 0 && r == Enter(e, c))
        || (car.location != 0 && e.free[car.location % 4] && r == Cross(e, c))
  {
  }

  /** Every call of move keeps the invariant. */
  lemma MoveKeepsInv(s: State, c: nat)
    requires Inv(s) && c < |s.cars| && s.cars[c].movesLeft > 0
    ensures Inv(Move(s, c).state)
  {
    var car, r := s.cars[c], Move(s, c).state;
    MoveIsOneOf(s, c);
    if car.location != 0 && car.movesLeft == 1 {
      LeaveKeepsInv(s, c);
    } else {
      EnqueueKeepsInv(s, c);
      if r != Enqueue(s, c) {
        if car.location == 0 {
          EnterKeepsInv(Enqueue(s, c), c);
        } else {
          CrossKeepsInv(Enqueue(s, c), c);
        }
      }
    }
  }

  /** Respawning happens outside the semaphore, but the car is then in no queue. */
  lemma RespawnKeepsInv(s: State, c: nat, time: nat, lane: nat, moves: nat)
    requires Inv(s) && c < |s.cars| && s.cars[c].movesLeft == 0 && 1 <= lane <= 4 && 1 <= moves <= 3
    ensures Inv(Respawn(s, c, time, lane, moves))
  {
    var s' := Respawn(s, c, time, lane, moves);
    assert Inside(s') == Inside(s);
    forall m | 0 <= m < 4
      ensures s'.queue[m] == Removed(s.queue[m], c)
    {
      OnlyTargetQueue(s, c, m);
    }
    ChangeKeepsInv(s, s', c);
  }

  // ----- Whole runs -----

  datatype Event = MoveBy(car: nat) | Spawn(car: nat, time: nat, lane: nat, moves: nat)

  /** The thread of a car calls move while it has moves left and spawns the car again when it has none. */
  predicate Enabled(s: State, e: Event) {
    match e
    case MoveBy(c) => Shape(s) && c < |s.cars| && s.cars[c].movesLeft > 0
    case Spawn(c, _, lane, moves) =>
      Shape(s) && c < |s.cars| && s.cars[c].movesLeft == 0 && 1 <= lane <= 4 && 1 <= moves <= 3
  }

  function Next(s: State, e: Event): State
    requires Enabled(s, e)
  {
    match e
    case MoveBy(c) => Move(s, c).state
    case Spawn(c, time, lane, moves) => Respawn(s, c, time, lane, moves)
  }

  /** A run of any number of cars, no two with the same thread id, from the state main sets up. */
  ghost predicate Run(states: seq<State>, events: seq<Event>) {
    && |states| == |events| + 1
    && InitialState(states[0])
    && forall i | 0 <= i < |events| :: Enabled(states[i], events[i]) && states[i + 1] == Next(states[i], events[i])
  }

  ghost predicate InitialState(s: State) {
    && (forall c | 0 <= c < |s.cars| :: s.cars[c].movesLeft == 0 && s.cars[c].location == 0 && 1 <= s.cars[c].lane <= 4)
    && (forall c, d | 0 <= c < d < |s.cars| :: s.cars[c].tid != s.cars[d].tid)
    && s.free == [true, true, true, true] && s.permits == 3 && s.queue == [[], [], [], []]
  }

  lemma {:induction false} RunKeepsInv(states: seq<State>, events: seq<Event>, i: nat)
    requires Run(states, events) && i < |states|
    ensures Inv(states[i])
  {
    if i == 0 {
      assert Inside(states[0]) == {};
    } else {
      RunKeepsInv(states, events, i - 1);
      var s, e := states[i - 1], events[i - 1];
      match e
      case MoveBy(c) => MoveKeepsInv(s, c);
      case Spawn(c, time, lane, moves) => RespawnKeepsInv(s, c, time, lane, moves);
    }
  }
}
