/**
 The four-quadrant intersection: cars queue for quadrants in order of spawn time, at most
 three are inside at once, and each holds the quadrant it is in. One call of `move` under
 the semaphore is one atomic step.
 */
module IntersectionModel {

  /** lane and location are numbered 1..4; location 0 is the lane. A car with no moves left is done
      and waits to be spawned again. */
  datatype Car = Car(spawnTime: nat, tid: nat, lane: nat, movesLeft: nat, location: nat)

  /** Cars are named by their index; free[k] says quadrant k+1 is empty; queue[k] lists the cars waiting for it. */
  datatype State = State(cars: seq<Car>, free: seq<bool>, permits: int, queue: seq<seq<nat>>)

  predicate Shape(s: State) {
    && |s.free| == 4 && |s.queue| == 4
    && (forall c | 0 <= c < |s.cars| :: CarShape(s.cars[c]))
    && (forall k | 0 <= k < 4 :: ListShape(s, s.queue[k]))
  }

  predicate CarShape(car: Car) { 1 <= car.lane <= 4 && car.location <= 4 && car.movesLeft <= 3 }

  predicate ListShape(s: State, q: seq<nat>) { forall i | 0 <= i < |q| :: q[i] < |s.cars| }

  // ----- The lists -----

  /** Where the walk of add_car stops: before the first car, from index k on, that did not spawn earlier. */
  function Place(cars: seq<Car>, q: seq<nat>, c: nat, k: nat): (r: nat)
    requires c < |cars| && k <= |q| && forall i | 0 <= i < |q| :: q[i] < |cars|
    ensures k <= r <= |q|
    ensures forall i | k <= i < r :: cars[q[i]].spawnTime < cars[c].spawnTime
    ensures r < |q| ==> cars[q[r]].spawnTime >= cars[c].spawnTime
    decreases |q| - k
  {
    if k < |q| && cars[q[k]].spawnTime < cars[c].spawnTime then Place(cars, q, c, k + 1) else k
  }

  /** add_car. */
  function Added(cars: seq<Car>, q: seq<nat>, c: nat): (r: seq<nat>)
    requires c < |cars| && forall i | 0 <= i < |q| :: q[i] < |cars|
  {
    if q == [] || cars[q[0]].spawnTime > cars[c].spawnTime then [c] + q
    else var k := Place(cars, q, c, 1); q[..k] + [c] + q[k..]
  }

  /** remove_car: the first occurrence goes. */
  function Removed(q: seq<nat>, c: nat): (r: seq<nat>)
  {
    if q == [] then [] else if q[0] == c then q[1..] else [q[0]] + Removed(q[1..], c)
  }

  /** The queue as move leaves it before it decides: the car is in it. */
  function Queued(cars: seq<Car>, q: seq<nat>, c: nat): (r: seq<nat>)
    requires c < |cars| && forall i | 0 <= i < |q| :: q[i] < |cars|
    ensures r != []
    ensures forall i | 0 <= i < |r| :: r[i] < |cars|
  {
    if c in q then q else Added(cars, q, c)
  }

  // ----- move -----

  /** The quadrant (0..3) the car wants to enter next. */
  function Target(car: Car): (k: nat)
    requires CarShape(car)
    ensures k < 4
  {
    if car.location == 0 then car.lane - 1 else car.location % 4
  }

  datatype Moved = Moved(state: State, advanced: bool)

  function Enqueue(s: State, c: nat): (r: State)
    requires Shape(s) && c < |s.cars|
    ensures Shape(r)
  {
    var k := Target(s.cars[c]);
    s.(queue := s.queue[k := Queued(s.cars, s.queue[k], c)])
  }

  predicate FirstInLine(s: State, c: nat)
    requires Shape(s) && c < |s.cars| && s.queue[Target(s.cars[c])] != []
  {
    s.cars[s.queue[Target(s.cars[c])][0]].tid == s.cars[c].tid
  }

  function Enter(s: State, c: nat): State
    requires Shape(s) && c < |s.cars| && s.cars[c].location == 0
  {
    var k := s.cars[c].lane - 1;
    s.(queue := s.queue[k := Removed(s.queue[k], c)], permits := s.permits - 1,
       cars := s.cars[c := s.cars[c].(location := k + 1)], free := s.free[k := false])
  }

  function Leave(s: State, c: nat): State
    requires Shape(s) && c < |s.cars| && s.cars[c].location != 0 && s.cars[c].movesLeft == 1
  {
    s.(permits := s.permits + 1, free := s.free[s.cars[c].location - 1 := true],
       cars := s.cars[c := s.cars[c].(location := 0, movesLeft := 0)])
  }

  function Cross(s: State, c: nat): State
    requires Shape(s) && c < |s.cars| && s.cars[c].location != 0 && s.cars[c].movesLeft > 1
  {
    var car := s.cars[c];
    var k := car.location % 4;
    s.(queue := s.queue[k := Removed(s.queue[k], c)],
       free := s.free[car.location - 1 := true][k := false],
       cars := s.cars[c := car.(location := k + 1, movesLeft := car.movesLeft - 1)])
  }

  function Move(s: State, c: nat): (r: Moved)
    requires Shape(s) && c < |s.cars| && s.cars[c].movesLeft > 0
  {
    var car := s.cars[c];
    if car.location == 0 then
      var e := Enqueue(s, c);
      if e.free[car.lane - 1] && e.permits != 0 && FirstInLine(e, c) then Moved(Enter(e, c), true) else Moved(e, false)
    else if car.movesLeft == 1 then Moved(Leave(s, c), true)
    else
      var e := Enqueue(s, c);
      if e.free[car.location % 4] && (FirstInLine(e, c) || e.permits == 0) then Moved(Cross(e, c), true)
        else Moved(e, false)
  }

  /** The top of the thread's loop: a done car is given a new time, lane and turn. */
  function Respawn(s: State, c: nat, time: nat, lane: nat, moves: nat): State
    requires c < |s.cars| && s.cars[c].movesLeft == 0
  {
    s.(cars := s.cars[c := s.cars[c].(spawnTime := time, location := 0, lane := lane, movesLeft := moves)])
  }

  // ----- The invariant -----

  /** The car is waiting for quadrant k. */
  predicate Wants(car: Car, k: nat) {
    CarShape(car) && car.movesLeft > 0 && (car.location != 0 ==> car.movesLeft > 1) && Target(car) == k
  }

  ghost function Inside(s: State): set<nat> { set c | 0 <= c < |s.cars| && s.cars[c].location != 0 }

  predicate Sorted(cars: seq<Car>, q: seq<nat>) {
    && (forall i | 0 <= i < |q| :: q[i] < |cars|)
    && forall i, j | 0 <= i < j < |q| :: cars[q[i]].spawnTime <= cars[q[j]].spawnTime
  }

  predicate Distinct(q: seq<nat>) { forall i, j | 0 <= i < j < |q| :: q[i] != q[j] }

  ghost predicate QueueOk(s: State, k: nat)
    requires Shape(s) && k < 4
  {
    Distinct(s.queue[k]) && Sorted(s.cars, s.queue[k]) && forall i | 0 <= i < |s.queue[k]| ::
      Wants(s.cars[s.queue[k][i]], k)
  }

  /** Every car inside is on a quadrant marked taken, no two on the same. */
  ghost predicate CarsHoldQuads(s: State)
    requires Shape(s)
  {
    && (forall c | 0 <= c < |s.cars| && s.cars[c].location != 0 :: !s.free[s.cars[c].location - 1])
    && (forall c, d | 0 <= c < d < |s.cars| && s.cars[c].location != 0 :: s.cars[c].location != s.cars[d].location)
  }

  ghost predicate TakenQuadsHeld(s: State)
    requires Shape(s)
  {
    forall k | 0 <= k < 4 && !s.free[k] :: exists c :: 0 <= c < |s.cars| && s.cars[c].location == k + 1
  }

  /** A quadrant is marked taken exactly when one car is in it. */
  ghost predicate QuadsOk(s: State)
    requires Shape(s)
  {
    CarsHoldQuads(s) && TakenQuadsHeld(s)
  }

  ghost predicate CarsOk(s: State) {
    && Shape(s)
    && (forall c, d | 0 <= c < d < |s.cars| :: s.cars[c].tid != s.cars[d].tid)
    && (forall c | 0 <= c < |s.cars| && s.cars[c].location != 0 :: s.cars[c].movesLeft > 0)
  }

  ghost predicate PermitsOk(s: State) { s.permits >= 0 && s.permits + |Inside(s)| == 3 }

  ghost predicate QueuesOk(s: State)
    requires Shape(s)
  {
    forall k | 0 <= k < 4 :: QueueOk(s, k)
  }

  ghost predicate Inv(s: State) { CarsOk(s) && PermitsOk(s) && QuadsOk(s) && QueuesOk(s) }

  /** The quadrant from which a car will leave. */
  function Exit(car: Car): nat
    requires CarShape(car) && car.movesLeft > 0
  {
    ((if car.location == 0 then car.lane else car.location) - 1 + car.movesLeft - 1) % 4 + 1
  }
}
