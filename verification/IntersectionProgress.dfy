/**
 Order and progress at the intersection: where cars leave, who goes first, and why a
 schedule that keeps calling every car brings them across, even if some respawn meanwhile.
 */
module IntersectionProgress {
  import opened Basics
  import opened IntersectionModel
  import opened IntersectionSafety

  // ----- Where a car leaves, and in what order cars enter -----

  /** Going one quadrant on and having one move less leads to the same exit. */
  lemma SameExit(car: Car)
    requires CarShape(car) && car.location != 0 && car.movesLeft > 1
    ensures var car' := car.(location := car.location % 4 + 1, movesLeft := car.movesLeft - 1);
            CarShape(car') && Exit(car') == Exit(car)
  {
  }

  /** Until a car is done, no call of move by any car changes the quadrant it will leave from; a car that
      leaves does so from that quadrant. */
  lemma ExitFixedAtSpawn(s: State, c: nat, d: nat)
    requires Shape(s) && c < |s.cars| && s.cars[c].movesLeft > 0 && d < |s.cars| && s.cars[d].movesLeft > 0
    ensures var car, car' := s.cars[d], Move(s, c).state.cars[d];
            if car'.movesLeft > 0 then CarShape(car') && Exit(car') == Exit(car)
            else c == d && car.location == Exit(car)
  {
    if c == d {
      OwnExit(s, c);
    }
  }

  /** The four things a call can do to its car. */
  lemma MovedCar(s: State, c: nat)
    requires Shape(s) && c < |s.cars| && s.cars[c].movesLeft > 0
    ensures var car, car' := s.cars[c], Move(s, c).state.cars[c];
            || car' == car
            || (car.location == 0 && car' == car.(location := car.lane))
            || (car.location != 0 && car.movesLeft == 1 && car' == car.(location := 0, movesLeft := 0))
            || (car.location != 0 && car.movesLeft > 1 &&
              car' == car.(location := car.location % 4 + 1, movesLeft := car.movesLeft - 1))
  {
  }

  lemma OwnExit(s: State, c: nat)
    requires Shape(s) && c < |s.cars| && s.cars[c].movesLeft > 0
    ensures KeepsExit(s.cars[c], Move(s, c).state.cars[c])
  {
    MovedCar(s, c);
    var car := s.cars[c];
    if car.location != 0 && car.movesLeft > 1 {
      SameExit(car);
    } else if car.location != 0 {
      LastQuadrant(car);
    }
  }

  predicate KeepsExit(car: Car, car': Car)
    requires CarShape(car) && car.movesLeft > 0
  {
    if car'.movesLeft > 0 then CarShape(car') && Exit(car') == Exit(car) else car.location == Exit(car)
  }

  lemma LastQuadrant(car: Car)
    requires CarShape(car) && car.location != 0 && car.movesLeft == 1
    ensures Exit(car) == car.location
  {
  }

  /** A step of anybody keeps the exit of a car on its way. */
  lemma StepKeepsExit(s: State, e: Event, c: nat)
    requires Enabled(s, e) && c < |s.cars| && s.cars[c].movesLeft > 0
    ensures CarShape(s.cars[c]) && |Next(s, e).cars| == |s.cars| && KeepsExit(s.cars[c], Next(s, e).cars[c])
    ensures Next(s, e).cars[c].movesLeft == 0 ==> e == MoveBy(c)
  {
    match e
    case MoveBy(d) => ExitFixedAtSpawn(s, d, c);
    case Spawn(_, _, _, _) =>
  }

  /** The quadrant a car leaves from, fixed by the lane and the turn it spawns with. */
  function ExitOf(lane: nat, moves: nat): nat
    requires lane > 0 && moves > 0
  {
    (lane - 1 + moves - 1) % 4 + 1
  }

  /** In every run: from its spawning at step i on, as long as it has moves left, the car is bound for that quadrant. */
  lemma {:induction false} BoundForExit(states: seq<State>, events: seq<Event>, i: nat, j: nat, c: nat)
    requires Run(states, events) && i < j < |states| && events[i].Spawn? && events[i].car == c
    requires forall k | i < k < j :: c < |states[k].cars| && states[k].cars[c].movesLeft > 0
    ensures c < |states[j].cars|
    ensures states[j].cars[c].movesLeft > 0 ==>
      CarShape(states[j].cars[c]) && Exit(states[j].cars[c]) == ExitOf(events[i].lane, events[i].moves)
  {
    if j > i + 1 {
      BoundForExit(states, events, i, j - 1, c);
      StepKeepsExit(states[j - 1], events[j - 1], c);
    } else {
      FreshExit(states[i], events[i]);
    }
  }

  lemma FreshExit(s: State, e: Event)
    requires Enabled(s, e) && e.Spawn?
    ensures |Next(s, e).cars| == |s.cars| && CarShape(Next(s, e).cars[e.car])
    ensures Next(s, e).cars[e.car].movesLeft > 0 && Exit(Next(s, e).cars[e.car]) == ExitOf(e.lane, e.moves)
  {
  }

  /** And the call that ends its crossing finds it there. */
  lemma LeavesAtExit(states: seq<State>, events: seq<Event>, i: nat, j: nat, c: nat)
    requires Run(states, events) && i < j < |events| && events[i].Spawn? && events[i].car == c
    requires forall k | i < k <= j :: c < |states[k].cars| && states[k].cars[c].movesLeft > 0
    requires c < |states[j + 1].cars| && states[j + 1].cars[c].movesLeft == 0
    ensures events[j] == MoveBy(c) && states[j].cars[c].location == ExitOf(events[i].lane, events[i].moves)
  {
    BoundForExit(states, events, i, j, c);
    StepKeepsExit(states[j], events[j], c);
  }

  /** A car entering from its lane overtakes nobody queued for the quadrant who spawned strictly earlier. */
  lemma NoOvertaking(s: State, c: nat, d: nat)
    requires Inv(s) && c < |s.cars| && s.cars[c].movesLeft > 0 && s.cars[c].location == 0 && Move(s, c).advanced
    requires d in s.queue[s.cars[c].lane - 1]
    ensures d < |s.cars| && s.cars[d].spawnTime >= s.cars[c].spawnTime
  {
    EnqueueKeepsInv(s, c);
    var e, k := Enqueue(s, c), s.cars[c].lane - 1;
    assert QueueOk(s, k) && QueueOk(e, k);
    AddedElements(s.cars, s.queue[k], c);
    assert e.queue[k][0] == c;
    assert d in e.queue[k];
  }

  // ----- Some car can always advance -----

  /** A call by car c would advance it. */
  predicate Ready(s: State, c: nat)
    requires Shape(s)
  {
    c < |s.cars| && s.cars[c].movesLeft > 0 && Move(s, c).advanced
  }

  /** When that is so, read off the state. */
  predicate Can(s: State, c: nat)
    requires Shape(s)
  {
    && c < |s.cars| && s.cars[c].movesLeft > 0
    && var car := s.cars[c];
       if car.location == 0 then s.free[Target(car)] && s.permits != 0 && Leads(s, c)
       else car.movesLeft == 1 || (s.free[Target(car)] && (s.permits == 0 || Leads(s, c)))
  }

  /** Once queued, the car is first in line. */
  predicate Leads(s: State, c: nat)
    requires Shape(s) && c < |s.cars|
  {
    FirstInLine(Enqueue(s, c), c)
  }

  lemma ReadyIffCan(s: State, c: nat)
    requires Shape(s)
    ensures Ready(s, c) <==> Can(s, c)
  {
  }

  lemma Occupant(s: State, k: nat) returns (c: nat)
    requires Shape(s) && QuadsOk(s) && k < 4 && !s.free[k]
    ensures c in Inside(s) && s.cars[c].location == k + 1
  {
    c :| 0 <= c < |s.cars| && s.cars[c].location == k + 1;
  }

  lemma AllTakenMeansFour(s: State)
    requires Shape(s) && QuadsOk(s) && forall k | 0 <= k < 4 :: !s.free[k]
    ensures |Inside(s)| >= 4
  {
    var a := Occupant(s, 0);
    var b := Occupant(s, 1);
    var c := Occupant(s, 2);
    var d := Occupant(s, 3);
    FourDistinct(a, b, c, d, Inside(s));
  }

  lemma FourDistinct(a: nat, b: nat, c: nat, d: nat, all: set<nat>)
    requires a != b && a != c && a != d && b != c && b != d && c != d && {a, b, c, d} <= all
    ensures |all| >= 4
  {
    SubsetSize({a, b, c, d}, all);
  }

  /** Round the circle, some taken quadrant is followed by a free one. */
  lemma TakenBeforeFree(free: seq<bool>) returns (k: nat)
    requires |free| == 4 && true in free && false in free
    ensures k < 4 && !free[k] && free[(k + 1) % 4]
  {
    k := if !free[0] && free[1] then 0 else if !free[1] && free[2] then 1 else if !free[2] && free[3] then 2 else 3;
  }

  /** Some car inside has the quadrant ahead of it free. */
  lemma GapAhead(s: State) returns (c: nat)
    requires Inv(s) && Inside(s) != {}
    ensures c < |s.cars| && s.cars[c].location != 0 && s.free[s.cars[c].location % 4]
  {
    var d :| d in Inside(s);
    assert !s.free[s.cars[d].location - 1];
    if forall k | 0 <= k < 4 :: !s.free[k] {
      AllTakenMeansFour(s);
    }
    var k := TakenBeforeFree(s.free);
    c := Occupant(s, k);
  }

  /** With a permit left, whoever is first in line for a free quadrant can take it; if nobody is, any car
      that wants it can. */
  lemma FreeQuadrantUsable(s: State, c: nat) returns (h: nat)
    requires Inv(s) && c < |s.cars| && Wants(s.cars[c], Target(s.cars[c])) && s.free[Target(s.cars[c])]
    requires s.permits != 0
    ensures Ready(s, h)
  {
    var k := Target(s.cars[c]);
    assert QueueOk(s, k);
    if s.queue[k] == [] {
      h := c;
    } else {
      h := s.queue[k][0];
      assert Wants(s.cars[h], k);
    }
    assert Leads(s, h);
    ReadyIffCan(s, h);
  }

  /** Deadlock freedom: while some car has moves left, some single call of move advances a car. */
  lemma SomeCarReady(s: State, c: nat) returns (h: nat)
    requires Inv(s) && c < |s.cars| && s.cars[c].movesLeft > 0
    ensures Ready(s, h)
  {
    if d :| 0 <= d < |s.cars| && s.cars[d].location != 0 && s.cars[d].movesLeft == 1 {
      h := d;
    } else if Inside(s) != {} {
      var g := GapAhead(s);
      if s.permits == 0 {
        h := g;
      } else {
        h := FreeQuadrantUsable(s, g);
      }
    } else {
      assert c !in Inside(s);
      if !s.free[s.cars[c].lane - 1] {
        var d := Occupant(s, s.cars[c].lane - 1);
      }
      h := FreeQuadrantUsable(s, c);
    }
  }

  // ----- Every fair schedule makes progress -----

  /** A call that does not advance its car only lengthens one queue, and never by putting the car at the
      head of a queue it could go from; so whoever was ready stays ready. */
  lemma ReadyStays(s: State, c: nat, d: nat)
    requires Inv(s) && Ready(s, c) && d < |s.cars| && s.cars[d].movesLeft > 0 && !Ready(s, d)
    ensures Ready(Enqueue(s, d), c)
  {
    ReadyIffCan(s, c);
    ReadyIffCan(s, d);
    ReadyIffCan(Enqueue(s, d), c);
    CanStays(s, c, d);
  }

  lemma CanStays(s: State, c: nat, d: nat)
    requires Inv(s) && Can(s, c) && d < |s.cars| && s.cars[d].movesLeft > 0 && !Can(s, d)
    ensures Can(Enqueue(s, d), c)
  {
    if Leads(s, c) {
      if Target(s.cars[c]) != Target(s.cars[d]) {
        assert Leads(Enqueue(s, d), c);
      } else if s.free[Target(s.cars[c])] && s.permits != 0 {
        HeadStays(s, c, d);
      }
    }
  }

  lemma NoAdvanceOnlyQueues(s: State, d: nat)
    requires Shape(s) && d < |s.cars| && s.cars[d].movesLeft > 0 && !Ready(s, d)
    ensures Move(s, d).state == Enqueue(s, d)
  {
  }

  lemma HeadStays(s: State, c: nat, d: nat)
    requires Inv(s) && c < |s.cars| && d < |s.cars| && Target(s.cars[c]) == Target(s.cars[d]) && c != d
    requires Leads(s, c) && !Leads(s, d)
    ensures Leads(Enqueue(s, d), c)
  {
    var k, q := Target(s.cars[c]), s.queue[Target(s.cars[c])];
    assert QueueOk(s, k);
    assert Queued(s.cars, q, c)[0] == c;
    assert Queued(s.cars, q, d)[0] != d;
    assert q != [];
    var q' := Queued(s.cars, q, d);
    assert q'[0] == q[0];
    AddedElements(s.cars, q, d);
    assert c in q' <==> c in q;
  }

  /** What car still has to do: its moves, and entering if it is in its lane. */
  function Todo(car: Car): nat { car.movesLeft + if car.location == 0 && car.movesLeft > 0 then 1 else 0 }

  function Work(cars: seq<Car>): nat { if cars == [] then 0 else Todo(cars[0]) + Work(cars[1..]) }

  lemma {:induction false} WorkUpdate(cars: seq<Car>, c: nat, car: Car)
    requires c < |cars|
    ensures Work(cars[c := car]) + Todo(cars[c]) == Work(cars) + Todo(car)
  {
    if c == 0 {
      assert cars[c := car][1..] == cars[1..];
    } else {
      assert cars[c := car][1..] == cars[1..][c - 1 := car];
      WorkUpdate(cars[1..], c - 1, car);
    }
  }

  lemma MoveChangesCar(s: State, c: nat)
    requires Shape(s) && c < |s.cars| && s.cars[c].movesLeft > 0
    ensures |Move(s, c).state.cars| == |s.cars| && Move(s, c).state.cars == s.cars[c := Move(s, c).state.cars[c]]
    ensures Todo(Move(s, c).state.cars[c]) == Todo(s.cars[c]) - if Move(s, c).advanced then 1 else 0
  {
  }

  /** An advance is worth exactly one unit of work; any other call none. */
  lemma MoveWorks(s: State, c: nat)
    requires Inv(s) && c < |s.cars| && s.cars[c].movesLeft > 0
    ensures Work(Move(s, c).state.cars) == Work(s.cars) - if Move(s, c).advanced then 1 else 0
  {
    MoveChangesCar(s, c);
    WorkUpdate(s.cars, c, Move(s, c).state.cars[c]);
  }

  /** A respawn gives its car at most four units of work. */
  lemma RespawnWorks(s: State, c: nat, time: nat, lane: nat, moves: nat)
    requires Inv(s) && c < |s.cars| && s.cars[c].movesLeft == 0 && 1 <= lane <= 4 && 1 <= moves <= 3
    ensures Work(Respawn(s, c, time, lane, moves).cars) <= Work(s.cars) + 4
  {
    WorkUpdate(s.cars, c, Respawn(s, c, time, lane, moves).cars[c]);
  }

  lemma HeadOfQueued(cars: seq<Car>, q: seq<nat>, c: nat)
    requires c < |cars| && forall i | 0 <= i < |q| :: q[i] < |cars|
    ensures Queued(cars, q, c)[0] ==
      if c !in q && (q == [] || cars[q[0]].spawnTime > cars[c].spawnTime) then c else q[0]
  {
  }

  lemma SameHead(s: State, r: State, c: nat)
    requires Shape(s) && Shape(r) && c < |s.cars| == |r.cars| && r.queue == s.queue && r.cars[c] == s.cars[c]
    requires var q := s.queue[Target(s.cars[c])]; q != [] ==> r.cars[q[0]] == s.cars[q[0]]
    ensures Leads(r, c) == Leads(s, c)
  {
    var q := s.queue[Target(s.cars[c])];
    HeadOfQueued(s.cars, q, c);
    HeadOfQueued(r.cars, q, c);
  }

  /** And it is in nobody's way: its car was in no queue, and is in none yet. */
  lemma RespawnKeepsReady(s: State, c: nat, d: nat, time: nat, lane: nat, moves: nat)
    requires Inv(s) && Ready(s, c) && d < |s.cars| && s.cars[d].movesLeft == 0 && 1 <= lane <= 4 && 1 <= moves <= 3
    ensures Shape(Respawn(s, d, time, lane, moves)) && Ready(Respawn(s, d, time, lane, moves), c)
  {
    var r := Respawn(s, d, time, lane, moves);
    RespawnKeepsInv(s, d, time, lane, moves);
    ReadyIffCan(s, c);
    ReadyIffCan(r, c);
    OnlyTargetQueue(s, d, Target(s.cars[c]));
    SameHead(s, r, c);
  }

  // ----- Schedules of events, whatever an event does -----

  ghost function Fold<S, E>(step: (S, E) -> S, s: S, es: seq<E>): S
    decreases |es|
  {
    if es == [] then s else Fold(step, step(s, es[0]), es[1..])
  }

  function Total<E>(cost: E -> nat, es: seq<E>): nat { if es == [] then 0 else cost(es[0]) + Total(cost, es[1..]) }

  /** Events keep what is good and add no more work than they cost. */
  ghost predicate Orderly<S(!new), E(!new)>(step: (S, E) -> S, good: S -> bool, work: S -> nat, cost: E -> nat) {
    forall s, e :: good(s) ==> good(step(s, e)) && work(step(s, e)) <= work(s) + cost(e)
  }

  /** Who is ready gets something done when called, and stays ready until something is done. */
  ghost predicate Helpful<S(!new), E(!new)>(step: (S, E) -> S, good: S -> bool, work: S -> nat, cost: E -> nat,
                                            call: nat -> E, ready: (S, nat) -> bool)
  {
    && (forall s, c :: good(s) && ready(s, c) ==> work(step(s, call(c))) < work(s) + cost(call(c)))
    && (forall s, c, e :: good(s) && ready(s, c) ==> work(step(s, e)) < work(s) + cost(e) || ready(step(s, e), c))
  }

  lemma {:induction false} FoldOrderly<S(!new), E(!new)>(step: (S, E) -> S, good: S -> bool, work: S -> nat,
                                                         cost: E -> nat, s: S, es: seq<E>)
    requires Orderly(step, good, work, cost) && good(s)
    ensures good(Fold(step, s, es)) && work(Fold(step, s, es)) <= work(s) + Total(cost, es)
    decreases |es|
  {
    if es != [] {
      FoldOrderly(step, good, work, cost, step(s, es[0]), es[1..]);
    }
  }

  lemma {:induction false} FoldHelpful<S(!new), E(!new)>(step: (S, E) -> S, good: S -> bool, work: S -> nat,
                                                         cost: E -> nat, call: nat -> E, ready: (S, nat) -> bool,
                                                         s: S, c: nat, es: seq<E>)
    requires Orderly(step, good, work, cost) && Helpful(step, good, work, cost, call, ready)
    requires good(s) && ready(s, c) && call(c) in es
    ensures work(Fold(step, s, es)) < work(s) + Total(cost, es)
    decreases |es|
  {
    var t, rest := step(s, es[0]), es[1..];
    if work(t) < work(s) + cost(es[0]) {
      FoldOrderly(step, good, work, cost, t, rest);
    } else {
      FoldHelpful(step, good, work, cost, call, ready, t, c, rest);
    }
  }

  lemma {:induction false} FoldStill<S(!new), E(!new)>(step: (S, E) -> S, s: S, es: seq<E>)
    requires forall e | e in es :: step(s, e) == s
    ensures Fold(step, s, es) == s
    decreases |es|
  {
    if es != [] {
      FoldStill(step, s, es[1..]);
    }
  }

  lemma FoldFirst<S, E>(step: (S, E) -> S, s: S, es: seq<E>, k: nat)
    requires 0 < k <= |es|
    ensures Fold(step, s, es[..k]) == Fold(step, step(s, es[0]), es[1..][..k - 1])
  {
    assert es[..k][0] == es[0] && es[..k][1..] == es[1..][..k - 1];
  }

  // ----- Schedules of calls and respawns -----

  /** A done car makes no call, and only a done car is spawned again. */
  ghost function Happen(s: State, e: Event): State {
    if Inv(s) && Enabled(s, e) then Next(s, e) else s
  }

  function Cost(e: Event): nat { if e.Spawn? then 4 else 0 }

  /** The events of a schedule one after the other. */
  ghost function Schedule(s: State, es: seq<Event>): State { Fold(Happen, s, es) }

  ghost predicate Good(s: State, n: nat) { Inv(s) && |s.cars| == n }

  lemma HappenOrderly(s: State, e: Event)
    requires Inv(s)
    ensures Good(Happen(s, e), |s.cars|) && Work(Happen(s, e).cars) <= Work(s.cars) + Cost(e)
  {
    if Enabled(s, e) {
      match e
      case MoveBy(d) =>
        MoveKeepsInv(s, d);
        MoveWorks(s, d);
        MoveChangesCar(s, d);
      case Spawn(d, time, lane, moves) =>
        RespawnKeepsInv(s, d, time, lane, moves);
        RespawnWorks(s, d, time, lane, moves);
    }
  }

  lemma CallOfReady(s: State, c: nat)
    requires Inv(s) && Ready(s, c)
    ensures Work(Happen(s, MoveBy(c)).cars) < Work(s.cars)
  {
    MoveWorks(s, c);
  }

  lemma EventOfOther(s: State, c: nat, e: Event)
    requires Inv(s) && Ready(s, c)
    ensures Shape(Happen(s, e)) && (Work(Happen(s, e).cars) < Work(s.cars) + Cost(e) || Ready(Happen(s, e), c))
  {
    HappenOrderly(s, e);
    if Enabled(s, e) {
      match e
      case MoveBy(d) =>
        if Ready(s, d) {
          CallOfReady(s, d);
        } else {
          NoAdvanceOnlyQueues(s, d);
          ReadyStays(s, c, d);
        }
      case Spawn(d, time, lane, moves) =>
        RespawnKeepsReady(s, c, d, time, lane, moves);
    }
  }

  lemma AllOrderly(n: nat)
    ensures Orderly(Happen, s => Good(s, n), (s: State) => Work(s.cars), Cost)
  {
    forall s, e | Good(s, n)
      ensures Good(Happen(s, e), n) && Work(Happen(s, e).cars) <= Work(s.cars) + Cost(e)
    {
      HappenOrderly(s, e);
    }
  }

  ghost function Calling(): nat -> Event { (c: nat) => MoveBy(c) }

  lemma AllHelpful(n: nat)
    ensures Helpful(Happen, s => Good(s, n), (s: State) => Work(s.cars), Cost, Calling(),
                    (s, c) => Shape(s) && Ready(s, c))
  {
    forall s, c: nat | Good(s, n) && Ready(s, c)
      ensures Work(Happen(s, MoveBy(c)).cars) < Work(s.cars)
    {
      CallOfReady(s, c);
    }
    forall s, c: nat, e | Good(s, n) && Ready(s, c)
      ensures Work(Happen(s, e).cars) < Work(s.cars) + Cost(e) || (Shape(Happen(s, e)) && Ready(Happen(s, e), c))
    {
      EventOfOther(s, c, e);
    }
  }

  lemma ScheduleKeepsInv(s: State, es: seq<Event>)
    requires Inv(s)
    ensures Inv(Schedule(s, es)) && |Schedule(s, es).cars| == |s.cars|
    ensures Work(Schedule(s, es).cars) <= Work(s.cars) + Total(Cost, es)
  {
    var n := |s.cars|;
    AllOrderly(n);
    FoldOrderly(Happen, s => Good(s, n), (s: State) => Work(s.cars), Cost, s, es);
  }

  /** If the schedule calls a car that is ready now, something gets done. */
  lemma ReadyCarCalled(s: State, c: nat, es: seq<Event>)
    requires Inv(s) && Ready(s, c) && MoveBy(c) in es
    ensures Work(Schedule(s, es).cars) < Work(s.cars) + Total(Cost, es)
  {
    var n := |s.cars|;
    AllOrderly(n);
    AllHelpful(n);
    FoldHelpful(Happen, s => Good(s, n), (s: State) => Work(s.cars), Cost, Calling(),
                (s, c) => Shape(s) && Ready(s, c), s, c, es);
  }

  ghost predicate AllDone(s: State) { forall c | 0 <= c < |s.cars| :: s.cars[c].movesLeft == 0 }

  /** A round is any sequence of events, in any order and with any repetitions, in which every car is called. */
  ghost predicate Round(es: seq<Event>, n: nat) { forall c: nat | c < n :: MoveBy(c) in es }

  /** Every round advances some car unless all are done. */
  lemma RoundAdvances(s: State, es: seq<Event>)
    requires Inv(s) && Round(es, |s.cars|) && !AllDone(s)
    ensures Work(Schedule(s, es).cars) < Work(s.cars) + Total(Cost, es)
  {
    var c :| 0 <= c < |s.cars| && s.cars[c].movesLeft != 0;
    var h := SomeCarReady(s, c);
    assert h < |s.cars|;
    ReadyCarCalled(s, h, es);
  }

  ghost function Rounds(s: State, rounds: seq<seq<Event>>): State { Fold(Schedule, s, rounds) }

  /** Four for every respawn in the rounds. */
  function AddedWork(rounds: seq<seq<Event>>): nat {
    if rounds == [] then 0 else Total(Cost, rounds[0]) + AddedWork(rounds[1..])
  }

  lemma {:induction false} NoWorkAllDone(cars: seq<Car>, c: nat)
    requires c < |cars|
    ensures Todo(cars[c]) <= Work(cars)
  {
    if c > 0 {
      NoWorkAllDone(cars[1..], c - 1);
    }
  }

  lemma NoWorkLeft(s: State)
    requires Work(s.cars) == 0
    ensures AllDone(s)
  {
    forall c | 0 <= c < |s.cars|
      ensures s.cars[c].movesLeft == 0
    {
      NoWorkAllDone(s.cars, c);
    }
  }

  /** Cars may respawn in between: a schedule with as many rounds as there is work at the start plus four for every
      respawn comes to a moment at which every car is across. */
  lemma {:induction false} EveryoneCrosses(s: State, rounds: seq<seq<Event>>) returns (k: nat)
    requires Inv(s) && forall i | 0 <= i < |rounds| :: Round(rounds[i], |s.cars|)
    requires |rounds| >= Work(s.cars) + AddedWork(rounds)
    ensures k <= |rounds| && AllDone(Rounds(s, rounds[..k]))
    decreases |rounds|
  {
    if AllDone(s) {
      k := 0;
    } else if rounds == [] {
      NoWorkLeft(s);
    } else {
      assert Round(rounds[0], |s.cars|);
      RoundAdvances(s, rounds[0]);
      ScheduleKeepsInv(s, rounds[0]);
      k := EveryoneCrosses(Schedule(s, rounds[0]), rounds[1..]);
      k := k + 1;
      FoldFirst(Schedule, s, rounds, k);
    }
  }

  predicate NoRespawns(rounds: seq<seq<Event>>) {
    forall i, j | 0 <= i < |rounds| && 0 <= j < |rounds[i]| :: rounds[i][j].MoveBy?
  }

  lemma {:induction false} DoneForGood(s: State, rounds: seq<seq<Event>>)
    requires Inv(s) && (forall i | 0 <= i < |rounds| :: Round(rounds[i], |s.cars|)) && NoRespawns(rounds)
    requires AllDone(s)
    ensures AllDone(Rounds(s, rounds))
    decreases |rounds|
  {
    if rounds != [] {
      DoneStaysDone(s, rounds[0]);
      DoneForGood(s, rounds[1..]);
    }
  }

  /** And once they are, only a respawn can change that. */
  lemma {:induction false} StillDone(s: State, rounds: seq<seq<Event>>, k: nat)
    requires Inv(s) && (forall i | 0 <= i < |rounds| :: Round(rounds[i], |s.cars|)) && NoRespawns(rounds)
    requires k <= |rounds| && AllDone(Rounds(s, rounds[..k]))
    ensures AllDone(Rounds(s, rounds))
    decreases |rounds|
  {
    if k == 0 {
      DoneForGood(s, rounds);
    } else {
      FoldFirst(Schedule, s, rounds, k);
      ScheduleKeepsInv(s, rounds[0]);
      StillDone(Schedule(s, rounds[0]), rounds[1..], k - 1);
    }
  }

  lemma DoneStaysDone(s: State, es: seq<Event>)
    requires Inv(s) && AllDone(s) && forall j | 0 <= j < |es| :: es[j].MoveBy?
    ensures Schedule(s, es) == s
  {
    FoldStill(Happen, s, es);
  }

  lemma {:induction false} CallsAreFree(es: seq<Event>)
    requires forall j | 0 <= j < |es| :: es[j].MoveBy?
    ensures Total(Cost, es) == 0
  {
    if es != [] {
      CallsAreFree(es[1..]);
    }
  }

  lemma {:induction false} NothingAdded(rounds: seq<seq<Event>>)
    requires NoRespawns(rounds)
    ensures AddedWork(rounds) == 0
  {
    if rounds != [] {
      CallsAreFree(rounds[0]);
      NothingAdded(rounds[1..]);
    }
  }

  /** Without respawns any schedule of as many rounds as there is work leaves every car across. */
  lemma EveryoneStaysAcross(s: State, rounds: seq<seq<Event>>)
    requires Inv(s) && (forall i | 0 <= i < |rounds| :: Round(rounds[i], |s.cars|)) && NoRespawns(rounds)
    requires |rounds| >= Work(s.cars)
    ensures AllDone(Rounds(s, rounds))
  {
    NothingAdded(rounds);
    var k := EveryoneCrosses(s, rounds);
    StillDone(s, rounds, k);
  }

  lemma {:induction false} WorkBound(cars: seq<Car>)
    requires forall c | 0 <= c < |cars| :: CarShape(cars[c])
    ensures Work(cars) <= 4 * |cars|
  {
    if cars != [] {
      WorkBound(cars[1..]);
    }
  }
}
