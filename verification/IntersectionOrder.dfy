/**
 The order at the intersection told by the events of a run alone: when each car was spawned, who
 has been refused and is still waiting, and who may go before whom.
 */
module IntersectionOrder {
  import opened IntersectionModel
  import opened IntersectionSafety
  import opened IntersectionProgress

  // ----- One call, told from the fields -----

  /** Nobody is first in list k but car c, or, once listed, it would be. */
  predicate First(s: State, c: nat, k: nat)
    requires Shape(s) && c < |s.cars| && k < 4
  {
    var q := s.queue[k];
    if c in q then q[0] == c else q == [] || s.cars[q[0]].spawnTime > s.cars[c].spawnTime
  }

  /** The car is on its last quadrant, or the next one is free and the car first in the list for it: to enter, a permit
      has to be left as well; to cross when none is left, the list does not matter. */
  predicate May(s: State, c: nat)
    requires Shape(s) && c < |s.cars|
  {
    var car := s.cars[c];
    assert CarShape(car);
    var next := if car.location == 0 then car.lane else car.location % 4 + 1;
    || (car.location != 0 && car.movesLeft == 1)
    || (s.free[next - 1] &&
         if car.location == 0 then s.permits > 0 && First(s, c, next - 1) else s.permits == 0 || First(s, c, next - 1))
  }

  /** A call advances its car exactly then. */
  lemma AdvancesIff(s: State, c: nat)
    requires Inv(s) && c < |s.cars| && s.cars[c].movesLeft > 0
    ensures Move(s, c).advanced <==> May(s, c)
  {
    LeadsIff(s, c);
    CanIffMay(s, c);
    ReadyIffCan(s, c);
  }

  lemma CanIffMay(s: State, c: nat)
    requires Shape(s) && s.permits >= 0 && c < |s.cars| && s.cars[c].movesLeft > 0
    requires Leads(s, c) <==> First(s, c, Target(s.cars[c]))
    ensures Can(s, c) <==> May(s, c)
  {
  }

  lemma LeadsIff(s: State, c: nat)
    requires Inv(s) && c < |s.cars|
    ensures Leads(s, c) <==> First(s, c, Target(s.cars[c]))
  {
    var q := s.queue[Target(s.cars[c])];
    HeadOfQueued(s.cars, q, c);
    SameTid(s, Queued(s.cars, q, c)[0], c);
  }

  lemma SameTid(s: State, c: nat, d: nat)
    requires CarsOk(s) && c < |s.cars| && d < |s.cars|
    ensures s.cars[c].tid == s.cars[d].tid <==> c == d
  {
  }

  /** An advance takes the car from its lane into the quadrant of that number, from its last quadrant out, and else one
      quadrant on; a call that is no advance does nothing to it, and no call does anything to another car. */
  lemma CarAfterMove(s: State, c: nat)
    requires Shape(s) && c < |s.cars| && s.cars[c].movesLeft > 0
    ensures var car, r := s.cars[c], Move(s, c);
      r.state.cars == s.cars[c :=
        if !r.advanced then car
        else if car.location == 0 then Car(car.spawnTime, car.tid, car.lane, car.movesLeft, car.lane)
        else if car.movesLeft == 1 then Car(car.spawnTime, car.tid, car.lane, 0, 0)
        else Car(car.spawnTime, car.tid, car.lane, car.movesLeft - 1,
                 if car.location == 4 then 1 else car.location + 1)]
  {
    MoveChangesCar(s, c);
    MovedCar(s, c);
  }

  /** A call that is no advance puts the car into the list of the quadrant it wants; an advance takes it out of all. */
  lemma ListsAfterMove(s: State, c: nat, k: nat, x: nat)
    requires Inv(s) && c < |s.cars| && s.cars[c].movesLeft > 0 && k < 4
    ensures |Move(s, c).state.queue| == 4
    ensures x in Move(s, c).state.queue[k] <==>
      if x != c then x in s.queue[k] else !Move(s, c).advanced && Wants(s.cars[c], k)
  {
    assert QueueOk(s, k);
    OnlyWanted(s, c, k);
    QueueAfterMove(s, c, k);
    AddedElements(s.cars, s.queue[k], c);
    if Wants(s.cars[c], k) {
      EnqueueKeepsQueues(s, c);
      assert QueueOk(Enqueue(s, c), k);
      RemovedElements(Enqueue(s, c).queue[k], c);
    }
  }

  lemma QueueAfterMove(s: State, c: nat, k: nat)
    requires Shape(s) && c < |s.cars| && s.cars[c].movesLeft > 0 && k < 4
    ensures |Move(s, c).state.queue| == 4
    ensures Move(s, c).state.queue[k] ==
      if !Wants(s.cars[c], k) then s.queue[k]
      else if Move(s, c).advanced then Removed(Enqueue(s, c).queue[k], c)
      else Queued(s.cars, s.queue[k], c)
  {
  }

  lemma OnlyWanted(s: State, c: nat, k: nat)
    requires Shape(s) && QueuesOk(s) && c < |s.cars| && k < 4
    ensures c in s.queue[k] ==> Wants(s.cars[c], k)
  {
    assert QueueOk(s, k);
  }

  // ----- When a car was spawned -----

  lemma StepKeepsSpawnTime(s: State, e: Event, c: nat)
    requires Enabled(s, e) && c < |s.cars| && !(e.Spawn? && e.car == c)
    ensures |Next(s, e).cars| == |s.cars| && Next(s, e).cars[c].spawnTime == s.cars[c].spawnTime
  {
    if e.MoveBy? {
      MoveChangesCar(s, e.car);
      MovedCar(s, e.car);
    }
  }

  /** Step i is the last before moment j that spawns the car. */
  predicate LastSpawn(events: seq<Event>, j: nat, c: nat, i: nat) {
    && i < j <= |events| && events[i].Spawn? && events[i].car == c
    && forall k | i < k < j :: !(events[k].Spawn? && events[k].car == c)
  }

  /** In every run the spawn time of a car is the time of its last spawning. */
  lemma {:induction false} SpawnTimeIsLast(states: seq<State>, events: seq<Event>, i: nat, j: nat, c: nat)
    requires Run(states, events) && LastSpawn(events, j, c, i)
    ensures c < |states[j].cars| && states[j].cars[c].spawnTime == events[i].time
  {
    var h: nat := j - 1;
    assert Enabled(states[h], events[h]) && states[h + 1] == Next(states[h], events[h]);
    if i < h {
      SpawnTimeIsLast(states, events, i, h, c);
      StepKeepsSpawnTime(states[h], events[h], c);
    }
  }

  // ----- Who is waiting -----

  /** By step h the car called, and up to moment j nothing has happened to it: it was refused and is still waiting. */
  ghost predicate RefusedSince(states: seq<State>, events: seq<Event>, h: nat, j: nat, d: nat)
    requires Run(states, events)
  {
    && h < j <= |events| && events[h] == MoveBy(d)
    && forall m | h <= m <= j :: d < |states[m].cars| && states[m].cars[d] == states[h].cars[d]
  }

  ghost predicate Refused(states: seq<State>, events: seq<Event>, j: nat, d: nat)
    requires Run(states, events)
  {
    exists h: nat :: RefusedSince(states, events, h, j, d)
  }

  /** One step changes who is refused. */
  lemma RefusedStep(states: seq<State>, events: seq<Event>, j: nat, d: nat)
    requires Run(states, events) && j < |events| && d < |states[j].cars| == |states[j + 1].cars|
    ensures Refused(states, events, j + 1, d) <==>
      states[j + 1].cars[d] == states[j].cars[d] && (events[j] == MoveBy(d) || Refused(states, events, j, d))
  {
    var n := j + 1;
    if states[n].cars[d] == states[j].cars[d] {
      if events[j] == MoveBy(d) {
        assert RefusedSince(states, events, j, n, d);
      } else if h: nat :| RefusedSince(states, events, h, j, d) {
        assert RefusedSince(states, events, h, n, d);
      }
    }
    if h: nat :| RefusedSince(states, events, h, n, d) {
      assert states[j].cars[d] == states[h].cars[d] == states[n].cars[d];
      assert h < j ==> RefusedSince(states, events, h, j, d);
    }
  }

  lemma ListsAfterStep(s: State, e: Event, k: nat, x: nat)
    requires Inv(s) && Enabled(s, e) && k < 4 && x < |s.cars|
    ensures |Next(s, e).queue| == 4 && |Next(s, e).cars| == |s.cars|
    ensures x in Next(s, e).queue[k] <==>
      && Next(s, e).cars[x] == s.cars[x] && Wants(s.cars[x], k)
      && (e == MoveBy(x) || x in s.queue[k])
  {
    OnlyWanted(s, x, k);
    if e.MoveBy? {
      ListsAfterMove(s, e.car, k, x);
      CarAfterMove(s, e.car);
    }
  }

  /** In every run the list of a quadrant holds exactly the cars that want it, have been refused and are still
      waiting. */
  lemma {:induction false} ListsHoldTheRefused(states: seq<State>, events: seq<Event>, j: nat, k: nat, d: nat)
    requires Run(states, events) && j < |states| && k < 4 && d < |states[j].cars|
    ensures |states[j].queue| == 4
    ensures d in states[j].queue[k] <==> Wants(states[j].cars[d], k) && Refused(states, events, j, d)
  {
    if j > 0 {
      var h := j - 1;
      RunKeepsInv(states, events, h);
      assert Enabled(states[h], events[h]) && states[h + 1] == Next(states[h], events[h]);
      CarsStay(states[h], events[h]);
      ListsAfterStep(states[h], events[h], k, d);
      ListsHoldTheRefused(states, events, h, k, d);
      RefusedStep(states, events, h, d);
    }
  }

  lemma CarsStay(s: State, e: Event)
    requires Enabled(s, e)
    ensures |Next(s, e).cars| == |s.cars|
  {
    if e.MoveBy? {
      MoveChangesCar(s, e.car);
    }
  }

  // ----- Who goes first -----

  /** A car that crosses while a permit is left overtakes nobody listed who spawned strictly earlier. */
  lemma NoCrossingAhead(s: State, c: nat, d: nat)
    requires Inv(s) && c < |s.cars| && s.cars[c].movesLeft > 1 && s.cars[c].location != 0 && Move(s, c).advanced
    requires s.permits > 0 && d in s.queue[s.cars[c].location % 4]
    ensures d < |s.cars| && s.cars[d].spawnTime >= s.cars[c].spawnTime
  {
    AdvancesIff(s, c);
    var k := s.cars[c].location % 4;
    assert QueueOk(s, k);
    var m :| 0 <= m < |s.queue[k]| && s.queue[k][m] == d;
    assert s.cars[s.queue[k][0]].spawnTime <= s.cars[s.queue[k][m]].spawnTime;
  }

  /** A car that has come to quadrant l by its call wanted that one. */
  lemma TookTarget(s: State, c: nat, l: nat)
    requires Shape(s) && c < |s.cars| && s.cars[c].movesLeft > 0 && l > 0
    requires |Move(s, c).state.cars| == |s.cars| && Move(s, c).state.cars[c].location == l != s.cars[c].location
    ensures Move(s, c).advanced && Target(s.cars[c]) == l - 1 && (s.cars[c].location != 0 ==> s.cars[c].movesLeft > 1)
  {
    MoveChangesCar(s, c);
    MovedCar(s, c);
  }

  lemma TakerSpawnedFirst(s: State, c: nat, d: nat)
    requires Inv(s) && c < |s.cars| && s.cars[c].movesLeft > 0 && Move(s, c).advanced
    requires s.cars[c].location != 0 ==> s.cars[c].movesLeft > 1 && s.permits > 0
    requires d in s.queue[Target(s.cars[c])]
    ensures d < |s.cars| && s.cars[c].spawnTime <= s.cars[d].spawnTime
  {
    if s.cars[c].location == 0 {
      NoOvertaking(s, c, d);
    } else {
      NoCrossingAhead(s, c, d);
    }
  }

  /** In every run: a car that takes a quadrant, from its lane or while fewer than three are inside, was spawned no
      later than anybody who has been refused that quadrant and is still waiting. */
  lemma FirstSpawnedGoesFirst(states: seq<State>, events: seq<Event>, j: nat, c: nat, d: nat, l: nat, ic: nat, id: nat)
    requires Run(states, events) && j < |events| && events[j] == MoveBy(c) && d < |states[j].cars|
    requires c < |states[j + 1].cars| && states[j + 1].cars[c].location == l != states[j].cars[c].location
    requires 1 <= l <= 4
    requires states[j].cars[c].location == 0 || |Inside(states[j])| < 3
    requires Refused(states, events, j, d) && Wants(states[j].cars[d], l - 1)
    requires LastSpawn(events, j, c, ic) && LastSpawn(events, j, d, id)
    ensures events[ic].time <= events[id].time
  {
    var s := states[j];
    RunKeepsInv(states, events, j);
    assert Enabled(s, events[j]) && states[j + 1] == Next(s, events[j]);
    CarsStay(s, events[j]);
    ListsHoldTheRefused(states, events, j, l - 1, d);
    TookTarget(s, c, l);
    TakerSpawnedFirst(s, c, d);
    SpawnTimeIsLast(states, events, ic, j, c);
    SpawnTimeIsLast(states, events, id, j, d);
  }
}
