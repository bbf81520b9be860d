/**
 The costume shop: ninjas and pirates share the costuming teams but never the store. What a
 person does between taking and releasing the door lock, or the statistics lock, is one step.
 */
module ShopModel {
  import opened Basics

  datatype Kind = Ninja | Pirate | Both | None

  type Race = k: Kind | k == Ninja || k == Pirate witness Ninja

  /** Outside: the visit has begun, the person tries the door or waits in the line. Served: paid, still in the store.
      Departing: left for good, not yet in the list of persons. */
  datatype Phase = Away | Outside | Inside(team: nat) | Served(team: nat) | Departing | Gone

  datatype Visit = Visit(visitTime: nat, waitTime: nat)

  datatype Person = Person(race: Race, phase: Phase, start: nat, waitTime: nat, nextVisit: bool, visits: nat,
    gold: nat, history: seq<Visit>)

  /** People are named by their index. The line holds the node of each person's current visit; signalled are those whose
      condition was signalled since they last began to wait. */
  datatype Shop = Shop(teams: nat, nAvg: int, pAvg: int, people: seq<Person>, line: seq<nat>, signalled: set<nat>,
                       ninjaIn: int, pirateIn: int, justChanged: bool, busy: seq<bool>, busyFor: seq<nat>,
                       revenue: nat, persons: seq<Option<nat>>, now: nat)

  predicate Shape(s: Shop) {
    && (forall i | 0 <= i < |s.line| :: s.line[i] < |s.people|)
    && |s.busy| == s.teams && |s.busyFor| == s.teams
  }

  // ----- canEnter -----

  /** timeElapsed, in 64-bit unsigned arithmetic. */
  function Elapsed(t: nat, start: nat): nat { if t >= start then t - start else (t - start) % 0x1_0000_0000_0000_0000 }

  predicate Overdue(s: Shop, p: nat, t: nat)
    requires p < |s.people|
  {
    Elapsed(t, s.people[p].start) > 30000 - 1500 * (if s.people[p].race == Pirate then s.nAvg else s.pAvg)
  }

  /** The loop of canEnter from the i-th node on; node j is looked at when the clock shows clock[j]. */
  function Scan(s: Shop, clock: seq<nat>, i: nat, inside: Kind): (k: Kind)
    requires Shape(s) && |clock| == |s.line| && i <= |s.line|
    decreases |s.line| - i
  {
    if i == |s.line| then (if inside == None then Both else inside)
    else if Overdue(s, s.line[i], clock[i]) then
      var race := s.people[s.line[i]].race;
      if inside == None || inside == race then race else None
    else Scan(s, clock, i + 1, inside)
  }

  function CanEnter(s: Shop, clock: seq<nat>): (k: Kind)
    requires Shape(s) && |clock| == |s.line|
  {
    if s.ninjaIn == s.teams || s.pirateIn == s.teams then None
    else if s.ninjaIn > 0 then (if s.justChanged then Ninja else Scan(s, clock, 0, Ninja))
    else if s.pirateIn > 0 then (if s.justChanged then Pirate else Scan(s, clock, 0, Pirate))
    else Scan(s, clock, 0, None)
  }

  /** What canEnter does to justChanged. */
  function Changed(s: Shop): bool {
    var full := s.ninjaIn == s.teams || s.pirateIn == s.teams;
    s.justChanged || (!full && s.ninjaIn <= 0 && s.pirateIn <= 0 && s.pirateIn + s.ninjaIn == 0)
  }

  /** The condition at the door: the second call happens only when the first answered something else. */
  predicate Admitted(s: Shop, p: nat, first: seq<nat>, second: seq<nat>)
    requires Shape(s) && p < |s.people| && |first| == |second| == |s.line|
  {
    CanEnter(s, first) == s.people[p].race || CanEnter(s.(justChanged := Changed(s)), second) == Both
  }

  // ----- Steps of a person -----

  /** getCostumingTeam: the first team that is Ready, from the k-th on. */
  function FreeTeam(busy: seq<bool>, k: nat): (t: nat)
    requires k <= |busy|
    ensures k <= t <= |busy| && (t < |busy| ==> !busy[t]) && forall i | k <= i < t :: busy[i]
    decreases |busy| - k
  {
    if k < |busy| && busy[k] then FreeTeam(busy, k + 1) else k
  }

  function Signal(s: Shop, q: nat): (r: Shop)
    requires q < |s.people|
    ensures r == s.(signalled := r.signalled)
  {
    if s.people[q].phase == Outside then s.(signalled := s.signalled + {q}) else s
  }

  /** n->next != NULL: the person has a node in the line and not the last one. */
  predicate HasNext(line: seq<nat>, p: nat) { exists i :: 0 <= i < |line| - 1 && line[i] == p }

  function IndexOf(line: seq<nat>, p: nat): (i: nat)
    requires p in line
    ensures i < |line| && line[i] == p && p !in line[..i]
  {
    if line[0] == p then 0 else 1 + IndexOf(line[1..], p)
  }

  function SignalNext(s: Shop, p: nat): (r: Shop)
    requires Shape(s) && p < |s.people|
    ensures r == s.(signalled := r.signalled)
  {
    if p in s.line && IndexOf(s.line, p) + 1 < |s.line| then Signal(s, s.line[IndexOf(s.line, p) + 1]) else s
  }

  function Arrive(s: Shop, p: nat, t: nat): Shop
    requires p < |s.people|
  {
    s.(people := s.people[p := s.people[p].(phase := Outside, start := t)], now := t)
  }

  /** enterStore and getCostumingTeam. */
  function Seat(s: Shop, p: nat, t: nat): (r: Shop)
    requires Shape(s) && p < |s.people|
    ensures Shape(r)
  {
    var person, team := s.people[p], FreeTeam(s.busy, 0);
    s.(ninjaIn := s.ninjaIn + (if person.race == Ninja then 1 else 0),
       pirateIn := s.pirateIn + (if person.race == Ninja then 0 else 1),
       busy := if team < s.teams then s.busy[team := true] else s.busy,
       people := s.people[p := person.(phase := Inside(team), waitTime := Elapsed(t, person.start))])
  }

  function Enter(s: Shop, p: nat, t: nat): Shop
    requires Shape(s) && p < |s.people|
  {
    SignalNext(Seat(s, p, t), p)
  }

  function Refuse(s: Shop, p: nat): Shop
    requires Shape(s) && p < |s.people|
  {
    if HasNext(s.line, p) then SignalNext(s, p)
    else if p in s.line then s.(justChanged := false)
    else s.(line := s.line + [p])
  }

  /** One turn of the loop at the door, by a person who has just come or was woken; the clock ends at t. */
  function Attempt(s: Shop, p: nat, first: seq<nat>, second: seq<nat>, t: nat): Shop
    requires Shape(s) && p < |s.people| && |first| == |second| == |s.line|
  {
    var w := s.(signalled := s.signalled - {p}, justChanged := Changed(s), now := t);
    if Admitted(s, p, first, second) then Enter(w, p, t) else Refuse(w, p)
  }

  /** A visit is paid for unless the person waited thirty seconds or more. */
  function Due(waitTime: nat, time: nat): nat { if waitTime / 1000 < 30 then time else 0 }

  /** Under the statistics lock; the costuming took time seconds. */
  function Pay(s: Shop, p: nat, time: nat): Shop
    requires Shape(s) && p < |s.people| && s.people[p].phase.Inside?
  {
    var person := s.people[p];
    var team := person.phase.team;
    var owed := Due(person.waitTime, time);
    s.(busyFor := if team < s.teams then s.busyFor[team := s.busyFor[team] + time * 1000 * 1000] else s.busyFor,
       revenue := s.revenue + owed,
       people := s.people[p := person.(phase := Served(team), gold := person.gold + owed, visits := person.visits + 1,
                                       history := person.history + [Visit(time, person.waitTime)])])
  }

  /** delete_node_by_pointer. */
  function Without(line: seq<nat>, p: nat): (r: seq<nat>)
    ensures forall q | q in r :: q in line
  {
    if line == [] then [] else if line[0] == p then line[1..] else [line[0]] + Without(line[1..], p)
  }

  function SignalHead(s: Shop): (r: Shop)
    requires Shape(s)
    ensures r == s.(signalled := r.signalled)
  {
    if s.line != [] then Signal(s, s.line[0]) else s
  }

  /** leaveStore, releaseCostumingTeam, and off the line. */
  function Quit(s: Shop, p: nat, forGood: bool): (r: Shop)
    requires Shape(s) && p < |s.people| && s.people[p].phase.Served?
    ensures Shape(r)
  {
    var person := s.people[p];
    var team := person.phase.team;
    var gone, rest := forGood || person.nextVisit, Without(s.line, p);
    assert forall i | 0 <= i < |rest| :: rest[i] in s.line;
    s.(ninjaIn := s.ninjaIn - (if person.race == Ninja then 1 else 0),
       pirateIn := s.pirateIn - (if person.race == Ninja then 0 else 1),
       busy := if team < s.teams then s.busy[team := false] else s.busy,
       line := rest,
       people := s.people[p := person.(phase := if gone then Departing else Away,
                                       nextVisit := person.nextVisit || !gone)])
  }

  function Leave(s: Shop, p: nat, forGood: bool): Shop
    requires Shape(s) && p < |s.people| && s.people[p].phase.Served?
  {
    SignalHead(Quit(s, p, forGood))
  }

  /** The first NULL entry of persons, from the k-th on. */
  function FirstEmpty(persons: seq<Option<nat>>, k: nat): (r: nat)
    requires k <= |persons|
    ensures k <= r <= |persons| && forall i | k <= i < r :: persons[i].Some?
    decreases |persons| - k
  {
    if k < |persons| && persons[k].Some? then FirstEmpty(persons, k + 1) else k
  }

  function Register(s: Shop, p: nat): Shop
    requires p < |s.people|
  {
    var i := FirstEmpty(s.persons, 0);
    s.(persons := if i < |s.persons| then s.persons[i := Some(p)] else s.persons,
       people := s.people[p := s.people[p].(phase := Gone)])
  }

  // ----- Runs -----

  datatype Event =
    | DoArrive(who: nat, t: nat)
    | DoAttempt(who: nat, first: seq<nat>, second: seq<nat>, t: nat)
    | DoPay(who: nat, time: nat)
    | DoLeave(who: nat, forGood: bool)
    | DoRegister(who: nat)

  predicate Nondecreasing(c: seq<nat>) { forall i, j | 0 <= i < j < |c| :: c[i] <= c[j] }

  /** The thread is where it would take this step, and the clock does not run backwards. */
  predicate Enabled(s: Shop, e: Event) {
    && Shape(s) && e.who < |s.people|
    && var phase := s.people[e.who].phase;
       match e
       case DoArrive(_, t) => phase == Away && s.now <= t
       case DoAttempt(_, first, second, t) =>
         phase == Outside && |first| == |second| == |s.line| && Nondecreasing([s.now] + first + second + [t])
       case DoPay(_, _) => phase.Inside?
       case DoLeave(_, _) => phase.Served?
       case DoRegister(_) => phase == Departing
  }

  function Next(s: Shop, e: Event): Shop
    requires Enabled(s, e)
  {
    match e
    case DoArrive(p, t) => Arrive(s, p, t)
    case DoAttempt(p, first, second, t) => Attempt(s, p, first, second, t)
    case DoPay(p, time) => Pay(s, p, time)
    case DoLeave(p, forGood) => Leave(s, p, forGood)
    case DoRegister(p) => Register(s, p)
  }

  /** What main sets up: nobody has come yet. */
  ghost predicate Initial(s: Shop) {
    && s.teams > 0
    && (forall p | 0 <= p < |s.people| :: s.people[p] == Person(s.people[p].race, Away, 0, 0, false, 0, 0, []))
    && s.line == [] && s.signalled == {} && s.ninjaIn == 0 && s.pirateIn == 0 && !s.justChanged
    && |s.busy| == s.teams && (forall t | 0 <= t < s.teams :: !s.busy[t])
    && |s.busyFor| == s.teams && (forall t | 0 <= t < s.teams :: s.busyFor[t] == 0)
    && s.revenue == 0
    && |s.persons| == |s.people| && (forall i | 0 <= i < |s.persons| :: s.persons[i].Absent?)
  }

  ghost predicate Run(states: seq<Shop>, events: seq<Event>) {
    && |states| == |events| + 1
    && Initial(states[0])
    && forall i | 0 <= i < |events| :: Enabled(states[i], events[i]) && states[i + 1] == Next(states[i], events[i])
  }
}
