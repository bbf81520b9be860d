/** The shop on the data its threads share: the counters, the array of team states, the linked line, the statistics. */
module ShopMachine {
  import opened Basics
  import opened ShopModel
  import opened ShopLine
  import opened ShopSafety

  class Store {
    const teams: nat
    const nAvg: int
    const pAvg: int
    const people: array<Person>
    const nodes: array<Node?>  // the node each person holds during a visit
    const line: Line
    const teamStates: array<bool>  // true for Busy
    const timeTeamsBusyFor: array<nat>
    const persons: array<Option<nat>>
    var ninjaIn: int
    var pirateIn: int
    var justChanged: bool
    var revenue: nat
    var signalled: set<nat>
    var now: nat
    ghost var order: seq<nat>  // whose nodes the line holds
    ghost var owned: set<Node>  // all the nodes

    ghost predicate LineValid()
      reads this`order, this`owned, nodes, line, owned
    {
      && (forall n | n in line.spine :: n in owned)
      && (forall p | 0 <= p < nodes.Length && nodes[p] != null :: nodes[p] in owned)
      && line.Valid() && |order| == |line.spine|
      && (forall i | 0 <= i < |order| :: order[i] < nodes.Length && nodes[order[i]] == line.spine[i])
      && (forall p | 0 <= p < nodes.Length && nodes[p] != null ::
           nodes[p].person == p && (nodes[p] !in line.spine ==> nodes[p].next == null))
    }

    /** A node carries the race and start of its owner's visit, and exists as long as the visit lasts. */
    ghost predicate NodesMatch()
      reads people, nodes
    {
      && nodes.Length == people.Length
      && forall p | 0 <= p < people.Length ::
           if people[p].phase == Outside || InStore(people[p])
           then nodes[p] != null && nodes[p].race == people[p].race && nodes[p].start == people[p].start
           else nodes[p] == null
    }

    ghost function View(): Shop
      reads this, people, teamStates, timeTeamsBusyFor, persons
    {
      Shop(teams, nAvg, pAvg, people[..], order, signalled, ninjaIn, pirateIn, justChanged,
           teamStates[..], timeTeamsBusyFor[..], revenue, persons[..], now)
    }

    ghost predicate Valid()
      reads this, people, teamStates, timeTeamsBusyFor, persons, nodes, line, owned
    {
      && LineValid() && NodesMatch() && teamStates.Length == teams && timeTeamsBusyFor.Length == teams
      && forall i | 0 <= i < |order| :: order[i] < people.Length
    }

    /** Steps that leave the line and the nodes alone leave them in order. */
    twostate lemma LineStays()
      requires old(LineValid()) && unchanged(this`order, this`owned, nodes, line) && unchanged(owned)
      ensures LineValid()
    {
    }

    /** What main sets up for the given people. */
    constructor (people: array<Person>, teams: nat, nAvg: int, pAvg: int)
      requires teams > 0 && forall p | 0 <= p < people.Length ::
        people[p] == Person(people[p].race, Away, 0, 0, false, 0, 0, [])
      ensures Valid() && Initial(View()) && View().teams == teams && this.people == people
    {
      this.teams, this.nAvg, this.pAvg, this.people := teams, nAvg, pAvg, people;
      nodes := new Node?[people.Length](_ => null);
      line := new Line();
      teamStates, timeTeamsBusyFor := new bool[teams](_ => false), new nat[teams](_ => 0);
      persons := new Option<nat>[people.Length](_ => Absent);
      ninjaIn, pirateIn, justChanged, revenue, signalled, now, order, owned := 0, 0, false, 0, {}, 0, [], {};
    }

    // ----- canEnter -----

    lemma NodeOf(i: nat)
      requires LineValid() && NodesMatch() && i < |order|
      ensures order[i] < people.Length && line.spine[i].race == people[order[i]].race
      ensures line.spine[i].start == people[order[i]].start
    {
      assert nodes[order[i]] == line.spine[i];
    }

    method Scan(clock: seq<nat>, inside: Kind) returns (k: Kind)
      requires Valid() && |clock| == |order|
      ensures k == ShopModel.Scan(View(), clock, 0, inside)
    {
      var cur, i := line.head, 0;
      ghost var s := View();
      while cur != null
        invariant 0 <= i <= |order| && cur == line.NodeAt(i)
        invariant ShopModel.Scan(s, clock, 0, inside) == ShopModel.Scan(s, clock, i, inside)
        decreases |order| - i
      {
        NodeOf(i);
        assert cur.race == s.people[s.line[i]].race && cur.start == s.people[s.line[i]].start;
        if cur.race == Pirate && Elapsed(clock[i], cur.start) > 30000 - 1500 * nAvg {
          return if inside == None || inside == Pirate then Pirate else None;
        } else if cur.race == Ninja && Elapsed(clock[i], cur.start) > 30000 - 1500 * pAvg {
          return if inside == None || inside == Ninja then Ninja else None;
        }
        assert line.spine[i].next == line.NodeAt(i + 1);
        ScanSkips(s, clock, i, inside);
        cur, i := cur.next, i + 1;
      }
      k := if inside == None then Both else inside;
    }

    method CanEnter(clock: seq<nat>) returns (k: Kind)
      requires Valid() && |clock| == |order|
      modifies this`justChanged
      ensures Valid() && View() == old(View()).(justChanged := Changed(old(View())))
      ensures k == ShopModel.CanEnter(old(View()), clock)
    {
      if ninjaIn == teams || pirateIn == teams {
        return None;
      }
      var inside := None;
      if ninjaIn > 0 {
        if justChanged {
          return Ninja;
        }
        inside := Ninja;
      } else if pirateIn > 0 {
        if justChanged {
          return Pirate;
        }
        inside := Pirate;
      } else if pirateIn + ninjaIn == 0 {
        justChanged := true;
      }
      k := Scan(clock, inside);
      ScanIgnores(old(View()), View(), clock, 0, inside);
    }

    // ----- The teams and the line -----

    method GetCostumingTeam() returns (team: nat)
      requires teamStates.Length == teams
      modifies teamStates
      ensures team == FreeTeam(old(teamStates[..]), 0)
      ensures teamStates[..] == if team < teams then old(teamStates[..])[team := true] else old(teamStates[..])
    {
      team := 0;
      while team < teams
        invariant 0 <= team <= teams && teamStates[..] == old(teamStates[..])
        invariant FreeTeam(old(teamStates[..]), 0) == FreeTeam(old(teamStates[..]), team)
      {
        if !teamStates[team] {
          teamStates[team] := true;
          break;
        }
        team := team + 1;
      }
    }

    /** A node's place in the list tells its owner's place in the line. */
    lemma Place(p: nat)
      requires LineValid() && p < nodes.Length && nodes[p] != null
      ensures Distinct(order)
      ensures nodes[p] in line.spine <==> p in order
      ensures nodes[p].next != null <==> HasNext(order, p)
      ensures nodes[p].next != null ==>
        p in order && IndexOf(order, p) + 1 < |order| && nodes[p].next.person == order[IndexOf(order, p) + 1]
    {
      assert forall i | 0 <= i < |order| :: line.spine[i].person == order[i];
      if nodes[p] in line.spine {
        var i :| 0 <= i < |order| && line.spine[i] == nodes[p];
        assert order[i] == p && line.spine[i].next == line.NodeAt(i + 1);
        assert IndexOf(order, p) == i;
      }
    }

    lemma InLine(p: nat)
      requires LineValid() && p < nodes.Length && nodes[p] != null
      ensures nodes[p] in line.spine <==> p in order
    {
      assert forall i | 0 <= i < |order| :: line.spine[i].person == order[i];
    }

    method Signal(q: nat)
      requires q < people.Length
      modifies this`signalled
      ensures View() == ShopModel.Signal(old(View()), q)
    {
      if people[q].phase == Outside {
        signalled := signalled + {q};
      }
    }

    /** Signal whoever stands behind p. */
    method SignalNext(p: nat)
      requires Valid() && p < people.Length && nodes[p] != null
      modifies this`signalled
      ensures Valid() && View() == ShopModel.SignalNext(old(View()), p)
    {
      Place(p);
      if nodes[p].next != null {
        Signal(nodes[p].next.person);
      } else {
        NoNext(order, p);
      }
    }

    method JoinLine(p: nat)
      requires LineValid() && p < nodes.Length && nodes[p] != null && p !in order
      modifies this`order, line, owned
      ensures LineValid() && order == old(order) + [p]
    {
      Place(p);
      line.Add(nodes[p]);
      order := order + [p];
    }

    method QuitLine(p: nat)
      requires LineValid() && p < nodes.Length && nodes[p] != null
      modifies this`order, line, owned, nodes
      ensures LineValid() && order == Without(old(order), p) && nodes[p] == null
      ensures forall q | 0 <= q < nodes.Length && q != p :: nodes[q] == old(nodes[q])
    {
      DropNode(p);
      nodes[p] := null;
      order := Without(order, p);
    }

    method DropNode(p: nat)
      requires LineValid() && p < nodes.Length && nodes[p] != null
      modifies line, owned
      ensures Dropped(p)
    {
      WithoutMatches(line.spine, order, nodes[..], p);
      line.Delete(nodes[p]);
    }

    /** The node of p is not in the list; without it, and with p out of the line, all would be as it should. */
    ghost predicate Dropped(p: nat)
      requires p < nodes.Length
      reads this`order, this`owned, nodes, line, owned
    {
      && (forall n | n in line.spine :: n in owned)
      && (forall q | 0 <= q < nodes.Length && nodes[q] != null :: nodes[q] in owned)
      && line.Valid() && |line.spine| == |Without(order, p)|
      && (forall i | 0 <= i < |line.spine| ::
           Without(order, p)[i] < nodes.Length && Without(order, p)[i] != p &&
             nodes[Without(order, p)[i]] == line.spine[i])
      && (forall q | 0 <= q < nodes.Length && q != p && nodes[q] != null ::
           nodes[q].person == q && (nodes[q] !in line.spine ==> nodes[q].next == null))
    }

    // ----- Steps of a person -----

    method Arrive(p: nat, t: nat)
      requires Valid() && p < people.Length && people[p].phase == Away
      modifies people, nodes, this`now, this`owned
      ensures Valid() && View() == ShopModel.Arrive(old(View()), p, t)
    {
      NewNode(p, people[p].race, t);
      Begin(p, t);
      assert LineValid();
    }

    method Begin(p: nat, t: nat)
      requires p < people.Length
      modifies people, this`now
      ensures View() == ShopModel.Arrive(old(View()), p, t)
    {
      people[p] := people[p].(phase := Outside, start := t);
      now := t;
    }

    method NewNode(p: nat, race: Race, t: nat)
      requires LineValid() && p < nodes.Length && nodes[p] == null
      modifies nodes, this`owned
      ensures LineValid() && nodes[p] != null && nodes[p].race == race && nodes[p].start == t
      ensures forall q | 0 <= q < nodes.Length && q != p :: nodes[q] == old(nodes[q])
    {
      nodes[p] := new Node(p, race, t);
      owned := owned + {nodes[p]};
    }

    method EnterStore(race: Race)
      modifies this`ninjaIn, this`pirateIn
      ensures ninjaIn == old(ninjaIn) + (if race == Ninja then 1 else 0)
      ensures pirateIn == old(pirateIn) + (if race == Ninja then 0 else 1)
    {
      if race == Ninja {
        ninjaIn := ninjaIn + 1;
      } else {
        pirateIn := pirateIn + 1;
      }
    }

    method LeaveStore(race: Race)
      modifies this`ninjaIn, this`pirateIn
      ensures ninjaIn == old(ninjaIn) - (if race == Ninja then 1 else 0)
      ensures pirateIn == old(pirateIn) - (if race == Ninja then 0 else 1)
    {
      if race == Ninja {
        ninjaIn := ninjaIn - 1;
      } else {
        pirateIn := pirateIn - 1;
      }
    }

    method ReleaseCostumingTeam(team: nat)
      requires teamStates.Length == teams
      modifies teamStates
      ensures teamStates[..] == if team < teams then old(teamStates[..])[team := false] else old(teamStates[..])
    {
      if team < teams {
        teamStates[team] := false;
      }
    }

    /** One turn of the loop at the door. */
    method Attempt(p: nat, first: seq<nat>, second: seq<nat>, t: nat)
      requires Valid() && p < people.Length && people[p].phase == Outside && |first| == |second| == |order|
      modifies this, people, teamStates, line, owned
      ensures Valid() && View() == ShopModel.Attempt(old(View()), p, first, second, t)
    {
      var open := AtDoor(p, first, second, t);
      if open {
        Enter(p, t);
      } else {
        Refuse(p);
      }
    }

    method AtDoor(p: nat, first: seq<nat>, second: seq<nat>, t: nat) returns (open: bool)
      requires Valid() && p < people.Length && |first| == |second| == |order|
      modifies this`justChanged, this`signalled, this`now
      ensures Valid()
      ensures View() == old(View()).(signalled := old(signalled) - {p}, justChanged := Changed(old(View())), now := t)
      ensures open == Admitted(old(View()), p, first, second)
    {
      var k := CanEnter(first);
      open := k == people[p].race;
      if !open {
        k := CanEnter(second);
        open := k == Both;
      }
      signalled, now := signalled - {p}, t;
      LineStays();
    }

    method Enter(p: nat, t: nat)
      requires Valid() && p < people.Length && people[p].phase == Outside
      modifies this, people, teamStates
      ensures Valid() && View() == ShopModel.Enter(old(View()), p, t)
    {
      Seat(p, t);
      SignalNext(p);
    }

    method Seat(p: nat, t: nat)
      requires Valid() && p < people.Length && people[p].phase == Outside
      modifies this`ninjaIn, this`pirateIn, people, teamStates
      ensures Valid() && View() == ShopModel.Seat(old(View()), p, t) && nodes[p] != null
    {
      GiveTeam(p, Elapsed(t, nodes[p].start));
      LineStays();
      VisitGoesOn(p);
    }

    method GiveTeam(p: nat, waitTime: nat)
      requires Shape(View()) && p < people.Length
      modifies this`ninjaIn, this`pirateIn, people, teamStates
      ensures forall t | waitTime == Elapsed(t, old(people[p].start)) :: View() == ShopModel.Seat(old(View()), p, t)
      ensures people[..] == old(people[..])[p := old(people[p]).(phase := people[p].phase, waitTime := waitTime)]
      ensures people[p].phase.Inside?
    {
      EnterStore(people[p].race);
      var team := GetCostumingTeam();
      people[p] := people[p].(phase := Inside(team), waitTime := waitTime);
    }

    method Refuse(p: nat)
      requires Valid() && p < people.Length && people[p].phase == Outside
      modifies this, line, owned
      ensures Valid() && View() == ShopModel.Refuse(old(View()), p)
    {
      Place(p);
      if nodes[p].next != null {
        SignalNext(p);
      } else {
        Wait(p);
      }
    }

    method Wait(p: nat)
      requires Valid() && p < people.Length && people[p].phase == Outside
      modifies this`justChanged, this`order, line, owned
      ensures Valid() && order == old(if p in order then order else order + [p])
      ensures justChanged == old(justChanged && p !in order)
    {
      InLine(p);
      var found := line.Contains(nodes[p]);
      if found {
        justChanged := false;
      } else {
        JoinLine(p);
      }
    }

    method Pay(p: nat, time: nat)
      requires Valid() && p < people.Length && people[p].phase.Inside?
      modifies this`revenue, people, timeTeamsBusyFor
      ensures Valid() && View() == ShopModel.Pay(old(View()), p, time)
      ensures revenue == old(revenue) + (if old(people[p].waitTime) < 30000 then time else 0)
      ensures people[p].gold == old(people[p].gold) + (if old(people[p].waitTime) < 30000 then time else 0)
    {
      Charge(p, time);
      LineStays();
      VisitGoesOn(p);
    }

    method Charge(p: nat, time: nat)
      requires Shape(View()) && p < people.Length && people[p].phase.Inside?
      modifies this`revenue, people, timeTeamsBusyFor
      ensures View() == ShopModel.Pay(old(View()), p, time)
      ensures InStore(people[p]) && people[p].race == old(people[p].race) && people[p].start == old(people[p].start)
      ensures forall q | 0 <= q < people.Length && q != p :: people[q] == old(people[q])
    {
      var person := people[p];
      CountTime(person.phase.team, time);
      if person.waitTime / 1000 < 30 {
        revenue := revenue + time;
        person := person.(gold := person.gold + time);
      }
      people[p] := person.(phase := Served(person.phase.team), visits := person.visits + 1,
                           history := person.history + [Visit(time, person.waitTime)]);
    }

    method CountTime(team: nat, time: nat)
      requires timeTeamsBusyFor.Length == teams
      modifies timeTeamsBusyFor
      ensures timeTeamsBusyFor[..] ==
        if team < teams then old(timeTeamsBusyFor[..])[team := old(timeTeamsBusyFor[..])[team] + time * 1000 * 1000]
        else old(timeTeamsBusyFor[..])
    {
      if team < teams {
        timeTeamsBusyFor[team] := timeTeamsBusyFor[team] + time * 1000 * 1000;
      }
    }

    method Leave(p: nat, forGood: bool)
      requires Valid() && p < people.Length && people[p].phase.Served?
      modifies this, people, nodes, teamStates, line, owned
      ensures Valid() && View() == ShopModel.Leave(old(View()), p, forGood)
      ensures people[p].phase == if forGood || old(people[p].nextVisit) then Departing else Away
    {
      Quit(p, forGood);
      if line.head != null {
        assert line.head == nodes[order[0]];
        Signal(line.head.person);
      }
    }

    method Quit(p: nat, forGood: bool)
      requires Valid() && p < people.Length && people[p].phase.Served?
      modifies this`ninjaIn, this`pirateIn, this`order, people, nodes, teamStates, line, owned
      ensures Valid() && View() == ShopModel.Quit(old(View()), p, forGood)
    {
      StepOut(people[p].race, people[p].phase.team);
      LineStays();
      EndVisit(p, forGood);
    }

    method StepOut(race: Race, team: nat)
      requires teamStates.Length == teams
      modifies this`ninjaIn, this`pirateIn, teamStates
      ensures View() == old(View()).(ninjaIn := ninjaIn, pirateIn := pirateIn, busy := teamStates[..])
      ensures ninjaIn == old(ninjaIn) - (if race == Ninja then 1 else 0)
      ensures pirateIn == old(pirateIn) - (if race == Ninja then 0 else 1)
      ensures teamStates[..] == if team < teams then old(teamStates[..])[team := false] else old(teamStates[..])
    {
      LeaveStore(race);
      ReleaseCostumingTeam(team);
    }

    method EndVisit(p: nat, forGood: bool)
      requires Valid() && p < people.Length && people[p].phase.Served?
      modifies this`order, people, nodes, line, owned
      ensures Valid() && View() == old(View()).(line := Without(old(order), p), people := people[..])
      ensures people[..] == old(people[..])[p := Over(old(people[p]), forGood)]
    {
      QuitLine(p);
      CloseRecord(p, forGood);
      NodeGone(p);
      WithoutBelow(old(order), p, people.Length);
    }

    /** The record of p changes while the visit goes on. */
    twostate lemma VisitGoesOn(p: nat)
      requires old(NodesMatch()) && unchanged(nodes) && p < people.Length
      requires old(people[p].phase == Outside || InStore(people[p])) && InStore(people[p])
      requires people[p].race == old(people[p].race) && people[p].start == old(people[p].start)
      requires forall q | 0 <= q < people.Length && q != p :: people[q] == old(people[q])
      ensures NodesMatch()
    {
    }

    /** The node of p and its visit end together. */
    twostate lemma NodeGone(p: nat)
      requires old(NodesMatch()) && p < people.Length && nodes[p] == null
      requires people[p].phase != Outside && !InStore(people[p])
      requires forall q | 0 <= q < nodes.Length && q != p :: nodes[q] == old(nodes[q])
      requires forall q | 0 <= q < people.Length && q != p :: people[q] == old(people[q])
      ensures NodesMatch()
    {
    }

    method CloseRecord(p: nat, forGood: bool)
      requires LineValid() && p < people.Length
      modifies people
      ensures LineValid() && people[..] == old(people[..])[p := Over(old(people[p]), forGood)]
    {
      people[p] := Over(people[p], forGood);
    }

    static function Over(person: Person, forGood: bool): Person {
      var gone := forGood || person.nextVisit;
      person.(phase := if gone then Departing else Away, nextVisit := person.nextVisit || !gone)
    }

    method Register(p: nat)
      requires Valid() && p < people.Length && people[p].phase == Departing
      modifies people, persons
      ensures Valid() && View() == ShopModel.Register(old(View()), p)
    {
      Enlist(p);
      LineStays();
    }

    method Enlist(p: nat)
      requires p < people.Length
      modifies people, persons
      ensures View() == ShopModel.Register(old(View()), p)
    {
      var i := 0;
      while i < persons.Length && persons[i].Some?
        invariant 0 <= i <= persons.Length && FirstEmpty(persons[..], 0) == FirstEmpty(persons[..], i)
      {
        i := i + 1;
      }
      if i < persons.Length {
        persons[i] := Some(p);
      }
      people[p] := people[p].(phase := Gone);
    }
  }

  lemma ScanSkips(s: Shop, clock: seq<nat>, i: nat, inside: Kind)
    requires Shape(s) && |clock| == |s.line| && i < |s.line| && !Overdue(s, s.line[i], clock[i])
    ensures ShopModel.Scan(s, clock, i, inside) == ShopModel.Scan(s, clock, i + 1, inside)
  {
  }

  /** The loop of canEnter does not look at justChanged. */
  lemma {:induction false} ScanIgnores(s: Shop, t: Shop, clock: seq<nat>, i: nat, inside: Kind)
    requires Shape(s) && |clock| == |s.line| && i <= |s.line| && t == s.(justChanged := t.justChanged)
    ensures ShopModel.Scan(s, clock, i, inside) == ShopModel.Scan(t, clock, i, inside)
    decreases |s.line| - i
  {
    if i < |s.line| {
      ScanIgnores(s, t, clock, i + 1, inside);
    }
  }

  lemma NoNext(order: seq<nat>, p: nat)
    requires !HasNext(order, p)
    ensures !(p in order && IndexOf(order, p) + 1 < |order|)
  {
  }

  /** Deleting a node from the list deletes its owner from the line. */
  lemma {:induction false} WithoutMatches(spine: seq<Node>, order: seq<nat>, nodes: seq<Node?>, p: nat)
    requires |spine| == |order| && (forall i | 0 <= i < |order| :: order[i] < |nodes| && nodes[order[i]] == spine[i])
    requires (forall q | 0 <= q < |nodes| && nodes[q] != null :: nodes[q].person == q) && p < |nodes|
    requires nodes[p] != null
    requires forall i, j | 0 <= i < j < |order| :: spine[i] != spine[j]
    ensures |Unlinked(spine, nodes[p])| == |Without(order, p)|
    ensures forall i | 0 <= i < |Without(order, p)| ::
      Without(order, p)[i] < |nodes| && Without(order, p)[i] != p &&
      nodes[Without(order, p)[i]] == Unlinked(spine, nodes[p])[i]
    ensures forall n | n in spine && n != nodes[p] :: n in Unlinked(spine, nodes[p])
  {
    if spine != [] {
      if spine[0] != nodes[p] {
        WithoutMatches(spine[1..], order[1..], nodes, p);
      }
    }
  }

  lemma WithoutBelow(order: seq<nat>, p: nat, n: nat)
    requires forall i | 0 <= i < |order| :: order[i] < n
    ensures forall i | 0 <= i < |Without(order, p)| :: Without(order, p)[i] < n
  {
    assert forall i | 0 <= i < |Without(order, p)| :: Without(order, p)[i] in order;
  }
}
