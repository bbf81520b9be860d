/**
 What every step of every person keeps: who is in the store, who holds which team, and what
 the statistics say.
 */
module ShopSafety {
  import opened Basics
  import opened ShopModel

  predicate InStore(person: Person) { person.phase.Inside? || person.phase.Served? }

  ghost function Crowd(people: seq<Person>, race: Race): set<nat> {
    set p | 0 <= p < |people| && InStore(people[p]) && people[p].race == race
  }

  /** The counters count, the two races are never in together, and at most as many people are in as there are teams. */
  ghost predicate DoorsOk(s: Shop) {
    && s.teams > 0
    && s.ninjaIn == |Crowd(s.people, Ninja)| <= s.teams
    && s.pirateIn == |Crowd(s.people, Pirate)| <= s.teams
    && (s.ninjaIn == 0 || s.pirateIn == 0)
  }

  /** The busy teams and the people inside correspond one to one. */
  ghost predicate TeamsOk(people: seq<Person>, busy: seq<bool>) {
    && (forall p | 0 <= p < |people| && InStore(people[p]) ::
         people[p].phase.team < |busy| && busy[people[p].phase.team])
    && (forall p, q | 0 <= p < q < |people| && InStore(people[p]) && InStore(people[q]) ::
         people[p].phase.team != people[q].phase.team)
    && (forall t: nat | t < |busy| && busy[t] :: exists p: nat :: Serves(people, t, p))
  }

  predicate Serves(people: seq<Person>, t: nat, p: nat) {
    p < |people| && InStore(people[p]) && people[p].phase.team == t
  }

  predicate Distinct(line: seq<nat>) { forall i, j | 0 <= i < j < |line| :: line[i] != line[j] }

  /** Nobody is in the line twice, and those in it have begun their visit and not left the store. */
  ghost predicate LineOk(s: Shop) {
    && Distinct(s.line)
    && (forall i | 0 <= i < |s.line| ::
         s.line[i] < |s.people| && (s.people[s.line[i]].phase == Outside || InStore(s.people[s.line[i]])))
    && (forall p | p in s.signalled :: p in s.line && p < |s.people| && s.people[p].phase == Outside)
  }

  /** Nobody's visit began in the future, so no elapsed time wraps around. */
  ghost predicate ClockOk(s: Shop) { forall p | 0 <= p < |s.people| :: s.people[p].start <= s.now }

  // ----- Sets of people -----

  lemma CrowdUpdate(people: seq<Person>, p: nat, person: Person, race: Race)
    requires p < |people| && person.race == people[p].race
    ensures person.race != race ==> Crowd(people[p := person], race) == Crowd(people, race)
    ensures person.race == race && InStore(person) ==> Crowd(people[p := person], race) == Crowd(people, race) + {p}
    ensures person.race == race && !InStore(person) ==> Crowd(people[p := person], race) == Crowd(people, race) - {p}
  {
  }

  lemma {:induction false} CrowdOfTeams(people: seq<Person>, busy: seq<bool>, k: nat) returns (crowd: set<nat>)
    requires TeamsOk(people, busy) && k <= |busy| && forall t | 0 <= t < k :: busy[t]
    ensures |crowd| == k && crowd <= Crowd(people, Ninja) + Crowd(people, Pirate)
    ensures forall p | p in crowd :: people[p].phase.team < k
  {
    crowd := {};
    if k > 0 {
      var t: nat := k - 1;
      var before := CrowdOfTeams(people, busy, t);
      assert busy[t];
      var p: nat :| Serves(people, t, p);
      crowd := before + {p};
    }
  }

  /** Fewer people inside than teams: getCostumingTeam finds a team that is free. */
  lemma TeamFree(s: Shop)
    requires DoorsOk(s) && TeamsOk(s.people, s.busy) && |s.busy| == s.teams && s.ninjaIn + s.pirateIn < s.teams
    ensures FreeTeam(s.busy, 0) < s.teams
  {
    if FreeTeam(s.busy, 0) == s.teams {
      var crowd := CrowdOfTeams(s.people, s.busy, s.teams);
      SubsetSize(crowd, Crowd(s.people, Ninja) + Crowd(s.people, Pirate));
    }
  }

  // ----- canEnter -----

  /** The first person in line, from the i-th on, who is overdue when looked at; the end of the line if none is. */
  function FirstOverdue(s: Shop, clock: seq<nat>, i: nat): (f: nat)
    requires Shape(s) && |clock| == |s.line| && i <= |s.line|
    ensures i <= f <= |s.line| && (f < |s.line| ==> Overdue(s, s.line[f], clock[f]))
    ensures forall j | i <= j < f :: !Overdue(s, s.line[j], clock[j])
    decreases |s.line| - i
  {
    if i < |s.line| && !Overdue(s, s.line[i], clock[i]) then FirstOverdue(s, clock, i + 1) else i
  }

  lemma {:induction false} ScanMeaning(s: Shop, clock: seq<nat>, i: nat, inside: Kind)
    requires Shape(s) && |clock| == |s.line| && i <= |s.line|
    ensures var f := FirstOverdue(s, clock, i);
      Scan(s, clock, i, inside) ==
        if f == |s.line| then (if inside == None then Both else inside)
        else if inside == None || inside == s.people[s.line[f]].race then s.people[s.line[f]].race else None
    decreases |s.line| - i
  {
    if i < |s.line| && !Overdue(s, s.line[i], clock[i]) {
      ScanMeaning(s, clock, i + 1, inside);
    }
  }

  /** In an empty store everyone may enter unless someone is overdue; then only the race of whoever is overdue first. */
  lemma EmptyStoreMeaning(s: Shop, clock: seq<nat>)
    requires Shape(s) && |clock| == |s.line| && s.teams > 0 && s.ninjaIn == 0 && s.pirateIn == 0
    ensures CanEnter(s, clock) == Both <==> forall i | 0 <= i < |s.line| :: !Overdue(s, s.line[i], clock[i])
    ensures forall f | 0 <= f < |s.line| && Overdue(s, s.line[f], clock[f]) &&
      (forall i | 0 <= i < f :: !Overdue(s, s.line[i], clock[i])) ::
      CanEnter(s, clock) == s.people[s.line[f]].race
  {
    ScanMeaning(s, clock, 0, None);
  }

  /** With people inside the door is open to a race exactly when it is theirs, a team is left, and the store has just
      changed hands or whoever is overdue first is of that race too; it is never open to both. */
  lemma BusyStoreMeaning(s: Shop, clock: seq<nat>, race: Race)
    requires Shape(s) && DoorsOk(s) && |clock| == |s.line| && s.ninjaIn + s.pirateIn > 0
    ensures CanEnter(s, clock) != Both
    ensures CanEnter(s, clock) == race <==>
      && (if race == Ninja then s.pirateIn else s.ninjaIn) == 0 && s.ninjaIn + s.pirateIn < s.teams
      && (s.justChanged || forall f | 0 <= f < |s.line| && Overdue(s, s.line[f], clock[f]) ::
            s.people[s.line[f]].race == race || exists i :: 0 <= i < f && Overdue(s, s.line[i], clock[i]))
  {
    ScanMeaning(s, clock, 0, Ninja);
    ScanMeaning(s, clock, 0, Pirate);
    var f := FirstOverdue(s, clock, 0);
    if f < |s.line| && s.people[s.line[f]].race == race {
      forall g | 0 <= g < |s.line| && Overdue(s, s.line[g], clock[g])
        ensures s.people[s.line[g]].race == race || exists i :: 0 <= i < g && Overdue(s, s.line[i], clock[i])
      {
        if g != f {
          assert 0 <= f < g;
        }
      }
    }
  }

  /** Whoever is admitted finds none of the other race inside, and fewer people than teams. */
  lemma AdmittedFits(s: Shop, p: nat, first: seq<nat>, second: seq<nat>)
    requires Shape(s) && DoorsOk(s) && p < |s.people| && |first| == |second| == |s.line|
    requires Admitted(s, p, first, second)
    ensures (if s.people[p].race == Ninja then s.pirateIn else s.ninjaIn) == 0 && s.ninjaIn + s.pirateIn < s.teams
  {
    if s.ninjaIn + s.pirateIn > 0 {
      BusyStoreMeaning(s, first, s.people[p].race);
      BusyStoreMeaning(s.(justChanged := Changed(s)), second, Ninja);
    }
  }

  // ----- Each step keeps the doors and the teams -----

  ghost predicate StoreOk(s: Shop) { |s.busy| == s.teams && DoorsOk(s) && TeamsOk(s.people, s.busy) }

  lemma TeamTaken(people: seq<Person>, busy: seq<bool>, p: nat, person: Person, team: nat)
    requires TeamsOk(people, busy) && p < |people| && !InStore(people[p])
    requires team < |busy| && !busy[team] && person.phase == Inside(team)
    ensures TeamsOk(people[p := person], busy[team := true])
  {
    var after := people[p := person];
    assert Serves(after, team, p);
    forall t: nat | t < |busy| && busy[t]
      ensures exists q: nat :: Serves(after, t, q)
    {
      var q: nat :| Serves(people, t, q);
      assert Serves(after, t, q);
    }
  }

  lemma TeamReturned(people: seq<Person>, busy: seq<bool>, p: nat, person: Person)
    requires TeamsOk(people, busy) && p < |people| && InStore(people[p]) && !InStore(person)
    ensures TeamsOk(people[p := person], busy[people[p].phase.team := false])
  {
    var after := people[p := person];
    forall t: nat | t < |busy| && busy[t] && t != people[p].phase.team
      ensures exists q: nat :: Serves(after, t, q)
    {
      var q: nat :| Serves(people, t, q);
      assert Serves(after, t, q);
    }
  }

  lemma TeamsStay(people: seq<Person>, busy: seq<bool>, p: nat, person: Person)
    requires TeamsOk(people, busy) && p < |people|
    requires InStore(person) == InStore(people[p]) && (InStore(person) ==> person.phase.team == people[p].phase.team)
    ensures TeamsOk(people[p := person], busy)
  {
    var after := people[p := person];
    forall t: nat | t < |busy| && busy[t]
      ensures exists q: nat :: Serves(after, t, q)
    {
      var q: nat :| Serves(people, t, q);
      assert Serves(after, t, q);
    }
  }

  lemma EnterKeepsStore(s: Shop, p: nat, t: nat)
    requires Shape(s) && StoreOk(s) && p < |s.people| && s.people[p].phase == Outside
    requires (if s.people[p].race == Ninja then s.pirateIn else s.ninjaIn) == 0 && s.ninjaIn + s.pirateIn < s.teams
    ensures StoreOk(Enter(s, p, t))
  {
    TeamFree(s);
    var person, team := Enter(s, p, t).people[p], FreeTeam(s.busy, 0);
    TeamTaken(s.people, s.busy, p, person, team);
    CrowdUpdate(s.people, p, person, Ninja);
    CrowdUpdate(s.people, p, person, Pirate);
  }

  lemma LeaveKeepsStore(s: Shop, p: nat, forGood: bool)
    requires Shape(s) && StoreOk(s) && p < |s.people| && s.people[p].phase.Served?
    ensures StoreOk(Leave(s, p, forGood))
  {
    var person := Leave(s, p, forGood).people[p];
    TeamReturned(s.people, s.busy, p, person);
    CrowdUpdate(s.people, p, person, Ninja);
    CrowdUpdate(s.people, p, person, Pirate);
    assert p in Crowd(s.people, s.people[p].race);
  }

  /** A person who changes without crossing the doorstep. */
  lemma SameStore(s: Shop, p: nat, person: Person, r: Shop)
    requires StoreOk(s) && p < |s.people| && person.race == s.people[p].race
    requires InStore(person) == InStore(s.people[p])
    requires (InStore(person) ==> person.phase.team == s.people[p].phase.team)
    requires r.people == s.people[p := person] && r.teams == s.teams && r.busy == s.busy
    requires r.ninjaIn == s.ninjaIn && r.pirateIn == s.pirateIn
    ensures StoreOk(r)
  {
    TeamsStay(s.people, s.busy, p, person);
    CrowdUpdate(s.people, p, person, Ninja);
    CrowdUpdate(s.people, p, person, Pirate);
    assert p in Crowd(s.people, person.race) <==> InStore(person);
  }

  lemma AttemptKeepsStore(s: Shop, p: nat, first: seq<nat>, second: seq<nat>, t: nat)
    requires Shape(s) && StoreOk(s) && p < |s.people| && s.people[p].phase == Outside && |first| == |second| == |s.line|
    ensures StoreOk(Attempt(s, p, first, second, t))
  {
    var w := s.(signalled := s.signalled - {p}, justChanged := Changed(s), now := t);
    assert StoreOk(w) && Shape(w);
    if Admitted(s, p, first, second) {
      AdmittedFits(s, p, first, second);
      EnterKeepsStore(w, p, t);
    }
  }

  lemma StepKeepsStore(s: Shop, e: Event)
    requires Enabled(s, e) && StoreOk(s)
    ensures StoreOk(Next(s, e))
  {
    var r := Next(s, e);
    match e
    case DoAttempt(p, first, second, t) => AttemptKeepsStore(s, p, first, second, t);
    case DoLeave(p, forGood) => LeaveKeepsStore(s, p, forGood);
    case DoArrive(p, _) => SameStore(s, p, r.people[p], r);
    case DoPay(p, _) => SameStore(s, p, r.people[p], r);
    case DoRegister(p) => SameStore(s, p, r.people[p], r);
  }

  // ----- The line -----

  lemma {:induction false} WithoutDistinct(line: seq<nat>, p: nat)
    requires Distinct(line)
    ensures Distinct(Without(line, p)) && p !in Without(line, p)
    ensures forall q | q in line && q != p :: q in Without(line, p)
  {
    if line != [] {
      WithoutDistinct(line[1..], p);
      assert forall i | 0 <= i < |line| - 1 :: line[1..][i] == line[i + 1];
      if line[0] != p {
        assert line[0] !in line[1..];
      }
    }
  }

  lemma AttemptKeepsLine(s: Shop, p: nat, first: seq<nat>, second: seq<nat>, t: nat)
    requires Shape(s) && LineOk(s) && p < |s.people| && s.people[p].phase == Outside && |first| == |second| == |s.line|
    ensures LineOk(Attempt(s, p, first, second, t)) && Shape(Attempt(s, p, first, second, t))
  {
    var w := s.(signalled := s.signalled - {p}, justChanged := Changed(s), now := t);
    assert LineOk(w) && Shape(w);
    if Admitted(s, p, first, second) {
      EnterKeepsLine(w, p, t);
    } else {
      RefuseKeepsLine(w, p);
    }
  }

  lemma EnterKeepsLine(s: Shop, p: nat, t: nat)
    requires Shape(s) && LineOk(s) && p < |s.people| && p !in s.signalled
    ensures LineOk(Enter(s, p, t)) && Shape(Enter(s, p, t))
  {
    var person := Enter(s, p, t).people[p];
    assert LineOk(s.(people := s.people[p := person]));
  }

  lemma RefuseKeepsLine(s: Shop, p: nat)
    requires Shape(s) && LineOk(s) && p < |s.people| && s.people[p].phase == Outside
    ensures LineOk(Refuse(s, p)) && Shape(Refuse(s, p))
  {
  }

  lemma LeaveKeepsLine(s: Shop, p: nat, forGood: bool)
    requires Shape(s) && LineOk(s) && p < |s.people| && s.people[p].phase.Served?
    ensures LineOk(Leave(s, p, forGood)) && Shape(Leave(s, p, forGood))
  {
    var r := Leave(s, p, forGood);
    WithoutDistinct(s.line, p);
    forall i | 0 <= i < |r.line|
      ensures r.line[i] < |r.people| && (r.people[r.line[i]].phase == Outside || InStore(r.people[r.line[i]]))
    {
      assert r.line[i] in s.line && r.line[i] in r.line;
    }
    assert LineOk(r.(signalled := s.signalled));
  }

  lemma StepKeepsLine(s: Shop, e: Event)
    requires Enabled(s, e) && LineOk(s)
    ensures LineOk(Next(s, e)) && Shape(Next(s, e))
  {
    match e
    case DoAttempt(p, first, second, t) => AttemptKeepsLine(s, p, first, second, t);
    case DoLeave(p, forGood) => LeaveKeepsLine(s, p, forGood);
    case _ =>
  }

  lemma StepKeepsClock(s: Shop, e: Event)
    requires Enabled(s, e) && ClockOk(s)
    ensures ClockOk(Next(s, e)) && Next(s, e).now >= s.now
  {
    if e.DoAttempt? {
      var c := [s.now] + e.first + e.second + [e.t];
      assert c[0] <= c[|c| - 1];
    }
  }
}
