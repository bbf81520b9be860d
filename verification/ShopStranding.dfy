/**
 A run of the shop in which the wake-ups die out, with as many people as the program is
 started for.
 */
module ShopStranding {
  import opened Basics
  import opened ShopModel
  import opened ShopWakeups

  // ----- Four people -----

  /** Two teams; a pirate is overdue at once (nAvg is 20), a ninja after thirty seconds (pAvg is 0). */
  function Scene(people: seq<Person>, line: seq<nat>, signalled: set<nat>, ninjaIn: int, justChanged: bool,
                 busy: seq<bool>, now: nat): Shop {
    Shop(2, 20, 0, people, line, signalled, ninjaIn, 0, justChanged, busy, [0, 0], 0,
         [Absent, Absent, Absent, Absent], now)
  }

  /** Three ninjas and a pirate. */
  function Four(a: Person, b: Person, third: Phase, pirate: Phase): seq<Person> {
    [a, b, Someone(Ninja, third), Someone(Pirate, pirate)]
  }

  function Ninja1(phase: Phase): Person { Someone(Ninja, phase) }

  function Someone(race: Race, phase: Phase): Person { Person(race, phase, 0, 0, false, 0, 0, []) }

  function Visitor(phase: Phase): Person { Person(Ninja, phase, 0, 0, false, 1, 0, [Visit(0, 0)]) }

  /** Two ninjas fill the store; a third ninja and a pirate wait; both leave and signal the ninja at the head of the
      line; it gives way to the overdue pirate, who, running late, gives way to the by now overdue ninja. */
  function Act(k: nat): Event
    requires k < 14
  {
    match k
    case 0 => DoArrive(0, 0)
    case 1 => DoAttempt(0, [], [], 0)
    case 2 => DoArrive(1, 0)
    case 3 => DoAttempt(1, [], [], 0)
    case 4 => DoArrive(2, 0)
    case 5 => DoAttempt(2, [], [], 0)
    case 6 => DoArrive(3, 0)
    case 7 => DoAttempt(3, [0], [0], 0)
    case 8 => DoPay(0, 0)
    case 9 => DoLeave(0, true)
    case 10 => DoPay(1, 0)
    case 11 => DoLeave(1, true)
    case 12 => DoAttempt(2, [10, 10], [10, 10], 10)
    case _ => DoAttempt(3, [40000, 40000], [40000, 40000], 40000)
  }

  function Script(): seq<Event> { seq(14, k requires 0 <= k < 14 => Act(k)) }

  function Story(k: nat): Shop
    requires k <= 14
  {
    match k
    case 0 => Scene(Four(Ninja1(Away), Ninja1(Away), Away, Away), [], {}, 0, false, [false, false], 0)
    case 1 => Scene(Four(Ninja1(Outside), Ninja1(Away), Away, Away), [], {}, 0, false, [false, false], 0)
    case 2 => Scene(Four(Ninja1(Inside(0)), Ninja1(Away), Away, Away), [], {}, 1, true, [true, false], 0)
    case 3 => Scene(Four(Ninja1(Inside(0)), Ninja1(Outside), Away, Away), [], {}, 1, true, [true, false], 0)
    case 4 => Scene(Four(Ninja1(Inside(0)), Ninja1(Inside(1)), Away, Away), [], {}, 2, true, [true, true], 0)
    case 5 => Scene(Four(Ninja1(Inside(0)), Ninja1(Inside(1)), Outside, Away), [], {}, 2, true, [true, true], 0)
    case 6 => Scene(Four(Ninja1(Inside(0)), Ninja1(Inside(1)), Outside, Away), [2], {}, 2, true, [true, true], 0)
    case 7 => Scene(Four(Ninja1(Inside(0)), Ninja1(Inside(1)), Outside, Outside), [2], {}, 2, true, [true, true], 0)
    case 8 => Scene(Four(Ninja1(Inside(0)), Ninja1(Inside(1)), Outside, Outside), [2, 3], {}, 2, true, [true, true], 0)
    case 9 => Scene(Four(Visitor(Served(0)), Ninja1(Inside(1)), Outside, Outside), [2, 3], {}, 2, true, [true, true], 0)
    case 10 =>
      Scene(Four(Visitor(Departing), Ninja1(Inside(1)), Outside, Outside), [2, 3], {2}, 1, true, [false, true], 0)
    case 11 =>
      Scene(Four(Visitor(Departing), Visitor(Served(1)), Outside, Outside), [2, 3], {2}, 1, true, [false, true], 0)
    case 12 =>
      Scene(Four(Visitor(Departing), Visitor(Departing), Outside, Outside), [2, 3], {2}, 0, true, [false, false], 0)
    case 13 =>
      Scene(Four(Visitor(Departing), Visitor(Departing), Outside, Outside), [2, 3], {3}, 0, true, [false, false], 10)
    case _ =>
      Scene(Four(Visitor(Departing), Visitor(Departing), Outside, Outside), [2, 3], {}, 0, false, [false, false], 40000)
  }

  lemma Scene1()
    ensures Enabled(Story(0), Act(0)) && Next(Story(0), Act(0)) == Story(1)
  {
  }

  /** An empty store with nobody in line lets anyone in. */
  lemma OpenDoor(s: Shop, p: nat, t: nat)
    requires Shape(s) && p < |s.people| && s.line == [] && Empty(s) && s.teams > 0
    ensures Attempt(s, p, [], [], t) == Seat(s.(signalled := s.signalled - {p}, justChanged := true, now := t), p, t)
  {
    assert Scan(s, [], 0, None) == Both;
  }

  lemma Scene2()
    ensures Enabled(Story(1), Act(1)) && Next(Story(1), Act(1)) == Story(2)
  {
    var s := Story(1);
    OpenDoor(s, 0, 0);
    var w := s.(signalled := s.signalled - {0}, justChanged := true, now := 0);
    assert FreeTeam(w.busy, 0) == 0;
    assert Seat(w, 0, 0) == Story(2);
  }

  lemma Scene3()
    ensures Enabled(Story(2), Act(2)) && Next(Story(2), Act(2)) == Story(3)
  {
  }

  lemma Scene4()
    ensures Enabled(Story(3), Act(3)) && Next(Story(3), Act(3)) == Story(4)
  {
  }

  lemma Scene5()
    ensures Enabled(Story(4), Act(4)) && Next(Story(4), Act(4)) == Story(5)
  {
  }

  lemma Scene6()
    ensures Enabled(Story(5), Act(5)) && Next(Story(5), Act(5)) == Story(6)
  {
  }

  lemma Scene7()
    ensures Enabled(Story(6), Act(6)) && Next(Story(6), Act(6)) == Story(7)
  {
  }

  lemma Scene8()
    ensures Enabled(Story(7), Act(7)) && Next(Story(7), Act(7)) == Story(8)
  {
  }

  lemma Scene9()
    ensures Enabled(Story(8), Act(8)) && Next(Story(8), Act(8)) == Story(9)
  {
    var r := Next(Story(8), DoPay(0, 0));
    assert r.busyFor == [0, 0] && r.people[0] == Visitor(Served(0)) && r.people == Story(9).people;
  }

  lemma Scene10()
    ensures Enabled(Story(9), Act(9)) && Next(Story(9), Act(9)) == Story(10)
  {
  }

  lemma Scene11()
    ensures Enabled(Story(10), Act(10)) && Next(Story(10), Act(10)) == Story(11)
  {
    var r := Next(Story(10), DoPay(1, 0));
    assert r.busyFor == [0, 0] && r.people[1] == Visitor(Served(1)) && r.people == Story(11).people;
  }

  lemma Scene12()
    ensures Enabled(Story(11), Act(11)) && Next(Story(11), Act(11)) == Story(12)
  {
  }

  lemma TurnedAway(s: Shop, p: nat, first: seq<nat>, second: seq<nat>, t: nat, w: Shop)
    requires Shape(s) && p < |s.people| && |first| == |second| == |s.line| && !Admitted(s, p, first, second)
    requires w == s.(signalled := s.signalled - {p}, justChanged := Changed(s), now := t)
    ensures Shape(w) && Attempt(s, p, first, second, t) == Refuse(w, p)
  {
  }

  lemma Scene13()
    ensures Enabled(Story(12), Act(12)) && Next(Story(12), Act(12)) == Story(13)
  {
    LateTry(Story(12), 2, 10);
    Scene13Next();
  }

  /** A try by a person outside, two people being in line, all clocks showing t. */
  lemma LateTry(s: Shop, p: nat, t: nat)
    requires Shape(s) && p < |s.people| && s.people[p].phase == Outside && |s.line| == 2 && s.now <= t
    ensures Enabled(s, DoAttempt(p, [t, t], [t, t], t))
  {
    assert [s.now] + [t, t] + [t, t] + [t] == [s.now, t, t, t, t, t];
  }

  lemma Scene13Next()
    ensures Shape(Story(12)) && Attempt(Story(12), 2, [10, 10], [10, 10], 10) == Story(13)
  {
    var w := Story(12).(signalled := {}, justChanged := true, now := 10);
    Scene13Refused();
    Scene13Signals(w);
    TurnedAway(Story(12), 2, [10, 10], [10, 10], 10, w);
  }

  /** Not the last in line, the ninja signals the pirate behind. */
  lemma Scene13Signals(w: Shop)
    requires w == Story(12).(signalled := {}, justChanged := true, now := 10)
    ensures Shape(w) && Refuse(w, 2) == Story(13)
  {
    assert w.line[0] == 2 && HasNext(w.line, 2) && IndexOf(w.line, 2) == 0;
  }

  lemma Scene13Refused()
    ensures Shape(Story(12)) && !Admitted(Story(12), 2, [10, 10], [10, 10])
  {
  }

  lemma Scene14()
    ensures Enabled(Story(13), Act(13)) && Next(Story(13), Act(13)) == Story(14)
  {
    LateTry(Story(13), 3, 40000);
    Scene14Next();
  }

  lemma Scene14Next()
    ensures Shape(Story(13)) && Attempt(Story(13), 3, [40000, 40000], [40000, 40000], 40000) == Story(14)
  {
    var w := Story(13).(signalled := {}, justChanged := true, now := 40000);
    Scene14Refused();
    Scene14GivesUp(w);
    TurnedAway(Story(13), 3, [40000, 40000], [40000, 40000], 40000, w);
  }

  /** The last in line, the pirate signals nobody. */
  lemma Scene14GivesUp(w: Shop)
    requires w == Story(13).(signalled := {}, justChanged := true, now := 40000)
    ensures Shape(w) && Refuse(w, 3) == Story(14)
  {
    assert w.line[1] == 3 && !HasNext(w.line, 3);
  }

  lemma Scene14Refused()
    ensures Shape(Story(13)) && !Admitted(Story(13), 3, [40000, 40000], [40000, 40000])
  {
  }

  lemma ScriptStep(k: nat)
    requires k < 14
    ensures Enabled(Story(k), Act(k)) && Next(Story(k), Act(k)) == Story(k + 1)
  {
    if k < 7 {
      FillingStep(k);
    } else {
      EmptyingStep(k);
    }
  }

  lemma FillingStep(k: nat)
    requires k < 7
    ensures Enabled(Story(k), Act(k)) && Next(Story(k), Act(k)) == Story(k + 1)
  {
    match k
    case 0 => Scene1();
    case 1 => Scene2();
    case 2 => Scene3();
    case 3 => Scene4();
    case 4 => Scene5();
    case 5 => Scene6();
    case _ => Scene7();
  }

  lemma EmptyingStep(k: nat)
    requires 7 <= k < 14
    ensures Enabled(Story(k), Act(k)) && Next(Story(k), Act(k)) == Story(k + 1)
  {
    if k < 11 {
      PayingStep(k);
    } else if k == 11 {
      Scene12();
    } else if k == 12 {
      Scene13();
    } else {
      Scene14();
    }
  }

  lemma PayingStep(k: nat)
    requires 7 <= k < 11
    ensures Enabled(Story(k), Act(k)) && Next(Story(k), Act(k)) == Story(k + 1)
  {
    match k
    case 7 => Scene8();
    case 8 => Scene9();
    case 9 => Scene10();
    case _ => Scene11();
  }

  // ----- People who have not come yet -----

  function Nobody(n: nat): (r: seq<Option<nat>>)
    ensures |r| == n && forall i | 0 <= i < n :: r[i] == Absent
  {
    seq(n, _ => Absent)
  }

  /** The shop with further people. */
  function Wider(s: Shop, extra: seq<Person>): (r: Shop) {
    s.(people := s.people + extra, persons := s.persons + Nobody(|extra|))
  }

  lemma {:induction false} WiderScan(s: Shop, extra: seq<Person>, clock: seq<nat>, i: nat, inside: Kind)
    requires Shape(s) && |clock| == |s.line| && i <= |s.line|
    ensures Shape(Wider(s, extra)) && Scan(Wider(s, extra), clock, i, inside) == Scan(s, clock, i, inside)
    decreases |s.line| - i
  {
    if i < |s.line| {
      assert Wider(s, extra).people[s.line[i]] == s.people[s.line[i]];
      WiderScan(s, extra, clock, i + 1, inside);
    }
  }

  lemma WiderDoor(s: Shop, extra: seq<Person>, clock: seq<nat>)
    requires Shape(s) && |clock| == |s.line|
    ensures Shape(Wider(s, extra)) && CanEnter(Wider(s, extra), clock) == CanEnter(s, clock)
  {
    WiderScan(s, extra, clock, 0, None);
    WiderScan(s, extra, clock, 0, Ninja);
    WiderScan(s, extra, clock, 0, Pirate);
  }

  lemma WiderSignal(s: Shop, extra: seq<Person>, q: nat)
    requires q < |s.people|
    ensures Signal(Wider(s, extra), q) == Wider(Signal(s, q), extra)
  {
  }

  lemma WiderWrite(s: Shop, extra: seq<Person>, p: nat, person: Person)
    requires p < |s.people|
    ensures (s.people + extra)[p := person] == s.people[p := person] + extra
  {
  }

  lemma WiderAdmitted(s: Shop, extra: seq<Person>, p: nat, first: seq<nat>, second: seq<nat>)
    requires Shape(s) && p < |s.people| && |first| == |second| == |s.line|
    ensures Shape(Wider(s, extra)) && Admitted(Wider(s, extra), p, first, second) == Admitted(s, p, first, second)
  {
    WiderDoor(s, extra, first);
    WiderDoor(s.(justChanged := Changed(s)), extra, second);
  }

  lemma WiderEnter(s: Shop, extra: seq<Person>, p: nat, t: nat)
    requires Shape(s) && p < |s.people|
    ensures Shape(Wider(s, extra)) && Enter(Wider(s, extra), p, t) == Wider(Enter(s, p, t), extra)
  {
    WiderWrite(s, extra, p, Seat(s, p, t).people[p]);
    assert Seat(Wider(s, extra), p, t) == Wider(Seat(s, p, t), extra);
    WiderNext(Seat(s, p, t), extra, p);
  }

  lemma WiderAttempt(s: Shop, extra: seq<Person>, p: nat, first: seq<nat>, second: seq<nat>, t: nat)
    requires Shape(s) && p < |s.people| && |first| == |second| == |s.line|
    ensures Shape(Wider(s, extra))
    ensures Attempt(Wider(s, extra), p, first, second, t) == Wider(Attempt(s, p, first, second, t), extra)
  {
    WiderAdmitted(s, extra, p, first, second);
    var w := s.(signalled := s.signalled - {p}, justChanged := Changed(s), now := t);
    WiderEnter(w, extra, p, t);
    WiderNext(w, extra, p);
  }

  lemma WiderNext(s: Shop, extra: seq<Person>, p: nat)
    requires Shape(s) && p < |s.people|
    ensures Shape(Wider(s, extra)) && SignalNext(Wider(s, extra), p) == Wider(SignalNext(s, p), extra)
  {
    if p in s.line && IndexOf(s.line, p) + 1 < |s.line| {
      WiderSignal(s, extra, s.line[IndexOf(s.line, p) + 1]);
    }
  }

  lemma WiderLeave(s: Shop, extra: seq<Person>, p: nat, forGood: bool)
    requires Shape(s) && p < |s.people| && s.people[p].phase.Served?
    ensures Shape(Wider(s, extra)) && Leave(Wider(s, extra), p, forGood) == Wider(Leave(s, p, forGood), extra)
  {
    var q := Quit(s, p, forGood);
    WiderWrite(s, extra, p, q.people[p]);
    assert Quit(Wider(s, extra), p, forGood) == Wider(q, extra);
    if q.line != [] {
      WiderSignal(q, extra, q.line[0]);
    }
  }

  /** A step at the door or in the store is the same however many others there are. */
  lemma WiderStep(s: Shop, extra: seq<Person>, e: Event)
    requires Enabled(s, e) && !e.DoRegister?
    ensures Enabled(Wider(s, extra), e) && Next(Wider(s, extra), e) == Wider(Next(s, e), extra)
  {
    match e
    case DoArrive(p, t) => WiderWrite(s, extra, p, Arrive(s, p, t).people[p]);
    case DoAttempt(p, first, second, t) => WiderAttempt(s, extra, p, first, second, t);
    case DoPay(p, time) => WiderWrite(s, extra, p, Pay(s, p, time).people[p]);
    case DoLeave(p, forGood) => WiderLeave(s, extra, p, forGood);
    case _ =>
  }

  // ----- The run -----

  predicate NotYetCome(extra: seq<Person>) { forall i | 0 <= i < |extra| :: extra[i] == Someone(extra[i].race, Away) }

  /** Whoever else is still to come, this run ends with an empty store, two people in line, and nobody signalled. */
  lemma LineCanStrand(extra: seq<Person>) returns (states: seq<Shop>)
    requires NotYetCome(extra)
    ensures Run(states, Script()) && states[0].teams == 2
    ensures states[0].people == Four(Ninja1(Away), Ninja1(Away), Away, Away) + extra
    ensures !Live(states[14]) && Stranded(states[14]) && |states[14].line| == 2
  {
    states := seq(15, k requires 0 <= k < 15 => Wider(Story(k), extra));
    forall k | 0 <= k < |Script()|
      ensures Enabled(states[k], Script()[k]) && states[k + 1] == Next(states[k], Script()[k])
    {
      ScriptStep(k);
      WiderStep(Story(k), extra, Act(k));
    }
    OpeningIsInitial(extra);
    EndIsStranded(extra);
  }

  lemma OpeningIsInitial(extra: seq<Person>)
    requires NotYetCome(extra)
    ensures Initial(Wider(Story(0), extra))
  {
  }

  lemma EndIsStranded(extra: seq<Person>)
    requires NotYetCome(extra)
    ensures Stranded(Wider(Story(14), extra))
  {
    var s := Wider(Story(14), extra);
    assert s.line[0] == 2 && s.line[1] == 3;
    forall p | 4 <= p < |s.people|
      ensures s.people[p].phase == Away
    {
      assert s.people[p] == extra[p - 4];
    }
  }

  /** The numbers of ninjas and pirates that main admits. */
  lemma ProgramCanStrand(ninjas: nat, pirates: nat) returns (states: seq<Shop>)
    requires 10 <= ninjas <= 50 && 10 <= pirates <= 50
    ensures Run(states, Script()) && !Live(states[14]) && Stranded(states[14]) && states[0].teams == 2
    ensures Heads(states[0].people, Ninja) == ninjas && Heads(states[0].people, Pirate) == pirates
  {
    var extra := Waves(ninjas - 3, pirates - 1);
    states := LineCanStrand(extra);
    HeadsSplit(Four(Ninja1(Away), Ninja1(Away), Away, Away), extra, Ninja);
    HeadsSplit(Four(Ninja1(Away), Ninja1(Away), Away, Away), extra, Pirate);
    HeadsOfFour();
  }

  /** How many people of a race there are. */
  function Heads(people: seq<Person>, race: Race): nat {
    if people == [] then 0 else (if people[0].race == race then 1 else 0) + Heads(people[1..], race)
  }

  lemma {:induction false} HeadsSplit(a: seq<Person>, b: seq<Person>, race: Race)
    ensures Heads(a + b, race) == Heads(a, race) + Heads(b, race)
  {
    if a == [] {
      assert a + b == b;
    } else {
      assert (a + b)[1..] == a[1..] + b;
      HeadsSplit(a[1..], b, race);
    }
  }

  lemma HeadsOfFour()
    ensures Heads(Four(Ninja1(Away), Ninja1(Away), Away, Away), Ninja) == 3
    ensures Heads(Four(Ninja1(Away), Ninja1(Away), Away, Away), Pirate) == 1
  {
    var four := Four(Ninja1(Away), Ninja1(Away), Away, Away);
    assert Heads(four[4..], Ninja) == 0 && Heads(four[4..], Pirate) == 0;
    assert four[3..][1..] == four[4..] && four[2..][1..] == four[3..] && four[1..][1..] == four[2..];
  }

  /** n ninjas and p pirates who have not come yet. */
  function Waves(n: nat, p: nat): (r: seq<Person>)
    ensures NotYetCome(r) && Heads(r, Ninja) == n && Heads(r, Pirate) == p
  {
    if n > 0 then
      var rest := Waves(n - 1, p);
      assert ([Someone(Ninja, Away)] + rest)[1..] == rest;
      [Someone(Ninja, Away)] + rest
    else if p > 0 then
      var rest := Waves(n, p - 1);
      assert ([Someone(Pirate, Away)] + rest)[1..] == rest;
      [Someone(Pirate, Away)] + rest
    else []
  }
}
