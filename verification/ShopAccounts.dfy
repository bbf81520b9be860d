/**
 The shop told by the events of a run alone: what was charged and to whom, how long each team
 worked, who comes back, when the door is open, and who is signalled.
 */
module ShopAccounts {
  import opened ShopModel
  import opened ShopSafety
  import opened ShopRuns

  // ----- What the events say of a person -----

  predicate By(events: seq<Event>, j: nat, p: nat) { j < |events| && events[j].who == p }

  /** When p last arrived before step i. */
  function Arrival(events: seq<Event>, i: nat, p: nat): nat
    requires i <= |events|
  {
    if i == 0 then 0 else if By(events, i - 1, p) && events[i - 1].DoArrive? then events[i - 1].t
    else Arrival(events, i - 1, p)
  }

  /** When p last left the door before step i, having tried it: let in, if it is in the store at that step. */
  function Entry(events: seq<Event>, i: nat, p: nat): nat
    requires i <= |events|
  {
    if i == 0 then 0 else if By(events, i - 1, p) && events[i - 1].DoAttempt? then events[i - 1].t
    else Entry(events, i - 1, p)
  }

  /** What step j charges: the time of a visit on which the person was let in less than thirty seconds after
      arriving. */
  function Charge(events: seq<Event>, j: nat): nat
    requires j < |events|
  {
    match events[j]
    case DoPay(p, time) => if Entry(events, j, p) - Arrival(events, j, p) < 30000 then time else 0
    case _ => 0
  }

  function Takings(events: seq<Event>, i: nat): nat
    requires i <= |events|
  {
    if i == 0 then 0 else Takings(events, i - 1) + Charge(events, i - 1)
  }

  function Gold(events: seq<Event>, i: nat, p: nat): nat
    requires i <= |events|
  {
    if i == 0 then 0 else Gold(events, i - 1, p) + if By(events, i - 1, p) then Charge(events, i - 1) else 0
  }

  /** The visits p has paid for: how long the costuming took, and the wait before it. */
  function Visits(events: seq<Event>, i: nat, p: nat): seq<(nat, int)>
    requires i <= |events|
  {
    if i == 0 then []
    else
      var j := i - 1;
      Visits(events, j, p) + if By(events, j, p) && events[j].DoPay?
        then [(events[j].time, Entry(events, j, p) - Arrival(events, j, p))] else []
  }

  // ----- One step, told from the fields -----

  /** What a step does to the records of the people. */
  ghost predicate Does(s: Shop, e: Event, r: Shop) {
    && e.who < |s.people| == |r.people|
    && (forall q | 0 <= q < |s.people| && q != e.who :: r.people[q] == s.people[q])
    && var was, now := s.people[e.who], r.people[e.who];
       match e
       case DoArrive(_, t) => was.phase == Away && now == was.(phase := Outside, start := t)
       case DoAttempt(_, _, _, t) => was.phase == Outside && (now == was ||
         (now.phase.Inside? && was.start <= t && now == was.(phase := now.phase, waitTime := t - was.start)))
       case DoPay(_, time) =>
         was.phase.Inside? &&
         now == was.(phase := Served(was.phase.team), visits := was.visits + 1,
                     gold := was.gold + (if was.waitTime < 30000 then time else 0),
                     history := was.history + [Visit(time, was.waitTime)])
       case DoLeave(_, forGood) =>
         was.phase.Served? &&
         now == was.(phase := if forGood || was.nextVisit then Departing else Away,
                     nextVisit := was.nextVisit || !forGood)
       case DoRegister(_) => was.phase == Departing && now == was.(phase := Gone)
  }

  /** And to the money and the time that is booked. */
  ghost predicate Books(s: Shop, e: Event, r: Shop)
    requires e.who < |s.people|
  {
    var was := s.people[e.who];
    if e.DoPay? then
      && was.phase.Inside? && r.revenue == s.revenue + (if was.waitTime < 30000 then e.time else 0)
      && |r.busyFor| == |s.busyFor| && forall t | 0 <= t < |s.busyFor| ::
           r.busyFor[t] == s.busyFor[t] + if was.phase == Inside(t) then 1000000 * e.time else 0
    else r.revenue == s.revenue && r.busyFor == s.busyFor
  }

  lemma AttemptDoes(s: Shop, e: Event)
    requires Enabled(s, e) && ClockOk(s) && e.DoAttempt?
    ensures Does(s, e, Next(s, e)) && Books(s, e, Next(s, e))
  {
    var c := [s.now] + e.first + e.second + [e.t];
    assert c[0] <= c[|c| - 1];
  }

  lemma LeaveDoes(s: Shop, e: Event)
    requires Enabled(s, e) && e.DoLeave?
    ensures Does(s, e, Next(s, e)) && Books(s, e, Next(s, e))
  {
  }

  lemma StepDoes(s: Shop, e: Event)
    requires Enabled(s, e) && ClockOk(s)
    ensures Does(s, e, Next(s, e)) && Books(s, e, Next(s, e))
  {
    if e.DoAttempt? {
      AttemptDoes(s, e);
    } else if e.DoLeave? {
      LeaveDoes(s, e);
    }
  }

  /** So in every run, wherever it is. */
  lemma RunDoes(states: seq<Shop>, events: seq<Event>, h: nat)
    requires Run(states, events) && h < |events|
    ensures Does(states[h], events[h], states[h + 1]) && Books(states[h], events[h], states[h + 1])
  {
    RunKeepsInv(states, events, h);
    StepDoes(states[h], events[h]);
  }

  // ----- Times -----

  /** The record of p has the times the events give. */
  ghost predicate TimesOk(person: Person, events: seq<Event>, i: nat, p: nat)
    requires i <= |events|
  {
    && person.start == Arrival(events, i, p)
    && (person.phase.Inside? ==> person.waitTime == Entry(events, i, p) - Arrival(events, i, p))
  }

  lemma TimesStep(s: Shop, r: Shop, events: seq<Event>, h: nat, p: nat)
    requires h < |events| && Does(s, events[h], r) && p < |s.people| && TimesOk(s.people[p], events, h, p)
    ensures TimesOk(r.people[p], events, h + 1, p)
  {
  }

  lemma {:induction false} TimesAreTheEvents(states: seq<Shop>, events: seq<Event>, i: nat, p: nat)
    requires Run(states, events) && i < |states| && p < |states[i].people|
    ensures TimesOk(states[i].people[p], events, i, p)
  {
    if i > 0 {
      RunDoes(states, events, i - 1);
      TimesAreTheEvents(states, events, i - 1, p);
      TimesStep(states[i - 1], states[i], events, i - 1, p);
    }
  }

  // ----- Money -----

  /** The record of p lists the visits and the gold the events give. */
  ghost predicate VisitsOk(person: Person, events: seq<Event>, i: nat, p: nat)
    requires i <= |events|
  {
    && person.gold == Gold(events, i, p)
    && |person.history| == |Visits(events, i, p)|
    && forall k | 0 <= k < |person.history| ::
         person.history[k].visitTime == Visits(events, i, p)[k].0 &&
         person.history[k].waitTime == Visits(events, i, p)[k].1
  }

  lemma VisitsStep(s: Shop, r: Shop, events: seq<Event>, h: nat, p: nat)
    requires h < |events| && Does(s, events[h], r) && p < |s.people|
    requires TimesOk(s.people[p], events, h, p) && VisitsOk(s.people[p], events, h, p)
    ensures VisitsOk(r.people[p], events, h + 1, p)
  {
  }

  lemma RevenueStep(s: Shop, r: Shop, events: seq<Event>, h: nat)
    requires h < |events| && Does(s, events[h], r) && Books(s, events[h], r)
    requires TimesOk(s.people[events[h].who], events, h, events[h].who) && s.revenue == Takings(events, h)
    ensures r.revenue == Takings(events, h + 1)
  {
  }

  /** At every moment of every run the revenue is what the visits paid for so far were charged. */
  lemma {:induction false} RevenueIsTakings(states: seq<Shop>, events: seq<Event>, i: nat)
    requires Run(states, events) && i < |states|
    ensures states[i].revenue == Takings(events, i)
  {
    if i > 0 {
      RunDoes(states, events, i - 1);
      TimesAreTheEvents(states, events, i - 1, events[i - 1].who);
      RevenueIsTakings(states, events, i - 1);
      RevenueStep(states[i - 1], states[i], events, i - 1);
    }
  }

  /** And each person's gold and list of visits are what its own visits come to. */
  lemma {:induction false} EveryoneIsCharged(states: seq<Shop>, events: seq<Event>, i: nat, p: nat)
    requires Run(states, events) && i < |states| && p < |states[i].people|
    ensures VisitsOk(states[i].people[p], events, i, p)
  {
    if i > 0 {
      RunDoes(states, events, i - 1);
      TimesAreTheEvents(states, events, i - 1, p);
      EveryoneIsCharged(states, events, i - 1, p);
      VisitsStep(states[i - 1], states[i], events, i - 1, p);
    }
  }

  /** What a team has worked before step i, in microseconds: the visits of those it was given to. */
  ghost function Worked(states: seq<Shop>, events: seq<Event>, i: nat, team: nat): nat
    requires i <= |events| < |states| && forall j | 0 <= j < |events| :: events[j].who < |states[j].people|
  {
    if i == 0 then 0
    else
      var j := i - 1;
      Worked(states, events, j, team) +
        if events[j].DoPay? && states[j].people[events[j].who].phase == Inside(team) then 1000000 * events[j].time
        else 0
  }

  lemma {:induction false} TeamsWorked(states: seq<Shop>, events: seq<Event>, i: nat, team: nat)
    requires Run(states, events) && i < |states| && team < |states[i].busyFor|
    ensures states[i].busyFor[team] == Worked(states, events, i, team)
  {
    if i > 0 {
      RunDoes(states, events, i - 1);
      TeamsWorked(states, events, i - 1, team);
    }
  }

  // ----- Coming back -----

  /** How often p has left the store before step i. */
  function Leaves(events: seq<Event>, i: nat, p: nat): nat
    requires i <= |events|
  {
    if i == 0 then 0 else Leaves(events, i - 1, p) + if LeftAt(events, i - 1, p) then 1 else 0
  }

  /** Whether p meant it when it last left. */
  predicate MeantIt(events: seq<Event>, i: nat, p: nat)
    requires i <= |events|
  {
    i > 0 && if LeftAt(events, i - 1, p) then events[i - 1].forGood else MeantIt(events, i - 1, p)
  }

  ghost predicate ReturnsOk(person: Person, events: seq<Event>, i: nat, p: nat)
    requires i <= |events|
  {
    var n := Leaves(events, i, p);
    && n <= 2
    && (person.phase in {Departing, Gone} <==> n == 2 || (n == 1 && MeantIt(events, i, p)))
    && (person.nextVisit <==> n == 2 || (n == 1 && !MeantIt(events, i, p)))
    && |Visits(events, i, p)| == n + if person.phase.Served? then 1 else 0
  }

  lemma ReturnsStep(s: Shop, r: Shop, events: seq<Event>, h: nat, p: nat)
    requires h < |events| && Does(s, events[h], r) && p < |s.people| && ReturnsOk(s.people[p], events, h, p)
    ensures ReturnsOk(r.people[p], events, h + 1, p)
  {
  }

  /** In every run: a person has left for good, registered or about to, exactly when it left with that intention or for
      the second time; having left once without it, it comes back; and it has paid as often as it has left, or once more
      while it is about to leave. */
  lemma {:induction false} ComesBackOnce(states: seq<Shop>, events: seq<Event>, i: nat, p: nat)
    requires Run(states, events) && i < |states| && p < |states[i].people|
    ensures ReturnsOk(states[i].people[p], events, i, p)
  {
    if i > 0 {
      RunDoes(states, events, i - 1);
      ComesBackOnce(states, events, i - 1, p);
      ReturnsStep(states[i - 1], states[i], events, i - 1, p);
    }
  }
}
