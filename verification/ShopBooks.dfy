/**
 The statistics: at every release of the statistics lock the revenue is what all visits owe,
 the teams were busy for as long as all visits lasted, and the list of persons is a prefix.
 */
module ShopBooks {
  import opened Basics
  import opened ShopModel
  import opened ShopSafety

  function Sum(xs: seq<nat>): nat { if xs == [] then 0 else xs[0] + Sum(xs[1..]) }

  /** What the visits owe together. */
  function Owed(history: seq<Visit>): nat {
    if history == [] then 0
    else var v := history[|history| - 1]; Owed(history[..|history| - 1]) + Due(v.waitTime, v.visitTime)
  }

  function Lasted(history: seq<Visit>): nat {
    if history == [] then 0 else Lasted(history[..|history| - 1]) + history[|history| - 1].visitTime
  }

  function Debts(people: seq<Person>): seq<nat> {
    seq(|people|, p requires 0 <= p < |people| => Owed(people[p].history))
  }

  function Durations(people: seq<Person>): seq<nat> {
    seq(|people|, p requires 0 <= p < |people| => Lasted(people[p].history))
  }

  /** One visit is over once it is paid, and the earlier one once nextVisit is set. */
  predicate PersonOk(person: Person) {
    && person.visits == |person.history| && person.gold == Owed(person.history)
    && person.visits == (if person.nextVisit then 1 else 0) + (if person.phase.Served? || person.phase.Departing? ||
         person.phase.Gone? then 1 else 0)
  }

  ghost predicate BooksOk(s: Shop) {
    && (forall p | 0 <= p < |s.people| :: PersonOk(s.people[p]))
    && s.revenue == Sum(Debts(s.people))
    && Sum(s.busyFor) == 1000000 * Sum(Durations(s.people))
  }

  lemma {:induction false} SumUpdate(xs: seq<nat>, i: nat, v: nat)
    requires i < |xs|
    ensures Sum(xs[i := v]) == Sum(xs) - xs[i] + v
  {
    if i == 0 {
      assert xs[i := v][1..] == xs[1..];
    } else {
      SumUpdate(xs[1..], i - 1, v);
      assert xs[i := v][1..] == xs[1..][i - 1 := v];
    }
  }

  lemma {:induction false} SumZero(xs: seq<nat>)
    requires forall i | 0 <= i < |xs| :: xs[i] == 0
    ensures Sum(xs) == 0
  {
    if xs != [] {
      SumZero(xs[1..]);
    }
  }

  lemma OneMoreVisit(history: seq<Visit>, v: Visit)
    ensures Owed(history + [v]) == Owed(history) + Due(v.waitTime, v.visitTime)
    ensures Lasted(history + [v]) == Lasted(history) + v.visitTime
  {
    assert (history + [v])[..|history|] == history;
  }

  lemma PayPerson(s: Shop, p: nat, time: nat)
    requires Shape(s) && p < |s.people| && s.people[p].phase.Inside? && PersonOk(s.people[p])
    ensures var before, r := s.people[p], Pay(s, p, time);
      && |r.people| == |s.people| && PersonOk(r.people[p])
      && Owed(r.people[p].history) == Owed(before.history) + Due(before.waitTime, time)
      && Lasted(r.people[p].history) == Lasted(before.history) + time
  {
    OneMoreVisit(s.people[p].history, Visit(time, s.people[p].waitTime));
  }

  lemma DebtsUpdate(people: seq<Person>, p: nat, person: Person)
    requires p < |people|
    ensures Sum(Debts(people[p := person])) == Sum(Debts(people)) - Owed(people[p].history) + Owed(person.history)
    ensures Sum(Durations(people[p := person])) ==
      Sum(Durations(people)) - Lasted(people[p].history) + Lasted(person.history)
  {
    assert Debts(people[p := person]) == Debts(people)[p := Owed(person.history)];
    assert Durations(people[p := person]) == Durations(people)[p := Lasted(person.history)];
    SumUpdate(Debts(people), p, Owed(person.history));
    SumUpdate(Durations(people), p, Lasted(person.history));
  }

  lemma PayKeepsBooks(s: Shop, p: nat, time: nat)
    requires Shape(s) && StoreOk(s) && BooksOk(s) && p < |s.people| && s.people[p].phase.Inside?
    ensures BooksOk(Pay(s, p, time))
  {
    var r, team := Pay(s, p, time), s.people[p].phase.team;
    PayPerson(s, p, time);
    DebtsUpdate(s.people, p, r.people[p]);
    SumUpdate(s.busyFor, team, r.busyFor[team]);
  }

  /** The other steps move nobody's money or time. */
  lemma SameBooks(s: Shop, p: nat, r: Shop)
    requires BooksOk(s) && SameMoney(s, p, r)
    ensures BooksOk(r)
  {
    assert Debts(r.people) == Debts(s.people);
    assert Durations(r.people) == Durations(s.people);
  }

  lemma AttemptPaysNothing(s: Shop, p: nat, first: seq<nat>, second: seq<nat>, t: nat)
    requires Shape(s) && p < |s.people| && |first| == |second| == |s.line|
    requires s.people[p].phase == Outside && PersonOk(s.people[p])
    ensures SameMoney(s, p, Attempt(s, p, first, second, t))
  {
  }

  lemma LeavePaysNothing(s: Shop, p: nat, forGood: bool)
    requires Shape(s) && p < |s.people| && s.people[p].phase.Served? && PersonOk(s.people[p])
    ensures SameMoney(s, p, Leave(s, p, forGood))
  {
  }

  predicate SameMoney(s: Shop, p: nat, r: Shop) {
    && p < |s.people| == |r.people| && r.people == s.people[p := r.people[p]]
    && r.people[p].history == s.people[p].history && PersonOk(r.people[p])
    && r.revenue == s.revenue && r.busyFor == s.busyFor
  }

  lemma OthersPayNothing(s: Shop, e: Event)
    requires Enabled(s, e) && !e.DoPay? && PersonOk(s.people[e.who])
    ensures SameMoney(s, e.who, Next(s, e))
  {
    match e
    case DoAttempt(p, first, second, t) => AttemptPaysNothing(s, p, first, second, t);
    case DoLeave(p, forGood) => LeavePaysNothing(s, p, forGood);
    case _ =>
  }

  lemma StepKeepsBooks(s: Shop, e: Event)
    requires Enabled(s, e) && StoreOk(s) && BooksOk(s)
    ensures BooksOk(Next(s, e))
  {
    var p := e.who;
    assert PersonOk(s.people[p]);
    if e.DoPay? {
      PayKeepsBooks(s, p, e.time);
    } else {
      OthersPayNothing(s, e);
      SameBooks(s, p, Next(s, e));
    }
  }

  // ----- The list of persons -----

  predicate Listed(persons: seq<Option<nat>>, k: nat, p: nat) {
    exists i: nat :: i < k && i < |persons| && persons[i] == Some(p)
  }

  /** The first k entries name those who are gone, each once; behind them all are NULL. */
  ghost predicate Filled(people: seq<Person>, persons: seq<Option<nat>>, k: nat) {
    && k <= |persons| == |people|
    && (forall i | k <= i < |persons| :: persons[i].Absent?)
    && (forall i | 0 <= i < k :: persons[i].Some? && persons[i].value < |people| &&
         people[persons[i].value].phase == Gone)
    && (forall i, j | 0 <= i < j < k :: persons[i] != persons[j])
    && (forall p: nat | p < |people| && people[p].phase == Gone :: Listed(persons, k, p))
  }

  ghost predicate RegistryOk(people: seq<Person>, persons: seq<Option<nat>>) {
    Filled(people, persons, FirstEmpty(persons, 0))
  }

  lemma {:induction false} Registered(people: seq<Person>, persons: seq<Option<nat>>, n: nat, k: nat)
    returns (names: set<nat>)
    requires Filled(people, persons, n) && k <= n
    ensures |names| == k && forall p | p in names :: p < |people| && people[p].phase == Gone && Listed(persons, k, p)
  {
    names := {};
    if k > 0 {
      var last: nat := k - 1;
      var before := Registered(people, persons, n, last);
      names := before + {persons[last].value};
      assert persons[last] == Some(persons[last].value);
    }
  }

  lemma {:induction false} FirstEmptyIs(persons: seq<Option<nat>>, i: nat, k: nat)
    requires i <= k <= |persons| && (forall j | i <= j < k :: persons[j].Some?)
    requires (k < |persons| ==> persons[k].Absent?)
    ensures FirstEmpty(persons, i) == k
    decreases k - i
  {
    if i < k {
      FirstEmptyIs(persons, i + 1, k);
    }
  }

  /** Someone who still has to register finds an empty entry. */
  lemma RoomToRegister(people: seq<Person>, persons: seq<Option<nat>>, p: nat)
    requires RegistryOk(people, persons) && p < |people| && people[p].phase != Gone
    ensures FirstEmpty(persons, 0) < |persons|
  {
    var k := FirstEmpty(persons, 0);
    var names := Registered(people, persons, k, k);
    SubsetSize(names + {p}, UpTo(|people|));
  }

  lemma RegisterFills(people: seq<Person>, persons: seq<Option<nat>>, p: nat, person: Person, k: nat)
    requires Filled(people, persons, k) && k < |persons| && p < |people| && people[p].phase != Gone
    requires person.phase == Gone
    ensures Filled(people[p := person], persons[k := Some(p)], k + 1)
  {
    var folk, after := people[p := person], persons[k := Some(p)];
    assert after[k] == Some(p);
    forall q: nat | q < |folk| && folk[q].phase == Gone
      ensures Listed(after, k + 1, q)
    {
      if q != p {
        var i: nat :| i < k && i < |persons| && persons[i] == Some(q);
        assert after[i] == Some(q);
      }
    }
  }

  lemma NobodyRegisters(s: Shop, e: Event)
    requires Enabled(s, e) && !e.DoRegister?
    ensures var r := Next(s, e);
      |r.people| == |s.people| && r.persons == s.persons && r.people == s.people[e.who := r.people[e.who]]
    ensures s.people[e.who].phase != Gone && Next(s, e).people[e.who].phase != Gone
  {
  }

  lemma RegistryStays(people: seq<Person>, persons: seq<Option<nat>>, p: nat, person: Person)
    requires RegistryOk(people, persons) && p < |people| && people[p].phase != Gone && person.phase != Gone
    ensures RegistryOk(people[p := person], persons)
  {
  }

  lemma StepKeepsRegistry(s: Shop, e: Event)
    requires Enabled(s, e) && RegistryOk(s.people, s.persons)
    ensures RegistryOk(Next(s, e).people, Next(s, e).persons)
  {
    var p, r := e.who, Next(s, e);
    if e.DoRegister? {
      RoomToRegister(s.people, s.persons, p);
      var k := FirstEmpty(s.persons, 0);
      RegisterFills(s.people, s.persons, p, r.people[p], k);
      FirstEmptyIs(r.persons, 0, k + 1);
    } else {
      NobodyRegisters(s, e);
      RegistryStays(s.people, s.persons, p, r.people[p]);
    }
  }

  lemma SetUp(s: Shop)
    requires Initial(s)
    ensures BooksOk(s) && RegistryOk(s.people, s.persons)
  {
    SumZero(Debts(s.people));
    SumZero(Durations(s.people));
    SumZero(s.busyFor);
  }
}
