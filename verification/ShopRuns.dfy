/** Whole runs of the shop: any number of people, any interleaving of their steps, any clock that does not run
    backwards. */
module ShopRuns {
  import opened Basics
  import opened ShopModel
  import opened ShopSafety
  import opened ShopBooks

  ghost predicate Inv(s: Shop) {
    Shape(s) && StoreOk(s) && LineOk(s) && ClockOk(s) && BooksOk(s) && RegistryOk(s.people, s.persons)
  }

  lemma {:induction false} RunKeepsInv(states: seq<Shop>, events: seq<Event>, i: nat)
    requires Run(states, events) && i < |states|
    ensures Inv(states[i])
  {
    if i == 0 {
      var s := states[0];
      assert Crowd(s.people, Ninja) == {} && Crowd(s.people, Pirate) == {};
      SetUp(s);
    } else {
      RunKeepsInv(states, events, i - 1);
      var s, e := states[i - 1], events[i - 1];
      StepKeepsStore(s, e);
      StepKeepsLine(s, e);
      StepKeepsClock(s, e);
      StepKeepsBooks(s, e);
      StepKeepsRegistry(s, e);
    }
  }

  /** Two people inside are of one race and have different teams; every team they have exists. */
  lemma NeverTogether(states: seq<Shop>, events: seq<Event>, i: nat, p: nat, q: nat)
    requires Run(states, events) && i < |states|
    requires p < q < |states[i].people| && InStore(states[i].people[p]) && InStore(states[i].people[q])
    ensures states[i].people[p].race == states[i].people[q].race
    ensures states[i].people[p].phase.team != states[i].people[q].phase.team
    ensures states[i].people[p].phase.team < states[i].teams
  {
    RunKeepsInv(states, events, i);
    var s := states[i];
    assert p in Crowd(s.people, s.people[p].race) && q in Crowd(s.people, s.people[q].race);
  }

  lemma AtMostTeams(states: seq<Shop>, events: seq<Event>, i: nat)
    requires Run(states, events) && i < |states|
    ensures |set p | 0 <= p < |states[i].people| && InStore(states[i].people[p])| <= states[i].teams
  {
    RunKeepsInv(states, events, i);
    var people := states[i].people;
    assert (set p | 0 <= p < |people| && InStore(people[p])) == Crowd(people, Ninja) + Crowd(people, Pirate);
    assert Crowd(people, Ninja) == {} || Crowd(people, Pirate) == {};
  }

  /** Whoever is let in is given a team that exists and nobody has. */
  lemma TeamForEveryone(states: seq<Shop>, events: seq<Event>, i: nat)
    requires Run(states, events) && i < |events| && events[i].DoAttempt?
    requires Admitted(states[i], events[i].who, events[i].first, events[i].second)
    ensures var phase := states[i + 1].people[events[i].who].phase;
      phase.Inside? && phase.team < states[i].teams && !states[i].busy[phase.team] &&
        states[i + 1].busy == states[i].busy[phase.team := true]
  {
    RunKeepsInv(states, events, i);
    AdmittedFits(states[i], events[i].who, events[i].first, events[i].second);
    TeamFree(states[i]);
  }

  /** Once everyone is gone, each came once or twice, each has an entry, and the revenue is what the entries owe. */
  lemma ClosingTime(states: seq<Shop>, events: seq<Event>, i: nat)
    requires Run(states, events) && i < |states|
    requires forall p | 0 <= p < |states[i].people| :: states[i].people[p].phase == Gone
    ensures forall p | 0 <= p < |states[i].people| :: 1 <= |states[i].people[p].history| <= 2
    ensures forall k | 0 <= k < |states[i].persons| :: states[i].persons[k].Some?
    ensures states[i].revenue == Sum(Debts(states[i].people))
    ensures states[i].line == []
  {
    RunKeepsInv(states, events, i);
    var s := states[i];
    forall p | 0 <= p < |s.people|
      ensures 1 <= |s.people[p].history| <= 2
    {
      assert PersonOk(s.people[p]);
    }
    if s.line != [] {
      SomeoneStands(s);
    }
    Everyone(s.people, s.persons);
  }

  lemma SomeoneStands(s: Shop)
    requires LineOk(s) && s.line != []
    ensures exists p :: 0 <= p < |s.people| && s.people[p].phase != Gone
  {
    assert s.people[s.line[0]].phase != Gone;
  }

  lemma Everyone(people: seq<Person>, persons: seq<Option<nat>>)
    requires RegistryOk(people, persons) && forall p | 0 <= p < |people| :: people[p].phase == Gone
    ensures FirstEmpty(persons, 0) == |persons|
  {
    var k := FirstEmpty(persons, 0);
    var names := Entries(persons, k);
    SubsetSize(UpTo(|people|), names);
  }

  ghost function Entries(persons: seq<Option<nat>>, k: nat): (r: set<nat>)
    requires k <= |persons| && forall i | 0 <= i < k :: persons[i].Some?
    ensures |r| <= k && forall p: nat | Listed(persons, k, p) :: p in r
  {
    if k == 0 then {} else
      assert forall p: nat | Listed(persons, k, p) :: Listed(persons, k - 1, p) || persons[k - 1] == Some(p);
      Entries(persons, k - 1) + {persons[k - 1].value}
  }

  // ----- The line is the order of first refusals -----

  ghost predicate RefusedAt(states: seq<Shop>, events: seq<Event>, j: nat, p: nat)
    requires Run(states, events)
  {
    j < |events| && events[j].DoAttempt? && events[j].who == p &&
      !Admitted(states[j], p, events[j].first, events[j].second)
  }

  predicate LeftAt(events: seq<Event>, l: nat, p: nat) { l < |events| && events[l].DoLeave? && events[l].who == p }

  predicate LeftBetween(events: seq<Event>, a: nat, b: nat, p: nat) {
    exists l: nat :: a <= l < b && LeftAt(events, l, p)
  }

  /** Seen from moment i, step j was the first refusal of p on a visit that is not over. */
  ghost predicate Joined(states: seq<Shop>, events: seq<Event>, i: nat, p: nat, j: nat)
    requires Run(states, events)
  {
    && j < i && RefusedAt(states, events, j, p) && !LeftBetween(events, j, i, p)
    && forall h: nat | h < j && RefusedAt(states, events, h, p) :: LeftBetween(events, h, j, p)
  }

  /** p stands before q. */
  predicate Before(line: seq<nat>, p: nat, q: nat) {
    exists k, l :: 0 <= k < l < |line| && line[k] == p && line[l] == q
  }

  lemma {:induction false} FirstExists(states: seq<Shop>, events: seq<Event>, i: nat, p: nat, j: nat) returns (f: nat)
    requires Run(states, events) && j < i <= |events| && RefusedAt(states, events, j, p)
    requires !LeftBetween(events, j, i, p)
    ensures Joined(states, events, i, p, f)
    decreases j
  {
    f := j;
    if h: nat :| h < j && RefusedAt(states, events, h, p) && !LeftBetween(events, h, j, p) {
      forall l: nat | h <= l < i
        ensures !LeftAt(events, l, p)
      {
        assert l < j ==> !(h <= l < j && LeftAt(events, l, p));
        assert l >= j ==> !(j <= l < i && LeftAt(events, l, p));
      }
      f := FirstExists(states, events, i, p, h);
    }
  }

  lemma LineStep(s: Shop, e: Event)
    requires Enabled(s, e)
    ensures Next(s, e).line ==
      if e.DoLeave? then Without(s.line, e.who)
      else if e.DoAttempt? && !Admitted(s, e.who, e.first, e.second) && e.who !in s.line then s.line + [e.who]
      else s.line
  {
  }

  lemma {:induction false} WithoutBefore(line: seq<nat>, x: nat, p: nat, q: nat)
    requires Before(Without(line, x), p, q)
    ensures Before(line, p, q)
  {
    var k, l :| 0 <= k < l < |Without(line, x)| && Without(line, x)[k] == p && Without(line, x)[l] == q;
    if line[0] == x {
      assert line[k + 1] == p && line[l + 1] == q;
    } else if k == 0 {
      assert Without(line[1..], x)[l - 1] == q;
      assert q in line[1..];
      var m :| 0 <= m < |line[1..]| && line[1..][m] == q;
      assert line[0] == p && line[m + 1] == q;
    } else {
      assert Without(line[1..], x)[k - 1] == p && Without(line[1..], x)[l - 1] == q;
      WithoutBefore(line[1..], x, p, q);
      var a, b :| 0 <= a < b < |line[1..]| && line[1..][a] == p && line[1..][b] == q;
      assert line[a + 1] == p && line[b + 1] == q;
    }
  }

  /** The visit of p is not over and p was refused on it. */
  ghost predicate Kept(states: seq<Shop>, events: seq<Event>, i: nat, p: nat)
    requires Run(states, events)
  {
    exists j: nat :: Joined(states, events, i, p, j)
  }

  /** A step that is not p's leaving does not change when p joined. */
  lemma JoinedStays(states: seq<Shop>, events: seq<Event>, i: nat, p: nat, j: nat)
    requires Run(states, events) && i < |events| && !LeftAt(events, i, p) && j < i
    ensures Joined(states, events, i + 1, p, j) <==> Joined(states, events, i, p, j)
  {
    if LeftBetween(events, j, i + 1, p) {
      var l: nat :| j <= l < i + 1 && LeftAt(events, l, p);
      assert j <= l < i;
    }
    if LeftBetween(events, j, i, p) {
      var l: nat :| j <= l < i && LeftAt(events, l, p);
      assert j <= l < i + 1;
    }
  }

  lemma LeavingEnds(states: seq<Shop>, events: seq<Event>, i: nat, p: nat)
    requires Run(states, events) && LeftAt(events, i, p)
    ensures !Kept(states, events, i + 1, p)
  {
    var h := i + 1;
    assert forall j: nat | j < h :: LeftBetween(events, j, h, p);
  }

  /** Any other step keeps p in the line's terms, unless it is a refusal. */
  lemma KeptStep(states: seq<Shop>, events: seq<Event>, i: nat, p: nat)
    requires Run(states, events) && i < |events| && !LeftAt(events, i, p)
    ensures Kept(states, events, i + 1, p) <==> Kept(states, events, i, p) || RefusedAt(states, events, i, p)
  {
    if Kept(states, events, i, p) {
      var j: nat :| Joined(states, events, i, p, j);
      JoinedStays(states, events, i, p, j);
    } else if RefusedAt(states, events, i, p) {
      var f := FirstExists(states, events, i + 1, p, i);
    }
    var h := i + 1;
    if j: nat :| Joined(states, events, h, p, j) && j < i {
      JoinedStays(states, events, i, p, j);
    }
  }

  lemma LineMemberStep(s: Shop, e: Event, p: nat)
    requires Enabled(s, e) && LineOk(s)
    ensures p in Next(s, e).line <==>
      if e.who == p && e.DoLeave? then false
      else p in s.line || (e.who == p && e.DoAttempt? && !Admitted(s, p, e.first, e.second))
  {
    LineStep(s, e);
    if e.DoLeave? {
      WithoutDistinct(s.line, e.who);
    }
  }

  /** A step changes who is in line as it changes who is kept. */
  lemma LineFollowsKept(states: seq<Shop>, events: seq<Event>, i: nat, p: nat)
    requires Run(states, events) && i < |events| && (p in states[i].line <==> Kept(states, events, i, p))
    ensures p in states[i + 1].line <==> Kept(states, events, i + 1, p)
  {
    assert LineOk(states[i]) by { RunKeepsInv(states, events, i); }
    LineMemberStep(states[i], events[i], p);
    if LeftAt(events, i, p) {
      LeavingEnds(states, events, i, p);
    } else {
      KeptStep(states, events, i, p);
    }
  }

  /** At every moment of every run the line holds exactly the people whose visit is not over and who were refused on
      it. */
  lemma {:induction false} LineIsRefused(states: seq<Shop>, events: seq<Event>, i: nat, p: nat)
    requires Run(states, events) && i <= |events|
    ensures p in states[i].line <==> Kept(states, events, i, p)
  {
    if i > 0 {
      LineIsRefused(states, events, i - 1, p);
      LineFollowsKept(states, events, i - 1, p);
    }
  }

  /** Whoever joins by step i was not in the line and is now its last. */
  lemma JoinsLast(states: seq<Shop>, events: seq<Event>, i: nat, p: nat)
    requires Run(states, events) && i < |events| && Joined(states, events, i + 1, p, i)
    ensures p !in states[i].line && states[i + 1].line == states[i].line + [p]
  {
    LineIsRefused(states, events, i, p);
    LineStep(states[i], events[i]);
  }

  /** Two people in line after a step, who both were before it, stood in the same order before it. */
  lemma OrderStep(s: Shop, e: Event, p: nat, q: nat)
    requires Enabled(s, e) && Before(Next(s, e).line, p, q) && p in s.line && q in s.line
    ensures Before(s.line, p, q)
  {
    LineStep(s, e);
    if e.DoLeave? {
      WithoutBefore(s.line, e.who, p, q);
    } else {
      var k, l :| 0 <= k < l < |Next(s, e).line| && Next(s, e).line[k] == p && Next(s, e).line[l] == q;
      assert l < |s.line|;
    }
  }

  lemma LastIsBeforeNobody(line: seq<nat>, p: nat, q: nat)
    requires p !in line
    ensures !Before(line + [p], p, q)
  {
    var longer := line + [p];
    forall k, l | 0 <= k < l < |longer|
      ensures !(longer[k] == p && longer[l] == q)
    {
      assert longer[k] == line[k];
    }
  }

  lemma WasThere(states: seq<Shop>, events: seq<Event>, i: nat, p: nat, j: nat)
    requires Run(states, events) && i < |events| && Joined(states, events, i + 1, p, j) && j < i
    ensures p in states[i].line && Joined(states, events, i, p, j)
  {
    assert !LeftAt(events, i, p);
    JoinedStays(states, events, i, p, j);
    LineIsRefused(states, events, i, p);
  }

  /** They stand in the order of their first refusals. */
  lemma {:induction false} LineIsInOrder(states: seq<Shop>, events: seq<Event>, i: nat, p: nat, q: nat, jp: nat,
                                         jq: nat)
    requires Run(states, events) && i <= |events|
    requires Before(states[i].line, p, q) && Joined(states, events, i, p, jp) && Joined(states, events, i, q, jq)
    ensures jp < jq
  {
    var h: nat := i - 1;
    if jp == h {
      JoinsLast(states, events, h, p);
      LastIsBeforeNobody(states[h].line, p, q);
    } else if jq != h {
      WasThere(states, events, h, p, jp);
      WasThere(states, events, h, q, jq);
      OrderStep(states[h], events[h], p, q);
      LineIsInOrder(states, events, h, p, q, jp, jq);
    }
  }
}
