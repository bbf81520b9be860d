/**
 The door of the shop told by the events of a run and by who is in the store: when it is open,
 when the store counts as having just changed hands, and who is signalled.
 */
module ShopDoor {
  import opened ShopModel
  import opened ShopSafety
  import opened ShopRuns
  import opened ShopAccounts

  /** At t a person has been waiting longer than thirty seconds less one and a half times what the other race takes. */
  predicate Late(s: Shop, events: seq<Event>, i: nat, q: nat, t: nat)
    requires q < |s.people| && i <= |events|
  {
    t - Arrival(events, i, q) > 30000 - 1500 * (if s.people[q].race == Ninja then s.pAvg else s.nAvg)
  }

  lemma OverdueIffLate(states: seq<Shop>, events: seq<Event>, i: nat, q: nat, t: nat)
    requires Run(states, events) && i < |states| && q < |states[i].people| && t >= states[i].now
    ensures Overdue(states[i], q, t) <==> Late(states[i], events, i, q, t)
  {
    RunKeepsInv(states, events, i);
    TimesAreTheEvents(states, events, i, q);
  }

  /** The clocks of a turn at the door show what the clock showed before, or later. */
  lemma ClocksGoOn(s: Shop, e: Event, k: nat)
    requires Enabled(s, e) && e.DoAttempt? && k < |s.line|
    ensures e.first[k] >= s.now && e.second[k] >= e.first[k]
  {
    var c := [s.now] + e.first + e.second + [e.t];
    assert c[0] <= c[k + 1] <= c[|s.line| + k + 1];
  }

  ghost predicate LateAtFirst(states: seq<Shop>, events: seq<Event>, i: nat, k: nat)
    requires Run(states, events) && i < |events| && events[i].DoAttempt? && k < |states[i].line|
  {
    Enabled(states[i], events[i]) && Late(states[i], events, i, states[i].line[k], events[i].first[k])
  }

  ghost predicate LateAtSecond(states: seq<Shop>, events: seq<Event>, i: nat, k: nat)
    requires Run(states, events) && i < |events| && events[i].DoAttempt? && k < |states[i].line|
  {
    Enabled(states[i], events[i]) && Late(states[i], events, i, states[i].line[k], events[i].second[k])
  }

  lemma LooksAt(states: seq<Shop>, events: seq<Event>, i: nat)
    requires Run(states, events) && i < |events| && events[i].DoAttempt?
    ensures var s, e := states[i], events[i];
      && Enabled(s, e) && Inv(s) && |e.first| == |e.second| == |s.line|
      && forall k | 0 <= k < |s.line| ::
           && s.line[k] < |s.people|
           && (Overdue(s, s.line[k], e.first[k]) <==> LateAtFirst(states, events, i, k))
           && (Overdue(s, s.line[k], e.second[k]) <==> LateAtSecond(states, events, i, k))
  {
    RunKeepsInv(states, events, i);
    var s, e := states[i], events[i];
    assert Enabled(s, e);
    forall k | 0 <= k < |s.line|
      ensures Overdue(s, s.line[k], e.first[k]) <==> LateAtFirst(states, events, i, k)
      ensures Overdue(s, s.line[k], e.second[k]) <==> LateAtSecond(states, events, i, k)
    {
      ClocksGoOn(s, e, k);
      OverdueIffLate(states, events, i, s.line[k], e.first[k]);
      OverdueIffLate(states, events, i, s.line[k], e.second[k]);
    }
  }

  /** Whether the person that tries the door at step i gets in. */
  predicate LetIn(states: seq<Shop>, events: seq<Event>, i: nat) {
    i < |events| && i + 1 < |states| && events[i].who < |states[i + 1].people| &&
      states[i + 1].people[events[i].who].phase.Inside?
  }

  lemma LetInIffAdmitted(states: seq<Shop>, events: seq<Event>, i: nat)
    requires Run(states, events) && i < |events| && events[i].DoAttempt?
    ensures Enabled(states[i], events[i])
    ensures LetIn(states, events, i) <==> Admitted(states[i], events[i].who, events[i].first, events[i].second)
  {
    assert Enabled(states[i], events[i]) && states[i + 1] == Next(states[i], events[i]);
    AttemptLetsIn(states[i], events[i]);
  }

  lemma AttemptLetsIn(s: Shop, e: Event)
    requires Enabled(s, e) && e.DoAttempt?
    ensures |Next(s, e).people| == |s.people|
    ensures Next(s, e).people[e.who].phase.Inside? <==> Admitted(s, e.who, e.first, e.second)
  {
  }

  ghost predicate NobodyIn(s: Shop) { forall q | 0 <= q < |s.people| :: !InStore(s.people[q]) }

  lemma NobodyCounts(s: Shop)
    requires StoreOk(s)
    ensures NobodyIn(s) <==> s.ninjaIn == 0 && s.pirateIn == 0
  {
    if NobodyIn(s) {
      assert Crowd(s.people, Ninja) == {} && Crowd(s.people, Pirate) == {};
    } else {
      var q :| 0 <= q < |s.people| && InStore(s.people[q]);
      assert q in Crowd(s.people, s.people[q].race);
    }
  }

  /** An empty store lets a person in when nobody in line is late at the second look, or the first who is late at the
      first look is of the same race. */
  lemma EmptyStoreLetsIn(states: seq<Shop>, events: seq<Event>, i: nat)
    requires Run(states, events) && i < |events| && events[i].DoAttempt? && NobodyIn(states[i])
    ensures events[i].who < |states[i].people| && forall k | 0 <= k < |states[i].line| ::
      states[i].line[k] < |states[i].people|
    ensures var s, race := states[i], states[i].people[events[i].who].race;
      LetIn(states, events, i) <==>
        || (forall k | 0 <= k < |s.line| :: !LateAtSecond(states, events, i, k))
        || exists f :: 0 <= f < |s.line| && LateAtFirst(states, events, i, f) && s.people[s.line[f]].race == race &&
             forall k | 0 <= k < f :: !LateAtFirst(states, events, i, k)
  {
    LooksAt(states, events, i);
    LetInIffAdmitted(states, events, i);
    NobodyCounts(states[i]);
    EmptyStoreAdmits(states[i], events[i]);
  }

  lemma EmptyStoreAdmits(s: Shop, e: Event)
    requires Enabled(s, e) && e.DoAttempt? && s.teams > 0 && s.ninjaIn == 0 && s.pirateIn == 0
    ensures Admitted(s, e.who, e.first, e.second) <==>
      || (forall k | 0 <= k < |s.line| :: !Overdue(s, s.line[k], e.second[k]))
      || exists f :: 0 <= f < |s.line| && Overdue(s, s.line[f], e.first[f]) &&
           s.people[s.line[f]].race == s.people[e.who].race &&
           forall k | 0 <= k < f :: !Overdue(s, s.line[k], e.first[k])
  {
    var r := s.(justChanged := Changed(s));
    EmptyStoreMeaning(s, e.first);
    EmptyStoreMeaning(r, e.second);
    var f := FirstOverdue(s, e.first, 0);
    if f < |s.line| {
      assert CanEnter(s, e.first) == s.people[s.line[f]].race;
    }
    assert forall k | 0 <= k < |s.line| :: Overdue(r, s.line[k], e.second[k]) <==> Overdue(s, s.line[k], e.second[k]);
  }

  /** A store with people in it lets a person in when they are all of its race, fewer than there are teams, and the
      store has just changed hands or the first who is late at the first look, if anyone is, is of that race too. */
  lemma BusyStoreLetsIn(states: seq<Shop>, events: seq<Event>, i: nat)
    requires Run(states, events) && i < |events| && events[i].DoAttempt? && !NobodyIn(states[i])
    ensures events[i].who < |states[i].people| && forall k | 0 <= k < |states[i].line| ::
      states[i].line[k] < |states[i].people|
    ensures var s, race := states[i], states[i].people[events[i].who].race;
      LetIn(states, events, i) <==>
        && (forall q | 0 <= q < |s.people| && InStore(s.people[q]) :: s.people[q].race == race)
        && |set q | 0 <= q < |s.people| && InStore(s.people[q])| < s.teams
        && (s.justChanged || forall f | 0 <= f < |s.line| && LateAtFirst(states, events, i, f) &&
             (forall k | 0 <= k < f :: !LateAtFirst(states, events, i, k)) :: s.people[s.line[f]].race == race)
  {
    LooksAt(states, events, i);
    LetInIffAdmitted(states, events, i);
    NobodyCounts(states[i]);
    BusyStoreAdmits(states[i], events[i]);
    InsideCounts(states[i], states[i].people[events[i].who].race);
  }

  lemma BusyStoreAdmits(s: Shop, e: Event)
    requires Enabled(s, e) && e.DoAttempt? && DoorsOk(s) && s.ninjaIn + s.pirateIn > 0
    ensures var race := s.people[e.who].race;
      Admitted(s, e.who, e.first, e.second) <==>
        && (if race == Ninja then s.pirateIn else s.ninjaIn) == 0 && s.ninjaIn + s.pirateIn < s.teams
        && (s.justChanged || forall f | 0 <= f < |s.line| && Overdue(s, s.line[f], e.first[f]) &&
             (forall k | 0 <= k < f :: !Overdue(s, s.line[k], e.first[k])) :: s.people[s.line[f]].race == race)
  {
    BusyStoreMeaning(s, e.first, s.people[e.who].race);
    BusyStoreMeaning(s.(justChanged := Changed(s)), e.second, Ninja);
  }

  lemma InsideCounts(s: Shop, race: Race)
    requires StoreOk(s)
    ensures |set q | 0 <= q < |s.people| && InStore(s.people[q])| == s.ninjaIn + s.pirateIn
    ensures (forall q | 0 <= q < |s.people| && InStore(s.people[q]) :: s.people[q].race == race) <==>
      (if race == Ninja then s.pirateIn else s.ninjaIn) == 0
  {
    var people := s.people;
    assert (set p | 0 <= p < |people| && InStore(people[p])) == Crowd(people, Ninja) + Crowd(people, Pirate);
    assert Crowd(people, Ninja) == {} || Crowd(people, Pirate) == {};
    OthersNone(people, race);
  }

  lemma OthersNone(people: seq<Person>, race: Race)
    ensures (forall q | 0 <= q < |people| && InStore(people[q]) :: people[q].race == race) <==>
      |Crowd(people, if race == Ninja then Pirate else Ninja)| == 0
  {
    var other: Race := if race == Ninja then Pirate else Ninja;
    if q :| 0 <= q < |people| && InStore(people[q]) && people[q].race != race {
      assert q in Crowd(people, other);
    } else {
      assert Crowd(people, other) == {};
    }
  }

  // ----- justChanged -----

  /** By step h somebody tries the door of an empty store. */
  ghost predicate Opened(states: seq<Shop>, events: seq<Event>, h: nat) {
    h < |events| && h < |states| && events[h].DoAttempt? && NobodyIn(states[h])
  }

  /** By step h the last in line is turned away. */
  ghost predicate GaveUp(states: seq<Shop>, events: seq<Event>, h: nat) {
    && h < |events| && h < |states| && events[h].DoAttempt? && !LetIn(states, events, h)
    && states[h].line != [] && states[h].line[|states[h].line| - 1] == events[h].who
  }

  lemma AttemptChanges(s: Shop, e: Event)
    requires Shape(s) && StoreOk(s) && Distinct(s.line) && Enabled(s, e) && e.DoAttempt?
    ensures Next(s, e).justChanged <==>
      && (s.justChanged || NobodyIn(s))
      && !(!Admitted(s, e.who, e.first, e.second) && s.line != [] && s.line[|s.line| - 1] == e.who)
  {
    var w := s.(signalled := s.signalled - {e.who}, justChanged := Changed(s), now := e.t);
    ChangedIff(s);
    if Admitted(s, e.who, e.first, e.second) {
      assert Next(s, e) == Enter(w, e.who, e.t);
      EnterChanges(w, e.who, e.t);
    } else {
      assert Next(s, e) == Refuse(w, e.who);
      RefuseChanges(w, e.who);
    }
  }

  lemma ChangedIff(s: Shop)
    requires StoreOk(s)
    ensures Changed(s) <==> s.justChanged || NobodyIn(s)
  {
    NobodyCounts(s);
  }

  lemma EnterChanges(s: Shop, p: nat, t: nat)
    requires Shape(s) && p < |s.people|
    ensures Enter(s, p, t).justChanged == s.justChanged
  {
  }

  lemma RefuseChanges(s: Shop, p: nat)
    requires Shape(s) && Distinct(s.line) && p < |s.people|
    ensures Refuse(s, p).justChanged <==> s.justChanged && !(s.line != [] && s.line[|s.line| - 1] == p)
  {
    LastHasNoNext(s.line, p);
  }

  lemma LastHasNoNext(line: seq<nat>, p: nat)
    requires Distinct(line)
    ensures p in line && !HasNext(line, p) <==> line != [] && line[|line| - 1] == p
  {
    if p in line && !HasNext(line, p) {
      var i :| 0 <= i < |line| && line[i] == p;
    }
  }

  lemma ChangesStep(states: seq<Shop>, events: seq<Event>, i: nat)
    requires Run(states, events) && i < |events|
    ensures states[i + 1].justChanged <==>
      (states[i].justChanged || Opened(states, events, i)) && !GaveUp(states, events, i)
  {
    RunKeepsInv(states, events, i);
    assert Enabled(states[i], events[i]) && states[i + 1] == Next(states[i], events[i]);
    if events[i].DoAttempt? {
      LetInIffAdmitted(states, events, i);
      AttemptChanges(states[i], events[i]);
    }
  }

  /** Somebody tried the door of the empty store, and the last in line has not been turned away then or later. */
  ghost predicate OpenedSince(states: seq<Shop>, events: seq<Event>, i: nat) {
    exists h: nat :: h < i && Opened(states, events, h) && Lasts(states, events, h, i)
  }

  ghost predicate Lasts(states: seq<Shop>, events: seq<Event>, h: nat, i: nat) {
    forall k: nat | h <= k < i :: !GaveUp(states, events, k)
  }

  lemma OpenedStep(states: seq<Shop>, events: seq<Event>, n: nat)
    ensures OpenedSince(states, events, n + 1) <==>
      (OpenedSince(states, events, n) || Opened(states, events, n)) && !GaveUp(states, events, n)
  {
    var i := n + 1;
    if !GaveUp(states, events, n) {
      assert Lasts(states, events, n, i);
      if h: nat :| h < n && Opened(states, events, h) && Lasts(states, events, h, n) {
        assert Lasts(states, events, h, i);
      }
    }
    if h: nat :| h < i && Opened(states, events, h) && Lasts(states, events, h, i) {
      assert h < n ==> Lasts(states, events, h, n);
    }
  }

  /** The store counts as having just changed hands from a try at its door while it is empty until, then or later, the
      last in line is turned away. */
  lemma {:induction false} JustChangedIff(states: seq<Shop>, events: seq<Event>, i: nat)
    requires Run(states, events) && i < |states|
    ensures states[i].justChanged <==> OpenedSince(states, events, i)
  {
    if i > 0 {
      JustChangedIff(states, events, i - 1);
      ChangesStep(states, events, i - 1);
      OpenedStep(states, events, i - 1);
    }
  }

  // ----- Signals -----

  /** A person's signal lasts until its next try. A signal goes to whoever heads the line after somebody has left, and
      to whoever stands behind a person that tries the door, if that one is waiting. */
  lemma SignalledIff(s: Shop, e: Event, q: nat)
    requires Inv(s) && Enabled(s, e) && q < |s.people|
    ensures q in Next(s, e).signalled <==>
      || (q in s.signalled && !(e.DoAttempt? && e.who == q))
      || (s.people[q].phase == Outside && e.DoLeave? && Next(s, e).line != [] && Next(s, e).line[0] == q)
      || (s.people[q].phase == Outside && e.DoAttempt? && Behind(s.line, e.who, q))
  {
    if e.DoAttempt? {
      AttemptSignals(s, e, q);
    } else if e.DoLeave? {
      LeaveSignals(s, e, q);
    }
  }

  lemma LeaveSignals(s: Shop, e: Event, q: nat)
    requires Shape(s) && LineOk(s) && Enabled(s, e) && e.DoLeave? && q < |s.people|
    ensures q in Next(s, e).signalled <==>
      q in s.signalled || (s.people[q].phase == Outside && Next(s, e).line != [] && Next(s, e).line[0] == q)
  {
    WithoutDistinct(s.line, e.who);
    var r := Quit(s, e.who, e.forGood);
    assert r.line != [] ==> r.line[0] in r.line;
  }

  lemma AttemptSignals(s: Shop, e: Event, q: nat)
    requires Inv(s) && Enabled(s, e) && e.DoAttempt? && q < |s.people|
    ensures q in Next(s, e).signalled <==>
      (q in s.signalled && e.who != q) || (s.people[q].phase == Outside && Behind(s.line, e.who, q))
  {
    var w := s.(signalled := s.signalled - {e.who}, justChanged := Changed(s), now := e.t);
    SignalNextIff(w, e.who, q);
    SignalNextIff(Seat(w, e.who, e.t), e.who, q);
    NextIffBehind(s.line, e.who);
  }

  /** q stands right behind p. */
  predicate Behind(line: seq<nat>, p: nat, q: nat) {
    exists m :: 0 <= m < |line| - 1 && line[m] == p && line[m + 1] == q
  }

  lemma NextIffBehind(line: seq<nat>, p: nat)
    requires Distinct(line)
    ensures HasNext(line, p) <==> p in line && IndexOf(line, p) + 1 < |line|
    ensures forall q: nat :: Behind(line, p, q) <==>
      p in line && IndexOf(line, p) + 1 < |line| && line[IndexOf(line, p) + 1] == q
  {
    if m :| 0 <= m < |line| - 1 && line[m] == p {
      assert IndexOf(line, p) == m;
    }
  }

  lemma SignalNextIff(s: Shop, p: nat, q: nat)
    requires Shape(s) && Distinct(s.line) && p < |s.people| && q < |s.people|
    ensures q in SignalNext(s, p).signalled <==>
      q in s.signalled || (s.people[q].phase == Outside && Behind(s.line, p, q))
  {
    NextIffBehind(s.line, p);
  }
}
