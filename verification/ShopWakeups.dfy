/**
 Whether the wake-ups can die out: an empty store, people in the line, and nobody whose
 condition has been signalled. It happens at one kind of step only, and it is for good.
 */
module ShopWakeups {
  import opened ShopModel
  import opened ShopSafety
  import opened ShopRuns

  predicate Empty(s: Shop) { s.ninjaIn == 0 && s.pirateIn == 0 }

  /** If the store is empty and someone waits, a wake-up is under way. */
  predicate Live(s: Shop) { Empty(s) && s.line != [] ==> s.signalled != {} }

  /** The last in line, or a newcomer, is turned away from an empty store when nobody else has been signalled. */
  predicate Strands(s: Shop, e: Event)
    requires Enabled(s, e)
  {
    && e.DoAttempt? && Empty(s) && !Admitted(s, e.who, e.first, e.second)
    && !HasNext(s.line, e.who) && s.signalled <= {e.who}
  }

  lemma {:induction false} NextIsNext(line: seq<nat>, p: nat)
    requires Distinct(line) && HasNext(line, p)
    ensures p in line && IndexOf(line, p) + 1 < |line|
  {
    var i :| 0 <= i < |line| - 1 && line[i] == p;
    assert IndexOf(line, p) == i;
  }

  lemma AttemptLiveIff(s: Shop, e: Event)
    requires Inv(s) && Live(s) && Enabled(s, e) && e.DoAttempt?
    ensures Live(Next(s, e)) <==> !Strands(s, e)
  {
    var p := e.who;
    if !Admitted(s, p, e.first, e.second) && Empty(s) {
      if HasNext(s.line, p) {
        NextIsNext(s.line, p);
        var q := s.line[IndexOf(s.line, p) + 1];
        NobodyInside(s, q);
        assert q in Next(s, e).signalled;
      } else {
        assert Next(s, e).signalled == s.signalled - {p};
      }
    }
  }

  lemma NobodyInside(s: Shop, q: nat)
    requires StoreOk(s) && Empty(s) && q < |s.people|
    ensures !InStore(s.people[q])
  {
    assert q in Crowd(s.people, s.people[q].race) <==> InStore(s.people[q]);
  }

  lemma LeaveStaysLive(s: Shop, e: Event)
    requires Inv(s) && Enabled(s, e) && e.DoLeave?
    ensures Live(Next(s, e))
  {
    var r := Next(s, e);
    StepKeepsStore(s, e);
    StepKeepsLine(s, e);
    if Empty(r) && r.line != [] {
      NobodyInside(r, r.line[0]);
      assert r.line[0] in r.signalled;
    }
  }

  /** A wake-up stays under way exactly when the step does not strand the line. */
  lemma StaysLiveIff(s: Shop, e: Event)
    requires Inv(s) && Live(s) && Enabled(s, e)
    ensures Live(Next(s, e)) <==> !Strands(s, e)
  {
    if e.DoAttempt? {
      AttemptLiveIff(s, e);
    } else if e.DoLeave? {
      LeaveStaysLive(s, e);
    }
  }

  /** So every moment of a run is live exactly until a step strands the line. */
  lemma {:induction false} RunIsLiveIff(states: seq<Shop>, events: seq<Event>)
    requires Run(states, events)
    ensures (forall i | 0 <= i < |states| :: Live(states[i])) <==>
      (forall i | 0 <= i < |events| :: !Strands(states[i], events[i]))
  {
    if i :| 0 <= i < |states| && !Live(states[i]) && forall j | 0 <= j < i :: Live(states[j]) {
      RunKeepsInv(states, events, i - 1);
      StaysLiveIff(states[i - 1], events[i - 1]);
    } else {
      AllLive(states, |states|);
      forall i | 0 <= i < |events|
        ensures !Strands(states[i], events[i])
      {
        RunKeepsInv(states, events, i);
        assert Live(states[i]) && Live(states[i + 1]);
        StaysLiveIff(states[i], events[i]);
      }
    }
  }

  lemma {:induction false} AllLive(states: seq<Shop>, n: nat)
    requires n <= |states| && forall i | 0 <= i < |states| && !Live(states[i]) :: exists j ::
      0 <= j < i && !Live(states[j])
    ensures forall i | 0 <= i < n :: Live(states[i])
  {
    if n > 0 {
      AllLive(states, n - 1);
    }
  }

  // ----- Once stranded -----

  /** The store is empty, nobody is signalled, and everyone who has come stands in the line. */
  predicate Stranded(s: Shop) {
    && Empty(s) && s.line != [] && s.signalled == {}
    && forall p | 0 <= p < |s.people| && s.people[p].phase == Outside :: p in s.line
  }

  /** A step that nobody new takes, and nobody in line unless woken by a signal. */
  predicate Prompted(s: Shop, e: Event) { !e.DoArrive? && (e.DoAttempt? && e.who in s.line ==> e.who in s.signalled) }

  lemma StaysStranded(s: Shop, e: Event)
    requires Inv(s) && Stranded(s) && Enabled(s, e) && Prompted(s, e)
    ensures e.DoRegister? && Stranded(Next(s, e)) && Next(s, e).line == s.line
  {
    NobodyInside(s, e.who);
  }

  /** Until somebody new arrives, a stranded line stays as it is and no signal is sent, spurious wake-ups apart. */
  lemma {:induction false} StrandedForGood(states: seq<Shop>, events: seq<Event>, i: nat, j: nat)
    requires Run(states, events) && i <= j < |states| && Stranded(states[i])
    requires forall k | i <= k < j :: Prompted(states[k], events[k])
    ensures Stranded(states[j]) && states[j].line == states[i].line
  {
    if i < j {
      StrandedForGood(states, events, i, j - 1);
      RunKeepsInv(states, events, j - 1);
      StaysStranded(states[j - 1], events[j - 1]);
    }
  }

  /** And when everyone outside the line has left for good, nobody new arrives. */
  lemma NobodyNew(s: Shop, e: Event)
    requires Stranded(s) && Enabled(s, e) && LineOk(s)
    requires forall p | 0 <= p < |s.people| && p !in s.line ::
      s.people[p].phase == Departing || s.people[p].phase == Gone
    ensures !e.DoArrive?
  {
  }
}
