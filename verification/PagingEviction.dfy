/**
 The message "DID NOT SWAP" is never printed in a clear run: every call of swapPage that an
 instruction makes, however deeply nested, finds an owner for the frame it was given.
 */
module PagingEviction {
  import opened Basics
  import opened PagingModel
  import opened PagingOwnership
  import opened PagingCascade
  import opened PagingFaults
  import opened PagingAllocation
  import opened PagingRefinement
  import opened PagingRuns

  /** The call and every call nested in it ends in one of the eviction cases. */
  ghost predicate Evicts(s: State, slot: nat, f: nat, pid: nat)
    requires Shape(s) && slot < SLOTS && f < FRAMES && pid < PROCESSES
    decreases Away(s, slot), Redirections(s, f, pid)
  {
    match FindVictim(s, f, pid, 0)
    case NoVictim => false
    case IssuersTable =>
      RedirectionEnds(s, f, pid);
      Evicts(Advance(s), slot, Advance(s).next, pid)
    case TableOf(_) => true
    case PageOf(i, _) =>
      0 <= s.table[i] <= 3 || IndexToSwap(s.table[i]) == slot ||
      (var b := BringIn(s, slot, f);
       CascadeShrinks(s, slot, f, i);
       Evicts(b, IndexToSwap(b.table[i]), (f + 1) % 4, pid))
  }

  lemma RedirectedOnce(s: State, o: Owners, pend: Pending, slot: nat, g: nat, pid: nat)
    requires Owned(s, o, pend) && slot < SLOTS && g < FRAMES && pid < PROCESSES && s.table[pid] == g
    requires Quiet(s, pend, g)
    ensures Evicts(s, slot, g, pid) == Evicts(Advance(s), slot, Advance(s).next, pid)
    ensures Owned(Advance(s), o, pend) && Quiet(Advance(s), pend, g)
  {
    assert Where(s, pend, Tab(pid)) == InFrame(g);
    ScanFindsOwner(s, o, pend, g, pid, 0);
    OwnedIgnoresNext(s, o, pend, Advance(s).next);
  }

  lemma RedirectedLands(s: State, o: Owners, pend: Pending, slot: nat, g: nat, pid: nat, s': State, g': nat)
    requires Owned(s, o, pend) && slot < SLOTS && g < FRAMES && pid < PROCESSES
    requires (s.table[pid] == g ==> Quiet(s, pend, g))
    requires s' == s.(next := Landing(s.table[pid], g, s.next).1) && g' == Landing(s.table[pid], g, s.next).0
    ensures Evicts(s, slot, g, pid) == Evicts(s', slot, g', pid)
  {
    if s.table[pid] != g {
      assert s' == s && g' == g;
    } else if Advance(s).next != g {
      assert s' == Advance(s) && g' == Advance(s).next;
      RedirectedOnce(s, o, pend, slot, g, pid);
    } else {
      assert s' == Advance(Advance(s)) && g' == s'.next;
      RedirectedTwice(s, o, pend, slot, g, pid);
    }
  }

  lemma RedirectedTwice(s: State, o: Owners, pend: Pending, slot: nat, g: nat, pid: nat)
    requires Owned(s, o, pend) && slot < SLOTS && g < FRAMES && pid < PROCESSES && s.table[pid] == g
    requires Quiet(s, pend, g) && Advance(s).next == g
    ensures Evicts(s, slot, g, pid) == Evicts(Advance(Advance(s)), slot, Advance(Advance(s)).next, pid)
  {
    RedirectedOnce(s, o, pend, slot, g, pid);
    RedirectedOnce(Advance(s), o, pend, slot, g, pid);
  }

  lemma FetchingEvicts(s: State, o: Owners, pend: Pending, slot: nat, pid: nat, f: nat, T: int, e1: State, g: nat)
    requires Fetching(s, o, pend, slot, pid, f, T) && g == Landing(T, (f + 1) % 4, s.next).0
    requires e1 == Exchanged(s, o, slot, f).(next := Landing(T, (f + 1) % 4, s.next).1)
    ensures -SLOTS <= s.table[o.frame[f].pid] < 0 && Shape(e1)
    ensures var t := IndexToSwap(s.table[o.frame[f].pid]);
      Evicts(Exchanged(s, o, slot, f), t, (f + 1) % 4, pid) == Evicts(e1, t, g, pid)
  {
    FetchingState(s, o, pend, slot, pid, f, T);
    RedirectedLands(Exchanged(s, o, slot, f), Swapped(o, slot, f), Repend(pend, o.frame[f], o.slot[slot], slot, f),
                    IndexToSwap(s.table[o.frame[f].pid]), (f + 1) % 4, pid, e1, g);
  }

  lemma NestedEvicts(s: State, o: Owners, pend: Pending, slot: nat, pid: nat, path: seq<nat>, e1: State)
    requires GoesOn(s, o, pend, slot, pid, path, e1)
    ensures 0 <= IndexToSwap(s.table[o.frame[path[0]].pid]) < SLOTS && Shape(e1)
    ensures var t := IndexToSwap(s.table[o.frame[path[0]].pid]);
      Evicts(Exchanged(s, o, slot, path[0]), t, (path[0] + 1) % 4, pid) == Evicts(e1, t, path[1], pid)
  {
    GoesOnFetching(s, o, pend, slot, pid, path, e1);
    FetchingEvicts(s, o, pend, slot, pid, path[0], IssuerAfter(s, o.slot[slot], path[0], pid), e1, path[1]);
  }

  lemma AwayEvicts(s: State, o: Owners, pend: Pending, slot: nat, f: nat, pid: nat)
    requires Ready(s, o, pend, slot, f, pid) && o.frame[f].Pg? && o.frame[f].pid in AwayTables(s, o.slot[slot])
    ensures o.frame[f].pid < PROCESSES && Shape(Exchanged(s, o, slot, f)) && s.table[o.frame[f].pid] < 0
    ensures Evicts(s, slot, f, pid) ==
      Evicts(Exchanged(s, o, slot, f), IndexToSwap(s.table[o.frame[f].pid]), (f + 1) % 4, pid)
  {
    EvictAwayFromTable(s, o, pend, slot, f, pid);
    ScanFindsOwner(s, o, pend, f, pid, 0);
    RelocateIsMoved(s, o, pend, slot, f);
    assert BringIn(s, slot, f) == Exchanged(s, o, slot, f);
  }

  /** A cascade that settles always finds a victim, on every level. */
  lemma {:induction false} CascadeEvicts(s: State, o: Owners, pend: Pending, slot: nat, pid: nat, path: seq<nat>)
    requires CascadeReady(s, o, pend, slot, pid, path)
    ensures Evicts(s, slot, path[0], pid)
    decreases |path|
  {
    var f, v, x := path[0], o.frame[path[0]], o.slot[slot];
    ScanFindsOwner(s, o, pend, f, pid, 0);
    if v.Pg? && v.pid in AwayTables(s, x) {
      var e := Exchanged(s, o, slot, f).(next := Landing(IssuerAfter(s, x, f, pid), (f + 1) % 4, s.next).1);
      SettlesGoesOn(s, o, pend, slot, pid, path, e);
      NestedReady(s, o, pend, slot, pid, path, e);
      CascadeEvicts(e, Swapped(o, slot, f), Repend(pend, v, x, slot, f), IndexToSwap(s.table[v.pid]), pid, path[1..]);
      NestedEvicts(s, o, pend, slot, pid, path, e);
      AwayEvicts(s, o, pend, slot, f, pid);
    } else if v.Pg? {
      assert Entity(v) && Where(s, pend, Tab(v.pid)) == TableLoc(s, v.pid);
    }
  }

  /** Fetching the issuer's own table evicts on every level. */
  lemma TableFaultEvicts(s: State, o: Owners, pid: nat)
    requires Owned(s, o, map[]) && AllFull(o) && pid < PROCESSES && s.table[pid] < 0
    ensures Evicts(s, IndexToSwap(s.table[pid]), s.next, pid)
  {
    TableFaultReady(s, o, pid);
    CascadeEvicts(s, o, map[], IndexToSwap(s.table[pid]), pid, FullCircle(s.next));
  }

  /** So does faulting in a data page that does not collide. */
  lemma DataFaultEvicts(s: State, o: Owners, slot: nat, pid: nat, vp: nat)
    requires pid < PROCESSES && vp < PAGES && slot < SLOTS
    requires Owned(s, o, map[(pid, vp) := InSlot(slot)]) && AllFull(o)
    requires o.slot[slot] == Pg(pid, vp) && Resident(s, pid) && s.next != s.table[pid]
    requires !(Alloc(TablePage(s, pid)[2 * vp]) && InCore(TablePage(s, pid)[2 * vp]))
    requires !Collides(s, pid)
    ensures Evicts(s, slot, s.next, pid)
  {
    DataFaultReady(s, o, slot, pid, vp);
    CascadeEvicts(s, o, map[(pid, vp) := InSlot(slot)], slot, pid, DataPath(s.next, s.table[pid]));
  }

  ghost predicate OnlyOneStrands(k: State, j: nat) {
    Shape(k) && forall i, g | 0 <= i < PROCESSES && i != j && 0 <= g < FRAMES :: !Strands(k, i, g)
  }

  /** A sufficient condition that is easier to see: apart from one process, nobody whose table is in swap has a page in
      a frame. */
  lemma FewStrandedIsClear(s: State, c: Instruction, j: nat)
    requires Shape(s) && WellFormed(c)
    requires DataFault(s, c).Some? ==> OnlyOneStrands(DataFault(s, c).value, j)
    ensures Clear(s, c)
  {
    if DataFault(s, c).Some? {
      var k := DataFault(s, c).value;
      assert Resident(k, c.pid) && k.next != k.table[c.pid];
      var path := DataPath(k.next, k.table[c.pid]);
      assert forall i | 0 <= i < PROCESSES && i != j :: !Strands(k, i, path[0]) && !Strands(k, i, path[1]);
    }
  }

  // ----- The calls an instruction makes -----

  /** A call swapPage(slot, nextSwap, pid) made in state s. */
  datatype Call = NoCall | Call(s: State, slot: nat)

  /** The call with which an instruction fetches its issuer's table. */
  function TableCall(s: State, c: Instruction): Call
    requires Shape(s) && WellFormed(c)
  {
    if Resident(s, c.pid) || (c.Map? && FreeFrame(s) < FRAMES) || (!c.Map? && s.table[c.pid] == NOTALLOC) then NoCall
    else if s.table[c.pid] == NOTALLOC then
      var a := AppendZero(s);
      Call(a.(table := a.table[c.pid := SwapToIndex(LastUsed(a))]), LastUsed(a))
    else Call(s, IndexToSwap(s.table[c.pid]))
  }

  /** The call with which it faults in the page it addresses; map appends a page that is new to swap first. */
  function DataCall(s: State, c: Instruction): Call
    requires Shape(s) && WellFormed(c)
  {
    match DataFault(s, c)
    case Absent => NoCall
    case Some(k) => PageCall(k, c.pid, c.va / 16)
  }

  /** What the source's procedures do with the call for the table. */
  lemma TableCallIsMade(s: State, c: Instruction)
    requires Shape(s) && WellFormed(c) && TableCall(s, c).Call?
    ensures var call := TableCall(s, c);
      && Shape(call.s) && call.slot < SLOTS
      && (if c.Map? then MakeTable(s, c.pid) else FetchTable(s, c.pid)) ==
           SwapPage(call.s, call.slot, call.s.next, c.pid)
  {
  }

  /** What map does with the call for the page, t being the state with the table resident. */
  lemma MapCallIsMade(s: State, t: State, c: Instruction)
    requires Shape(s) && WellFormed(c) && c.Map? && MakeTable(s, c.pid) == Ok(t) && DataCall(s, c).Call?
    ensures var call, vp := DataCall(s, c), c.va / 16;
      && Shape(t) && Resident(t, c.pid) && Shape(call.s) && MapPage(t, c.pid, vp, c.value) == (
        if call.slot >= SLOTS then Wild
        else match SwapPage(call.s, call.slot, call.s.next, c.pid)
          case Wild => Wild
          case Ok(n) =>
            var T := t.table[c.pid];
            Ok(PutByte(n, T, 2 * vp, MapFlags(n.frames[T][2 * vp], c.value, call.s.next))))
  {
  }

  /** What load and store do with it. */
  lemma TouchCallIsMade(s: State, t: State, c: Instruction)
    requires Shape(s) && WellFormed(c) && !c.Map? && s.table[c.pid] != NOTALLOC
    requires FetchTable(s, c.pid) == Ok(t) && DataCall(s, c).Call?
    ensures var call, vp := DataCall(s, c), c.va / 16;
      && Shape(t) && Resident(t, c.pid) && Shape(call.s) && Touch(t, c.pid, vp) == (
        if call.slot >= SLOTS then Wild
        else match SwapPage(call.s, call.slot, call.s.next, c.pid)
          case Wild => Wild
          case Ok(n) =>
            var T := t.table[c.pid];
            Ok(PutByte(n, T, 2 * vp, SetInFrame(n.frames[T][2 * vp], call.s.next))))
  {
  }

  ghost predicate CallEvicts(call: Call, pid: nat)
    requires pid < PROCESSES
  {
    call.Call? ==> Shape(call.s) && call.slot < SLOTS && Evicts(call.s, call.slot, call.s.next, pid)
  }

  lemma TableCallEvicts(s: State, o: Owners, c: Instruction)
    requires Inv(s, o) && WellFormed(c)
    ensures CallEvicts(TableCall(s, c), c.pid)
  {
    if TableCall(s, c).Call? {
      assert Where(s, map[], Tab(c.pid)) == TableLoc(s, c.pid);
      if s.table[c.pid] == NOTALLOC {
        FreeFrameOrFull(s, o);
        var n := AppendUsesNextSlot(s, o, Tab(c.pid));
        var b := AppendZero(s).(table := s.table[c.pid := SwapToIndex(n)]);
        NewTable(s, o, b, c.pid, InSlot(n));
        TableFaultEvicts(b, Granted(o, InSlot(n), Tab(c.pid)), c.pid);
      } else {
        SwapInUseMeansFull(s, o, IndexToSwap(s.table[c.pid]));
        TableFaultEvicts(s, o, c.pid);
      }
    }
  }

  /** A page that is in swap. */
  lemma OldPageEvicts(k: State, o: Owners, pid: nat, vp: nat)
    requires Inv(k, o) && pid < PROCESSES && vp < PAGES && Resident(k, pid) && k.next != k.table[pid]
    requires Alloc(EntryFlags(k, pid, vp)) && !InCore(EntryFlags(k, pid, vp)) && !Collides(k, pid)
    ensures CallEvicts(Call(k, EntrySlot(k, pid, vp)), pid)
  {
    var slot := EntrySlot(k, pid, vp);
    assert Where(k, map[], Pg(pid, vp)) == InSlot(slot);
    SwapInUseMeansFull(k, o, slot);
    PendWhereItIs(k, o, pid, vp);
    DataFaultEvicts(k, o, slot, pid, vp);
  }

  /** A page that map has just appended to swap. */
  lemma NewPageEvicts(k: State, o: Owners, pid: nat, vp: nat)
    requires Inv(k, o) && AllFull(o) && pid < PROCESSES && vp < PAGES && Resident(k, pid) && k.next != k.table[pid]
    requires !Alloc(EntryFlags(k, pid, vp)) && !Collides(k, pid)
    ensures var a := AppendZero(k);
      CallEvicts(Call(PutByte(a, k.table[pid], 2 * vp + 1, LastUsed(a)), LastUsed(a)), pid)
  {
    var n := AppendedPageReady(k, o, pid, vp);
    AppendedOwned(k, o, pid, vp, n);
    DataFaultEvicts(Appended(k, pid, vp, n), Granted(o, InSlot(n), Pg(pid, vp)), n, pid, vp);
  }

  /** The call for the page (pid, vp), k being the state in which the fault starts. */
  function PageCall(k: State, pid: nat, vp: nat): Call
    requires Shape(k) && pid < PROCESSES && vp < PAGES && Resident(k, pid)
  {
    if Alloc(EntryFlags(k, pid, vp)) then Call(k, EntrySlot(k, pid, vp))
    else
      var a := AppendZero(k);
      Call(PutByte(a, k.table[pid], 2 * vp + 1, LastUsed(a)), LastUsed(a))
  }

  lemma PageCallEvicts(k: State, o: Owners, pid: nat, vp: nat)
    requires Inv(k, o) && pid < PROCESSES && vp < PAGES && Resident(k, pid) && k.next != k.table[pid]
    requires !Collides(k, pid)
    requires if Alloc(EntryFlags(k, pid, vp)) then !InCore(EntryFlags(k, pid, vp)) else AllFull(o)
    ensures CallEvicts(PageCall(k, pid, vp), pid)
  {
    if Alloc(EntryFlags(k, pid, vp)) {
      OldPageEvicts(k, o, pid, vp);
    } else {
      NewPageEvicts(k, o, pid, vp);
    }
  }

  lemma DataCallEvicts(s: State, o: Owners, c: Instruction)
    requires Inv(s, o) && WellFormed(c) && Clear(s, c)
    ensures CallEvicts(DataCall(s, c), c.pid)
  {
    if DataFault(s, c).Some? {
      var k, o' := FaultReady(s, o, c);
      PageCallEvicts(k, o', c.pid, c.va / 16);
    }
  }

  /** The state in which a fault starts, with its owners. */
  lemma FaultReady(s: State, o: Owners, c: Instruction) returns (k: State, o': Owners)
    requires Inv(s, o) && WellFormed(c) && DataFault(s, c).Some?
    ensures DataFault(s, c) == Some(k) && Inv(k, o') && Resident(k, c.pid)
    ensures if Alloc(EntryFlags(k, c.pid, c.va / 16)) then !InCore(EntryFlags(k, c.pid, c.va / 16)) else AllFull(o')
  {
    var t;
    t, o' := TableReady(s, o, c);
    SkipTableHarmless(t, o', c.pid);
    FreeFrameOrFull(t, o');
    k := SkipTable(t, c.pid);
  }

  lemma TableReady(s: State, o: Owners, c: Instruction) returns (t: State, o': Owners)
    requires Inv(s, o) && WellFormed(c) && DataFault(s, c).Some?
    ensures (if c.Map? then MakeTable(s, c.pid) else FetchTable(s, c.pid)) == Ok(t)
    ensures Inv(t, o') && Resident(t, c.pid) && DataFault(s, c).value == SkipTable(t, c.pid)
  {
    if c.Map? {
      o' := MakeTableRefines(s, o, c.pid);
      t := MakeTable(s, c.pid).state;
    } else {
      o' := FetchTableRefines(s, o, c.pid);
      t := FetchTable(s, c.pid).state;
    }
  }

  /** Along every clear program, every call that every instruction makes evicts, on every level. */
  lemma {:induction false} RunEvicts(cs: seq<Instruction>, k: nat)
    requires Program(cs) && ClearRun(cs) && k < |cs|
    ensures Program(cs[..k]) && After(cs[..k]).Ok?
    ensures CallEvicts(TableCall(After(cs[..k]).state, cs[k]), cs[k].pid)
    ensures CallEvicts(DataCall(After(cs[..k]).state, cs[k]), cs[k].pid)
  {
    var before := cs[..|cs| - 1];
    if k < |cs| - 1 {
      RunEvicts(before, k);
      assert before[..k] == cs[..k];
    } else {
      var o := RunRefines(before);
      TableCallEvicts(After(before).state, o, cs[k]);
      DataCallEvicts(After(before).state, o, cs[k]);
    }
  }
}
