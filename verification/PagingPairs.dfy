/**
 Two stranded processes besides the issuer are needed to block a data fault, so a program
 that maps for at most two processes behaves like the flat memory without any condition.
 */
module PagingPairs {
  import opened PagingModel
  import opened PagingRefinement
  import opened PagingRuns
  import opened PagingEviction

  /** Only map gives a process a table, and only its own. */
  lemma {:induction false} SwapKeepsNoTable(s: State, slot: nat, f: nat, pid: nat, i: nat)
    requires Shape(s) && slot < SLOTS && f < FRAMES && pid < PROCESSES && i < PROCESSES && s.table[i] == NOTALLOC
    ensures var r := SwapPage(s, slot, f, pid); r.Ok? ==> r.state.table[i] == NOTALLOC
    decreases Away(s, slot), Redirections(s, f, pid)
  {
    match FindVictim(s, f, pid, 0)
    case IssuersTable =>
      RedirectionEnds(s, f, pid);
      SwapKeepsNoTable(Advance(s), slot, Advance(s).next, pid, i);
    case PageOf(k, _) =>
      if s.table[k] < 0 && IndexToSwap(s.table[k]) != slot {
        CascadeShrinks(s, slot, f, k);
        SwapKeepsNoTable(BringIn(s, slot, f), IndexToSwap(s.table[k]), (f + 1) % 4, pid, i);
      }
    case _ =>
  }

  lemma TablePartKeepsNoTable(s: State, c: Instruction, i: nat)
    requires Shape(s) && WellFormed(c) && i < PROCESSES && s.table[i] == NOTALLOC && (c.Map? ==> c.pid != i)
    ensures c.Map? ==> var r := MakeTable(s, c.pid); r.Ok? ==> r.state.table[i] == NOTALLOC
    ensures !c.Map? && s.table[c.pid] != NOTALLOC ==> var r := FetchTable(s, c.pid); r.Ok? ==>
      r.state.table[i] == NOTALLOC
  {
    if TableCall(s, c).Call? {
      TableCallIsMade(s, c);
      var call := TableCall(s, c);
      SwapKeepsNoTable(call.s, call.slot, call.s.next, c.pid, i);
    }
  }

  lemma MapKeepsNoTable(t: State, pid: nat, vp: nat, protection: int, i: nat)
    requires Shape(t) && pid < PROCESSES && vp < PAGES && Resident(t, pid) && i < PROCESSES && t.table[i] == NOTALLOC
    ensures var r := MapPage(t, pid, vp, protection); r.Ok? ==> r.state.table[i] == NOTALLOC
  {
    if FreeFrame(t) == FRAMES {
      var k := SkipTable(t, pid);
      var a := AppendZero(k);
      var b := if Alloc(EntryFlags(t, pid, vp)) then k else PutByte(a, t.table[pid], 2 * vp + 1, LastUsed(a));
      if EntrySlot(b, pid, vp) < SLOTS {
        SwapKeepsNoTable(b, EntrySlot(b, pid, vp), b.next, pid, i);
      }
    }
  }

  lemma TouchKeepsNoTable(t: State, pid: nat, vp: nat, i: nat)
    requires Shape(t) && pid < PROCESSES && vp < PAGES && Resident(t, pid) && i < PROCESSES && t.table[i] == NOTALLOC
    ensures var r := Touch(t, pid, vp); r.Ok? ==> r.state.table[i] == NOTALLOC
  {
    var k := SkipTable(t, pid);
    if EntrySlot(k, pid, vp) < SLOTS {
      SwapKeepsNoTable(k, EntrySlot(k, pid, vp), k.next, pid, i);
    }
  }

  lemma StepKeepsNoTable(s: State, c: Instruction, i: nat)
    requires Shape(s) && WellFormed(c) && i < PROCESSES && s.table[i] == NOTALLOC && (c.Map? ==> c.pid != i)
    ensures Step(s, c).Reply? ==> Step(s, c).state.table[i] == NOTALLOC
  {
    TablePartKeepsNoTable(s, c, i);
    if c.Map? {
      var t := MakeTable(s, c.pid);
      if t.Ok? && Resident(t.state, c.pid) {
        MapKeepsNoTable(t.state, c.pid, c.va / 16, c.value, i);
      }
    } else if s.table[c.pid] != NOTALLOC {
      var t := FetchTable(s, c.pid);
      if t.Ok? && Resident(t.state, c.pid) {
        TouchKeepsNoTable(t.state, c.pid, c.va / 16, i);
      }
    }
  }

  /** Nobody but a and b has a table. */
  predicate OnlyTwo(s: State, a: nat, b: nat)
    requires Shape(s)
  {
    forall i | 0 <= i < PROCESSES && i != a && i != b :: s.table[i] == NOTALLOC
  }

  lemma FaultOfTwo(s: State, c: Instruction, a: nat, b: nat)
    requires Shape(s) && WellFormed(c) && OnlyTwo(s, a, b) && (c.Map? ==> c.pid == a || c.pid == b)
    ensures DataFault(s, c).Some? ==> OnlyTwo(DataFault(s, c).value, a, b)
  {
    forall i | 0 <= i < PROCESSES && i != a && i != b
      ensures DataFault(s, c).Some? ==> DataFault(s, c).value.table[i] == NOTALLOC
    {
      TablePartKeepsNoTable(s, c, i);
    }
  }

  lemma TwoAreClear(s: State, c: Instruction, a: nat, b: nat)
    requires Shape(s) && WellFormed(c) && OnlyTwo(s, a, b) && (c.Map? ==> c.pid == a || c.pid == b)
    ensures Clear(s, c)
  {
    FaultOfTwo(s, c, a, b);
    FewStrandedIsClear(s, c, if c.pid == a then b else a);
  }

  /** The program maps pages of processes a and b only. */
  predicate MapsForTwo(cs: seq<Instruction>, a: nat, b: nat) {
    forall k | 0 <= k < |cs| && cs[k].Map? :: cs[k].pid == a || cs[k].pid == b
  }

  /** Such a program is clear. */
  lemma {:induction false} TwoRunClear(cs: seq<Instruction>, a: nat, b: nat)
    requires Program(cs) && MapsForTwo(cs, a, b)
    ensures ClearRun(cs) && After(cs).Ok? && OnlyTwo(After(cs).state, a, b)
  {
    if cs != [] {
      var before, c := cs[..|cs| - 1], cs[|cs| - 1];
      TwoRunClear(before, a, b);
      var s := After(before).state;
      TwoAreClear(s, c, a, b);
      var o := RunRefines(cs);
      forall i | 0 <= i < PROCESSES && i != a && i != b
        ensures After(cs).state.table[i] == NOTALLOC
      {
        StepKeepsNoTable(s, c, i);
      }
    }
  }

  /** A program that maps for at most two processes leaves every process seeing the flat memory. */
  lemma TwoRunRefines(cs: seq<Instruction>, a: nat, b: nat)
    requires Program(cs) && MapsForTwo(cs, a, b)
    ensures After(cs).Ok? && View(After(cs).state) == FlatAfter(cs)
  {
    TwoRunClear(cs, a, b);
    var o := RunRefines(cs);
  }

  /** And a load, by any process, returns the byte last stored. */
  lemma TwoLoadReturnsLastStore(cs: seq<Instruction>, a: nat, b: nat, pid: nat, va: nat)
    requires Program(cs) && MapsForTwo(cs, a, b) && pid < PROCESSES && va < 64
    ensures LoadHolds(cs, pid, va)
  {
    TwoRunClear(cs + [Load(pid, va)], a, b);
    LoadReturnsLastStore(cs, pid, va);
  }
}
