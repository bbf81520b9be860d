/**
 Which frame an instruction takes and where it leaves the pointer, told from the bytes of the
 state before it: the first free frame, else the one nextSwap names, or the next one if that
 holds the issuer's own table.
 */
module PagingLanding {
  import opened Basics
  import opened PagingModel
  import opened PagingOwnership
  import opened PagingFaults
  import opened PagingAllocation
  import opened PagingRefinement
  import opened PagingRuns
  import opened PagingEviction
  import W = PagingWitness

  predicate AllTaken(s: State)
    requires Shape(s)
  {
    forall f | 0 <= f < FRAMES :: s.full[f]
  }

  /** g is free and the frames before it are not. */
  predicate FirstFree(s: State, g: nat)
    requires Shape(s)
  {
    g < FRAMES && !s.full[g] && forall f | 0 <= f < g :: s.full[f]
  }

  lemma FreeFrameIs(s: State)
    requires Shape(s)
    ensures AllTaken(s) <==> FreeFrame(s) == FRAMES
    ensures forall g: nat :: FirstFree(s, g) <==> g < FRAMES && FreeFrame(s) == g
  {
  }

  /** The issuer's table is resident, and the page the instruction addresses has to be brought in from swap. */
  predicate Faults(s: State, c: Instruction)
    requires Shape(s) && WellFormed(c)
  {
    && Resident(s, c.pid)
    && var flags := EntryFlags(s, c.pid, c.va / 16);
       match c
       case Map(_, _, _) => !(Alloc(flags) && InCore(flags)) && AllTaken(s)
       case Store(_, _, _) => Alloc(flags) && !InCore(flags) && Prot(flags) == 1
       case Load(_, _) => Alloc(flags) && !InCore(flags)
  }

  /** The page of the entry is in frame f. */
  predicate Has(s: State, pid: nat, vp: nat, f: nat)
    requires Shape(s) && pid < PROCESSES && vp < PAGES
  {
    Resident(s, pid) && InCore(EntryFlags(s, pid, vp)) && FrameOf(EntryFlags(s, pid, vp)) == f
  }

  /** No process has its table in swap and an entry in it that claims frame f. */
  predicate NobodyStrands(s: State, f: nat)
    requires Shape(s) && f < FRAMES
  {
    forall i, j | 0 <= i < PROCESSES && 0 <= j < PAGES && s.table[i] < 0 :: !Claims(TablePage(s, i), j, f)
  }

  // ----- The call that brings the page in -----

  /** The frame nextSwap names, or the next one if that holds the table of pid. */
  function Passing(s: State, pid: nat): nat
    requires Shape(s) && pid < PROCESSES
  {
    if s.next == s.table[pid] then (s.next + 1) % 4 else s.next
  }

  /** The swap call of a fault of process pid in state s is made in state b with the pointer on that frame. */
  ghost predicate CalledIn(s: State, pid: nat, b: State, slot: nat)
    requires Shape(s) && pid < PROCESSES
  {
    && Shape(b) && slot < SLOTS && b.next == Passing(s, pid) && b.table == s.table
    && b.next != b.table[pid] && Evicts(b, slot, b.next, pid)
    && (NobodyStrands(s, b.next) ==> NobodyStrands(b, b.next))
  }

  lemma FaultStarts(s: State, c: Instruction)
    requires Shape(s) && WellFormed(c) && Faults(s, c)
    ensures var k := SkipTable(s, c.pid);
      && Shape(k) && DataFault(s, c) == Some(k) && k.next == Passing(s, c.pid) && k.next != k.table[c.pid]
      && k.table == s.table && k.frames == s.frames && k.slots == s.slots
      && Resident(k, c.pid) && DataCall(s, c) == PageCall(k, c.pid, c.va / 16)
      && (Clear(s, c) <==> !Collides(k, c.pid))
  {
    FreeFrameIs(s);
  }

  lemma FaultCalls(s: State, o: Owners, c: Instruction)
    requires Inv(s, o) && WellFormed(c) && Faults(s, c) && Clear(s, c)
    ensures DataCall(s, c).Call? && CalledIn(s, c.pid, DataCall(s, c).s, DataCall(s, c).slot)
  {
    FaultStarts(s, c);
    DataCallEvicts(s, o, c);
    if !Alloc(EntryFlags(s, c.pid, c.va / 16)) {
      AppendedSwap(s, o, c);
    }
    assert forall i | 0 <= i < PROCESSES && s.table[i] < 0 :: TablePage(DataCall(s, c).s, i) == TablePage(s, i);
  }

  /** Appending the new page leaves the tables in swap alone. */
  lemma AppendedSwap(s: State, o: Owners, c: Instruction)
    requires Inv(s, o) && WellFormed(c) && c.Map? && Faults(s, c) && Clear(s, c)
    requires !Alloc(EntryFlags(s, c.pid, c.va / 16))
    ensures var call := DataCall(s, c);
      && call.Call? && Shape(call.s) && call.s.table == s.table && call.s.next == Passing(s, c.pid)
      && forall i | 0 <= i < PROCESSES && s.table[i] < 0 :: TablePage(call.s, i) == TablePage(s, i)
  {
    var k, vp := SkipTable(s, c.pid), c.va / 16;
    FaultStarts(s, c);
    FreeFrameIs(s);
    FreeFrameOrFull(s, o);
    SkipTableHarmless(s, o, c.pid);
    var n := AppendedPageReady(k, o, c.pid, vp);
    AppendedTables(k, o, c.pid, vp, n);
  }

  lemma AppendedTables(k: State, o: Owners, pid: nat, vp: nat, n: nat)
    requires Inv(k, o) && pid < PROCESSES && vp < PAGES && Resident(k, pid) && n < SLOTS && o.slot[n] == Free
    ensures forall i | 0 <= i < PROCESSES && k.table[i] < 0 ::
      TablePage(Appended(k, pid, vp, n), i) == TablePage(k, i)
  {
    forall i | 0 <= i < PROCESSES && k.table[i] < 0
      ensures TablePage(Appended(k, pid, vp, n), i) == TablePage(k, i)
    {
      assert Where(k, map[], Tab(i)) == TableLoc(k, i);
    }
  }

  /** When nobody strands a page in the frame, the call does not nest: it moves the pointer on by one. */
  lemma SwapMovesOn(s: State, slot: nat, pid: nat)
    requires Shape(s) && slot < SLOTS && pid < PROCESSES && s.table[pid] != s.next && Evicts(s, slot, s.next, pid)
    requires NobodyStrands(s, s.next)
    ensures SwapPage(s, slot, s.next, pid).Ok?
    ensures SwapPage(s, slot, s.next, pid).state.next == (s.next + 1) % 4
  {
    var v := FindVictim(s, s.next, pid, 0);
    if v.PageOf? {
      assert Claims(TablePage(s, v.pid), v.vp, s.next);
    }
  }

  // ----- Where the page lands -----

  /** The issuer's table has not moved and the page is in frame p; the pointer is behind p if nobody strands there. */
  ghost predicate Landed(s: State, pid: nat, vp: nat, p: nat, r: State)
    requires Shape(s) && pid < PROCESSES && vp < PAGES && p < FRAMES
  {
    Shape(r) && r.table[pid] == s.table[pid] && Has(r, pid, vp, p) && (NobodyStrands(s, p) ==> r.next == (p + 1) % 4)
  }

  lemma EntryWritten(s: State, pid: nat, vp: nat, p: nat, n: State, flags: Byte)
    requires Shape(s) && pid < PROCESSES && vp < PAGES && p < FRAMES && Resident(s, pid)
    requires Shape(n) && n.table[pid] == s.table[pid] && (NobodyStrands(s, p) ==> n.next == (p + 1) % 4)
    requires InCore(flags) && FrameOf(flags) == p
    ensures Landed(s, pid, vp, p, PutByte(n, s.table[pid], 2 * vp, flags))
  {
  }

  lemma CallMovesOn(s: State, pid: nat, b: State, slot: nat, n: State)
    requires Shape(s) && pid < PROCESSES && CalledIn(s, pid, b, slot)
    requires SwapPage(b, slot, b.next, pid) == Ok(n)
    ensures NobodyStrands(s, b.next) ==> n.next == (b.next + 1) % 4
  {
    if NobodyStrands(s, b.next) {
      SwapMovesOn(b, slot, pid);
    }
  }

  /** The swap, and then the write of the entry. */
  lemma EntryLands(s: State, pid: nat, vp: nat, b: State, slot: nat, n: State, flags: Byte)
    requires Shape(s) && pid < PROCESSES && vp < PAGES && Resident(s, pid) && CalledIn(s, pid, b, slot)
    requires SwapPage(b, slot, b.next, pid) == Ok(n) && Shape(n) && n.table[pid] == s.table[pid]
    requires InCore(flags) && FrameOf(flags) == b.next
    ensures Landed(s, pid, vp, Passing(s, pid), PutByte(n, s.table[pid], 2 * vp, flags))
  {
    CallMovesOn(s, pid, b, slot, n);
    EntryWritten(s, pid, vp, b.next, n, flags);
  }

  lemma MapLands(s: State, o: Owners, c: Instruction)
    requires Inv(s, o) && WellFormed(c) && Faults(s, c) && Clear(s, c) && c.Map?
    ensures var r := MapPage(s, c.pid, c.va / 16, c.value);
      r.Ok? && Landed(s, c.pid, c.va / 16, Passing(s, c.pid), r.state)
  {
    var vp := c.va / 16;
    FaultStarts(s, c);
    FaultCalls(s, o, c);
    MapCallIsMade(s, s, c);
    var o' := MapPageRefines(s, o, c.pid, vp, c.value);
    var call := DataCall(s, c);
    var n := SwapPage(call.s, call.slot, call.s.next, c.pid).state;
    EntryLands(s, c.pid, vp, call.s, call.slot, n, MapFlags(n.frames[s.table[c.pid]][2 * vp], c.value, call.s.next));
  }

  lemma TouchLands(s: State, o: Owners, c: Instruction)
    requires Inv(s, o) && WellFormed(c) && Faults(s, c) && Clear(s, c) && !c.Map?
    ensures var r := Touch(s, c.pid, c.va / 16);
      r.Ok? && Landed(s, c.pid, c.va / 16, Passing(s, c.pid), r.state)
  {
    var vp := c.va / 16;
    FaultStarts(s, c);
    FaultCalls(s, o, c);
    TouchCallIsMade(s, s, c);
    var o' := TouchRefines(s, o, c.pid, vp);
    var call := DataCall(s, c);
    var n := SwapPage(call.s, call.slot, call.s.next, c.pid).state;
    EntryLands(s, c.pid, vp, call.s, call.slot, n, SetInFrame(n.frames[s.table[c.pid]][2 * vp], call.s.next));
  }

  /** What is left to do after the fault does not move the page. */
  lemma MapRestLands(s: State, c: Instruction, n: State)
    requires Shape(s) && WellFormed(c) && Faults(s, c) && c.Map?
    requires MapPage(s, c.pid, c.va / 16, c.value) == Ok(n) && Landed(s, c.pid, c.va / 16, Passing(s, c.pid), n)
    ensures Step(s, c).Reply? && Landed(s, c.pid, c.va / 16, Passing(s, c.pid), Step(s, c).state)
  {
    assert Step(s, c) == FinishMap(s, n, c.pid, c.va / 16, c.value);
  }

  lemma TouchRestLands(s: State, c: Instruction, n: State)
    requires Shape(s) && WellFormed(c) && Faults(s, c) && !c.Map?
    requires Touch(s, c.pid, c.va / 16) == Ok(n) && Landed(s, c.pid, c.va / 16, Passing(s, c.pid), n)
    ensures Step(s, c).Reply? && Landed(s, c.pid, c.va / 16, Passing(s, c.pid), Step(s, c).state)
  {
    assert Passing(s, c.pid) != s.table[c.pid];
  }

  /** In a clear map, store or load that has to bring its page in from swap, its table being resident, the page lands in
      the first frame from nextSwap on that is not the table's; and unless somebody strands a page there, so that calls
      nest, nextSwap is left behind that frame. */
  lemma FaultedPageLands(s: State, o: Owners, c: Instruction)
    requires Inv(s, o) && WellFormed(c) && Faults(s, c) && Clear(s, c)
    ensures Step(s, c).Reply? && Landed(s, c.pid, c.va / 16, Passing(s, c.pid), Step(s, c).state)
  {
    if c.Map? {
      MapLands(s, o, c);
      MapRestLands(s, c, MapPage(s, c.pid, c.va / 16, c.value).state);
    } else {
      TouchLands(s, o, c);
      TouchRestLands(s, c, Touch(s, c.pid, c.va / 16).state);
    }
  }

  /** Where nobody strands a page nothing nests, so such a fault is clear whatever the rest of the state. */
  lemma NotStrandedIsClear(s: State, c: Instruction)
    requires Shape(s) && WellFormed(c) && Faults(s, c) && NobodyStrands(s, Passing(s, c.pid))
    ensures Clear(s, c)
  {
    var k := SkipTable(s, c.pid);
    FaultStarts(s, c);
    forall i | 0 <= i < PROCESSES
      ensures !Strands(k, i, k.next)
    {
      var j := FirstClaim(TablePage(k, i), k.next, 0);
      assert j < PAGES ==> Claims(TablePage(s, i), j, k.next);
    }
  }

  // ----- While frames are free -----

  /** While a frame is free, a map of a new page takes the first one, moves no pointer and swaps nothing. */
  lemma NewPageTakesFirstFree(s: State, c: Instruction, g: nat)
    requires Shape(s) && WellFormed(c) && c.Map? && Resident(s, c.pid) && FirstFree(s, g)
    requires !Alloc(EntryFlags(s, c.pid, c.va / 16))
    ensures Step(s, c).Reply?
    ensures var r, T, vp := Step(s, c).state, s.table[c.pid], c.va / 16;
      && r == s.(frames := r.frames, full := s.full[g := true])
      && InCore(r.frames[T][2 * vp]) && FrameOf(r.frames[T][2 * vp]) == g
      && (forall b | 0 <= b < 16 && b != 2 * vp :: r.frames[T][b] == s.frames[T][b])
      && forall f | 0 <= f < FRAMES && f != T :: r.frames[f] == s.frames[f]
  {
    FreeFrameIs(s);
  }

  /** The table of the issuer of a clear instruction, if it is not resident and the instruction needs it, goes to the
      first free frame in a map, to the frame nextSwap names if none is free, and otherwise stays. */
  lemma TableLands(s: State, o: Owners, c: Instruction)
    requires Inv(s, o) && WellFormed(c) && Clear(s, c)
    ensures Step(s, c).Reply?
    ensures var now, was := Step(s, c).state.table[c.pid], s.table[c.pid];
      && (0 <= was <= 3 || (was == 4 && !c.Map?) ==> now == was)
      && (!(0 <= was <= 3) && c.Map? ==> forall g: nat | FirstFree(s, g) :: now == g)
      && (!(0 <= was <= 3) && (was == 4 ==> c.Map?) && AllTaken(s) ==> now == s.next)
  {
    FreeFrameIs(s);
    if c.Map? {
      MapTableLands(s, o, c.pid);
      var o' := MakeTableRefines(s, o, c.pid);
      var t := MakeTable(s, c.pid).state;
      MapKeepsTable(t, o', c);
    } else if s.table[c.pid] != NOTALLOC {
      FetchTableLands(s, o, c.pid);
      var o' := FetchTableRefines(s, o, c.pid);
      var t := FetchTable(s, c.pid).state;
      TouchKeepsTable(t, o', c);
    }
  }

  lemma FetchTableLands(s: State, o: Owners, pid: nat)
    requires Inv(s, o) && pid < PROCESSES && s.table[pid] != NOTALLOC
    ensures FetchTable(s, pid).Ok?
    ensures FetchTable(s, pid).state.table[pid] == if 0 <= s.table[pid] <= 3 then s.table[pid] else s.next
  {
    if s.table[pid] < 0 {
      assert Where(s, map[], Tab(pid)) == TableLoc(s, pid);
      SwapInUseMeansFull(s, o, IndexToSwap(s.table[pid]));
      var o' := TableFault(s, o, pid);
    }
  }

  lemma MapTableLands(s: State, o: Owners, pid: nat)
    requires Inv(s, o) && pid < PROCESSES
    ensures MakeTable(s, pid).Ok?
    ensures MakeTable(s, pid).state.table[pid] ==
      if 0 <= s.table[pid] <= 3 then s.table[pid] else if FreeFrame(s) < FRAMES then FreeFrame(s) else s.next
  {
    FreeFrameOrFull(s, o);
    assert Where(s, map[], Tab(pid)) == TableLoc(s, pid);
    if FreeFrame(s) == FRAMES && s.table[pid] == NOTALLOC {
      var n := AppendUsesNextSlot(s, o, Tab(pid));
      var b := AppendZero(s).(table := s.table[pid := SwapToIndex(n)]);
      NewTable(s, o, b, pid, InSlot(n));
      var o' := TableFault(b, Granted(o, InSlot(n), Tab(pid)), pid);
    } else if FreeFrame(s) == FRAMES && s.table[pid] < 0 {
      var o' := TableFault(s, o, pid);
    }
  }

  lemma MapKeepsTable(t: State, o: Owners, c: Instruction)
    requires Inv(t, o) && WellFormed(c) && c.Map? && Resident(t, c.pid)
    requires var flags := EntryFlags(t, c.pid, c.va / 16);
      (!Alloc(flags) || !InCore(flags)) && FreeFrame(t) == FRAMES ==> !Collides(SkipTable(t, c.pid), c.pid)
    ensures var r := MapResident(t, c.pid, c.va / 16, c.value); r.Reply? && r.state.table[c.pid] == t.table[c.pid]
  {
    var flags := EntryFlags(t, c.pid, c.va / 16);
    if !Alloc(flags) || !InCore(flags) {
      var o' := MapPageRefines(t, o, c.pid, c.va / 16, c.value);
    }
  }

  lemma TouchKeepsTable(t: State, o: Owners, c: Instruction)
    requires Inv(t, o) && WellFormed(c) && !c.Map? && Resident(t, c.pid)
    requires var flags := EntryFlags(t, c.pid, c.va / 16);
      Alloc(flags) && (c.Store? ==> Prot(flags) != 0) && !InCore(flags) ==> !Collides(SkipTable(t, c.pid), c.pid)
    ensures var r := if c.Store? then StoreFetched(t, c.pid, c.va, c.value) else LoadFetched(t, c.pid, c.va);
      r.Reply? && r.state.table[c.pid] == t.table[c.pid]
  {
    var flags := EntryFlags(t, c.pid, c.va / 16);
    if Alloc(flags) && (c.Store? ==> Prot(flags) != 0) {
      var o' := TouchRefines(t, o, c.pid, c.va / 16);
    }
  }

  // ----- Nothing to fetch -----

  /** A load whose page is in its frame, or that is refused, changes nothing. */
  lemma LoadHits(s: State, c: Instruction)
    requires Shape(s) && WellFormed(c) && c.Load? && Resident(s, c.pid)
    requires Alloc(EntryFlags(s, c.pid, c.va / 16)) ==> InCore(EntryFlags(s, c.pid, c.va / 16))
    ensures var entry := s.frames[s.table[c.pid]][2 * (c.va / 16)];
      Step(s, c) ==
        Reply(s, if Alloc(entry) then Loaded(s.frames[FrameOf(entry)][c.va % 16]) else NotAllocated)
  {
  }

  /** A store whose page is in its frame changes that byte and nothing else; one that is refused changes nothing. */
  lemma StoreHits(s: State, c: Instruction)
    requires Shape(s) && WellFormed(c) && c.Store? && Resident(s, c.pid)
    requires var flags := EntryFlags(s, c.pid, c.va / 16); Alloc(flags) && Prot(flags) == 1 ==> InCore(flags)
    ensures var entry := s.frames[s.table[c.pid]][2 * (c.va / 16)];
      Step(s, c) ==
        if !Alloc(entry) then Reply(s, NotAllocated)
        else if Prot(entry) == 0 then Reply(s, ReadOnly)
        else
          var g := FrameOf(entry);
          Reply(s.(frames := s.frames[g := s.frames[g][c.va % 16 := c.value % 256]]), Stored)
  {
  }

  /** A map of a page that is mapped and in its frame changes at most the protection in its entry. */
  lemma MapHits(s: State, c: Instruction)
    requires Shape(s) && WellFormed(c) && c.Map? && Resident(s, c.pid)
    requires Alloc(EntryFlags(s, c.pid, c.va / 16)) && InCore(EntryFlags(s, c.pid, c.va / 16))
    ensures Step(s, c).Reply?
    ensures var r, T, b := Step(s, c).state, s.table[c.pid], 2 * (c.va / 16);
      var was, now := s.frames[T][b], r.frames[T][b];
      && r == s.(frames := s.frames[T := s.frames[T][b := now]])
      && Alloc(now) && InCore(now) && FrameOf(now) == FrameOf(was)
      && Prot(now) == (if Prot(was) == c.value then Prot(was) else c.value % 2)
  {
    var r, T, b := Step(s, c).state, s.table[c.pid], 2 * (c.va / 16);
    assert s.frames[T][b := s.frames[T][b]] == s.frames[T];
    assert s.frames[T := s.frames[T]] == s.frames;
  }

  /** A load or store by a process that never mapped anything is refused. */
  lemma NoTableRefuses(s: State, c: Instruction)
    requires Shape(s) && WellFormed(c) && !c.Map? && s.table[c.pid] == 4
    ensures Step(s, c) == Reply(s, NotAllocated)
  {
  }

  /** swapPage called for a frame that holds no table and that no entry claims exchanges nothing. */
  lemma UnclaimedFrameStays(s: State, slot: nat, f: nat, pid: nat)
    requires Shape(s) && slot < SLOTS && f < FRAMES && pid < PROCESSES
    requires forall i | 0 <= i < PROCESSES ::
      s.table[i] != f && (s.table[i] == 4 || forall j | 0 <= j < PAGES :: !Claims(TablePage(s, i), j, f))
    ensures SwapPage(s, slot, f, pid) == Ok(s)
  {
    NoVictimFrom(s, f, pid, 0);
  }

  lemma {:induction false} NoVictimFrom(s: State, f: nat, pid: nat, i: nat)
    requires Shape(s) && f < FRAMES && i <= PROCESSES
    requires forall k | i <= k < PROCESSES ::
      s.table[k] != f && (s.table[k] == 4 || forall j | 0 <= j < PAGES :: !Claims(TablePage(s, k), j, f))
    ensures FindVictim(s, f, pid, i) == NoVictim
    decreases PROCESSES - i
  {
    if i < PROCESSES {
      var j := FirstClaim(TablePage(s, i), f, 0);
      assert s.table[i] != f && (j < PAGES ==> Claims(TablePage(s, i), j, f));
      NoVictimFrom(s, f, pid, i + 1);
    }
  }

  // ----- Four pages of one process -----

  function FourMaps(): seq<Instruction> { [Map(0, 0, 1), Map(0, 16, 1), Map(0, 32, 1), Map(0, 48, 1)] }

  /** The table takes frame 0 and the first three pages the other frames; for the fourth the pointer stands on the
      table, so it goes to frame 1 and the pointer to frame 2. */
  lemma FourthPageSkipsTable()
    ensures Program(FourMaps()) && After(FourMaps()).Ok?
    ensures var r := After(FourMaps()).state;
      r.table[0] == 0 && InCore(r.frames[0][6]) && FrameOf(r.frames[0][6]) == 1 && r.next == 2
  {
    var s, o := ThreeMapped();
    FourthMap(s, o);
    var cs := [Map(0, 0, 1), Map(0, 16, 1), Map(0, 32, 1)];
    OneMore(cs, Map(0, 48, 1), s, Step(s, Map(0, 48, 1)).state);
    assert FourMaps() == cs + [Map(0, 48, 1)];
  }

  lemma FourthMap(s: State, o: Owners)
    requires Inv(s, o) && s.table == [0, 4, 4, 4] && s.next == 0 && AllTaken(s) && !Alloc(s.frames[0][6])
    ensures Step(s, Map(0, 48, 1)).Reply?
    ensures var r := Step(s, Map(0, 48, 1)).state;
      r.table[0] == 0 && InCore(r.frames[0][6]) && FrameOf(r.frames[0][6]) == 1 && r.next == 2
  {
    FourthFaults(s);
    FaultedPageLands(s, o, Map(0, 48, 1));
  }

  lemma FourthFaults(s: State)
    requires Shape(s) && s.table == [0, 4, 4, 4] && s.next == 0 && AllTaken(s) && !Alloc(s.frames[0][6])
    ensures var c := Map(0, 48, 1); Faults(s, c) && Clear(s, c) && Passing(s, 0) == 1 && NobodyStrands(s, 1)
  {
    NotStrandedIsClear(s, Map(0, 48, 1));
  }

  /** After three of the maps. */
  lemma ThreeMapped() returns (s: State, o: Owners)
    ensures var cs := [Map(0, 0, 1), Map(0, 16, 1), Map(0, 32, 1)]; Program(cs) && After(cs) == Ok(s)
    ensures Inv(s, o) && s.table == [0, 4, 4, 4] && s.next == 0 && AllTaken(s) && !Alloc(s.frames[0][6])
  {
    W.Start();
    var s1 := W.Step1(Initial());
    var s2 := W.Step2(s1);
    s := ThirdMap(s2);
    o := FirstKeepsInv(s1);
    o := FreeMapKeepsInv(s1, o, Map(0, 16, 1), 2);
    o := FreeMapKeepsInv(s2, o, Map(0, 32, 1), 3);
    RunOfThree(s1, s2, s);
  }

  lemma ThirdMap(s: State) returns (r: State)
    requires W.Looks(s, [0, 4, 4, 4], 0, 3, 0) && W.Tbl(s.frames[0], W.In(1), W.In(2))
    ensures Step(s, Map(0, 32, 1)).Reply? && Step(s, Map(0, 32, 1)).state == r
    ensures Shape(r) && r.table == [0, 4, 4, 4] && r.next == 0 && AllTaken(r) && !Alloc(r.frames[0][6])
  {
    NewPageTakesFirstFree(s, Map(0, 32, 1), 3);
    r := Step(s, Map(0, 32, 1)).state;
    assert r.frames[0][6] == s.frames[0][6];
  }

  /** Such maps are clear, for they fault nothing in. */
  lemma FreeMapKeepsInv(s: State, o: Owners, c: Instruction, g: nat) returns (o': Owners)
    requires Inv(s, o) && WellFormed(c) && c.Map? && Resident(s, c.pid) && FirstFree(s, g)
    ensures Step(s, c).Reply? && Inv(Step(s, c).state, o')
  {
    FreeFrameIs(s);
    o' := StepRefines(s, o, c);
  }

  lemma FirstKeepsInv(r: State) returns (o: Owners)
    requires Step(Initial(), Map(0, 0, 1)).Reply? && Step(Initial(), Map(0, 0, 1)).state == r
    ensures Inv(r, o)
  {
    var s, c := Initial(), Map(0, 0, 1);
    InitialValid();
    FreeFrameIs(s);
    assert FirstFree(s, 0);
    FreeFrameIs(MakeTable(s, 0).state);
    assert FirstFree(MakeTable(s, 0).state, 1);
    assert Clear(s, c);
    o := StepRefines(s, Owners(seq(FRAMES, _ => Free), seq(SLOTS, _ => Free)), c);
  }

  lemma RunOfThree(s1: State, s2: State, s: State)
    requires Shape(s1) && Shape(s2)
    requires Step(Initial(), Map(0, 0, 1)).Reply? && Step(Initial(), Map(0, 0, 1)).state == s1
    requires Step(s1, Map(0, 16, 1)).Reply? && Step(s1, Map(0, 16, 1)).state == s2
    requires Step(s2, Map(0, 32, 1)).Reply? && Step(s2, Map(0, 32, 1)).state == s
    ensures var cs := [Map(0, 0, 1), Map(0, 16, 1), Map(0, 32, 1)]; Program(cs) && After(cs) == Ok(s)
  {
    var a, b, c := Map(0, 0, 1), Map(0, 16, 1), Map(0, 32, 1);
    OneMore([], a, Initial(), s1);
    assert [] + [a] == [a];
    OneMore([a], b, s1, s2);
    assert [a] + [b] == [a, b];
    OneMore([a, b], c, s2, s);
    assert [a, b] + [c] == [a, b, c];
  }

  lemma OneMore(cs: seq<Instruction>, c: Instruction, s: State, r: State)
    requires Program(cs) && WellFormed(c) && After(cs) == Ok(s) && Step(s, c).Reply? && Step(s, c).state == r
    ensures Program(cs + [c]) && After(cs + [c]) == Ok(r)
  {
    assert (cs + [c])[..|cs|] == cs;
  }
}
