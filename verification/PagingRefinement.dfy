/**
 The machine refines a flat memory: for each process and virtual page either nothing or a
 protection bit and sixteen bytes, with no frames, no swap and no tables.
 */
module PagingRefinement {
  import opened Basics
  import opened PagingModel
  import opened PagingOwnership
  import opened PagingCascade
  import opened PagingFaults
  import opened PagingAllocation

  /** Indexed by process, then by virtual page. */
  type Flat = m: seq<seq<Option<VPage>>> | |m| == 4 && forall i | 0 <= i < 4 :: |m[i]| == 4
    witness seq(4, _ => seq(4, _ => Absent))

  function NothingMapped(): Flat { seq(4, _ => seq(4, _ => Absent)) }

  /** What an instruction does to the one virtual page it addresses, and what it answers. */
  function CellStep(cell: Option<VPage>, c: Instruction): (Option<VPage>, Output)
    requires WellFormed(c)
  {
    match c
    case Map(_, _, value) =>
      if cell == Absent then (Some(VPage(value % 2, ZeroPage)), Mapped)
      else if cell.value.prot == value then (cell, AlreadyMapped)
      else (Some(cell.value.(prot := value % 2)), ProtectionUpdated)
    case Store(_, va, value) =>
      if cell == Absent then (Absent, NotAllocated)
      else if cell.value.prot == 0 then (cell, ReadOnly)
      else (Some(cell.value.(data := cell.value.data[va % 16 := value % 256])), Stored)
    case Load(_, va) =>
      if cell == Absent then (Absent, NotAllocated) else (cell, Loaded(cell.value.data[va % 16]))
  }

  function FlatStep(m: Flat, c: Instruction): (Flat, Output)
    requires WellFormed(c)
  {
    var r := CellStep(m[c.pid][c.va / 16], c);
    (m[c.pid := m[c.pid][c.va / 16 := r.0]], r.1)
  }

  /** What the processes see of a machine state. */
  function View(s: State): Flat
    requires Shape(s)
  {
    seq(4, i requires 0 <= i < 4 => seq(4, j requires 0 <= j < 4 => Seen(s, map[], i, j)))
  }

  /** Only the view of (i, j) may differ. */
  ghost predicate OthersSame(s: State, s': State, i: nat, j: nat)
    requires Shape(s) && Shape(s')
  {
    forall q, r | 0 <= q < PROCESSES && 0 <= r < PAGES && (q, r) != (i, j) ::
      Seen(s', map[], q, r) == Seen(s, map[], q, r)
  }

  // ----- The table part of an instruction -----

  lemma SwapInUseMeansFull(s: State, o: Owners, t: nat)
    requires Inv(s, o) && t < SLOTS && o.slot[t] != Free
    ensures AllFull(o)
  {
    forall f | 0 <= f < FRAMES
      ensures o.frame[f] != Free
    {
      assert s.used[t];
    }
  }

  lemma TableFaultKeepsInv(s: State, o: Owners, pid: nat) returns (o': Owners)
    requires Owned(s, o, map[]) && AllFull(o) && IsPrefix(s.used) && pid < PROCESSES && s.table[pid] < 0
    ensures var r := SwapPage(s, IndexToSwap(s.table[pid]), s.next, pid);
            r.Ok? && Inv(r.state, o') && Resident(r.state, pid) && SameView(s, map[], r.state, map[])
  {
    o' := TableFault(s, o, pid);
  }

  lemma FetchTableRefines(s: State, o: Owners, pid: nat) returns (o': Owners)
    requires Inv(s, o) && pid < PROCESSES && s.table[pid] != NOTALLOC
    ensures var r := FetchTable(s, pid);
            r.Ok? && Inv(r.state, o') && Resident(r.state, pid) && SameView(s, map[], r.state, map[])
  {
    if Resident(s, pid) {
      o' := o;
    } else {
      assert Where(s, map[], Tab(pid)) == TableLoc(s, pid);
      SwapInUseMeansFull(s, o, IndexToSwap(s.table[pid]));
      o' := TableFaultKeepsInv(s, o, pid);
    }
  }

  lemma FreeFrameOrFull(s: State, o: Owners)
    requires Inv(s, o)
    ensures FreeFrame(s) < FRAMES ==>
      o.frame[FreeFrame(s)] == Free && s.frames[FreeFrame(s)] == ZeroPage && forall t | 0 <= t < SLOTS :: !s.used[t]
    ensures FreeFrame(s) == FRAMES ==> AllFull(o)
  {
  }

  /** In particular map never takes a free frame for a process whose table is in swap. */
  lemma MakeTableRefines(s: State, o: Owners, pid: nat) returns (o': Owners)
    requires Inv(s, o) && pid < PROCESSES
    ensures var r := MakeTable(s, pid);
            r.Ok? && Inv(r.state, o') && Resident(r.state, pid) && SameView(s, map[], r.state, map[])
  {
    FreeFrameOrFull(s, o);
    assert Where(s, map[], Tab(pid)) == TableLoc(s, pid);
    if Resident(s, pid) {
      o' := o;
    } else if FreeFrame(s) < FRAMES {
      var g := FreeFrame(s);
      var s' := s.(table := s.table[pid := g], full := s.full[g := true]);
      NewTable(s, o, s', pid, InFrame(g));
      o' := Granted(o, InFrame(g), Tab(pid));
    } else if s.table[pid] == NOTALLOC {
      var n := AppendUsesNextSlot(s, o, Tab(pid));
      var a := AppendZero(s);
      var b := a.(table := a.table[pid := SwapToIndex(n)]);
      NewTable(s, o, b, pid, InSlot(n));
      o' := TableFaultKeepsInv(b, Granted(o, InSlot(n), Tab(pid)), pid);
      var s' := SwapPage(b, n, b.next, pid).state;
      SameViewTrans(s, map[], b, map[], s', map[]);
    } else {
      o' := TableFaultKeepsInv(s, o, pid);
    }
  }

  // ----- The data part of an instruction -----

  /** A page that is in swap may be called pending there: that is where its entry says it is. */
  lemma PendWhereItIs(s: State, o: Owners, i: nat, j: nat)
    requires Owned(s, o, map[]) && i < PROCESSES && j < PAGES && ByteLoc(s, i, j) != Nowhere
    ensures Owned(s, o, map[(i, j) := ByteLoc(s, i, j)])
    ensures SameView(s, map[], s, map[(i, j) := ByteLoc(s, i, j)])
  {
    var pend: Pending := map[(i, j) := ByteLoc(s, i, j)];
    forall e | Entity(e)
      ensures Where(s, pend, e) == Where(s, map[], e)
    {
    }
  }

  /** Writing the faulted page's entry ends the fault. */
  lemma LandPage(s: State, o: Owners, pid: nat, vp: nat, p: nat, flags: Byte)
    requires pid < PROCESSES && vp < PAGES && p < FRAMES && Owned(s, o, map[(pid, vp) := InFrame(p)])
    requires Resident(s, pid)
    requires Alloc(flags) && InCore(flags) && FrameOf(flags) == p
    ensures var s' := PutByte(s, s.table[pid], 2 * vp, flags);
            && Owned(s', o, map[]) && s'.table == s.table && EntryFlags(s', pid, vp) == flags
            && o.frame[p] == Pg(pid, vp)
            && Seen(s', map[], pid, vp) == Some(VPage(Prot(flags), s.frames[p]))
            && forall q, r | 0 <= q < PROCESSES && 0 <= r < PAGES && (q, r) != (pid, vp) ::
                 Seen(s', map[], q, r) == Seen(s, map[(pid, vp) := InFrame(p)], q, r)
  {
    var pend: Pending := map[(pid, vp) := InFrame(p)];
    RecordEntry(s, o, pend, pid, vp, s.frames[s.table[pid]][2 * vp := flags]);
    assert pend - {(pid, vp)} == map[];
    assert Where(s, pend, Pg(pid, vp)) == InFrame(p);
  }

  lemma SkipTableHarmless(s: State, o: Owners, pid: nat)
    requires Inv(s, o) && pid < PROCESSES && Resident(s, pid)
    ensures var k := SkipTable(s, pid);
            Inv(k, o) && SameView(s, map[], k, map[]) && k.next != k.table[pid] && k.table == s.table &&
              k.frames == s.frames
  {
    OwnedIgnoresNext(s, o, map[], SkipTable(s, pid).next);
  }

  /** Faulting in a page of the issuer: it becomes resident and nobody's view changes. */
  lemma FaultInRefines(s: State, o: Owners, pid: nat, vp: nat) returns (o': Owners)
    requires Inv(s, o) && pid < PROCESSES && vp < PAGES && Resident(s, pid)
    requires Alloc(EntryFlags(s, pid, vp)) && !InCore(EntryFlags(s, pid, vp))
    requires !Collides(SkipTable(s, pid), pid)
    ensures var r := FaultIn(s, pid, vp);
            && r.Ok? && Inv(r.state, o') && SameView(s, map[], r.state, map[])
            && r.state.table[pid] == s.table[pid]
            && Alloc(EntryFlags(r.state, pid, vp)) && InCore(EntryFlags(r.state, pid, vp))
  {
    SkipTableHarmless(s, o, pid);
    var k := SkipTable(s, pid);
    var slot := EntrySlot(k, pid, vp);
    assert Where(k, map[], Pg(pid, vp)) == InSlot(slot);
    SwapInUseMeansFull(k, o, slot);
    PendWhereItIs(k, o, pid, vp);
    o' := ClearDataFault(k, o, slot, pid, vp);
    var n := SwapPage(k, slot, k.next, pid).state;
    FaultLands(k, slot, pid, vp, n, o', SetInFrame(n.frames[s.table[pid]][2 * vp], k.next));
    var r := FaultIn(s, pid, vp).state;
    assert Seen(k, map[(pid, vp) := InSlot(slot)], pid, vp) == Seen(k, map[], pid, vp);
    forall i, j | 0 <= i < PROCESSES && 0 <= j < PAGES
      ensures Seen(r, map[], i, j) == Seen(s, map[], i, j)
    {
      assert Seen(k, map[(pid, vp) := InSlot(slot)], i, j) == Seen(k, map[], i, j) == Seen(s, map[], i, j);
    }
  }

  /** From a completed swap to the state after the entry is written. */
  lemma FaultLands(k: State, slot: nat, pid: nat, vp: nat, n: State, o': Owners, flags: Byte)
    requires Shape(k) && pid < PROCESSES && vp < PAGES && slot < SLOTS && Resident(k, pid)
    requires IsPrefix(k.used) && forall f | 0 <= f < FRAMES :: k.full[f]
    requires FaultedIn(k, slot, pid, vp, k.next, n, o')
    requires Alloc(flags) && InCore(flags) && FrameOf(flags) == k.next
    ensures var r := PutByte(n, k.table[pid], 2 * vp, flags);
            && Inv(r, o') && r.table[pid] == k.table[pid] && Resident(r, pid) && EntryFlags(r, pid, vp) == flags
            && Seen(r, map[], pid, vp) == Some(VPage(Prot(flags), Content(k, InSlot(slot))))
            && (Prot(flags) == Prot(n.frames[k.table[pid]][2 * vp]) ==>
                  Seen(r, map[], pid, vp) == Seen(k, map[(pid, vp) := InSlot(slot)], pid, vp))
            && forall i, j | 0 <= i < PROCESSES && 0 <= j < PAGES && (i, j) != (pid, vp) ::
                 Seen(r, map[], i, j) == Seen(k, map[(pid, vp) := InSlot(slot)], i, j)
  {
    LandPage(n, o', pid, vp, k.next, flags);
    assert Seen(n, map[(pid, vp) := InFrame(k.next)], pid, vp) == Seen(k, map[(pid, vp) := InSlot(slot)], pid, vp);
  }

  lemma TouchRefines(s: State, o: Owners, pid: nat, vp: nat) returns (o': Owners)
    requires Inv(s, o) && pid < PROCESSES && vp < PAGES && Resident(s, pid)
    requires Alloc(EntryFlags(s, pid, vp))
    requires !InCore(EntryFlags(s, pid, vp)) ==> !Collides(SkipTable(s, pid), pid)
    ensures var r := Touch(s, pid, vp);
            && r.Ok? && Inv(r.state, o') && SameView(s, map[], r.state, map[])
            && r.state.table[pid] == s.table[pid] && Resident(r.state, pid)
            && var g := FrameOf(EntryFlags(r.state, pid, vp));
               o'.frame[g] == Pg(pid, vp) && Seen(r.state, map[], pid, vp) ==
                 Some(VPage(Prot(EntryFlags(s, pid, vp)), r.state.frames[g]))
  {
    if InCore(EntryFlags(s, pid, vp)) {
      o' := o;
    } else {
      o' := FaultInRefines(s, o, pid, vp);
    }
    var r := Touch(s, pid, vp).state;
    assert Where(r, map[], Pg(pid, vp)) == InFrame(FrameOf(EntryFlags(r, pid, vp)));
    assert Seen(r, map[], pid, vp) == Seen(s, map[], pid, vp);
    assert Where(s, map[], Pg(pid, vp)) != Nowhere;
  }

  /** Writing into the frame of a data page leaves every table, and every place, as it was. */
  lemma StoreKeepsPlaces(s: State, o: Owners, pid: nat, vp: nat, g: nat, off: nat, b: Byte, e: Owner)
    requires Inv(s, o) && g < FRAMES && off < PAGE_SIZE && o.frame[g] == Pg(pid, vp) && Entity(e)
    ensures TablePage(PutByte(s, g, off, b), e.pid) == TablePage(s, e.pid)
    ensures Where(PutByte(s, g, off, b), map[], e) == Where(s, map[], e)
  {
    assert Where(s, map[], o.frame[g]) == InFrame(g);
    assert Entity(Tab(e.pid)) && Where(s, map[], Tab(e.pid)) == TableLoc(s, e.pid);
  }

  /** A byte written to a frame that holds a page is seen by that page's process alone. */
  lemma StoreByte(s: State, o: Owners, pid: nat, vp: nat, g: nat, off: nat, b: Byte)
    requires Inv(s, o) && pid < PROCESSES && vp < PAGES && g < FRAMES && off < PAGE_SIZE && o.frame[g] == Pg(pid, vp)
    requires Seen(s, map[], pid, vp).Some? && Seen(s, map[], pid, vp).value.data == s.frames[g]
    ensures var s' := PutByte(s, g, off, b); var v := Seen(s, map[], pid, vp).value;
            && Inv(s', o) && Seen(s', map[], pid, vp) == Some(v.(data := v.data[off := b]))
            && forall q, r | 0 <= q < PROCESSES && 0 <= r < PAGES && (q, r) != (pid, vp) ::
                 Seen(s', map[], q, r) == Seen(s, map[], q, r)
  {
    var s' := PutByte(s, g, off, b);
    forall e | Entity(e)
      ensures Where(s', map[], e) == Where(s, map[], e) && TablePage(s', e.pid) == TablePage(s, e.pid)
    {
      StoreKeepsPlaces(s, o, pid, vp, g, off, b, e);
    }
    assert Entity(Pg(pid, vp)) && Where(s, map[], o.frame[g]) == InFrame(g);
    forall q, r | 0 <= q < PROCESSES && 0 <= r < PAGES && (q, r) != (pid, vp)
      ensures Seen(s', map[], q, r) == Seen(s, map[], q, r)
    {
      assert Entity(Pg(q, r)) && Where(s, map[], Pg(q, r)) != InFrame(g);
    }
  }

  // ----- map -----

  /** Appending a page and naming its slot does not change who strands pages where. */
  lemma CollidesSame(k: State, o: Owners, b: State, n: nat, pid: nat)
    requires Owned(k, o, map[]) && Shape(b) && pid < PROCESSES && Resident(k, pid) && k.next != k.table[pid]
    requires n < SLOTS && o.slot[n] == Free && b.table == k.table && b.next == k.next
    requires forall t | 0 <= t < SLOTS && t != n :: b.slots[t] == k.slots[t]
    ensures Collides(b, pid) == Collides(k, pid)
  {
    forall i | 0 <= i < PROCESSES && k.table[i] < 0
      ensures TablePage(b, i) == TablePage(k, i)
    {
      assert Where(k, map[], Tab(i)) == TableLoc(k, i);
    }
    assert forall i, g: nat | 0 <= i < PROCESSES :: Strands(b, i, g) == Strands(k, i, g);
  }

  /** What map's middle part promises: the page is resident with the new protection, its old bytes or
      zeroes, and no other page is touched. */
  ghost predicate MappedAs(s: State, pid: nat, vp: nat, protection: int, r: Outcome, o': Owners)
    requires Shape(s) && pid < PROCESSES && vp < PAGES && Resident(s, pid)
  {
    && r.Ok? && Inv(r.state, o') && r.state.table[pid] == s.table[pid]
    && Seen(r.state, map[], pid, vp) ==
       Some(VPage(protection % 2, if Seen(s, map[], pid, vp).Some? then Seen(s, map[], pid, vp).value.data
         else ZeroPage))
    && OthersSame(s, r.state, pid, vp)
  }

  lemma MapInFreeFrame(s: State, o: Owners, pid: nat, vp: nat, protection: int) returns (o': Owners)
    requires Inv(s, o) && pid < PROCESSES && vp < PAGES && Resident(s, pid) && FreeFrame(s) < FRAMES
    requires !Alloc(EntryFlags(s, pid, vp)) || !InCore(EntryFlags(s, pid, vp))
    ensures MappedAs(s, pid, vp, protection, MapPage(s, pid, vp, protection), o')
  {
    FreeFrameOrFull(s, o);
    var g, T := FreeFrame(s), s.table[pid];
    assert Where(s, map[], Tab(pid)) == InFrame(T);
    assert Where(s, map[], Pg(pid, vp)) == Nowhere;
    var s1 := s.(full := s.full[g := true]);
    o' := Granted(o, InFrame(g), Pg(pid, vp));
    NewPage(s, o, s1, pid, vp, InFrame(g));
    LandPage(s1, o', pid, vp, g, MapFlags(s.frames[T][2 * vp], protection, g));
  }

  lemma MapSwappedPage(s: State, o: Owners, pid: nat, vp: nat, protection: int) returns (o': Owners)
    requires Inv(s, o) && pid < PROCESSES && vp < PAGES && Resident(s, pid) && FreeFrame(s) == FRAMES
    requires Alloc(EntryFlags(s, pid, vp)) && !InCore(EntryFlags(s, pid, vp))
    requires !Collides(SkipTable(s, pid), pid)
    ensures MappedAs(s, pid, vp, protection, MapPage(s, pid, vp, protection), o')
  {
    FreeFrameOrFull(s, o);
    SkipTableHarmless(s, o, pid);
    var k := SkipTable(s, pid);
    var slot := EntrySlot(k, pid, vp);
    assert Where(k, map[], Pg(pid, vp)) == InSlot(slot);
    PendWhereItIs(k, o, pid, vp);
    o' := ClearDataFault(k, o, slot, pid, vp);
    var n := SwapPage(k, slot, k.next, pid).state;
    FaultLands(k, slot, pid, vp, n, o', MapFlags(n.frames[s.table[pid]][2 * vp], protection, k.next));
    forall i, j | 0 <= i < PROCESSES && 0 <= j < PAGES
      ensures Seen(k, map[(pid, vp) := InSlot(slot)], i, j) == Seen(s, map[], i, j)
    {
      assert Seen(k, map[(pid, vp) := InSlot(slot)], i, j) == Seen(k, map[], i, j) == Seen(s, map[], i, j);
    }
  }

  /** The state in which a new page, still in its freshly appended slot, is about to be faulted in. */
  function Appended(k: State, pid: nat, vp: nat, n: nat): State
    requires Shape(k) && pid < PROCESSES && vp < PAGES && Resident(k, pid) && n < SLOTS
  {
    k.(slots := k.slots[n := ZeroPage], used := k.used[n := true],
       frames := k.frames[k.table[pid] := k.frames[k.table[pid]][2 * vp + 1 := n]])
  }

  lemma AppendedOwned(k: State, o: Owners, pid: nat, vp: nat, n: nat)
    requires Owned(k, o, map[]) && pid < PROCESSES && vp < PAGES && Resident(k, pid) && n < SLOTS && o.slot[n] == Free
    requires !Alloc(EntryFlags(k, pid, vp))
    ensures var b := Appended(k, pid, vp, n);
            && Owned(b, Granted(o, InSlot(n), Pg(pid, vp)), map[(pid, vp) := InSlot(n)])
            && forall i, j | 0 <= i < PROCESSES && 0 <= j < PAGES && (i, j) != (pid, vp) ::
                 Seen(b, map[(pid, vp) := InSlot(n)], i, j) == Seen(k, map[], i, j)
  {
    assert Where(k, map[], Pg(pid, vp)) == Nowhere;
    NewPage(k, o, Appended(k, pid, vp, n), pid, vp, InSlot(n));
  }

  lemma AppendedPageReady(k: State, o: Owners, pid: nat, vp: nat) returns (n: nat)
    requires Inv(k, o) && AllFull(o) && pid < PROCESSES && vp < PAGES && Resident(k, pid) && k.next != k.table[pid]
    requires !Alloc(EntryFlags(k, pid, vp)) && !Collides(k, pid)
    ensures n < SLOTS && LastUsed(AppendZero(k)) == n && o.slot[n] == Free
    ensures var b := Appended(k, pid, vp, n);
            b == PutByte(AppendZero(k), k.table[pid], 2 * vp + 1, n) && IsPrefix(b.used) && !Collides(b, pid)
  {
    assert Where(k, map[], Pg(pid, vp)) == Nowhere;
    n := AppendUsesNextSlot(k, o, Pg(pid, vp));
    CollidesSame(k, o, Appended(k, pid, vp, n), n, pid);
  }

  lemma MapPageAppends(s: State, pid: nat, vp: nat, protection: int, b: State, r: State)
    requires Shape(s) && pid < PROCESSES && vp < PAGES && Resident(s, pid) && FreeFrame(s) == FRAMES
    requires !Alloc(EntryFlags(s, pid, vp))
    requires var a := AppendZero(SkipTable(s, pid)); b == PutByte(a, s.table[pid], 2 * vp + 1, LastUsed(a))
    requires Resident(b, pid) && EntrySlot(b, pid, vp) < SLOTS
    requires SwapPage(b, EntrySlot(b, pid, vp), b.next, pid) == Ok(r)
    ensures MapPage(s, pid, vp, protection) ==
            Ok(PutByte(r, s.table[pid], 2 * vp, MapFlags(r.frames[s.table[pid]][2 * vp], protection, b.next)))
  {
  }

  lemma AppendedFaultEnds(k: State, o: Owners, pid: nat, vp: nat) returns (b: State, n: nat, r: State, o': Owners)
    requires Inv(k, o) && AllFull(o) && pid < PROCESSES && vp < PAGES && Resident(k, pid) && k.next != k.table[pid]
    requires !Alloc(EntryFlags(k, pid, vp)) && !Collides(k, pid)
    ensures n < SLOTS && n == LastUsed(AppendZero(k)) && b == PutByte(AppendZero(k), k.table[pid], 2 * vp + 1, n)
    ensures b == Appended(k, pid, vp, n) && IsPrefix(b.used)
    ensures SwapPage(b, n, b.next, pid) == Ok(r) && FaultedIn(b, n, pid, vp, b.next, r, o')
    ensures forall i, j | 0 <= i < PROCESSES && 0 <= j < PAGES && (i, j) != (pid, vp) ::
      Seen(b, map[(pid, vp) := InSlot(n)], i, j) == Seen(k, map[], i, j)
  {
    n := AppendedPageReady(k, o, pid, vp);
    b := Appended(k, pid, vp, n);
    AppendedOwned(k, o, pid, vp, n);
    o' := ClearDataFault(b, Granted(o, InSlot(n), Pg(pid, vp)), n, pid, vp);
    r := SwapPage(b, n, b.next, pid).state;
  }

  lemma AppendedSlot(k: State, pid: nat, vp: nat, n: nat)
    requires Shape(k) && pid < PROCESSES && vp < PAGES && Resident(k, pid) && n < SLOTS
    ensures var b := Appended(k, pid, vp, n);
      Shape(b) && b.next == k.next && b.table == k.table && Resident(b, pid) && EntrySlot(b, pid, vp) == n &&
        b.slots[n] == ZeroPage
  {
  }

  /** The fault of a page just appended to swap: it lands, filled with zeroes. */
  lemma AppendedFaultLands(k: State, o: Owners, pid: nat, vp: nat, protection: int)
    returns (b: State, r: State, o': Owners)
    requires Inv(k, o) && AllFull(o) && pid < PROCESSES && vp < PAGES && Resident(k, pid) && k.next != k.table[pid]
    requires !Alloc(EntryFlags(k, pid, vp)) && !Collides(k, pid)
    ensures var a := AppendZero(k); b == PutByte(a, k.table[pid], 2 * vp + 1, LastUsed(a)) && b.next == k.next
    ensures Shape(b) && Resident(b, pid) && EntrySlot(b, pid, vp) < SLOTS
    ensures SwapPage(b, EntrySlot(b, pid, vp), b.next, pid) == Ok(r) && Shape(r)
    ensures var m := PutByte(r, k.table[pid], 2 * vp, MapFlags(r.frames[k.table[pid]][2 * vp], protection, b.next));
            && Inv(m, o') && m.table[pid] == k.table[pid]
            && Seen(m, map[], pid, vp) == Some(VPage(protection % 2, ZeroPage)) && OthersSame(k, m, pid, vp)
  {
    var n;
    b, n, r, o' := AppendedFaultEnds(k, o, pid, vp);
    var flags := MapFlags(r.frames[k.table[pid]][2 * vp], protection, b.next);
    FaultLands(b, n, pid, vp, r, o', flags);
    AppendedSlot(k, pid, vp, n);
    var m := PutByte(r, k.table[pid], 2 * vp, flags);
    forall i, j | 0 <= i < PROCESSES && 0 <= j < PAGES && (i, j) != (pid, vp)
      ensures Seen(m, map[], i, j) == Seen(k, map[], i, j)
    {
      assert Seen(b, map[(pid, vp) := InSlot(n)], i, j) == Seen(k, map[], i, j);
    }
  }

  lemma MapNewPageWhenFull(s: State, o: Owners, pid: nat, vp: nat, protection: int) returns (o': Owners)
    requires Inv(s, o) && pid < PROCESSES && vp < PAGES && Resident(s, pid) && FreeFrame(s) == FRAMES
    requires !Alloc(EntryFlags(s, pid, vp))
    requires !Collides(SkipTable(s, pid), pid)
    ensures MappedAs(s, pid, vp, protection, MapPage(s, pid, vp, protection), o')
  {
    FreeFrameOrFull(s, o);
    SkipTableHarmless(s, o, pid);
    var k := SkipTable(s, pid);
    var b, r;
    b, r, o' := AppendedFaultLands(k, o, pid, vp, protection);
    MapPageAppends(s, pid, vp, protection, b, r);
    assert Seen(s, map[], pid, vp) == Absent;
    forall i, j | 0 <= i < PROCESSES && 0 <= j < PAGES && (i, j) != (pid, vp)
      ensures Seen(k, map[], i, j) == Seen(s, map[], i, j)
    {
    }
  }

  lemma MapPageRefines(s: State, o: Owners, pid: nat, vp: nat, protection: int) returns (o': Owners)
    requires Inv(s, o) && pid < PROCESSES && vp < PAGES && Resident(s, pid)
    requires !Alloc(EntryFlags(s, pid, vp)) || !InCore(EntryFlags(s, pid, vp))
    requires FreeFrame(s) == FRAMES ==> !Collides(SkipTable(s, pid), pid)
    ensures MappedAs(s, pid, vp, protection, MapPage(s, pid, vp, protection), o')
  {
    if FreeFrame(s) < FRAMES {
      o' := MapInFreeFrame(s, o, pid, vp, protection);
    } else if Alloc(EntryFlags(s, pid, vp)) {
      o' := MapSwappedPage(s, o, pid, vp, protection);
    } else {
      o' := MapNewPageWhenFull(s, o, pid, vp, protection);
    }
  }

  /** Rewriting only the protection bit of an allocated page's entry. */
  lemma SetProtection(s: State, o: Owners, pid: nat, vp: nat, protection: int)
    requires Inv(s, o) && pid < PROCESSES && vp < PAGES && Resident(s, pid) && Seen(s, map[], pid, vp).Some?
    ensures var s' := PutByte(s, s.table[pid], 2 * vp, SetProt(EntryFlags(s, pid, vp), protection));
            && Inv(s', o) && Seen(s', map[], pid, vp) == Some(VPage(protection % 2, Seen(s, map[], pid, vp).value.data))
            && forall i, j | 0 <= i < PROCESSES && 0 <= j < PAGES && (i, j) != (pid, vp) ::
                 Seen(s', map[], i, j) == Seen(s, map[], i, j)
  {
    var l := ByteLoc(s, pid, vp);
    var pend: Pending := map[(pid, vp) := l];
    PendWhereItIs(s, o, pid, vp);
    RecordEntry(s, o, pend, pid, vp, s.frames[s.table[pid]][2 * vp := SetProt(EntryFlags(s, pid, vp), protection)]);
    assert pend - {(pid, vp)} == map[];
    assert Where(s, map[], Tab(pid)) == InFrame(s.table[pid]) && Where(s, map[], Pg(pid, vp)) == l;
    forall i, j | 0 <= i < PROCESSES && 0 <= j < PAGES
      ensures Seen(s, pend, i, j) == Seen(s, map[], i, j)
    {
    }
  }

  // ----- Whole instructions -----

  /** The state in which the instruction starts a data fault, if it starts one. */
  function DataFault(s: State, c: Instruction): (r: Option<State>)
    requires Shape(s) && WellFormed(c)
    ensures r.Some? ==> Shape(r.value) && Resident(r.value, c.pid) && r.value.next != r.value.table[c.pid]
  {
    var r := if c.Map? then MakeTable(s, c.pid) else if s.table[c.pid] == NOTALLOC then Wild else FetchTable(s, c.pid);
    match r
    case Wild => Absent
    case Ok(t) =>
      if !Resident(t, c.pid) then Absent
      else
        var flags := EntryFlags(t, c.pid, c.va / 16);
        var faults := match c
          case Map(_, _, _) => (!Alloc(flags) || !InCore(flags)) && FreeFrame(t) == FRAMES
          case Store(_, _, _) => Alloc(flags) && Prot(flags) != 0 && !InCore(flags)
          case Load(_, _) => Alloc(flags) && !InCore(flags);
        if faults then Some(SkipTable(t, c.pid)) else Absent
  }

  /** The instruction starts no data fault whose cascade would run into itself. */
  predicate Clear(s: State, c: Instruction)
    requires Shape(s) && WellFormed(c)
  {
    match DataFault(s, c)
    case Absent => true
    case Some(k) => Shape(k) && Resident(k, c.pid) && k.next != k.table[c.pid] && !Collides(k, c.pid)
  }

  /** The reply has the addressed page, the other pages and the answer as the flat memory would. */
  ghost predicate Agrees(s: State, c: Instruction, r: Reply, o': Owners)
    requires Shape(s) && WellFormed(c)
  {
    && r.Reply? && Inv(r.state, o')
    && (Seen(r.state, map[], c.pid, c.va / 16), r.output) == CellStep(Seen(s, map[], c.pid, c.va / 16), c)
    && OthersSame(s, r.state, c.pid, c.va / 16)
  }

  lemma AgreesAfter(s: State, t: State, c: Instruction, r: Reply, o': Owners)
    requires Shape(s) && Shape(t) && WellFormed(c) && SameView(s, map[], t, map[]) && Agrees(t, c, r, o')
    ensures Agrees(s, c, r, o')
  {
    assert Seen(t, map[], c.pid, c.va / 16) == Seen(s, map[], c.pid, c.va / 16);
    forall q, r' | 0 <= q < PROCESSES && 0 <= r' < PAGES && (q, r') != (c.pid, c.va / 16)
      ensures Seen(r.state, map[], q, r') == Seen(s, map[], q, r')
    {
      assert Seen(t, map[], q, r') == Seen(s, map[], q, r');
    }
  }

  lemma SeenOfEntry(s: State, pid: nat, vp: nat)
    requires Shape(s) && pid < PROCESSES && vp < PAGES && Resident(s, pid)
    ensures Seen(s, map[], pid, vp).Some? <==> Alloc(EntryFlags(s, pid, vp))
    ensures Seen(s, map[], pid, vp).Some? ==> Seen(s, map[], pid, vp).value.prot == Prot(EntryFlags(s, pid, vp))
  {
  }

  lemma ChangeProtectionAgrees(t: State, n: State, o': Owners, c: Instruction)
    requires Shape(t) && WellFormed(c) && c.Map? && Resident(t, c.pid) && Inv(n, o') && n.table[c.pid] == t.table[c.pid]
    requires Alloc(EntryFlags(t, c.pid, c.va / 16)) && Prot(EntryFlags(t, c.pid, c.va / 16)) != c.value
    requires Seen(t, map[], c.pid, c.va / 16).Some? && Seen(n, map[], c.pid, c.va / 16).Some?
    requires Seen(t, map[], c.pid, c.va / 16).value.data == Seen(n, map[], c.pid, c.va / 16).value.data
    requires OthersSame(t, n, c.pid, c.va / 16)
    ensures Agrees(t, c, FinishMap(t, n, c.pid, c.va / 16, c.value), o')
  {
    SeenOfEntry(t, c.pid, c.va / 16);
    SetProtection(n, o', c.pid, c.va / 16, c.value);
  }

  lemma MapCell(cell: Option<VPage>, c: Instruction)
    requires WellFormed(c) && c.Map? && (cell.Some? ==> cell.value.prot < 2)
    ensures cell == Absent || cell.value.prot == c.value ==>
              CellStep(cell, c).0 == Some(VPage(c.value % 2, if cell.Some? then cell.value.data else ZeroPage))
  {
  }

  lemma FinishMapAgrees(t: State, n: State, o': Owners, c: Instruction)
    requires Shape(t) && WellFormed(c) && c.Map? && Resident(t, c.pid)
    requires MappedAs(t, c.pid, c.va / 16, c.value, Ok(n), o')
    ensures Agrees(t, c, FinishMap(t, n, c.pid, c.va / 16, c.value), o')
  {
    var pid, vp := c.pid, c.va / 16;
    var flags, cell := EntryFlags(t, pid, vp), Seen(t, map[], pid, vp);
    assert (cell.Some? <==> Alloc(flags)) && (cell.Some? ==> cell.value.prot == Prot(flags)) by {
      SeenOfEntry(t, pid, vp);
    }
    if Alloc(flags) && Prot(flags) != c.value {
      ChangeProtectionAgrees(t, n, o', c);
    } else {
      MapCell(cell, c);
    }
  }

  lemma MapResidentAgrees(t: State, o: Owners, c: Instruction) returns (o': Owners)
    requires Inv(t, o) && WellFormed(c) && c.Map? && Resident(t, c.pid)
    requires var flags := EntryFlags(t, c.pid, c.va / 16);
             (!Alloc(flags) || !InCore(flags)) && FreeFrame(t) == FRAMES ==> !Collides(SkipTable(t, c.pid), c.pid)
    ensures Agrees(t, c, MapResident(t, c.pid, c.va / 16, c.value), o')
  {
    var pid, vp := c.pid, c.va / 16;
    if Alloc(EntryFlags(t, pid, vp)) && InCore(EntryFlags(t, pid, vp)) {
      o' := o;
      SeenOfEntry(t, pid, vp);
      if Prot(EntryFlags(t, pid, vp)) != c.value {
        SetProtection(t, o, pid, vp, c.value);
      }
    } else {
      o' := MapPageRefines(t, o, pid, vp, c.value);
      FinishMapAgrees(t, MapPage(t, pid, vp, c.value).state, o', c);
    }
  }

  lemma MapRefines(s: State, o: Owners, c: Instruction) returns (o': Owners)
    requires Inv(s, o) && WellFormed(c) && c.Map? && Clear(s, c)
    ensures Agrees(s, c, Step(s, c), o')
  {
    o' := MakeTableRefines(s, o, c.pid);
    var t := MakeTable(s, c.pid).state;
    o' := MapResidentAgrees(t, o', c);
    AgreesAfter(s, t, c, Step(s, c), o');
  }

  lemma StoreRefines(s: State, o: Owners, c: Instruction) returns (o': Owners)
    requires Inv(s, o) && WellFormed(c) && c.Store? && Clear(s, c)
    ensures Agrees(s, c, Step(s, c), o')
  {
    var pid, vp := c.pid, c.va / 16;
    o' := o;
    if s.table[pid] != NOTALLOC {
      o' := FetchTableRefines(s, o, pid);
      var t := FetchTable(s, pid).state;
      SeenOfEntry(t, pid, vp);
      if Alloc(EntryFlags(t, pid, vp)) && Prot(EntryFlags(t, pid, vp)) != 0 {
        o' := TouchRefines(t, o', pid, vp);
        var n := Touch(t, pid, vp).state;
        StoreByte(n, o', pid, vp, FrameOf(EntryFlags(n, pid, vp)), c.va % 16, c.value % 256);
        AgreesAfter(t, n, c, Step(s, c), o');
      }
      AgreesAfter(s, t, c, Step(s, c), o');
    }
  }

  lemma LoadRefines(s: State, o: Owners, c: Instruction) returns (o': Owners)
    requires Inv(s, o) && WellFormed(c) && c.Load? && Clear(s, c)
    ensures Agrees(s, c, Step(s, c), o')
  {
    var pid, vp := c.pid, c.va / 16;
    o' := o;
    if s.table[pid] != NOTALLOC {
      o' := FetchTableRefines(s, o, pid);
      var t := FetchTable(s, pid).state;
      SeenOfEntry(t, pid, vp);
      if Alloc(EntryFlags(t, pid, vp)) {
        o' := TouchRefines(t, o', pid, vp);
        AgreesAfter(t, Touch(t, pid, vp).state, c, Step(s, c), o');
      }
      AgreesAfter(s, t, c, Step(s, c), o');
    }
  }

  lemma StepAgrees(s: State, o: Owners, c: Instruction) returns (o': Owners)
    requires Inv(s, o) && WellFormed(c) && Clear(s, c)
    ensures Agrees(s, c, Step(s, c), o')
  {
    match c
    case Map(_, _, _) => o' := MapRefines(s, o, c);
    case Store(_, _, _) => o' := StoreRefines(s, o, c);
    case Load(_, _) => o' := LoadRefines(s, o, c);
  }

  lemma ViewUpdated(s: State, s': State, i: nat, j: nat)
    requires Shape(s) && Shape(s') && i < PROCESSES && j < PAGES && OthersSame(s, s', i, j)
    ensures View(s') == View(s)[i := View(s)[i][j := Seen(s', map[], i, j)]]
  {
    var m := View(s)[i := View(s)[i][j := Seen(s', map[], i, j)]];
    forall q | 0 <= q < 4
      ensures View(s')[q] == m[q]
    {
      forall r | 0 <= r < 4
        ensures View(s')[q][r] == m[q][r]
      {
        assert (q, r) != (i, j) ==> Seen(s', map[], q, r) == Seen(s, map[], q, r);
      }
    }
  }

  /** One clear instruction keeps the invariant and is a step of the flat memory. */
  lemma StepRefines(s: State, o: Owners, c: Instruction) returns (o': Owners)
    requires Inv(s, o) && WellFormed(c) && Clear(s, c)
    ensures var r := Step(s, c);
            r.Reply? && Inv(r.state, o') && (View(r.state), r.output) == FlatStep(View(s), c)
  {
    o' := StepAgrees(s, o, c);
    ViewUpdated(s, Step(s, c).state, c.pid, c.va / 16);
  }
}
