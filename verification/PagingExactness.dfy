/**
 The refinement holds exactly when no data fault collides: from a valid state, an
 instruction that is not clear ends out of bounds or in a state without consistent owners.
 */
module PagingExactness {
  import opened PagingModel
  import opened PagingOwnership
  import opened PagingCascade
  import opened PagingFaults
  import opened PagingAllocation
  import opened PagingRefinement
  import opened PagingCollision

  /** Frame T's entry vp names another frame, p; and two tables share a third frame, or p, which the entry
      claims for a page of process pid, holds a table. */
  ghost predicate Broken(s: State, pid: nat, vp: nat, T: nat)
    requires pid < PROCESSES && vp < PAGES && T < FRAMES
  {
    && Shape(s)
    && var p := FrameOf(s.frames[T][2 * vp]);
       p != T && (SharedTable(s, p, T) || Squatted(s, pid, vp, T, p))
  }

  ghost predicate Squatted(s: State, pid: nat, vp: nat, T: nat, p: nat)
    requires Shape(s) && pid < PROCESSES && vp < PAGES && T < FRAMES
  {
    s.table[pid] == T && Claims(s.frames[T], vp, p) && exists l | 0 <= l < PROCESSES :: s.table[l] == p
  }

  lemma ValidNotBroken(s: State, o: Owners, pid: nat, vp: nat, T: nat)
    requires Inv(s, o) && pid < PROCESSES && vp < PAGES && T < FRAMES
    ensures !Broken(s, pid, vp, T)
  {
    forall q | 0 <= q < PROCESSES
      ensures 0 <= s.table[q] <= 3 ==> o.frame[s.table[q]] == Tab(q)
    {
      assert Where(s, map[], Tab(q)) == TableLoc(s, q);
    }
    assert Where(s, map[], Pg(pid, vp)) == ByteLoc(s, pid, vp);
  }

  lemma BrokenIsInvalid(s: State, pid: nat, vp: nat, T: nat)
    requires pid < PROCESSES && vp < PAGES && T < FRAMES && Broken(s, pid, vp, T)
    ensures !Valid(s)
  {
    forall o | Inv(s, o)
      ensures false
    {
      ValidNotBroken(s, o, pid, vp, T);
    }
  }

  lemma TwinsStay(s: State, a: nat, b: nat, e: nat, f: nat, off: nat, byte: Byte)
    requires Shape(s) && Twins(s, a, b, e) && f < FRAMES && off < PAGE_SIZE && f != s.table[a]
    ensures Twins(PutByte(s, f, off, byte), a, b, e)
  {
    var r := PutByte(s, f, off, byte);
    assert forall i | 0 <= i < PROCESSES && s.table[i] < 0 :: TablePage(r, i) == TablePage(s, i);
    assert forall i, g: nat | 0 <= i < PROCESSES :: Strands(r, i, g) == Strands(s, i, g);
  }

  lemma SharedStays(s: State, p: int, T: int, f: nat, off: nat, byte: Byte)
    requires Shape(s) && f < FRAMES && off < PAGE_SIZE && SharedTable(s, p, T) && (f == p || f == T)
    ensures SharedTable(PutByte(s, f, off, byte), p, T)
  {
    var a: nat, b: nat, e: nat :| Twins(s, a, b, e) && s.table[a] != p && s.table[a] != T;
    TwinsStay(s, a, b, e, f, off, byte);
  }

  /** Writing into the frame the entry names, or only the protection bit of the entry, repairs nothing. */
  lemma BrokenStays(s: State, pid: nat, vp: nat, T: nat, f: nat, off: nat, b: Byte)
    requires pid < PROCESSES && vp < PAGES && T < FRAMES && Broken(s, pid, vp, T) && f < FRAMES && off < PAGE_SIZE
    requires f == FrameOf(s.frames[T][2 * vp]) ||
      (f == T && off == 2 * vp && Alloc(b) == Alloc(s.frames[f][off]) && InCore(b) == InCore(s.frames[f][off]) &&
        FrameOf(b) == FrameOf(s.frames[f][off]))
    ensures Broken(PutByte(s, f, off, b), pid, vp, T)
  {
    var p := FrameOf(s.frames[T][2 * vp]);
    if SharedTable(s, p, T) {
      SharedStays(s, p, T, f, off, b);
    } else {
      assert PutByte(s, f, off, b).table == s.table;
    }
  }

  /** What a colliding fault leaves behind, if it returns at all. */
  ghost predicate Wrecked(r: Outcome, pid: nat, vp: nat, T: nat)
    requires pid < PROCESSES && vp < PAGES && T < FRAMES
  {
    r.Ok? ==> Broken(r.state, pid, vp, T)
  }

  /** Writing the faulted page's entry over a spoilt state leaves it broken. */
  lemma SpoiltIsWrecked(n: State, p: nat, pid: nat, vp: nat, start: State, flags: Byte)
    requires pid < PROCESSES && vp < PAGES && p < FRAMES && Shape(start) && Resident(start, pid)
    requires start.table[pid] != p && Spoilt(n, p, pid, start)
    requires InCore(flags) && FrameOf(flags) == p
    requires n.table[pid] == start.table[pid] && TablePage(n, pid) == TablePage(start, pid) ==> Alloc(flags)
    ensures Wrecked(Ok(PutByte(n, start.table[pid], 2 * vp, flags)), pid, vp, start.table[pid])
  {
    var T := start.table[pid];
    if SharedTable(n, p, T) {
      SharedStays(n, p, T, T, 2 * vp, flags);
    } else {
      assert PutByte(n, T, 2 * vp, flags).table == n.table;
    }
  }

  lemma FaultInWrecks(s: State, o: Owners, pid: nat, vp: nat)
    requires Inv(s, o) && pid < PROCESSES && vp < PAGES && Resident(s, pid)
    requires Alloc(EntryFlags(s, pid, vp)) && !InCore(EntryFlags(s, pid, vp))
    requires Collides(SkipTable(s, pid), pid)
    ensures Wrecked(FaultIn(s, pid, vp), pid, vp, s.table[pid])
  {
    SkipTableHarmless(s, o, pid);
    var k := SkipTable(s, pid);
    var slot := EntrySlot(k, pid, vp);
    assert Where(k, map[], Pg(pid, vp)) == InSlot(slot);
    SwapInUseMeansFull(k, o, slot);
    PendWhereItIs(k, o, pid, vp);
    CollisionGoesWrong(k, o, slot, pid, vp);
    var n := SwapPage(k, slot, k.next, pid);
    if n.Ok? {
      SpoiltIsWrecked(n.state, k.next, pid, vp, k, SetInFrame(n.state.frames[s.table[pid]][2 * vp], k.next));
    }
  }

  lemma MapSwappedWrecks(s: State, o: Owners, pid: nat, vp: nat, protection: int)
    requires Inv(s, o) && pid < PROCESSES && vp < PAGES && Resident(s, pid) && FreeFrame(s) == FRAMES
    requires Alloc(EntryFlags(s, pid, vp)) && !InCore(EntryFlags(s, pid, vp))
    requires Collides(SkipTable(s, pid), pid)
    ensures Wrecked(MapPage(s, pid, vp, protection), pid, vp, s.table[pid])
  {
    FreeFrameOrFull(s, o);
    SkipTableHarmless(s, o, pid);
    var k := SkipTable(s, pid);
    var slot := EntrySlot(k, pid, vp);
    assert Where(k, map[], Pg(pid, vp)) == InSlot(slot);
    PendWhereItIs(k, o, pid, vp);
    CollisionGoesWrong(k, o, slot, pid, vp);
    var n := SwapPage(k, slot, k.next, pid);
    if n.Ok? {
      SpoiltIsWrecked(n.state, k.next, pid, vp, k, MapFlags(n.state.frames[s.table[pid]][2 * vp], protection, k.next));
    }
  }

  lemma MapNewWrecks(s: State, o: Owners, pid: nat, vp: nat, protection: int)
    requires Inv(s, o) && pid < PROCESSES && vp < PAGES && Resident(s, pid) && FreeFrame(s) == FRAMES
    requires !Alloc(EntryFlags(s, pid, vp))
    requires Collides(SkipTable(s, pid), pid)
    ensures Wrecked(MapPage(s, pid, vp, protection), pid, vp, s.table[pid])
  {
    FreeFrameOrFull(s, o);
    SkipTableHarmless(s, o, pid);
    var k := SkipTable(s, pid);
    var b, n := AppendedFault(k, o, pid, vp);
    var r := SwapPage(b, n, b.next, pid);
    if r.Ok? {
      MapPageAppends(s, pid, vp, protection, b, r.state);
      SpoiltIsWrecked(r.state, b.next, pid, vp, b, MapFlags(r.state.frames[s.table[pid]][2 * vp], protection, b.next));
    }
  }

  lemma AppendedFault(k: State, o: Owners, pid: nat, vp: nat) returns (b: State, n: nat)
    requires Inv(k, o) && AllFull(o) && pid < PROCESSES && vp < PAGES && Resident(k, pid) && k.next != k.table[pid]
    requires !Alloc(EntryFlags(k, pid, vp)) && Collides(k, pid)
    ensures n < SLOTS && LastUsed(AppendZero(k)) == n
    ensures b == Appended(k, pid, vp, n) == PutByte(AppendZero(k), k.table[pid], 2 * vp + 1, n)
    ensures GoesWrong(SwapPage(b, n, b.next, pid), b.next, pid, b)
  {
    assert Where(k, map[], Pg(pid, vp)) == Nowhere;
    n := AppendUsesNextSlot(k, o, Pg(pid, vp));
    b := Appended(k, pid, vp, n);
    CollidesSame(k, o, b, n, pid);
    AppendedOwned(k, o, pid, vp, n);
    CollisionGoesWrong(b, Granted(o, InSlot(n), Pg(pid, vp)), n, pid, vp);
  }

  // ----- Whole instructions -----

  /** The reply, if there is one, has no consistent owners. */
  ghost predicate Ruined(r: Reply) { r.Reply? ==> !Valid(r.state) }

  /** The reply, if there is one, is broken at the instruction's page. */
  ghost predicate Damaged(r: Reply, c: Instruction)
    requires WellFormed(c)
  {
    r.Reply? ==> exists T: nat | T < FRAMES :: Broken(r.state, c.pid, c.va / 16, T)
  }

  lemma DamagedIsRuined(r: Reply, c: Instruction)
    requires WellFormed(c) && Damaged(r, c)
    ensures Ruined(r)
  {
    if r.Reply? {
      var T: nat :| T < FRAMES && Broken(r.state, c.pid, c.va / 16, T);
      BrokenIsInvalid(r.state, c.pid, c.va / 16, T);
    }
  }

  lemma FinishMapAfterWreck(t: State, n: State, pid: nat, vp: nat, protection: int)
    requires Shape(t) && pid < PROCESSES && vp < PAGES && Resident(t, pid) && Wrecked(Ok(n), pid, vp, t.table[pid])
    ensures Broken(FinishMap(t, n, pid, vp, protection).state, pid, vp, t.table[pid])
  {
    var T := t.table[pid];
    BrokenStays(n, pid, vp, T, T, 2 * vp, SetProt(n.frames[T][2 * vp], protection));
  }

  lemma UnclearTouch(t: State, o: Owners, pid: nat, vp: nat)
    requires Inv(t, o) && pid < PROCESSES && vp < PAGES && Resident(t, pid)
    requires Alloc(EntryFlags(t, pid, vp)) && !InCore(EntryFlags(t, pid, vp)) && Collides(SkipTable(t, pid), pid)
    ensures Wrecked(Touch(t, pid, vp), pid, vp, t.table[pid])
  {
    FaultInWrecks(t, o, pid, vp);
  }

  lemma UnclearMap(s: State, o: Owners, c: Instruction)
    requires Inv(s, o) && WellFormed(c) && c.Map? && !Clear(s, c)
    ensures Damaged(Step(s, c), c)
  {
    var o' := MakeTableRefines(s, o, c.pid);
    var t, vp := MakeTable(s, c.pid).state, c.va / 16;
    SkipTableHarmless(t, o', c.pid);
    if Alloc(EntryFlags(t, c.pid, vp)) {
      MapSwappedWrecks(t, o', c.pid, vp, c.value);
    } else {
      MapNewWrecks(t, o', c.pid, vp, c.value);
    }
    var m := MapPage(t, c.pid, vp, c.value);
    if m.Ok? {
      FinishMapAfterWreck(t, m.state, c.pid, vp, c.value);
    }
  }

  lemma UnclearStore(s: State, o: Owners, c: Instruction)
    requires Inv(s, o) && WellFormed(c) && c.Store? && !Clear(s, c)
    ensures Damaged(Step(s, c), c)
  {
    var o' := FetchTableRefines(s, o, c.pid);
    var t, vp := FetchTable(s, c.pid).state, c.va / 16;
    SkipTableHarmless(t, o', c.pid);
    UnclearTouch(t, o', c.pid, vp);
    var n := Touch(t, c.pid, vp);
    if n.Ok? {
      var T := t.table[c.pid];
      BrokenStays(n.state, c.pid, vp, T, FrameOf(n.state.frames[T][2 * vp]), c.va % 16, c.value % 256);
    }
  }

  lemma UnclearLoad(s: State, o: Owners, c: Instruction)
    requires Inv(s, o) && WellFormed(c) && c.Load? && !Clear(s, c)
    ensures Damaged(Step(s, c), c)
  {
    var o' := FetchTableRefines(s, o, c.pid);
    var t, vp := FetchTable(s, c.pid).state, c.va / 16;
    SkipTableHarmless(t, o', c.pid);
    UnclearTouch(t, o', c.pid, vp);
  }

  lemma UnclearDamages(s: State, c: Instruction)
    requires Valid(s) && WellFormed(c) && !Clear(s, c)
    ensures Damaged(Step(s, c), c)
  {
    var o :| Inv(s, o);
    match c
    case Map(_, _, _) => UnclearMap(s, o, c);
    case Store(_, _, _) => UnclearStore(s, o, c);
    case Load(_, _) => UnclearLoad(s, o, c);
  }

  /** From a valid state an instruction stays in bounds, keeps the ownership invariant and acts like the
      flat memory if and only if it is clear. */
  lemma StepSoundIffClear(s: State, c: Instruction)
    requires Valid(s) && WellFormed(c)
    ensures var r := Step(s, c);
            r.Reply? && Valid(r.state) && (View(r.state), r.output) == FlatStep(View(s), c) <==> Clear(s, c)
    ensures !Clear(s, c) ==> Ruined(Step(s, c))
  {
    var o :| Inv(s, o);
    if Clear(s, c) {
      var o' := StepRefines(s, o, c);
    } else {
      UnclearDamages(s, c);
      DamagedIsRuined(Step(s, c), c);
    }
  }
}
