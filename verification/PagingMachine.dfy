/**
 The memory manager as it works: global arrays updated in place. Every procedure is proved
 to take the state to what the function of the same name in PagingModel says.
 */
module PagingMachine {
  import opened PagingModel

  class Machine {
    const memory: array<Byte>
    const swap: array<Page>
    const swapStates: array<bool>
    const pageTableStart: array<int>
    const freeList: array<bool>
    var nextSwap: int

    ghost predicate Valid()
      reads this, memory, swap, swapStates, pageTableStart, freeList
    {
      && memory.Length == 64 && swap.Length == SLOTS && swapStates.Length == SLOTS
      && pageTableStart.Length == PROCESSES && freeList.Length == FRAMES
      && swapStates != freeList
      && Shape(View())
    }

    function View(): State
      requires memory.Length == 64
      reads this, memory, swap, swapStates, pageTableStart, freeList
    {
      State([memory[0..16], memory[16..32], memory[32..48], memory[48..64]],
            swap[..], swapStates[..], pageTableStart[..], freeList[..], nextSwap)
    }

    constructor ()
      ensures Valid() && View() == Initial()
      ensures fresh(memory) && fresh(swap) && fresh(swapStates) && fresh(pageTableStart) && fresh(freeList)
    {
      memory := new Byte[64](_ => 0);
      swap := new Page[SLOTS](_ => ZeroPage);
      swapStates := new bool[SLOTS](_ => false);
      pageTableStart := new int[PROCESSES](_ => NOTALLOC);
      freeList := new bool[FRAMES](_ => false);
      nextSwap := 0;
      new;
      assert memory[0..16] == ZeroPage && memory[16..32] == ZeroPage && memory[32..48] == ZeroPage &&
        memory[48..64] == ZeroPage;
      assert View().frames == Initial().frames;
      assert View().slots == Initial().slots && View().used == Initial().used;
      assert View().table == Initial().table && View().full == Initial().full;
    }

    // ----- Bytes and pages -----

    lemma ByteOfFrame(f: nat, off: nat)
      requires Valid() && f < FRAMES && off < PAGE_SIZE
      ensures 16 * f + off < memory.Length && memory[16 * f + off] == View().frames[f][off]
    {
    }

    method WriteByte(f: nat, off: nat, b: Byte)
      requires Valid() && f < FRAMES && off < PAGE_SIZE
      modifies memory
      ensures Valid() && View() == PutByte(old(View()), f, off, b)
    {
      memory[16 * f + off] := b;
      assert View().frames == PutByte(old(View()), f, off, b).frames;
    }

    /** copyPage out of memory. */
    method CopyOut(f: nat) returns (page: Page)
      requires Valid() && f < FRAMES
      ensures page == View().frames[f]
    {
      var bytes: seq<Byte> := [];
      for i := 0 to 16
        invariant |bytes| == i && bytes == View().frames[f][..i]
      {
        ByteOfFrame(f, i);
        bytes := bytes + [memory[16 * f + i]];
      }
      page := bytes;
    }

    /** A page assigned over a frame. */
    method CopyIn(page: Page, f: nat)
      requires Valid() && f < FRAMES
      modifies memory
      ensures Valid() && View() == old(View()).(frames := old(View()).frames[f := page])
    {
      for i := 0 to 16
        invariant Valid() && View().slots == old(View()).slots && View().used == old(View()).used
        invariant View().table == old(View()).table && View().full == old(View()).full && nextSwap == old(nextSwap)
        invariant forall g | 0 <= g < FRAMES && g != f :: View().frames[g] == old(View()).frames[g]
        invariant View().frames[f][..i] == page[..i]
      {
        WriteByte(f, i, page[i]);
      }
      assert View().frames[f][..16] == View().frames[f] && page[..16] == page;
      assert View().frames == old(View()).frames[f := page];
    }

    // ----- The swap area -----

    method NumPagesInSwap() returns (counter: nat)
      requires Valid()
      ensures counter == CountUsed(View().used)
    {
      counter := 0;
      for i := 0 to SLOTS
        invariant counter == CountUsed(swapStates[..i])
      {
        assert swapStates[..i + 1][..i] == swapStates[..i];
        if swapStates[i] {
          counter := counter + 1;
        }
      }
      assert swapStates[..SLOTS] == swapStates[..];
    }

    /** append_page_to_swap, applied to a page of zeroes. */
    method AppendZeroPage()
      requires Valid()
      modifies swap, swapStates
      ensures Valid() && View() == AppendZero(old(View()))
    {
      var i := 0;
      while i < SLOTS
        invariant i <= SLOTS && FirstNot(old(View()).used, true, 0) == FirstNot(old(View()).used, true, i)
        invariant View() == old(View()) && Valid()
      {
        if !swapStates[i] {
          swap[i] := ZeroPage;
          swapStates[i] := true;
          return;
        }
        i := i + 1;
      }
    }

    method WriteToSwapLocation(page: Page, index: nat)
      requires Valid() && index < SLOTS
      modifies swap, swapStates
      ensures Valid()
      ensures View() == old(View()).(slots := old(View()).slots[index := page], used := old(View()).used[index := true])
    {
      swapStates[index] := true;
      swap[index] := page;
    }

    /** The loop over k: tables found in the slot now live in frame f. */
    method RelocateTables(slot: nat, f: nat)
      requires Valid() && slot < SLOTS && f < FRAMES
      modifies pageTableStart
      ensures Valid() && View() == old(View()).(table := Relocate(old(View()).table, slot, f))
    {
      for k := 0 to PROCESSES
        invariant Valid() && View() == old(View()).(table := View().table)
        invariant forall m | 0 <= m < k :: View().table[m] == Relocate(old(View()).table, slot, f)[m]
        invariant forall m | k <= m < PROCESSES :: View().table[m] == old(View()).table[m]
      {
        if IndexToSwap(pageTableStart[k]) == slot {
          pageTableStart[k] := f;
        }
      }
      assert View().table == Relocate(old(View()).table, slot, f);
    }

    method AdvancePointer()
      requires Valid()
      modifies this`nextSwap
      ensures Valid() && View() == Advance(old(View()))
    {
      nextSwap := (nextSwap + 1) % 4;
    }

    /** Write entry j of the table in frame r: not valid, in the slot. */
    method MarkEntryOut(r: nat, j: nat, slot: nat)
      requires Valid() && r < FRAMES && j < PAGES && slot < SLOTS
      modifies memory
      ensures Valid()
      ensures View() == old(View()).(frames := old(View()).frames[r := MarkOut(old(View()).frames[r], j, slot)])
    {
      ByteOfFrame(r, 2 * j);
      WriteByte(r, 2 * j, ClearValid(memory[16 * r + 2 * j]));
      WriteByte(r, 2 * j + 1, slot);
    }

    /** The loop over the entries of a resident table. */
    method FindClaim(r: nat, f: nat) returns (j: nat)
      requires Valid() && r < FRAMES && f < FRAMES
      ensures j == FirstClaim(View().frames[r], f, 0)
    {
      j := 0;
      while j < PAGES
        invariant j <= PAGES && FirstClaim(View().frames[r], f, 0) == FirstClaim(View().frames[r], f, j)
      {
        ByteOfFrame(r, 2 * j);
        var flags := memory[16 * r + 2 * j];
        if InCore(flags) && Alloc(flags) && FrameOf(flags) == f {
          return;
        }
        j := j + 1;
      }
    }

    /** The loop over the entries of a table page held in a local copy. */
    method FindClaimInPage(page: Page, f: nat) returns (j: nat)
      requires f < FRAMES
      ensures j == FirstClaim(page, f, 0)
    {
      j := 0;
      while j < PAGES
        invariant j <= PAGES && FirstClaim(page, f, 0) == FirstClaim(page, f, j)
      {
        var flags := page[2 * j];
        if InCore(flags) && Alloc(flags) && FrameOf(flags) == f {
          return;
        }
        j := j + 1;
      }
    }

    // ----- swapPage -----

    method TakeTable(i: nat, slot: nat, f: nat, swapIn: Page, swapOut: Page)
      requires Valid() && i < PROCESSES && slot < SLOTS && f < FRAMES
      requires swapIn == View().slots[slot] && swapOut == View().frames[f]
      modifies this`nextSwap, memory, swap, swapStates, pageTableStart
      ensures Valid()
      ensures var b := BringIn(old(View()), slot, f); View() == Advance(b.(table := b.table[i := SwapToIndex(slot)]))
    {
      RelocateTables(slot, f);
      pageTableStart[i] := SwapToIndex(slot);
      WriteToSwapLocation(swapOut, slot);
      CopyIn(swapIn, f);
      AdvancePointer();
    }

    method TakePageOfResident(r: nat, j: nat, slot: nat, f: nat, swapIn: Page, swapOut: Page)
      requires Valid() && r < FRAMES && j < PAGES && slot < SLOTS && f < FRAMES && r != f
      requires swapIn == View().slots[slot] && swapOut == View().frames[f]
      modifies this`nextSwap, memory, swap, swapStates, pageTableStart
      ensures Valid()
      ensures var s := old(View());
        View() == Advance(BringIn(s.(frames := s.frames[r := MarkOut(s.frames[r], j, slot)]), slot, f))
    {
      MarkEntryOut(r, j, slot);
      WriteToSwapLocation(swapOut, slot);
      CopyIn(swapIn, f);
      RelocateTables(slot, f);
      AdvancePointer();
    }

    method TakePageWithItsTable(i: nat, j: nat, slot: nat, f: nat, swapIn: Page, swapOut: Page)
      requires Valid() && i < PROCESSES && j < PAGES && slot < SLOTS && f < FRAMES
      requires swapIn == View().slots[slot] && swapOut == View().frames[f]
      modifies this`nextSwap, memory, swap, swapStates, pageTableStart
      ensures Valid()
      ensures var s, e := old(View()), Exchange(old(View()), slot, f);
              View() == Advance(e.(frames := e.frames[f := MarkOut(e.frames[f], j, slot)], table := s.table[i := f]))
    {
      WriteToSwapLocation(swapOut, slot);
      CopyIn(swapIn, f);
      MarkEntryOut(f, j, slot);
      pageTableStart[i] := f;
      AdvancePointer();
      ghost var e := Exchange(old(View()), slot, f);
      assert View().frames == e.frames[f := MarkOut(e.frames[f], j, slot)];
    }

    method BringPageIn(slot: nat, f: nat, swapIn: Page, swapOut: Page)
      requires Valid() && slot < SLOTS && f < FRAMES
      requires swapIn == View().slots[slot] && swapOut == View().frames[f]
      modifies memory, swap, swapStates, pageTableStart
      ensures Valid() && View() == BringIn(old(View()), slot, f)
    {
      WriteToSwapLocation(swapOut, slot);
      CopyIn(swapIn, f);
      RelocateTables(slot, f);
    }

    /** The entry of process i's table, wherever that is, that claims frame f. */
    method FindClaimOf(i: nat, f: nat) returns (j: nat)
      requires Valid() && i < PROCESSES && f < FRAMES && pageTableStart[i] < NOTALLOC
      ensures j == FirstClaim(TablePage(View(), i), f, 0)
    {
      if 0 <= pageTableStart[i] {
        j := FindClaim(pageTableStart[i], f);
      } else {
        var possibleTable := swap[IndexToSwap(pageTableStart[i])];
        j := FindClaimInPage(possibleTable, f);
      }
    }

    /** The loop over the processes up to the branch it leaves by. */
    method Search(f: nat, pid: nat) returns (v: Victim)
      requires Valid() && f < FRAMES && pid < PROCESSES
      ensures v == FindVictim(View(), f, pid, 0)
    {
      var i := 0;
      while i < PROCESSES
        invariant i <= PROCESSES && FindVictim(View(), f, pid, 0) == FindVictim(View(), f, pid, i)
      {
        if f == pageTableStart[i] {
          return if i == pid then IssuersTable else TableOf(i);
        }
        if pageTableStart[i] < NOTALLOC {
          var j := FindClaimOf(i, f);
          if j < PAGES {
            return PageOf(i, j);
          }
        }
        i := i + 1;
      }
      v := NoVictim;
    }

    /** swapPage. The result is false where the source would index outside its arrays; nothing is
        promised about the state then. */
    method SwapPage(slot: nat, f: nat, pid: nat) returns (ok: bool)
      requires Valid() && slot < SLOTS && f < FRAMES && pid < PROCESSES
      modifies this`nextSwap, memory, swap, swapStates, pageTableStart
      ensures ok == PagingModel.SwapPage(old(View()), slot, f, pid).Ok?
      ensures ok ==> Valid() && View() == PagingModel.SwapPage(old(View()), slot, f, pid).state
      decreases Away(View(), slot), Redirections(View(), f, pid)
    {
      var swapIn := swap[slot];
      var swapOut := CopyOut(f);
      var victim := Search(f, pid);
      match victim
      case NoVictim =>
        ok := true;
      case IssuersTable =>
        RedirectionEnds(View(), f, pid);
        AdvancePointer();
        ok := SwapPage(slot, nextSwap, pid);
      case TableOf(i) =>
        TakeTable(i, slot, f, swapIn, swapOut);
        ok := true;
      case PageOf(i, j) =>
        if 0 <= pageTableStart[i] <= 3 {
          TakePageOfResident(pageTableStart[i], j, slot, f, swapIn, swapOut);
          ok := true;
        } else if IndexToSwap(pageTableStart[i]) == slot {
          TakePageWithItsTable(i, j, slot, f, swapIn, swapOut);
          ok := true;
        } else {
          CascadeShrinks(View(), slot, f, i);
          BringPageIn(slot, f, swapIn, swapOut);
          ok := SwapPage(IndexToSwap(pageTableStart[i]), (f + 1) % 4, pid);
          if ok {
            ok := CloseCascade(i, j, slot);
          }
        }
    }

    /** After the nested call: correct the victim's entry through page_table_start[i]. */
    method CloseCascade(i: nat, j: nat, slot: nat) returns (ok: bool)
      requires Valid() && i < PROCESSES && j < PAGES && slot < SLOTS
      modifies this`nextSwap, memory
      ensures ok == MarkOutAt(old(View()), i, j, slot).Ok?
      ensures ok ==> Valid() && View() == Advance(MarkOutAt(old(View()), i, j, slot).state)
    {
      ok := 0 <= pageTableStart[i] <= 3;
      if ok {
        MarkEntryOut(pageTableStart[i], j, slot);
        AdvancePointer();
      }
    }

    // ----- The free list -----

    method FindFreeFrame() returns (i: nat)
      requires Valid()
      ensures i == FreeFrame(View())
    {
      i := 0;
      while i < FRAMES && freeList[i]
        invariant i <= FRAMES && FreeFrame(View()) == FirstNot(View().full, true, i)
      {
        i := i + 1;
      }
    }

    // ----- Instructions -----

    method FetchIssuersTable(pid: nat) returns (ok: bool)
      requires Valid() && pid < PROCESSES && View().table[pid] != NOTALLOC
      modifies this`nextSwap, memory, swap, swapStates, pageTableStart
      ensures ok == FetchTable(old(View()), pid).Ok?
      ensures ok ==> Valid() && View() == FetchTable(old(View()), pid).state
    {
      ok := true;
      if pageTableStart[pid] < 0 || pageTableStart[pid] > 3 {
        ok := SwapPage(IndexToSwap(pageTableStart[pid]), nextSwap, pid);
      }
    }

    /** A new, empty table in swap. */
    method AppendTable(pid: nat)
      requires Valid() && pid < PROCESSES
      modifies swap, swapStates, pageTableStart
      ensures Valid()
      ensures var a := AppendZero(old(View())); View() == a.(table := a.table[pid := SwapToIndex(LastUsed(a))])
    {
      AppendZeroPage();
      var n := NumPagesInSwap();
      pageTableStart[pid] := SwapToIndex(n - 1);
    }

    method MakeIssuersTable(pid: nat) returns (ok: bool)
      requires Valid() && pid < PROCESSES
      modifies this`nextSwap, memory, swap, swapStates, pageTableStart, freeList
      ensures ok == MakeTable(old(View()), pid).Ok?
      ensures ok ==> Valid() && View() == MakeTable(old(View()), pid).state
    {
      ok := true;
      if !(0 <= pageTableStart[pid] <= 3) {
        var i := FindFreeFrame();
        if i == FRAMES {
          if pageTableStart[pid] == NOTALLOC {
            AppendTable(pid);
          }
          ok := SwapPage(IndexToSwap(pageTableStart[pid]), nextSwap, pid);
        } else {
          pageTableStart[pid] := i;
          freeList[i] := true;
        }
      }
    }

    method SkipIssuersTable(pid: nat)
      requires Valid() && pid < PROCESSES
      modifies this`nextSwap
      ensures Valid() && View() == SkipTable(old(View()), pid)
    {
      if nextSwap == pageTableStart[pid] {
        AdvancePointer();
      }
    }

    method FaultPageIn(pid: nat, vp: nat) returns (ok: bool)
      requires Valid() && pid < PROCESSES && vp < PAGES && Resident(View(), pid)
      modifies this`nextSwap, memory, swap, swapStates, pageTableStart
      ensures ok == FaultIn(old(View()), pid, vp).Ok?
      ensures ok ==> Valid() && View() == FaultIn(old(View()), pid, vp).state
    {
      var T := pageTableStart[pid];
      SkipIssuersTable(pid);
      var oldSwap := nextSwap;
      ByteOfFrame(T, 2 * vp + 1);
      var slot := memory[16 * T + 2 * vp + 1];
      ok := false;
      if slot < SLOTS {
        ok := SwapPage(slot, nextSwap, pid);
        if ok {
          ByteOfFrame(T, 2 * vp);
          WriteByte(T, 2 * vp, SetInFrame(memory[16 * T + 2 * vp], oldSwap));
        }
      }
    }

    method MapIntoFreeFrame(pid: nat, vp: nat, protection: int, i: nat)
      requires Valid() && pid < PROCESSES && vp < PAGES && Resident(View(), pid) && i == FreeFrame(View()) < FRAMES
      modifies memory, freeList
      ensures Valid() && Ok(View()) == MapPage(old(View()), pid, vp, protection)
    {
      var T := pageTableStart[pid];
      freeList[i] := true;
      ByteOfFrame(T, 2 * vp);
      WriteByte(T, 2 * vp, MapFlags(memory[16 * T + 2 * vp], protection, i));
    }

    /** The page's slot: for a new page, freshly appended and written into its entry. */
    method ReserveSlot(pid: nat, vp: nat)
      requires Valid() && pid < PROCESSES && vp < PAGES && Resident(View(), pid)
      modifies memory, swap, swapStates
      ensures Valid()
      ensures var k := old(View());
              View() == if Alloc(EntryFlags(k, pid, vp)) then k
                else PutByte(AppendZero(k), k.table[pid], 2 * vp + 1, LastUsed(AppendZero(k)))
    {
      var T := pageTableStart[pid];
      ByteOfFrame(T, 2 * vp);
      if !Alloc(memory[16 * T + 2 * vp]) {
        AppendZeroPage();
        var n := NumPagesInSwap();
        WriteByte(T, 2 * vp + 1, n - 1);
      }
    }

    method MapThePage(pid: nat, vp: nat, protection: int) returns (ok: bool)
      requires Valid() && pid < PROCESSES && vp < PAGES && Resident(View(), pid)
      modifies this`nextSwap, memory, swap, swapStates, pageTableStart, freeList
      ensures ok == MapPage(old(View()), pid, vp, protection).Ok?
      ensures ok ==> Valid() && View() == MapPage(old(View()), pid, vp, protection).state
    {
      var i := FindFreeFrame();
      if i < FRAMES {
        MapIntoFreeFrame(pid, vp, protection, i);
        return true;
      }
      SkipIssuersTable(pid);
      ReserveSlot(pid, vp);
      ok := SwapInAs(pid, vp, protection);
    }

    /** The end of the branch without a free frame: swap the page in and write its entry. */
    method SwapInAs(pid: nat, vp: nat, protection: int) returns (ok: bool)
      requires Valid() && pid < PROCESSES && vp < PAGES && Resident(View(), pid)
      modifies this`nextSwap, memory, swap, swapStates, pageTableStart
      ensures var b := old(View()); var slot := EntrySlot(b, pid, vp);
        ok == (slot < SLOTS && PagingModel.SwapPage(b, slot, b.next, pid).Ok?)
      ensures ok ==>
        Valid() && var b := old(View()); var n := PagingModel.SwapPage(b, EntrySlot(b, pid, vp), b.next, pid).state;
        View() == PutByte(n, b.table[pid], 2 * vp, MapFlags(n.frames[b.table[pid]][2 * vp], protection, b.next))
    {
      var T, oldSwap := pageTableStart[pid], nextSwap;
      ByteOfFrame(T, 2 * vp + 1);
      var slot := memory[16 * T + 2 * vp + 1];
      ok := false;
      if slot < SLOTS {
        ok := SwapPage(slot, nextSwap, pid);
        if ok {
          ByteOfFrame(T, 2 * vp);
          WriteByte(T, 2 * vp, MapFlags(memory[16 * T + 2 * vp], protection, oldSwap));
        }
      }
    }

    /** map with the issuer's table resident. */
    method MapWithTable(pid: nat, vp: nat, protection: int) returns (ok: bool, output: Output)
      requires Valid() && pid < PROCESSES && vp < PAGES && Resident(View(), pid)
      modifies this`nextSwap, memory, swap, swapStates, pageTableStart, freeList
      ensures ok == MapResident(old(View()), pid, vp, protection).Reply?
      ensures ok ==> Valid() && Reply(View(), output) == MapResident(old(View()), pid, vp, protection)
    {
      var T := pageTableStart[pid];
      ByteOfFrame(T, 2 * vp);
      var flags := memory[16 * T + 2 * vp];
      ok, output := true, Mapped;
      if !Alloc(flags) || !InCore(flags) {
        ok := MapThePage(pid, vp, protection);
        if !ok {
          return;
        }
      }
      if Alloc(flags) {
        if Prot(flags) == protection {
          output := AlreadyMapped;
        } else {
          output := ProtectionUpdated;
          ByteOfFrame(T, 2 * vp);
          WriteByte(T, 2 * vp, SetProt(memory[16 * T + 2 * vp], protection));
        }
      }
    }

    method MapInst(pid: nat, va: nat, protection: int) returns (ok: bool, output: Output)
      requires Valid() && pid < PROCESSES && va < 64
      modifies this`nextSwap, memory, swap, swapStates, pageTableStart, freeList
      ensures ok == PagingModel.MapInst(old(View()), pid, va, protection).Reply?
      ensures ok ==> Valid() && Reply(View(), output) == PagingModel.MapInst(old(View()), pid, va, protection)
    {
      output := Mapped;
      ok := MakeIssuersTable(pid);
      if ok {
        ok := 0 <= pageTableStart[pid] <= 3;
        if ok {
          ok, output := MapWithTable(pid, va / 16, protection);
        }
      }
    }

    method TouchPage(pid: nat, vp: nat) returns (ok: bool)
      requires Valid() && pid < PROCESSES && vp < PAGES && Resident(View(), pid)
      modifies this`nextSwap, memory, swap, swapStates, pageTableStart
      ensures ok == Touch(old(View()), pid, vp).Ok?
      ensures ok ==> Valid() && View() == Touch(old(View()), pid, vp).state
    {
      var T := pageTableStart[pid];
      ByteOfFrame(T, 2 * vp);
      ok := true;
      if !InCore(memory[16 * T + 2 * vp]) {
        ok := FaultPageIn(pid, vp);
      }
    }

    method StoreInst(pid: nat, va: nat, value: int) returns (ok: bool, output: Output)
      requires Valid() && pid < PROCESSES && va < 64
      modifies this`nextSwap, memory, swap, swapStates, pageTableStart
      ensures ok == PagingModel.StoreInst(old(View()), pid, va, value).Reply?
      ensures ok ==> Valid() && Reply(View(), output) == PagingModel.StoreInst(old(View()), pid, va, value)
    {
      ok, output := true, NotAllocated;
      if pageTableStart[pid] == NOTALLOC {
        return;
      }
      ok := FetchIssuersTable(pid);
      if ok {
        ok := 0 <= pageTableStart[pid] <= 3;
      }
      if ok {
        ok, output := StoreWithTable(pid, va, value);
      }
    }

    /** store with the issuer's table resident. */
    method StoreWithTable(pid: nat, va: nat, value: int) returns (ok: bool, output: Output)
      requires Valid() && pid < PROCESSES && va < 64 && Resident(View(), pid)
      modifies this`nextSwap, memory, swap, swapStates, pageTableStart
      ensures ok == StoreFetched(old(View()), pid, va, value).Reply?
      ensures ok ==> Valid() && Reply(View(), output) == StoreFetched(old(View()), pid, va, value)
    {
      var T := pageTableStart[pid];
      ByteOfFrame(T, 2 * (va / 16));
      var flags := memory[16 * T + 2 * (va / 16)];
      if !Alloc(flags) {
        return true, NotAllocated;
      }
      if Prot(flags) == 0 {
        return true, ReadOnly;
      }
      ok := StoreResident(pid, va, value);
      output := Stored;
    }

    /** store once the page is known to be writable. */
    method StoreResident(pid: nat, va: nat, value: int) returns (ok: bool)
      requires Valid() && pid < PROCESSES && va < 64 && Resident(View(), pid)
      modifies this`nextSwap, memory, swap, swapStates, pageTableStart
      ensures ok == Touch(old(View()), pid, va / 16).Ok?
      ensures ok ==> Valid() && var n := Touch(old(View()), pid, va / 16).state;
        View() == PutByte(n, FrameOf(n.frames[old(View()).table[pid]][2 * (va / 16)]), va % 16, value % 256)
    {
      var T := pageTableStart[pid];
      ok := TouchPage(pid, va / 16);
      if ok {
        ByteOfFrame(T, 2 * (va / 16));
        WriteByte(FrameOf(memory[16 * T + 2 * (va / 16)]), va % 16, value % 256);
      }
    }

    method LoadInst(pid: nat, va: nat) returns (ok: bool, output: Output)
      requires Valid() && pid < PROCESSES && va < 64
      modifies this`nextSwap, memory, swap, swapStates, pageTableStart
      ensures ok == PagingModel.LoadInst(old(View()), pid, va).Reply?
      ensures ok ==> Valid() && Reply(View(), output) == PagingModel.LoadInst(old(View()), pid, va)
    {
      ok, output := true, NotAllocated;
      if pageTableStart[pid] == NOTALLOC {
        return;
      }
      ok := FetchIssuersTable(pid);
      if ok {
        ok := 0 <= pageTableStart[pid] <= 3;
      }
      if ok {
        ok, output := LoadWithTable(pid, va);
      }
    }

    /** load with the issuer's table resident. */
    method LoadWithTable(pid: nat, va: nat) returns (ok: bool, output: Output)
      requires Valid() && pid < PROCESSES && va < 64 && Resident(View(), pid)
      modifies this`nextSwap, memory, swap, swapStates, pageTableStart
      ensures ok == LoadFetched(old(View()), pid, va).Reply?
      ensures ok ==> Valid() && Reply(View(), output) == LoadFetched(old(View()), pid, va)
    {
      var T := pageTableStart[pid];
      ByteOfFrame(T, 2 * (va / 16));
      if !Alloc(memory[16 * T + 2 * (va / 16)]) {
        return true, NotAllocated;
      }
      var b;
      ok, b := LoadResident(pid, va);
      output := Loaded(b);
    }

    /** load once the page is known to be allocated. */
    method LoadResident(pid: nat, va: nat) returns (ok: bool, b: Byte)
      requires Valid() && pid < PROCESSES && va < 64 && Resident(View(), pid)
      modifies this`nextSwap, memory, swap, swapStates, pageTableStart
      ensures ok == Touch(old(View()), pid, va / 16).Ok?
      ensures ok ==> Valid() && View() == Touch(old(View()), pid, va / 16).state
      ensures ok ==> b == View().frames[FrameOf(View().frames[old(View()).table[pid]][2 * (va / 16)])][va % 16]
    {
      var T := pageTableStart[pid];
      ok := TouchPage(pid, va / 16);
      b := 0;
      if ok {
        ByteOfFrame(T, 2 * (va / 16));
        var g := FrameOf(memory[16 * T + 2 * (va / 16)]);
        ByteOfFrame(g, va % 16);
        b := memory[16 * g + va % 16];
      }
    }

    /** One instruction of the main loop. */
    method Process(c: Instruction) returns (ok: bool, output: Output)
      requires Valid() && WellFormed(c)
      modifies this`nextSwap, memory, swap, swapStates, pageTableStart, freeList
      ensures ok == Step(old(View()), c).Reply?
      ensures ok ==> Valid() && Reply(View(), output) == Step(old(View()), c)
    {
      match c
      case Map(pid, va, value) => ok, output := MapInst(pid, va, value);
      case Store(pid, va, value) => ok, output := StoreInst(pid, va, value);
      case Load(pid, va) => ok, output := LoadInst(pid, va);
    }
  }
}
