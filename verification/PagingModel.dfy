/**
 The paging memory manager: four 16-byte frames, four processes, page tables that are
 themselves pageable, and a swap area of twenty page-sized slots.

 This module gives the machine as a value and every procedure as a function on it. The
 class in PagingMachine performs the same procedures in place and is proved against these
 functions; the other Paging modules prove what the functions achieve.
 */
module PagingModel {

  const FRAMES := 4
  const PROCESSES := 4
  const PAGES := 4
  const SLOTS := 20
  const PAGE_SIZE := 16
  /** The page_table_start value of a process that never mapped anything. */
  const NOTALLOC := 4

  type Byte = b: int | 0 <= b < 256
  type Page = p: seq<Byte> | |p| == 16 witness [0, 0, 0, 0, 0, 0, 0, 0, 0, 0, 0, 0, 0, 0, 0, 0]

  const ZeroPage: Page := [0, 0, 0, 0, 0, 0, 0, 0, 0, 0, 0, 0, 0, 0, 0, 0]

  /** table[i] is a frame (0..3), NOTALLOC, or -(t+1) when process i's table sits in swap slot t. */
  datatype State = State(
    frames: seq<Page>,
    slots: seq<Page>,
    used: seq<bool>,
    table: seq<int>,
    full: seq<bool>,
    next: int)

  /** Wild: the source would index an array outside its bounds, so nothing is promised after it. */
  datatype Outcome = Ok(state: State) | Wild

  predicate Shape(s: State) {
    && |s.frames| == FRAMES
    && |s.slots| == SLOTS
    && |s.used| == SLOTS
    && |s.table| == PROCESSES
    && |s.full| == FRAMES
    && (forall i | 0 <= i < PROCESSES :: -SLOTS <= s.table[i] <= NOTALLOC)
    && 0 <= s.next < FRAMES
  }

  function Initial(): (s: State)
    ensures Shape(s)
  {
    State(seq(FRAMES, _ => ZeroPage), seq(SLOTS, _ => ZeroPage), seq(SLOTS, _ => false),
          seq(PROCESSES, _ => NOTALLOC), seq(FRAMES, _ => false), 0)
  }

  // ----- The bit fields of a table entry: flags in byte 2j, swap slot in byte 2j+1 -----

  predicate Alloc(b: Byte) { b % 2 == 1 }
  predicate InCore(b: Byte) { (b / 2) % 2 == 1 }
  function Prot(b: Byte): (r: nat) ensures r < 2 { (b / 4) % 2 }
  function FrameOf(b: Byte): (r: nat) ensures r < FRAMES { (b / 8) % 4 }

  function ClearValid(b: Byte): (r: Byte)
    ensures Alloc(r) == Alloc(b) && !InCore(r) && Prot(r) == Prot(b) && FrameOf(r) == FrameOf(b)
  {
    if InCore(b) then b - 2 else b
  }

  /** A byte from its fields: three bits that no one uses, the frame, and the three flags. */
  function Pack(rest: nat, frame: nat, prot: nat, inCore: bool, alloc: bool): (r: Byte)
    requires rest < 8 && frame < FRAMES && prot < 2
    ensures Alloc(r) == alloc && InCore(r) == inCore && Prot(r) == prot && FrameOf(r) == frame
  {
    var a, v := if alloc then 1 else 0, if inCore then 2 else 0;
    var high := 4 * rest + frame;
    var r := 8 * high + 4 * prot + v + a;
    assert r / 2 == 4 * high + 2 * prot + v / 2;
    assert r / 4 == 2 * high + prot;
    assert r / 8 == high;
    r
  }

  function SetInFrame(b: Byte, frame: nat): (r: Byte)
    requires frame < FRAMES
    ensures Alloc(r) == Alloc(b) && InCore(r) && Prot(r) == Prot(b) && FrameOf(r) == frame
  {
    Pack(b / 32, frame, Prot(b), true, Alloc(b))
  }

  /** The field is one bit wide, so any int assigned to it is reduced modulo 2. */
  function SetProt(b: Byte, protection: int): (r: Byte)
    ensures Alloc(r) == Alloc(b) && InCore(r) == InCore(b) && Prot(r) == protection % 2 && FrameOf(r) == FrameOf(b)
  {
    Pack(b / 32, FrameOf(b), protection % 2, InCore(b), Alloc(b))
  }

  function SetAlloc(b: Byte): (r: Byte)
    ensures Alloc(r) && InCore(r) == InCore(b) && Prot(r) == Prot(b) && FrameOf(r) == FrameOf(b)
  {
    b / 2 * 2 + 1
  }

  /** Entry j of a table page says: allocated, resident, in frame f. */
  predicate Claims(page: Page, j: nat, f: nat)
    requires j < PAGES
  {
    Alloc(page[2 * j]) && InCore(page[2 * j]) && FrameOf(page[2 * j]) == f
  }

  /** The first entry from j on that claims frame f, or PAGES. */
  function FirstClaim(page: Page, f: nat, j: nat): (r: nat)
    requires j <= PAGES
    ensures j <= r <= PAGES
    ensures r < PAGES ==> Claims(page, r, f)
    ensures forall k | j <= k < r :: !Claims(page, k, f)
    decreases PAGES - j
  {
    if j == PAGES || Claims(page, j, f) then j else FirstClaim(page, f, j + 1)
  }

  /** entry->valid = 0; entry->swapspace = slot. */
  function MarkOut(page: Page, j: nat, slot: nat): (r: Page)
    requires j < PAGES && slot < SLOTS
  {
    page[2 * j := ClearValid(page[2 * j])][2 * j + 1 := slot]
  }

  // ----- swapPage -----

  function IndexToSwap(index: int): int { -(index + 1) }
  function SwapToIndex(slot: int): int { -(slot + 1) }

  datatype Victim = NoVictim | IssuersTable | TableOf(pid: nat) | PageOf(pid: nat, vp: nat)

  /** The page holding process i's table, wherever it is. */
  function TablePage(s: State, i: nat): Page
    requires Shape(s) && i < PROCESSES
  {
    if 0 <= s.table[i] <= 3 then s.frames[s.table[i]]
    else if s.table[i] < 0 then s.slots[IndexToSwap(s.table[i])]
    else ZeroPage
  }

  /** Whom frame f belongs to, as the loop over the processes from i on decides it.
      A process without a table matches nothing. */
  function FindVictim(s: State, f: nat, pid: nat, i: nat): (v: Victim)
    requires Shape(s) && i <= PROCESSES
    ensures v.TableOf? ==> i <= v.pid < PROCESSES && s.table[v.pid] == f
    ensures v.PageOf? ==> i <= v.pid < PROCESSES && v.vp < PAGES && s.table[v.pid] != f && s.table[v.pid] < NOTALLOC
                          && Claims(TablePage(s, v.pid), v.vp, f)
    ensures v.IssuersTable? ==> i <= pid < PROCESSES && s.table[pid] == f
    decreases PROCESSES - i
  {
    if i == PROCESSES then NoVictim
    else if 0 <= s.table[i] <= 3 && s.table[i] == f then
      if i == pid then IssuersTable else TableOf(i)
    else if s.table[i] < NOTALLOC && FirstClaim(TablePage(s, i), f, 0) < PAGES then
      PageOf(i, FirstClaim(TablePage(s, i), f, 0))
    else FindVictim(s, f, pid, i + 1)
  }

  /** Exchange the contents of frame f and slot. */
  function Exchange(s: State, slot: nat, f: nat): State
    requires Shape(s) && slot < SLOTS && f < FRAMES
  {
    s.(frames := s.frames[f := s.slots[slot]], slots := s.slots[slot := s.frames[f]], used := s.used[slot := true])
  }

  /** Every process whose table was in the slot now has it in frame f. */
  function Relocate(table: seq<int>, slot: nat, f: nat): (r: seq<int>)
    ensures |r| == |table|
  {
    seq(|table|, k requires 0 <= k < |table| => if IndexToSwap(table[k]) == slot then f else table[k])
  }

  function BringIn(s: State, slot: nat, f: nat): (r: State)
    requires Shape(s) && slot < SLOTS && f < FRAMES
    ensures Shape(r)
  {
    Exchange(s, slot, f).(table := Relocate(s.table, slot, f))
  }

  function Advance(s: State): State { s.(next := (s.next + 1) % 4) }

  /** Invalidate entry j of process i's table through page_table_start[i]; out of bounds unless that is a frame. */
  function MarkOutAt(s: State, i: nat, j: nat, slot: nat): (r: Outcome)
    requires Shape(s) && i < PROCESSES && j < PAGES && slot < SLOTS
    ensures r.Ok? ==> Shape(r.state) && r.state.table == s.table && r.state.next == s.next
  {
    if 0 <= s.table[i] <= 3 then
      Ok(s.(frames := s.frames[s.table[i] := MarkOut(s.frames[s.table[i]], j, slot)]))
    else Wild
  }

  /** How many tables are in swap, the one in the given slot not counted. */
  function Away(s: State, slot: nat): nat
    requires Shape(s)
  {
    AwayBit(s, slot, 0) + AwayBit(s, slot, 1) + AwayBit(s, slot, 2) + AwayBit(s, slot, 3)
  }

  function AwayBit(s: State, slot: nat, k: nat): nat
    requires Shape(s) && k < PROCESSES
  {
    if s.table[k] < 0 && IndexToSwap(s.table[k]) != slot then 1 else 0
  }

  /** How many more redirections the pointer can need before it leaves the issuer's table. */
  function Redirections(s: State, f: nat, pid: nat): nat
    requires Shape(s) && pid < PROCESSES
  {
    if s.table[pid] != f then 0 else if (s.next + 1) % 4 == f then 2 else 1
  }

  function SwapPage(s: State, slot: nat, f: nat, pid: nat): (r: Outcome)
    requires Shape(s) && slot < SLOTS && f < FRAMES && pid < PROCESSES
    ensures r.Ok? ==> Shape(r.state)
    decreases Away(s, slot), Redirections(s, f, pid)
  {
    match FindVictim(s, f, pid, 0)
    case NoVictim => Ok(s)
    case IssuersTable =>
      RedirectionEnds(s, f, pid);
      SwapPage(Advance(s), slot, Advance(s).next, pid)
    case TableOf(i) =>
      var b := BringIn(s, slot, f);
      Ok(Advance(b.(table := b.table[i := SwapToIndex(slot)])))
    case PageOf(i, j) =>
      if 0 <= s.table[i] <= 3 then
        var marked := s.(frames := s.frames[s.table[i] := MarkOut(s.frames[s.table[i]], j, slot)]);
        Ok(Advance(BringIn(marked, slot, f)))
      else if IndexToSwap(s.table[i]) == slot then
        var e := Exchange(s, slot, f);
        Ok(Advance(e.(frames := e.frames[f := MarkOut(e.frames[f], j, slot)], table := s.table[i := f])))
      else
        var b := BringIn(s, slot, f);
        CascadeShrinks(s, slot, f, i);
        match SwapPage(b, IndexToSwap(b.table[i]), (f + 1) % 4, pid)
        case Wild => Wild
        case Ok(n) =>
          match MarkOutAt(n, i, j, slot)
          case Wild => Wild
          case Ok(m) => Ok(Advance(m))
  }

  lemma RedirectionEnds(s: State, f: nat, pid: nat)
    requires Shape(s) && f < FRAMES && pid < PROCESSES && s.table[pid] == f
    ensures Shape(Advance(s)) && Redirections(Advance(s), Advance(s).next, pid) < Redirections(s, f, pid)
    ensures forall slot: nat :: Away(Advance(s), slot) == Away(s, slot)
  {
  }

  /** Fetching a victim's table leaves fewer tables away: the measure by which swapPage terminates. */
  lemma CascadeShrinks(s: State, slot: nat, f: nat, i: nat)
    requires Shape(s) && slot < SLOTS && f < FRAMES && i < PROCESSES && s.table[i] < 0
    requires IndexToSwap(s.table[i]) != slot
    ensures BringIn(s, slot, f).table[i] == s.table[i]
    ensures Away(BringIn(s, slot, f), IndexToSwap(s.table[i])) < Away(s, slot)
  {
    var b, t := BringIn(s, slot, f), IndexToSwap(s.table[i]);
    assert forall k | 0 <= k < PROCESSES :: AwayBit(b, t, k) <= AwayBit(s, slot, k);
    assert AwayBit(b, t, i) < AwayBit(s, slot, i);
  }

  // ----- Swap allocation and the free list -----

  /** The first index from i on at which the flags differ from `skip`, or their number. */
  function FirstNot(flags: seq<bool>, skip: bool, i: nat): (r: nat)
    requires i <= |flags|
    ensures i <= r <= |flags|
    ensures r < |flags| ==> flags[r] != skip
    ensures forall k | i <= k < r :: flags[k] == skip
    decreases |flags| - i
  {
    if i == |flags| || flags[i] != skip then i else FirstNot(flags, skip, i + 1)
  }

  function CountUsed(flags: seq<bool>): (n: nat)
    ensures n <= |flags|
    ensures n == 0 <==> forall k | 0 <= k < |flags| :: !flags[k]
  {
    if flags == [] then 0
    else CountUsed(flags[..|flags| - 1]) + if flags[|flags| - 1] then 1 else 0
  }

  /** append_page_to_swap with a page of zeroes; the slot chosen by the source is then
      computed separately, as the number of occupied slots minus one. */
  function AppendZero(s: State): (r: State)
    requires Shape(s)
    ensures Shape(r) && CountUsed(r.used) > 0
  {
    var t := FirstNot(s.used, true, 0);
    assert t < SLOTS || s.used[0];
    if t == SLOTS then s
    else
      var used := s.used[t := true];
      assert used[t];
      s.(slots := s.slots[t := ZeroPage], used := used)
  }

  function LastUsed(s: State): (t: nat)
    requires Shape(s) && CountUsed(s.used) > 0
    ensures t < SLOTS
  {
    CountUsed(s.used) - 1
  }

  function FreeFrame(s: State): nat
    requires Shape(s)
  {
    FirstNot(s.full, true, 0)
  }

  // ----- Instructions -----

  datatype Instruction =
    | Map(pid: nat, va: nat, value: int)
    | Store(pid: nat, va: nat, value: int)
    | Load(pid: nat, va: nat)

  datatype Output = Mapped | AlreadyMapped | ProtectionUpdated | NotAllocated | ReadOnly | Stored | Loaded(value: Byte)

  datatype Reply = Reply(state: State, output: Output) | Lost

  predicate WellFormed(c: Instruction) { c.pid < PROCESSES && c.va < 64 }

  predicate Resident(s: State, pid: nat)
    requires Shape(s) && pid < PROCESSES
  {
    0 <= s.table[pid] <= 3
  }

  function EntryFlags(s: State, pid: nat, vp: nat): Byte
    requires Shape(s) && pid < PROCESSES && vp < PAGES && Resident(s, pid)
  {
    s.frames[s.table[pid]][2 * vp]
  }

  function EntrySlot(s: State, pid: nat, vp: nat): Byte
    requires Shape(s) && pid < PROCESSES && vp < PAGES && Resident(s, pid)
  {
    s.frames[s.table[pid]][2 * vp + 1]
  }

  function PutByte(s: State, f: nat, off: nat, b: Byte): (r: State)
    requires Shape(s) && f < FRAMES && off < PAGE_SIZE
    ensures Shape(r)
  {
    s.(frames := s.frames[f := s.frames[f][off := b]])
  }

  /** The first part of load and store: fetch the issuer's table if it is in swap. */
  function FetchTable(s: State, pid: nat): (r: Outcome)
    requires Shape(s) && pid < PROCESSES && s.table[pid] != NOTALLOC
    ensures r.Ok? ==> Shape(r.state)
  {
    if Resident(s, pid) then Ok(s) else SwapPage(s, IndexToSwap(s.table[pid]), s.next, pid)
  }

  /** The first part of map: the issuer's table is created when it has none. */
  function MakeTable(s: State, pid: nat): (r: Outcome)
    requires Shape(s) && pid < PROCESSES
    ensures r.Ok? ==> Shape(r.state)
  {
    if Resident(s, pid) then Ok(s)
    else if FreeFrame(s) < FRAMES then
      Ok(s.(table := s.table[pid := FreeFrame(s)], full := s.full[FreeFrame(s) := true]))
    else if s.table[pid] == NOTALLOC then
      var a := AppendZero(s);
      var b := a.(table := a.table[pid := SwapToIndex(LastUsed(a))]);
      SwapPage(b, LastUsed(a), b.next, pid)
    else SwapPage(s, IndexToSwap(s.table[pid]), s.next, pid)
  }

  /** The pointer never starts a data fault on the issuer's own table. */
  function SkipTable(s: State, pid: nat): (r: State)
    requires Shape(s) && pid < PROCESSES
    ensures Shape(r) && r.next != r.table[pid] && r.table == s.table && r.frames == s.frames
  {
    if s.next == s.table[pid] then Advance(s) else s
  }

  /** Bring the swapped page (pid, vp) into the frame nextSwap names and record it in its entry.
      The entry is written through the address computed before the swap. */
  function FaultIn(s: State, pid: nat, vp: nat): (r: Outcome)
    requires Shape(s) && pid < PROCESSES && vp < PAGES && Resident(s, pid)
    ensures r.Ok? ==> Shape(r.state)
  {
    var k := SkipTable(s, pid);
    if EntrySlot(k, pid, vp) >= SLOTS then Wild
    else match SwapPage(k, EntrySlot(k, pid, vp), k.next, pid)
      case Wild => Wild
      case Ok(n) =>
        Ok(PutByte(n, s.table[pid], 2 * vp, SetInFrame(n.frames[s.table[pid]][2 * vp], k.next)))
  }

  function MapFlags(b: Byte, protection: int, frame: nat): (r: Byte)
    requires frame < FRAMES
  {
    SetProt(SetInFrame(SetAlloc(b), frame), protection)
  }

  /** The middle part of map: give (pid, vp) a frame when it has none. */
  function MapPage(s: State, pid: nat, vp: nat, protection: int): (r: Outcome)
    requires Shape(s) && pid < PROCESSES && vp < PAGES && Resident(s, pid)
    ensures r.Ok? ==> Shape(r.state)
  {
    var T := s.table[pid];
    if FreeFrame(s) < FRAMES then
      Ok(PutByte(s.(full := s.full[FreeFrame(s) := true]), T, 2 * vp,
                 MapFlags(s.frames[T][2 * vp], protection, FreeFrame(s))))
    else
      var k := SkipTable(s, pid);
      var a := AppendZero(k);
      var b := if Alloc(EntryFlags(s, pid, vp)) then k else PutByte(a, T, 2 * vp + 1, LastUsed(a));
      if EntrySlot(b, pid, vp) >= SLOTS then Wild
      else match SwapPage(b, EntrySlot(b, pid, vp), b.next, pid)
        case Wild => Wild
        case Ok(n) => Ok(PutByte(n, T, 2 * vp, MapFlags(n.frames[T][2 * vp], protection, b.next)))
  }

  /** The last part of map, n being the state in which the page has its frame and t the one before. */
  function FinishMap(t: State, n: State, pid: nat, vp: nat, protection: int): (r: Reply)
    requires Shape(t) && Shape(n) && pid < PROCESSES && vp < PAGES && Resident(t, pid)
    ensures r.Reply? && Shape(r.state)
  {
    var T, flags := t.table[pid], EntryFlags(t, pid, vp);
    if !Alloc(flags) then Reply(n, Mapped)
    else if Prot(flags) == protection then Reply(n, AlreadyMapped)
    else Reply(PutByte(n, T, 2 * vp, SetProt(n.frames[T][2 * vp], protection)), ProtectionUpdated)
  }

  /** map once the issuer's table is resident. */
  function MapResident(t: State, pid: nat, vp: nat, protection: int): (r: Reply)
    requires Shape(t) && pid < PROCESSES && vp < PAGES && Resident(t, pid)
    ensures r.Reply? ==> Shape(r.state)
  {
    var flags := EntryFlags(t, pid, vp);
    match (if !Alloc(flags) || !InCore(flags) then MapPage(t, pid, vp, protection) else Ok(t))
    case Wild => Lost
    case Ok(n) => FinishMap(t, n, pid, vp, protection)
  }

  function MapInst(s: State, pid: nat, va: nat, protection: int): (r: Reply)
    requires Shape(s) && pid < PROCESSES && va < 64
    ensures r.Reply? ==> Shape(r.state)
  {
    match MakeTable(s, pid)
    case Wild => Lost
    case Ok(t) => if Resident(t, pid) then MapResident(t, pid, va / 16, protection) else Lost
  }

  /** What store and load do once the table is resident: fault the page in if needed. */
  function Touch(s: State, pid: nat, vp: nat): (r: Outcome)
    requires Shape(s) && pid < PROCESSES && vp < PAGES && Resident(s, pid)
    ensures r.Ok? ==> Shape(r.state)
  {
    if InCore(EntryFlags(s, pid, vp)) then Ok(s) else FaultIn(s, pid, vp)
  }

  /** store once the issuer's table is resident. */
  function StoreFetched(t: State, pid: nat, va: nat, value: int): (r: Reply)
    requires Shape(t) && pid < PROCESSES && va < 64 && Resident(t, pid)
    ensures r.Reply? ==> Shape(r.state)
  {
    if !Alloc(EntryFlags(t, pid, va / 16)) then Reply(t, NotAllocated)
    else if Prot(EntryFlags(t, pid, va / 16)) == 0 then Reply(t, ReadOnly)
    else match Touch(t, pid, va / 16)
      case Wild => Lost
      case Ok(n) =>
        Reply(PutByte(n, FrameOf(n.frames[t.table[pid]][2 * (va / 16)]), va % 16, value % 256), Stored)
  }

  function StoreInst(s: State, pid: nat, va: nat, value: int): (r: Reply)
    requires Shape(s) && pid < PROCESSES && va < 64
    ensures r.Reply? ==> Shape(r.state)
  {
    if s.table[pid] == NOTALLOC then Reply(s, NotAllocated)
    else match FetchTable(s, pid)
      case Wild => Lost
      case Ok(t) => if Resident(t, pid) then StoreFetched(t, pid, va, value) else Lost
  }

  /** load once the issuer's table is resident. */
  function LoadFetched(t: State, pid: nat, va: nat): (r: Reply)
    requires Shape(t) && pid < PROCESSES && va < 64 && Resident(t, pid)
    ensures r.Reply? ==> Shape(r.state)
  {
    if !Alloc(EntryFlags(t, pid, va / 16)) then Reply(t, NotAllocated)
    else match Touch(t, pid, va / 16)
      case Wild => Lost
      case Ok(n) =>
        Reply(n, Loaded(n.frames[FrameOf(n.frames[t.table[pid]][2 * (va / 16)])][va % 16]))
  }

  function LoadInst(s: State, pid: nat, va: nat): (r: Reply)
    requires Shape(s) && pid < PROCESSES && va < 64
    ensures r.Reply? ==> Shape(r.state)
  {
    if s.table[pid] == NOTALLOC then Reply(s, NotAllocated)
    else match FetchTable(s, pid)
      case Wild => Lost
      case Ok(t) => if Resident(t, pid) then LoadFetched(t, pid, va) else Lost
  }

  function Step(s: State, c: Instruction): (r: Reply)
    requires Shape(s) && WellFormed(c)
    ensures r.Reply? ==> Shape(r.state)
  {
    match c
    case Map(pid, va, value) => MapInst(s, pid, va, value)
    case Store(pid, va, value) => StoreInst(s, pid, va, value)
    case Load(pid, va) => LoadInst(s, pid, va)
  }
}
