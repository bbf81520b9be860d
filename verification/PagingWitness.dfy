/**
 A program of nine instructions, the eighth of which, a load, runs into itself, and the ninth of which loses a byte
 that was stored: the refinement cannot be had without its condition. Of each state only what the next step looks at
 is kept.
 */
module PagingWitness {
  import opened Basics
  import opened PagingModel
  import opened PagingFaults
  import opened PagingRefinement
  import opened PagingExactness
  import opened PagingRuns
  import opened PagingExposure

  /** A table entry: nothing, a page in a frame, or a page in a swap slot. */
  datatype Ent = Off | In(f: nat) | Out(slot: nat)

  predicate Is(p: Page, j: nat, e: Ent)
    requires j < PAGES
  {
    match e
    case Off => !Alloc(p[2 * j])
    case In(f) => Alloc(p[2 * j]) && InCore(p[2 * j]) && Prot(p[2 * j]) == 1 && FrameOf(p[2 * j]) == f
    case Out(slot) => Alloc(p[2 * j]) && !InCore(p[2 * j]) && Prot(p[2 * j]) == 1 && p[2 * j + 1] == slot
  }

  /** A table whose first two entries are a and b, with nothing behind them. */
  predicate Tbl(p: Page, a: Ent, b: Ent) { Is(p, 0, a) && Is(p, 1, b) && Is(p, 2, Off) && Is(p, 3, Off) }

  predicate Looks(s: State, table: seq<int>, next: int, free: nat, n: nat) {
    && Shape(s) && s.table == table && s.next == next && free <= FRAMES && n <= SLOTS
    && (forall f | 0 <= f < FRAMES :: s.full[f] == (f < free))
    && (forall k | 0 <= k < SLOTS :: s.used[k] == (k < n))
  }

  // ----- Small facts -----

  lemma {:induction false} FirstNotIs(flags: seq<bool>, i: nat, k: nat)
    requires i <= k <= |flags| && (forall j | i <= j < k :: flags[j]) && (k < |flags| ==> !flags[k])
    ensures FirstNot(flags, true, i) == k
    decreases k - i
  {
    if i < k {
      FirstNotIs(flags, i + 1, k);
    }
  }

  lemma {:induction false} CountIs(flags: seq<bool>, n: nat)
    requires n <= |flags| && forall k | 0 <= k < |flags| :: flags[k] == (k < n)
    ensures CountUsed(flags) == n
  {
    if flags != [] {
      CountIs(flags[..|flags| - 1], if n == |flags| then n - 1 else n);
    }
  }

  lemma FreeIs(s: State, table: seq<int>, next: int, free: nat, n: nat)
    requires Looks(s, table, next, free, n)
    ensures FreeFrame(s) == free
  {
    FirstNotIs(s.full, 0, free);
  }

  lemma AppendIs(s: State, table: seq<int>, next: int, free: nat, n: nat)
    requires Looks(s, table, next, free, n) && n < SLOTS
    ensures AppendZero(s) == s.(slots := s.slots[n := ZeroPage], used := s.used[n := true])
    ensures LastUsed(AppendZero(s)) == n && Looks(AppendZero(s), table, next, free, n + 1)
  {
    FirstNotIs(s.used, 0, n);
    CountIs(AppendZero(s).used, n + 1);
  }

  lemma ClaimIs(p: Page, a: Ent, b: Ent, f: nat)
    requires Tbl(p, a, b)
    ensures FirstClaim(p, f, 0) == if a == In(f) then 0 else if b == In(f) then 1 else PAGES
  {
    assert FirstClaim(p, f, 4) == 4;
    assert FirstClaim(p, f, 3) == 4;
    assert FirstClaim(p, f, 2) == 4;
    assert FirstClaim(p, f, 1) == if b == In(f) then 1 else 4;
  }

  lemma MarkedOut(p: Page, a: Ent, b: Ent, j: nat, slot: nat)
    requires Tbl(p, a, b) && j < 2 && slot < SLOTS && (if j == 0 then a else b) != Off
    ensures Tbl(MarkOut(p, j, slot), if j == 0 then Out(slot) else a, if j == 1 then Out(slot) else b)
  {
    var q := MarkOut(p, j, slot);
    assert q[4] == p[4] && q[6] == p[6] && q[2 * (1 - j)] == p[2 * (1 - j)] && q[2 * (1 - j) + 1] == p[2 * (1 - j) + 1];
  }

  lemma MappedIn(p: Page, a: Ent, b: Ent, j: nat, f: nat)
    requires Tbl(p, a, b) && j < 2 && f < FRAMES
    ensures Tbl(p[2 * j := MapFlags(p[2 * j], 1, f)], if j == 0 then In(f) else a, if j == 1 then In(f) else b)
  {
    var q: Page := p[2 * j := MapFlags(p[2 * j], 1, f)];
    assert q[4] == p[4] && q[6] == p[6] && q[2 * (1 - j)] == p[2 * (1 - j)] && q[2 * (1 - j) + 1] == p[2 * (1 - j) + 1];
  }

  /** The loop over the processes passes over the i-th one. */
  predicate Passes(s: State, f: nat, i: nat)
    requires Shape(s) && i < PROCESSES
  {
    s.table[i] != f && (s.table[i] == NOTALLOC || FirstClaim(TablePage(s, i), f, 0) == PAGES)
  }

  lemma {:induction false} VictimIs(s: State, f: nat, pid: nat, i: nat, j: nat)
    requires Shape(s) && i <= j < PROCESSES && f < FRAMES && (forall k | i <= k < j :: Passes(s, f, k))
    requires !Passes(s, f, j)
    ensures FindVictim(s, f, pid, i) ==
      if s.table[j] == f then (if j == pid then IssuersTable else TableOf(j))
        else PageOf(j, FirstClaim(TablePage(s, j), f, 0))
    decreases j - i
  {
    if i < j {
      assert Passes(s, f, i);
      VictimIs(s, f, pid, i + 1, j);
    }
  }

  // ----- The ways of map that the run takes -----

  /** What is left alone when the table in frame T is written. */
  predicate OnlyFrame(s: State, r: State, T: nat) {
    Shape(s) && Shape(r) && (forall f | 0 <= f < FRAMES && f != T :: r.frames[f] == s.frames[f]) &&
      r == s.(frames := r.frames)
  }

  lemma MapIntoFree(t: State, pid: nat, vp: nat, g: nat, a: Ent, b: Ent) returns (r: State)
    requires Shape(t) && pid < PROCESSES && vp < 2 && Resident(t, pid) && Tbl(t.frames[t.table[pid]], a, b)
    requires (if vp == 0 then a else b) == Off && FreeFrame(t) == g < FRAMES
    ensures MapResident(t, pid, vp, 1) == Reply(r, Mapped)
    ensures OnlyFrame(t.(full := t.full[g := true]), r, t.table[pid])
    ensures Tbl(r.frames[t.table[pid]], if vp == 0 then In(g) else a, if vp == 1 then In(g) else b)
  {
    var T := t.table[pid];
    MappedIn(t.frames[T], a, b, vp, g);
    r := PutByte(t.(full := t.full[g := true]), T, 2 * vp, MapFlags(t.frames[T][2 * vp], 1, g));
    assert MapPage(t, pid, vp, 1) == Ok(r);
  }

  /** The state in which map swaps a new page in. */
  function Granting(t: State, pid: nat, vp: nat, n: nat): (r: State)
    requires Shape(t) && pid < PROCESSES && vp < PAGES && Resident(t, pid) && n < SLOTS
    ensures Shape(r)
  {
    PutByte(t.(slots := t.slots[n := ZeroPage], used := t.used[n := true]), t.table[pid], 2 * vp + 1, n)
  }

  lemma GrantingTable(t: State, pid: nat, vp: nat, n: nat, a: Ent, b: Ent)
    requires Shape(t) && pid < PROCESSES && vp < 2 && Resident(t, pid) && n < SLOTS && Tbl(t.frames[t.table[pid]], a, b)
    requires (if vp == 0 then a else b) == Off
    ensures var r := Granting(t, pid, vp, n);
      OnlyFrame(t.(slots := t.slots[n := ZeroPage], used := t.used[n := true]), r, t.table[pid]) &&
        Tbl(r.frames[t.table[pid]], a, b)
  {
    var p := t.frames[t.table[pid]];
    var q: Page := p[2 * vp + 1 := n];
    assert q[0] == p[0] && q[2] == p[2] && q[4] == p[4] && q[6] == p[6] && q[2 * (1 - vp) + 1] == p[2 * (1 - vp) + 1];
  }

  lemma MapIntoSwap(t: State, pid: nat, vp: nat, table: seq<int>, next: nat, n: nat, m: State, a: Ent, b: Ent)
    returns (r: State)
    requires Looks(t, table, next, FRAMES, n) && n < SLOTS && pid < PROCESSES && vp < 2
    requires Resident(t, pid) && !Alloc(EntryFlags(t, pid, vp)) && next != table[pid]
    requires SwapPage(Granting(t, pid, vp, n), n, next, pid) == Ok(m) && Shape(m) && Tbl(m.frames[table[pid]], a, b)
    ensures MapResident(t, pid, vp, 1) == Reply(r, Mapped) && OnlyFrame(m, r, table[pid])
    ensures Tbl(r.frames[table[pid]], if vp == 0 then In(next) else a, if vp == 1 then In(next) else b)
  {
    r := EntryWritten(m, table[pid], vp, next, a, b);
    SwapsNewIn(t, pid, vp, table, next, n, m);
    assert MapResident(t, pid, vp, 1) == FinishMap(t, r, pid, vp, 1);
  }

  lemma EntryWritten(m: State, T: nat, vp: nat, next: nat, a: Ent, b: Ent) returns (r: State)
    requires Shape(m) && T < FRAMES && vp < 2 && next < FRAMES && Tbl(m.frames[T], a, b)
    ensures r == PutByte(m, T, 2 * vp, MapFlags(m.frames[T][2 * vp], 1, next)) && OnlyFrame(m, r, T)
    ensures Tbl(r.frames[T], if vp == 0 then In(next) else a, if vp == 1 then In(next) else b)
  {
    MappedIn(m.frames[T], a, b, vp, next);
    r := PutByte(m, T, 2 * vp, MapFlags(m.frames[T][2 * vp], 1, next));
  }

  lemma SwapsNewIn(t: State, pid: nat, vp: nat, table: seq<int>, next: nat, n: nat, m: State)
    requires Looks(t, table, next, FRAMES, n) && n < SLOTS && pid < PROCESSES && vp < 2
    requires Resident(t, pid) && !Alloc(EntryFlags(t, pid, vp)) && next != table[pid]
    requires SwapPage(Granting(t, pid, vp, n), n, next, pid) == Ok(m) && Shape(m)
    ensures MapPage(t, pid, vp, 1) ==
      Ok(PutByte(m, table[pid], 2 * vp, MapFlags(m.frames[table[pid]][2 * vp], 1, next)))
  {
    FreeIs(t, table, next, FRAMES, n);
    AppendIs(t, table, next, FRAMES, n);
    var k := Granting(t, pid, vp, n);
    assert EntrySlot(k, pid, vp) == n && k.next == next;
  }

  /** Eviction of a table. */
  lemma SwapsTable(s: State, slot: nat, f: nat, pid: nat, j: nat) returns (r: State)
    requires Shape(s) && slot < SLOTS && f < FRAMES && pid < PROCESSES && j < PROCESSES && j != pid
    requires (forall k | 0 <= k < j :: Passes(s, f, k)) && s.table[j] == f
    ensures SwapPage(s, slot, f, pid) == Ok(r)
    ensures r.table == Relocate(s.table, slot, f)[j := SwapToIndex(slot)] && r.next == (s.next + 1) % 4
    ensures r.full == s.full
    ensures r.frames == s.frames[f := s.slots[slot]] && r.slots == s.slots[slot := s.frames[f]]
    ensures r.used == s.used[slot := true] && Shape(r)
  {
    VictimIs(s, f, pid, 0, j);
    r := SwapPage(s, slot, f, pid).state;
  }

  /** Eviction of a page whose table is the page brought in. */
  lemma SwapsUnderItsTable(s: State, slot: nat, f: nat, pid: nat, i: nat, j: nat) returns (r: State)
    requires Shape(s) && slot < SLOTS && f < FRAMES && pid < PROCESSES && i < PROCESSES && j < PAGES
    requires (forall k | 0 <= k < i :: Passes(s, f, k)) && s.table[i] == SwapToIndex(slot)
    requires FirstClaim(s.slots[slot], f, 0) == j
    ensures SwapPage(s, slot, f, pid) == Ok(r)
    ensures var e := Exchange(s, slot, f);
      r == Advance(e.(frames := e.frames[f := MarkOut(s.slots[slot], j, slot)], table := s.table[i := f]))
  {
    VictimIs(s, f, pid, 0, i);
    r := SwapPage(s, slot, f, pid).state;
  }

  /** Eviction of a page whose table has to be fetched first. */
  lemma SwapsAfterFetching(s: State, slot: nat, f: nat, pid: nat, i: nat, j: nat, b: State, t: nat, g: nat, n: State)
    returns (r: State)
    requires Shape(s) && slot < SLOTS && f < FRAMES && pid < PROCESSES && i < PROCESSES && j < PAGES && Shape(n)
    requires Shape(b) && t < SLOTS && g < FRAMES
    requires (forall k | 0 <= k < i :: Passes(s, f, k)) && s.table[i] < 0 && IndexToSwap(s.table[i]) != slot
    requires FirstClaim(TablePage(s, i), f, 0) == j
    requires b == BringIn(s, slot, f) && s.table[i] == SwapToIndex(t) && g == (f + 1) % 4
    requires SwapPage(b, t, g, pid) == Ok(n) && Resident(n, i)
    ensures SwapPage(s, slot, f, pid) == Ok(r)
    ensures var T := n.table[i]; r == Advance(n.(frames := n.frames[T := MarkOut(n.frames[T], j, slot)]))
  {
    VictimIs(s, f, pid, 0, i);
    assert BringIn(s, slot, f).table[i] == s.table[i];
    r := SwapPage(s, slot, f, pid).state;
  }

  // ----- The run -----

  lemma Start()
    ensures Looks(Initial(), [4, 4, 4, 4], 0, 0, 0) && Tbl(Initial().frames[0], Off, Off)
    ensures Tbl(Initial().frames[3], Off, Off)
  {
    EmptyTable();
  }

  lemma EmptyTable()
    ensures Tbl(ZeroPage, Off, Off)
  {
  }

  lemma Step1(s: State) returns (r: State)
    requires Looks(s, [4, 4, 4, 4], 0, 0, 0) && Tbl(s.frames[0], Off, Off) && Tbl(s.frames[3], Off, Off)
    ensures Step(s, Map(0, 0, 1)) == Reply(r, Mapped)
    ensures Looks(r, [0, 4, 4, 4], 0, 2, 0) && Tbl(r.frames[0], In(1), Off) && Tbl(r.frames[3], Off, Off)
  {
    FreeIs(s, [4, 4, 4, 4], 0, 0, 0);
    var t := s.(table := s.table[0 := 0], full := s.full[0 := true]);
    assert MakeTable(s, 0) == Ok(t);
    FreeIs(t, [0, 4, 4, 4], 0, 1, 0);
    r := MapIntoFree(t, 0, 0, 1, Off, Off);
  }

  /** The byte goes to frame 1. */
  lemma StepStore(s: State) returns (r: State)
    requires Looks(s, [0, 4, 4, 4], 0, 2, 0) && Tbl(s.frames[0], In(1), Off) && Tbl(s.frames[3], Off, Off)
    ensures Clear(s, Store(0, 0, 7)) && Step(s, Store(0, 0, 7)) == Reply(r, Stored)
    ensures Looks(r, [0, 4, 4, 4], 0, 2, 0) && Tbl(r.frames[0], In(1), Off) && Tbl(r.frames[3], Off, Off)
  {
    r := PutByte(s, 1, 0, 7);
  }

  lemma Step2(s: State) returns (r: State)
    requires Looks(s, [0, 4, 4, 4], 0, 2, 0) && Tbl(s.frames[0], In(1), Off) && Tbl(s.frames[3], Off, Off)
    ensures Step(s, Map(0, 16, 1)) == Reply(r, Mapped)
    ensures Looks(r, [0, 4, 4, 4], 0, 3, 0) && Tbl(r.frames[0], In(1), In(2)) && Tbl(r.frames[3], Off, Off)
  {
    FreeIs(s, [0, 4, 4, 4], 0, 2, 0);
    r := MapIntoFree(s, 0, 1, 2, In(1), Off);
  }

  lemma Step3(s: State) returns (r: State)
    requires Looks(s, [0, 4, 4, 4], 0, 3, 0) && Tbl(s.frames[0], In(1), In(2)) && Tbl(s.frames[3], Off, Off)
    ensures Step(s, Map(1, 0, 1)) == Reply(r, Mapped)
    ensures Looks(r, [-1, 3, 4, 4], 1, 4, 1) && Tbl(r.frames[3], In(0), Off) && Tbl(r.slots[0], In(1), In(2))
  {
    FreeIs(s, [0, 4, 4, 4], 0, 3, 0);
    var t := s.(table := s.table[1 := 3], full := s.full[3 := true]);
    assert MakeTable(s, 1) == Ok(t);
    r := Step3Rest(t);
  }

  lemma Step3Rest(t: State) returns (r: State)
    requires Looks(t, [0, 3, 4, 4], 0, 4, 0) && Tbl(t.frames[0], In(1), In(2)) && Tbl(t.frames[3], Off, Off)
    ensures MapResident(t, 1, 0, 1) == Reply(r, Mapped)
    ensures Looks(r, [-1, 3, 4, 4], 1, 4, 1) && Tbl(r.frames[3], In(0), Off) && Tbl(r.slots[0], In(1), In(2))
  {
    var m := Step3Swap(t);
    r := MapIntoSwap(t, 1, 0, [0, 3, 4, 4], 0, 0, m, Off, Off);
  }

  lemma Step3Swap(t: State) returns (m: State)
    requires Looks(t, [0, 3, 4, 4], 0, 4, 0) && Tbl(t.frames[0], In(1), In(2)) && Tbl(t.frames[3], Off, Off)
    ensures SwapPage(Granting(t, 1, 0, 0), 0, 0, 1) == Ok(m)
    ensures Looks(m, [-1, 3, 4, 4], 1, 4, 1) && Tbl(m.frames[3], Off, Off) && Tbl(m.slots[0], In(1), In(2))
  {
    GrantingTable(t, 1, 0, 0, Off, Off);
    m := SwapsTable(Granting(t, 1, 0, 0), 0, 0, 1, 0);
  }

  lemma Step4Nested(b: State) returns (n: State)
    requires Looks(b, [-1, 3, 1, 4], 1, 4, 2) && Tbl(b.frames[3], In(0), Off) && Tbl(b.frames[1], Off, Off)
    requires Tbl(b.slots[0], In(1), In(2))
    ensures SwapPage(b, 0, 2, 2) == Ok(n)
    ensures Looks(n, [2, 3, 1, 4], 2, 4, 2) && Tbl(n.frames[3], In(0), Off) && Tbl(n.frames[1], Off, Off)
    ensures Tbl(n.frames[2], In(1), Out(0))
  {
    ClaimIs(b.slots[0], In(1), In(2), 2);
    MarkedOut(b.slots[0], In(1), In(2), 1, 0);
    n := SwapsUnderItsTable(b, 0, 2, 2, 0, 1);
  }

  lemma Step4Brings(b: State)
    requires Looks(b, [-1, 3, -2, 4], 1, 4, 2) && Tbl(b.frames[3], In(0), Off) && Tbl(b.slots[1], Off, Off)
    requires Tbl(b.slots[0], In(1), In(2))
    ensures var e := BringIn(b, 1, 1);
      Looks(e, [-1, 3, 1, 4], 1, 4, 2) && Tbl(e.frames[3], In(0), Off) && Tbl(e.frames[1], Off, Off) &&
        Tbl(e.slots[0], In(1), In(2))
  {
  }

  lemma Step4Swap(b: State) returns (t: State)
    requires Looks(b, [-1, 3, -2, 4], 1, 4, 2) && Tbl(b.frames[3], In(0), Off) && Tbl(b.slots[1], Off, Off)
    requires Tbl(b.slots[0], In(1), In(2))
    ensures SwapPage(b, 1, 1, 2) == Ok(t)
    ensures Looks(t, [2, 3, 1, 4], 3, 4, 2) && Tbl(t.frames[3], In(0), Off) && Tbl(t.frames[1], Off, Off)
    ensures Tbl(t.frames[2], Out(1), Out(0))
  {
    ClaimIs(b.slots[0], In(1), In(2), 1);
    Step4Brings(b);
    var e := BringIn(b, 1, 1);
    var n := Step4Nested(e);
    MarkedOut(n.frames[2], In(1), Out(0), 0, 1);
    t := SwapsAfterFetching(b, 1, 1, 2, 0, 0, e, 0, 2, n);
  }

  lemma Step4Table(s: State) returns (t: State)
    requires Looks(s, [-1, 3, 4, 4], 1, 4, 1) && Tbl(s.frames[3], In(0), Off) && Tbl(s.slots[0], In(1), In(2))
    ensures MakeTable(s, 2) == Ok(t)
    ensures Looks(t, [2, 3, 1, 4], 3, 4, 2) && Tbl(t.frames[3], In(0), Off) && Tbl(t.frames[1], Off, Off)
    ensures Tbl(t.frames[2], Out(1), Out(0))
  {
    FreeIs(s, [-1, 3, 4, 4], 1, 4, 1);
    AppendIs(s, [-1, 3, 4, 4], 1, 4, 1);
    EmptyTable();
    t := Step4Swap(AppendZero(s).(table := s.table[2 := -2]));
  }

  lemma Step4Passes(b: State)
    requires Shape(b) && b.table[0] == 2 && Tbl(b.frames[2], Out(1), Out(0))
    ensures Passes(b, 3, 0)
  {
    ClaimIs(b.frames[2], Out(1), Out(0), 3);
  }

  lemma Step4Rest(t: State) returns (r: State)
    requires Looks(t, [2, 3, 1, 4], 3, 4, 2) && Tbl(t.frames[3], In(0), Off) && Tbl(t.frames[1], Off, Off)
    requires Tbl(t.frames[2], Out(1), Out(0))
    ensures MapResident(t, 2, 0, 1) == Reply(r, Mapped)
    ensures Looks(r, [2, -3, 1, 4], 0, 4, 3) && Tbl(r.frames[1], In(3), Off) && Tbl(r.frames[2], Out(1), Out(0))
    ensures Tbl(r.slots[2], In(0), Off) && r.frames[3] == ZeroPage
  {
    var m := Step4LastSwap(t);
    r := MapIntoSwap(t, 2, 0, [2, 3, 1, 4], 3, 2, m, Off, Off);
  }

  lemma Step4LastSwap(t: State) returns (m: State)
    requires Looks(t, [2, 3, 1, 4], 3, 4, 2) && Tbl(t.frames[3], In(0), Off) && Tbl(t.frames[1], Off, Off)
    requires Tbl(t.frames[2], Out(1), Out(0))
    ensures SwapPage(Granting(t, 2, 0, 2), 2, 3, 2) == Ok(m)
    ensures Looks(m, [2, -3, 1, 4], 0, 4, 3) && Tbl(m.frames[1], Off, Off) && Tbl(m.frames[2], Out(1), Out(0))
    ensures Tbl(m.slots[2], In(0), Off) && m.frames[3] == ZeroPage
  {
    GrantingTable(t, 2, 0, 2, Off, Off);
    var b := Granting(t, 2, 0, 2);
    Step4Passes(b);
    m := SwapsTable(b, 2, 3, 2, 1);
  }

  /** map of an allocated page that is in swap, with the protection it has. */
  lemma MapSwapped(t: State, pid: nat, vp: nat, table: seq<int>, next: nat, n: nat, slot: nat, m: State, a: Ent, b: Ent)
    returns (r: State)
    requires Looks(t, table, next, FRAMES, n) && pid < PROCESSES && vp < 2 && Resident(t, pid)
    requires Is(t.frames[table[pid]], vp, Out(slot)) && slot < SLOTS
    requires next != table[pid] && SwapPage(t, slot, next, pid) == Ok(m) && Shape(m) && Tbl(m.frames[table[pid]], a, b)
    ensures MapResident(t, pid, vp, 1) == Reply(r, AlreadyMapped) && OnlyFrame(m, r, table[pid])
    ensures Tbl(r.frames[table[pid]], if vp == 0 then In(next) else a, if vp == 1 then In(next) else b)
  {
    r := EntryWritten(m, table[pid], vp, next, a, b);
    SwapsOldIn(t, pid, vp, table, next, n, slot, m);
    assert MapResident(t, pid, vp, 1) == FinishMap(t, r, pid, vp, 1);
  }

  lemma SwapsOldIn(t: State, pid: nat, vp: nat, table: seq<int>, next: nat, n: nat, slot: nat, m: State)
    requires Looks(t, table, next, FRAMES, n) && pid < PROCESSES && vp < 2 && Resident(t, pid)
    requires Is(t.frames[table[pid]], vp, Out(slot)) && slot < SLOTS
    requires next != table[pid] && SwapPage(t, slot, next, pid) == Ok(m) && Shape(m)
    ensures MapPage(t, pid, vp, 1) ==
      Ok(PutByte(m, table[pid], 2 * vp, MapFlags(m.frames[table[pid]][2 * vp], 1, next)))
  {
    FreeIs(t, table, next, FRAMES, n);
  }

  lemma Step5Nested(b: State) returns (n: State)
    requires Looks(b, [2, -3, 1, 4], 0, 4, 3) && Tbl(b.frames[1], In(3), Off) && Tbl(b.frames[2], Out(1), Out(0))
    requires Tbl(b.slots[2], In(0), Off) && b.frames[3] == ZeroPage
    ensures SwapPage(b, 2, 1, 0) == Ok(n) && n.frames[3] == ZeroPage
    ensures Looks(n, [2, 1, -3, 4], 1, 4, 3) && Tbl(n.frames[1], In(0), Off) && Tbl(n.frames[2], Out(1), Out(0))
    ensures Tbl(n.slots[2], In(3), Off)
  {
    ClaimIs(b.frames[2], Out(1), Out(0), 1);
    ClaimIs(b.slots[2], In(0), Off, 1);
    n := SwapsTable(b, 2, 1, 0, 2);
  }

  lemma Step5Brings(s: State)
    requires Looks(s, [2, -3, 1, 4], 0, 4, 3) && Tbl(s.frames[1], In(3), Off) && Tbl(s.frames[2], Out(1), Out(0))
    requires Tbl(s.slots[2], In(0), Off)
    ensures var e := BringIn(s, 1, 0);
      e.frames[3] == s.frames[3] &&
      Looks(e, [2, -3, 1, 4], 0, 4, 3) && Tbl(e.frames[1], In(3), Off) && Tbl(e.frames[2], Out(1), Out(0)) &&
        Tbl(e.slots[2], In(0), Off)
  {
  }

  lemma Step5Finds(s: State)
    requires Shape(s) && s.table[0] == 2 && s.table[1] == -3 && Tbl(s.frames[2], Out(1), Out(0))
    requires Tbl(s.slots[2], In(0), Off)
    ensures Passes(s, 0, 0) && FirstClaim(TablePage(s, 1), 0, 0) == 0
  {
    ClaimIs(s.frames[2], Out(1), Out(0), 0);
    ClaimIs(s.slots[2], In(0), Off, 0);
  }

  lemma Step5Swap(s: State) returns (m: State)
    requires Looks(s, [2, -3, 1, 4], 0, 4, 3) && Tbl(s.frames[1], In(3), Off) && Tbl(s.frames[2], Out(1), Out(0))
    requires Tbl(s.slots[2], In(0), Off) && s.frames[3] == ZeroPage
    ensures SwapPage(s, 1, 0, 0) == Ok(m) && m.frames[3] == ZeroPage
    ensures Looks(m, [2, 1, -3, 4], 2, 4, 3) && Tbl(m.frames[1], Out(1), Off) && Tbl(m.frames[2], Out(1), Out(0))
    ensures Tbl(m.slots[2], In(3), Off)
  {
    Step5Finds(s);
    Step5Brings(s);
    var e := BringIn(s, 1, 0);
    var n := Step5Nested(e);
    Step5Marks(n);
    m := SwapsAfterFetching(s, 1, 0, 0, 1, 0, e, 2, 1, n);
  }

  lemma Step5Marks(n: State)
    requires Looks(n, [2, 1, -3, 4], 1, 4, 3) && Tbl(n.frames[1], In(0), Off) && Tbl(n.frames[2], Out(1), Out(0))
    requires Tbl(n.slots[2], In(3), Off) && n.frames[3] == ZeroPage
    ensures var m := Advance(n.(frames := n.frames[1 := MarkOut(n.frames[1], 0, 1)]));
      Looks(m, [2, 1, -3, 4], 2, 4, 3) && Tbl(m.frames[1], Out(1), Off) && Tbl(m.frames[2], Out(1), Out(0)) &&
        Tbl(m.slots[2], In(3), Off) && m.frames[3] == ZeroPage
  {
    MarkedOut(n.frames[1], In(0), Off, 0, 1);
  }

  lemma Step5(s: State) returns (r: State)
    requires Looks(s, [2, -3, 1, 4], 0, 4, 3) && Tbl(s.frames[1], In(3), Off) && Tbl(s.frames[2], Out(1), Out(0))
    requires Tbl(s.slots[2], In(0), Off) && s.frames[3] == ZeroPage
    ensures MapResident(s, 0, 0, 1) == Reply(r, AlreadyMapped) && r.frames[3] == ZeroPage
    ensures Looks(r, [2, 1, -3, 4], 2, 4, 3) && Tbl(r.frames[1], Out(1), Off) && Tbl(r.frames[2], In(0), Out(0))
    ensures Tbl(r.slots[2], In(3), Off)
  {
    var m := Step5Swap(s);
    r := MapSwapped(s, 0, 0, [2, -3, 1, 4], 0, 3, 1, m, Out(1), Out(0));
  }

  lemma Step6(s: State) returns (r: State)
    requires Looks(s, [2, 1, -3, 4], 2, 4, 3) && Tbl(s.frames[1], Out(1), Off) && Tbl(s.frames[2], In(0), Out(0))
    requires Tbl(s.slots[2], In(3), Off) && s.frames[3] == ZeroPage
    ensures MapResident(s, 1, 1, 1) == Reply(r, Mapped) && r.frames[3] == ZeroPage
    ensures Looks(r, [-4, 1, -3, 4], 3, 4, 4) && Tbl(r.frames[1], Out(1), In(2)) && Tbl(r.slots[2], In(3), Off)
    ensures Tbl(r.slots[3], In(0), Out(0))
  {
    var m := Step6Swap(s);
    r := MapIntoSwap(s, 1, 1, [2, 1, -3, 4], 2, 3, m, Out(1), Off);
  }

  lemma Step6Swap(s: State) returns (m: State)
    requires Looks(s, [2, 1, -3, 4], 2, 4, 3) && Tbl(s.frames[1], Out(1), Off) && Tbl(s.frames[2], In(0), Out(0))
    requires Tbl(s.slots[2], In(3), Off) && s.frames[3] == ZeroPage
    ensures SwapPage(Granting(s, 1, 1, 3), 3, 2, 1) == Ok(m) && m.frames[3] == ZeroPage
    ensures Looks(m, [-4, 1, -3, 4], 3, 4, 4) && Tbl(m.frames[1], Out(1), Off) && Tbl(m.slots[2], In(3), Off)
    ensures Tbl(m.slots[3], In(0), Out(0))
  {
    GrantingTable(s, 1, 1, 3, Out(1), Off);
    m := SwapsTable(Granting(s, 1, 1, 3), 3, 2, 1, 0);
  }

  /** Processes 2 and 0, whose tables are in swap, own frames 3 and 0: a fault of process 1 comes round to frame 0. */
  lemma Step7Blocked(s: State)
    requires Shape(s) && s.table[2] == -3 && s.table[0] == -4 && Tbl(s.slots[2], In(3), Off)
    requires Tbl(s.slots[3], In(0), Out(0))
    ensures Blocked(s, [3, 0])
  {
    ClaimIs(s.slots[2], In(3), Off, 3);
    ClaimIs(s.slots[3], In(0), Out(0), 0);
    var path := [3, 0];
    assert Strands(s, 2, path[0]) && Strands(s, 0, path[1]);
  }

  lemma Step7Collides(s: State)
    requires Looks(s, [-4, 1, -3, 4], 3, 4, 4) && Tbl(s.frames[1], Out(1), In(2)) && Tbl(s.slots[2], In(3), Off)
    requires Tbl(s.slots[3], In(0), Out(0))
    ensures !Clear(s, Load(1, 0))
  {
    Step7Blocked(s);
    assert DataFault(s, Load(1, 0)) == Some(s);
    assert DataPath(3, 1) == [3, 0];
  }

  // ----- No data fault before the last one is blocked -----

  /** One process at most has its table in swap: a data fault cannot be blocked. */
  lemma OneAway(s: State, path: seq<nat>, j: nat)
    requires Shape(s) && 2 <= |path| <= 3 && forall i | 0 <= i < PROCESSES && i != j :: s.table[i] >= 0
    ensures !Blocked(s, path)
  {
  }

  lemma ClearMap(s: State, t: State, pid: nat, va: nat, j: nat)
    requires Shape(s) && pid < PROCESSES && va < 64 && MakeTable(s, pid) == Ok(t) && Shape(t)
    requires (forall i | 0 <= i < PROCESSES && i != j :: t.table[i] >= 0) && Resident(t, pid)
    ensures Clear(s, Map(pid, va, 1))
  {
    var k := SkipTable(t, pid);
    if k.next != k.table[pid] {
      OneAway(k, DataPath(k.next, k.table[pid]), j);
    }
  }

  // ----- The eighth instruction -----

  /** A redirection: frame f holds the issuer's table. */
  lemma SwapsPastTable(s: State, slot: nat, f: nat, pid: nat)
    requires Shape(s) && slot < SLOTS && f < FRAMES && pid < PROCESSES && s.table[pid] == f
    requires forall k | 0 <= k < pid :: Passes(s, f, k)
    ensures Shape(Advance(s)) && SwapPage(s, slot, f, pid) == SwapPage(Advance(s), slot, Advance(s).next, pid)
  {
    VictimIs(s, f, pid, 0, pid);
  }

  /** The innermost call: process 0's table comes into frame 0 under process 2's, which is there. */
  lemma Step8Inner(b: State) returns (n: State)
    requires Looks(b, [-4, 1, 0, 4], 3, 4, 4) && Tbl(b.frames[1], Out(1), In(2)) && Tbl(b.slots[3], In(0), Out(0))
    ensures SwapPage(b, 3, 1, 1) == Ok(n) && n.slots[1] == b.slots[1] && n.frames[3] == b.frames[3]
    ensures Looks(n, [0, 1, 0, 4], 1, 4, 4) && Tbl(n.frames[1], Out(1), In(2)) && Tbl(n.frames[0], Out(3), Out(0))
  {
    ClaimIs(b.slots[3], In(0), Out(0), 1);
    ClaimIs(b.slots[3], In(0), Out(0), 0);
    SwapsPastTable(b, 3, 1, 1);
    MarkedOut(b.slots[3], In(0), Out(0), 0, 3);
    n := SwapsUnderItsTable(Advance(b), 3, 0, 1, 0, 0);
  }

  /** The call above it: frame 0's page is process 0's, process 2's table comes in. */
  lemma Step8Middle(b: State) returns (n: State)
    requires Looks(b, [-4, 1, -3, 4], 3, 4, 4) && Tbl(b.frames[1], Out(1), In(2)) && Tbl(b.slots[2], In(3), Off)
    requires Tbl(b.slots[3], In(0), Out(0))
    ensures SwapPage(b, 2, 0, 1) == Ok(n) && n.slots[1] == b.slots[1] && n.frames[3] == b.frames[3]
    ensures Looks(n, [0, 1, 0, 4], 2, 4, 4) && Tbl(n.frames[1], Out(1), In(2)) && Tbl(n.frames[0], Out(2), Out(0))
  {
    var e := BringIn(b, 2, 0);
    Step8MiddleBrings(b);
    var i := Step8Inner(e);
    n := Step8Fetches(b, e, i);
    MarkedOut(i.frames[0], Out(3), Out(0), 0, 2);
  }

  lemma Step8Fetches(b: State, e: State, i: State) returns (n: State)
    requires Looks(b, [-4, 1, -3, 4], 3, 4, 4) && Tbl(b.slots[3], In(0), Out(0)) && e == BringIn(b, 2, 0)
    requires SwapPage(e, 3, 1, 1) == Ok(i) && Shape(i) && i.table[0] == 0
    ensures SwapPage(b, 2, 0, 1) == Ok(n) && n == Advance(i.(frames := i.frames[0 := MarkOut(i.frames[0], 0, 2)]))
  {
    ClaimIs(b.slots[3], In(0), Out(0), 0);
    n := SwapsAfterFetching(b, 2, 0, 1, 0, 0, e, 3, 1, i);
  }

  lemma Step8MiddleBrings(b: State)
    requires Looks(b, [-4, 1, -3, 4], 3, 4, 4) && Tbl(b.frames[1], Out(1), In(2)) && Tbl(b.slots[3], In(0), Out(0))
    ensures var e := BringIn(b, 2, 0);
      Looks(e, [-4, 1, 0, 4], 3, 4, 4) && Tbl(e.frames[1], Out(1), In(2)) && Tbl(e.slots[3], In(0), Out(0)) &&
        e.slots[1] == b.slots[1] && e.frames[3] == b.frames[3]
  {
  }

  lemma Step8Brings(s: State)
    requires Looks(s, [-4, 1, -3, 4], 3, 4, 4) && Tbl(s.frames[1], Out(1), In(2)) && Tbl(s.slots[2], In(3), Off)
    requires Tbl(s.slots[3], In(0), Out(0))
    ensures var e := BringIn(s, 1, 3);
      Looks(e, [-4, 1, -3, 4], 3, 4, 4) && Tbl(e.frames[1], Out(1), In(2)) && Tbl(e.slots[2], In(3), Off) &&
        Tbl(e.slots[3], In(0), Out(0)) && e.slots[1] == s.frames[3]
  {
  }

  lemma Step8Finds(s: State)
    requires Looks(s, [-4, 1, -3, 4], 3, 4, 4) && Tbl(s.frames[1], Out(1), In(2)) && Tbl(s.slots[2], In(3), Off)
    requires Tbl(s.slots[3], In(0), Out(0))
    ensures Passes(s, 3, 0) && Passes(s, 3, 1) && FirstClaim(TablePage(s, 2), 3, 0) == 0
  {
    ClaimIs(s.slots[3], In(0), Out(0), 3);
    ClaimIs(s.frames[1], Out(1), In(2), 3);
    ClaimIs(s.slots[2], In(3), Off, 3);
  }

  lemma Step8Swap(s: State) returns (m: State)
    requires Looks(s, [-4, 1, -3, 4], 3, 4, 4) && Tbl(s.frames[1], Out(1), In(2)) && Tbl(s.slots[2], In(3), Off)
    requires Tbl(s.slots[3], In(0), Out(0)) && s.frames[3] == ZeroPage
    ensures SwapPage(s, 1, 3, 1) == Ok(m) && m.slots[1] == ZeroPage
    ensures Looks(m, [0, 1, 0, 4], 3, 4, 4) && Tbl(m.frames[1], Out(1), In(2)) && Tbl(m.frames[0], Out(1), Out(0))
  {
    Step8Brings(s);
    var e := BringIn(s, 1, 3);
    var n := Step8Middle(e);
    m := Step8Outer(s, e, n);
    Step8Marks(n);
  }

  lemma Step8Outer(s: State, e: State, n: State) returns (m: State)
    requires Looks(s, [-4, 1, -3, 4], 3, 4, 4) && Tbl(s.frames[1], Out(1), In(2)) && Tbl(s.slots[2], In(3), Off)
    requires Tbl(s.slots[3], In(0), Out(0))
    requires e == BringIn(s, 1, 3) && SwapPage(e, 2, 0, 1) == Ok(n) && Shape(n) && n.table[2] == 0
    ensures SwapPage(s, 1, 3, 1) == Ok(m) && m == Advance(n.(frames := n.frames[0 := MarkOut(n.frames[0], 0, 1)]))
  {
    Step8Finds(s);
    m := SwapsAfterFetching(s, 1, 3, 1, 2, 0, e, 2, 0, n);
  }

  lemma Step8Marks(n: State)
    requires Looks(n, [0, 1, 0, 4], 2, 4, 4) && Tbl(n.frames[1], Out(1), In(2)) && Tbl(n.frames[0], Out(2), Out(0))
    ensures var m := Advance(n.(frames := n.frames[0 := MarkOut(n.frames[0], 0, 1)]));
      Looks(m, [0, 1, 0, 4], 3, 4, 4) && Tbl(m.frames[1], Out(1), In(2)) && Tbl(m.frames[0], Out(1), Out(0)) &&
        m.slots == n.slots
  {
    MarkedOut(n.frames[0], Out(2), Out(0), 0, 1);
  }

  /** A load of a page that is in swap. */
  lemma LoadSwapped(s: State, pid: nat, va: nat, slot: nat, m: State) returns (r: State)
    requires Shape(s) && pid < PROCESSES && va < 64 && Resident(s, pid)
    requires Is(s.frames[s.table[pid]], va / 16, Out(slot))
    requires slot < SLOTS && s.next != s.table[pid] && SwapPage(s, slot, s.next, pid) == Ok(m) && Shape(m)
    ensures var T, vp := s.table[pid], va / 16;
      r == PutByte(m, T, 2 * vp, SetInFrame(m.frames[T][2 * vp], s.next))
    ensures Step(s, Load(pid, va)) == Reply(r, Loaded(r.frames[s.next][va % 16]))
  {
    var T, vp := s.table[pid], va / 16;
    r := FaultedIn(s, pid, vp, slot, m);
    assert Touch(s, pid, vp) == Ok(r) && FrameOf(r.frames[T][2 * vp]) == s.next;
  }

  lemma FaultedIn(s: State, pid: nat, vp: nat, slot: nat, m: State) returns (r: State)
    requires Shape(s) && pid < PROCESSES && vp < PAGES && Resident(s, pid) && Is(s.frames[s.table[pid]], vp, Out(slot))
    requires slot < SLOTS && s.next != s.table[pid] && SwapPage(s, slot, s.next, pid) == Ok(m) && Shape(m)
    ensures r == PutByte(m, s.table[pid], 2 * vp, SetInFrame(m.frames[s.table[pid]][2 * vp], s.next))
    ensures FaultIn(s, pid, vp) == Ok(r)
  {
    r := PutByte(m, s.table[pid], 2 * vp, SetInFrame(m.frames[s.table[pid]][2 * vp], s.next));
  }

  /** The eighth instruction leaves tables 0 and 2 in one frame, and process 0's page 0 to be looked for in slot 1,
      which holds zeroes. */
  lemma Step8(s: State) returns (r: State)
    requires Looks(s, [-4, 1, -3, 4], 3, 4, 4) && Tbl(s.frames[1], Out(1), In(2)) && Tbl(s.slots[2], In(3), Off)
    requires Tbl(s.slots[3], In(0), Out(0)) && s.frames[3] == ZeroPage
    ensures Step(s, Load(1, 0)).Reply? && Step(s, Load(1, 0)).state == r && Looks(r, [0, 1, 0, 4], 3, 4, 4)
    ensures Tbl(r.frames[0], Out(1), Out(0)) && Tbl(r.frames[1], In(3), In(2)) && r.slots[1] == ZeroPage
  {
    var m := Step8Swap(s);
    r := LoadSwapped(s, 1, 0, 1, m);
    Step8Entry(m);
  }

  lemma Step8Entry(m: State)
    requires Shape(m) && Tbl(m.frames[1], Out(1), In(2))
    ensures Tbl(PutByte(m, 1, 0, SetInFrame(m.frames[1][0], 3)).frames[1], In(3), In(2))
  {
    var p, q: Page := m.frames[1], m.frames[1][0 := SetInFrame(m.frames[1][0], 3)];
    assert q[2] == p[2] && q[3] == p[3] && q[4] == p[4] && q[6] == p[6];
  }

  /** The ninth. */
  lemma Step9(s: State)
    requires Looks(s, [0, 1, 0, 4], 3, 4, 4) && Tbl(s.frames[0], Out(1), Out(0)) && Tbl(s.frames[1], In(3), In(2))
    requires s.slots[1] == ZeroPage
    ensures Step(s, Load(0, 0)).Reply? && Step(s, Load(0, 0)).output == Loaded(0)
  {
    ClaimIs(s.frames[0], Out(1), Out(0), 3);
    ClaimIs(s.frames[1], In(3), In(2), 3);
    VictimIs(s, 3, 0, 0, 1);
    var m := SwapPage(s, 1, 3, 0).state;
    assert m.frames[3] == ZeroPage;
    var r := LoadSwapped(s, 0, 0, 1, m);
  }

  // ----- The program -----

  /** A clear program leads from the start to s. */
  ghost predicate Reached(cs: seq<Instruction>, s: State) { Reaches(Initial(), cs, s) }

  lemma Go1(cs: seq<Instruction>, s: State) returns (r: State)
    requires Reached(cs, s) && Looks(s, [4, 4, 4, 4], 0, 0, 0) && Tbl(s.frames[0], Off, Off)
    requires Tbl(s.frames[3], Off, Off)
    ensures Reached(cs + [Map(0, 0, 1)], r)
    ensures Looks(r, [0, 4, 4, 4], 0, 2, 0) && Tbl(r.frames[0], In(1), Off) && Tbl(r.frames[3], Off, Off)
  {
    r := Step1(s);
    FreeIs(s, [4, 4, 4, 4], 0, 0, 0);
    ClearMap(s, s.(table := s.table[0 := 0], full := s.full[0 := true]), 0, 0, 0);
    Onward(Initial(), cs, s, Map(0, 0, 1), r);
  }

  lemma GoStore(cs: seq<Instruction>, s: State) returns (r: State)
    requires Reached(cs, s)
    requires Looks(s, [0, 4, 4, 4], 0, 2, 0) && Tbl(s.frames[0], In(1), Off) && Tbl(s.frames[3], Off, Off)
    ensures Reached(cs + [Store(0, 0, 7)], r)
    ensures Looks(r, [0, 4, 4, 4], 0, 2, 0) && Tbl(r.frames[0], In(1), Off) && Tbl(r.frames[3], Off, Off)
  {
    r := StepStore(s);
    Onward(Initial(), cs, s, Store(0, 0, 7), r);
  }

  lemma Go2(cs: seq<Instruction>, s: State) returns (r: State)
    requires Reached(cs, s) && Looks(s, [0, 4, 4, 4], 0, 2, 0) && Tbl(s.frames[0], In(1), Off)
    requires Tbl(s.frames[3], Off, Off)
    ensures Reached(cs + [Map(0, 16, 1)], r)
    ensures Looks(r, [0, 4, 4, 4], 0, 3, 0) && Tbl(r.frames[0], In(1), In(2)) && Tbl(r.frames[3], Off, Off)
  {
    r := Step2(s);
    ClearMap(s, s, 0, 16, 0);
    Onward(Initial(), cs, s, Map(0, 16, 1), r);
  }

  lemma Step3Clear(s: State)
    requires Looks(s, [0, 4, 4, 4], 0, 3, 0)
    ensures Clear(s, Map(1, 0, 1))
  {
    FreeIs(s, [0, 4, 4, 4], 0, 3, 0);
    ClearMap(s, s.(table := s.table[1 := 3], full := s.full[3 := true]), 1, 0, 0);
  }

  lemma Go3(cs: seq<Instruction>, s: State) returns (r: State)
    requires Reached(cs, s) && Looks(s, [0, 4, 4, 4], 0, 3, 0) && Tbl(s.frames[0], In(1), In(2))
    requires Tbl(s.frames[3], Off, Off)
    ensures Reached(cs + [Map(1, 0, 1)], r)
    ensures Looks(r, [-1, 3, 4, 4], 1, 4, 1) && Tbl(r.frames[3], In(0), Off) && Tbl(r.slots[0], In(1), In(2))
  {
    r := Step3(s);
    Step3Clear(s);
    Onward(Initial(), cs, s, Map(1, 0, 1), r);
  }

  lemma Step4(s: State) returns (r: State)
    requires Looks(s, [-1, 3, 4, 4], 1, 4, 1) && Tbl(s.frames[3], In(0), Off) && Tbl(s.slots[0], In(1), In(2))
    ensures Clear(s, Map(2, 0, 1)) && Step(s, Map(2, 0, 1)) == Reply(r, Mapped)
    ensures Looks(r, [2, -3, 1, 4], 0, 4, 3) && Tbl(r.frames[1], In(3), Off) && Tbl(r.frames[2], Out(1), Out(0))
    ensures Tbl(r.slots[2], In(0), Off) && r.frames[3] == ZeroPage
  {
    var t := Step4Table(s);
    r := Step4Rest(t);
    Step4Clear(s, t);
    MapIs(s, t, 2, 0, r, Mapped);
  }

  lemma Step4Clear(s: State, t: State)
    requires Shape(s) && MakeTable(s, 2) == Ok(t) && Looks(t, [2, 3, 1, 4], 3, 4, 2)
    ensures Clear(s, Map(2, 0, 1))
  {
    ClearMap(s, t, 2, 0, 0);
  }

  lemma MapIs(s: State, t: State, pid: nat, va: nat, r: State, output: Output)
    requires Shape(s) && Shape(t) && pid < PROCESSES && va < 64 && MakeTable(s, pid) == Ok(t) && Resident(t, pid)
    requires MapResident(t, pid, va / 16, 1) == Reply(r, output)
    ensures Step(s, Map(pid, va, 1)) == Reply(r, output)
  {
  }

  lemma Go4(cs: seq<Instruction>, s: State) returns (r: State)
    requires Reached(cs, s) && Looks(s, [-1, 3, 4, 4], 1, 4, 1) && Tbl(s.frames[3], In(0), Off)
    requires Tbl(s.slots[0], In(1), In(2))
    ensures Reached(cs + [Map(2, 0, 1)], r)
    ensures Looks(r, [2, -3, 1, 4], 0, 4, 3) && Tbl(r.frames[1], In(3), Off) && Tbl(r.frames[2], Out(1), Out(0))
    ensures Tbl(r.slots[2], In(0), Off) && r.frames[3] == ZeroPage
  {
    r := Step4(s);
    Onward(Initial(), cs, s, Map(2, 0, 1), r);
  }

  lemma Step5Clear(s: State)
    requires Looks(s, [2, -3, 1, 4], 0, 4, 3)
    ensures Clear(s, Map(0, 0, 1))
  {
    ClearMap(s, s, 0, 0, 1);
  }

  lemma Go5(cs: seq<Instruction>, s: State) returns (r: State)
    requires Reached(cs, s) && Looks(s, [2, -3, 1, 4], 0, 4, 3) && s.frames[3] == ZeroPage
    requires Tbl(s.frames[1], In(3), Off) && Tbl(s.frames[2], Out(1), Out(0)) && Tbl(s.slots[2], In(0), Off)
    ensures Reached(cs + [Map(0, 0, 1)], r)
    ensures Looks(r, [2, 1, -3, 4], 2, 4, 3) && Tbl(r.frames[1], Out(1), Off) && Tbl(r.frames[2], In(0), Out(0))
    ensures Tbl(r.slots[2], In(3), Off) && r.frames[3] == ZeroPage
  {
    r := Step5(s);
    Step5Clear(s);
    MapIs(s, s, 0, 0, r, AlreadyMapped);
    Onward(Initial(), cs, s, Map(0, 0, 1), r);
  }

  lemma Step6Clear(s: State)
    requires Looks(s, [2, 1, -3, 4], 2, 4, 3)
    ensures Clear(s, Map(1, 16, 1))
  {
    ClearMap(s, s, 1, 16, 2);
  }

  lemma Go6(cs: seq<Instruction>, s: State) returns (r: State)
    requires Reached(cs, s) && Looks(s, [2, 1, -3, 4], 2, 4, 3) && s.frames[3] == ZeroPage
    requires Tbl(s.frames[1], Out(1), Off) && Tbl(s.frames[2], In(0), Out(0)) && Tbl(s.slots[2], In(3), Off)
    ensures Reached(cs + [Map(1, 16, 1)], r)
    ensures Looks(r, [-4, 1, -3, 4], 3, 4, 4) && Tbl(r.frames[1], Out(1), In(2)) && Tbl(r.slots[2], In(3), Off)
    ensures Tbl(r.slots[3], In(0), Out(0)) && r.frames[3] == ZeroPage
  {
    r := Step6(s);
    Step6Clear(s);
    MapIs(s, s, 1, 16, r, Mapped);
    Onward(Initial(), cs, s, Map(1, 16, 1), r);
  }

  lemma FirstTwo() returns (cs: seq<Instruction>, s: State)
    ensures cs == [Map(0, 0, 1), Store(0, 0, 7)] && Reached(cs, s)
    ensures Looks(s, [0, 4, 4, 4], 0, 2, 0) && Tbl(s.frames[0], In(1), Off) && Tbl(s.frames[3], Off, Off)
  {
    Start();
    cs, s := [], Initial();
    Here(s);
    s := Go1(cs, s);
    cs := cs + [Map(0, 0, 1)];
    s := GoStore(cs, s);
    cs := cs + [Store(0, 0, 7)];
  }

  lemma NextTwo(before: seq<Instruction>, t: State) returns (cs: seq<Instruction>, s: State)
    requires Reached(before, t)
    requires Looks(t, [0, 4, 4, 4], 0, 2, 0) && Tbl(t.frames[0], In(1), Off) && Tbl(t.frames[3], Off, Off)
    ensures cs == before + [Map(0, 16, 1), Map(1, 0, 1)] && Reached(cs, s)
    ensures Looks(s, [-1, 3, 4, 4], 1, 4, 1) && Tbl(s.frames[3], In(0), Off) && Tbl(s.slots[0], In(1), In(2))
  {
    cs := before;
    s := Go2(cs, t);
    cs := cs + [Map(0, 16, 1)];
    s := Go3(cs, s);
    cs := cs + [Map(1, 0, 1)];
  }

  lemma LastThree(before: seq<Instruction>, t: State) returns (cs: seq<Instruction>, s: State)
    requires Reached(before, t) && Looks(t, [-1, 3, 4, 4], 1, 4, 1)
    requires Tbl(t.frames[3], In(0), Off) && Tbl(t.slots[0], In(1), In(2))
    ensures cs == before + [Map(2, 0, 1), Map(0, 0, 1), Map(1, 16, 1)] && Reached(cs, s)
    ensures Looks(s, [-4, 1, -3, 4], 3, 4, 4) && Tbl(s.frames[1], Out(1), In(2)) && Tbl(s.slots[2], In(3), Off)
    ensures Tbl(s.slots[3], In(0), Out(0)) && s.frames[3] == ZeroPage
  {
    cs := before;
    s := Go4(cs, t);
    cs := cs + [Map(2, 0, 1)];
    s := Go5(cs, s);
    cs := cs + [Map(0, 0, 1)];
    s := Go6(cs, s);
    cs := cs + [Map(1, 16, 1)];
  }

  const PROGRAM: seq<Instruction> :=
    [Map(0, 0, 1), Store(0, 0, 7), Map(0, 16, 1), Map(1, 0, 1), Map(2, 0, 1), Map(0, 0, 1), Map(1, 16, 1), Load(1, 0)]

  /** Process 0's page 0 is mapped writable and 7 was the last byte stored at its address 0. */
  predicate HoldsSeven(cs: seq<Instruction>) { LastMap(cs, 0, 0) == Some(1) && LastStore(cs, 0, 0) == 7 }

  lemma SevenStays(cs: seq<Instruction>, c: Instruction)
    requires HoldsSeven(cs) && !c.Store? && (c.Map? && Addresses(c, 0, 0) ==> c.value == 1)
    ensures HoldsSeven(cs + [c])
  {
    HistoryGrows(cs, c);
  }

  lemma SevenStored()
    ensures HoldsSeven(PROGRAM[..2])
  {
    HistoryGrows([], Map(0, 0, 1));
    HistoryGrows([] + [Map(0, 0, 1)], Store(0, 0, 7));
    assert PROGRAM[..2] == [] + [Map(0, 0, 1)] + [Store(0, 0, 7)];
  }

  lemma {:induction false} SevenThroughout(k: nat)
    requires 2 <= k <= |PROGRAM|
    ensures HoldsSeven(PROGRAM[..k])
  {
    if k == 2 {
      SevenStored();
    } else {
      SevenThroughout(k - 1);
      SevenStays(PROGRAM[..k - 1], PROGRAM[k - 1]);
      assert PROGRAM[..k] == PROGRAM[..k - 1] + [PROGRAM[k - 1]];
    }
  }

  /** Seven instructions that the machine performs faithfully; an eighth, load at address 0 of process 1, that is not
      clear; and after it a load at address 0 of process 0 answers 0, though 7 was the last byte stored there. */
  lemma StoredByteIsLost() returns (cs: seq<Instruction>, s: State)
    ensures cs == PROGRAM[..7]
    ensures Program(cs) && ClearRun(cs) && After(cs) == Ok(s) && Valid(s)
    ensures !Clear(s, Load(1, 0)) && Ruined(Step(s, Load(1, 0)))
    ensures var all := cs + [Load(1, 0)];
      && Program(all) && After(all).Ok? && LastMap(all, 0, 0) == Some(1) && LastStore(all, 0, 0) == 7
      && Step(After(all).state, Load(0, 0)).Reply? && Step(After(all).state, Load(0, 0)).output == Loaded(0)
  {
    cs, s := FirstSeven();
    var r := LastTwo(s);
    ReachedIsRun(cs, s);
    Eighth(cs, s, r);
    SevenAtLast(cs);
  }

  lemma SevenAtLast(cs: seq<Instruction>)
    requires cs == PROGRAM[..7]
    ensures LastMap(cs + [Load(1, 0)], 0, 0) == Some(1) && LastStore(cs + [Load(1, 0)], 0, 0) == 7
  {
    assert PROGRAM[..8] == cs + [Load(1, 0)];
    SevenThroughout(8);
  }

  lemma FirstSeven() returns (cs: seq<Instruction>, s: State)
    ensures cs == PROGRAM[..7] && Reached(cs, s)
    ensures Looks(s, [-4, 1, -3, 4], 3, 4, 4) && Tbl(s.frames[1], Out(1), In(2)) && Tbl(s.slots[2], In(3), Off)
    ensures Tbl(s.slots[3], In(0), Out(0)) && s.frames[3] == ZeroPage
  {
    cs, s := FirstTwo();
    cs, s := NextTwo(cs, s);
    cs, s := LastThree(cs, s);
  }

  lemma LastTwo(s: State) returns (r: State)
    requires Looks(s, [-4, 1, -3, 4], 3, 4, 4) && Tbl(s.frames[1], Out(1), In(2)) && Tbl(s.slots[2], In(3), Off)
    requires Tbl(s.slots[3], In(0), Out(0)) && s.frames[3] == ZeroPage
    ensures !Clear(s, Load(1, 0)) && Step(s, Load(1, 0)).Reply? && Step(s, Load(1, 0)).state == r && Shape(r)
    ensures Step(r, Load(0, 0)).Reply? && Step(r, Load(0, 0)).output == Loaded(0)
  {
    Step7Collides(s);
    r := Step8(s);
    Step9(r);
  }

  lemma ReachedRuns(cs: seq<Instruction>, s: State)
    requires Reached(cs, s)
    ensures Program(cs) && ClearRun(cs) && After(cs) == Ok(s)
  {
    ReachesAfter([], Initial(), cs, s);
    ClearAheadRuns([], cs);
    assert [] + cs == cs;
  }

  lemma ReachedIsRun(cs: seq<Instruction>, s: State)
    requires Reached(cs, s) && Shape(s) && !Clear(s, Load(1, 0))
    ensures Program(cs) && ClearRun(cs) && After(cs) == Ok(s) && Valid(s) && Ruined(Step(s, Load(1, 0)))
  {
    ReachedRuns(cs, s);
    var o := RunRefines(cs);
    StepSoundIffClear(s, Load(1, 0));
  }

  lemma Eighth(cs: seq<Instruction>, s: State, r: State)
    requires Program(cs) && After(cs) == Ok(s) && Shape(s)
    requires Step(s, Load(1, 0)).Reply? && Step(s, Load(1, 0)).state == r
    ensures Program(cs + [Load(1, 0)]) && After(cs + [Load(1, 0)]) == Ok(r)
  {
    RunGrows(cs, Load(1, 0));
  }
}
