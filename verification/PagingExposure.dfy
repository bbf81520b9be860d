/**
 The condition under which a load returns the byte last stored is exact: after an instruction that
 is not clear, a few further instructions, all clear, lead to a load that answers wrongly.
 */
module PagingExposure {
  import opened Basics
  import opened PagingModel
  import opened PagingFaults
  import opened PagingRefinement
  import opened PagingCollision
  import opened PagingExactness
  import opened PagingRuns

  /** After the program cs, each instruction of ds is clear as its turn comes. */
  predicate ClearAhead(cs: seq<Instruction>, ds: seq<Instruction>)
    requires Program(cs) && Program(ds)
  {
    ds == [] ||
    (var before, c := ds[..|ds| - 1], ds[|ds| - 1];
     && ClearAhead(cs, before)
     && (After(cs + before).Ok? ==> Clear(After(cs + before).state, c)))
  }

  /** However the program goes on, clearly, a load returns the byte last stored. */
  ghost predicate Trusted(cs: seq<Instruction>)
    requires Program(cs)
  {
    forall ds, pid: nat, va: nat | Program(ds) && pid < PROCESSES && va < 64 && ClearAhead(cs, ds + [Load(pid, va)]) ::
      LoadHolds(cs + ds, pid, va)
  }

  // ----- Programs grow at the end -----

  /** What instruction c, coming after the program cs, does to the history, which then is that of `more`. */
  ghost predicate Adds(cs: seq<Instruction>, c: Instruction, more: seq<Instruction>) {
    && (forall pid, vp: nat :: LastMap(more, pid, vp) ==
         (if c.Map? && Addresses(c, pid, vp) then Some(c.value % 2) else LastMap(cs, pid, vp)))
    && (forall pid, va: nat :: LastStore(more, pid, va) ==
         (if c.Store? && c.pid == pid && c.va == va && LastMap(cs, pid, va / 16) == Some(1) then c.value % 256
          else LastStore(cs, pid, va)))
  }

  lemma HistoryGrows(cs: seq<Instruction>, c: Instruction)
    ensures Adds(cs, c, cs + [c])
  {
    assert (cs + [c])[..|cs + [c]| - 1] == cs;
  }

  lemma RunGrows(cs: seq<Instruction>, c: Instruction)
    requires Program(cs) && WellFormed(c)
    ensures Program(cs + [c])
    ensures After(cs + [c]) ==
      match After(cs)
      case Wild => Wild
      case Ok(s) => match Step(s, c) case Lost => Wild case Reply(s', _) => Ok(s')
    ensures ClearRun(cs + [c]) <==> ClearRun(cs) && (After(cs).Ok? ==> Clear(After(cs).state, c))
  {
    assert (cs + [c])[..|cs + [c]| - 1] == cs;
  }

  lemma {:induction false} ClearAheadRuns(cs: seq<Instruction>, ds: seq<Instruction>)
    requires Program(cs) && Program(ds) && ClearRun(cs) && ClearAhead(cs, ds)
    ensures ClearRun(cs + ds)
  {
    if ds == [] {
      assert cs + ds == cs;
    } else {
      var before, c := ds[..|ds| - 1], ds[|ds| - 1];
      ClearAheadRuns(cs, before);
      RunGrows(cs + before, c);
      assert cs + ds == cs + before + [c];
    }
  }

  // ----- Clear ways from state to state -----

  /** One clear instruction leads from s to r. */
  ghost predicate Leads(s: State, c: Instruction, r: State) {
    Shape(s) && WellFormed(c) && Clear(s, c) && Step(s, c).Reply? && Step(s, c).state == r
  }

  ghost function Move(): (State, Instruction, State) -> bool { (s, c, r) => Leads(s, c, r) }

  /** The instructions ds, clear each as its turn comes, lead from s to r. */
  ghost predicate Reaches(s: State, ds: seq<Instruction>, r: State) { Chain(Move(), s, ds, r) }

  lemma Here(s: State)
    ensures Reaches(s, [], s)
  {
    ChainStart<State, Instruction>(Move(), s);
  }

  lemma Onward(s: State, ds: seq<Instruction>, t: State, c: Instruction, r: State)
    requires Reaches(s, ds, t) && Leads(t, c, r)
    ensures Reaches(s, ds + [c], r)
  {
    ChainOn(Move(), s, ds, t, c, r);
  }

  lemma Further(cs: seq<Instruction>, ds: seq<Instruction>, t: State, c: Instruction, r: State)
    requires Program(cs) && Program(ds) && ClearAhead(cs, ds) && After(cs + ds) == Ok(t) && Leads(t, c, r)
    ensures Program(ds + [c]) && ClearAhead(cs, ds + [c]) && After(cs + (ds + [c])) == Ok(r)
  {
    RunGrows(cs + ds, c);
    assert cs + (ds + [c]) == cs + ds + [c];
    assert (ds + [c])[..|ds + [c]| - 1] == ds;
  }

  lemma ReachesAfter(cs: seq<Instruction>, s: State, ds: seq<Instruction>, r: State)
    requires Program(cs) && After(cs) == Ok(s) && Reaches(s, ds, r)
    ensures Program(ds) && ClearAhead(cs, ds) && After(cs + ds) == Ok(r)
  {
    var P := (ds, t) => Program(ds) && ClearAhead(cs, ds) && After(cs + ds) == Ok(t);
    assert cs + [] == cs;
    forall ds, t, c, u | P(ds, t) && Move()(t, c, u)
      ensures P(ds + [c], u)
    {
      Further(cs, ds, t, c, u);
    }
    ChainKeeps(Move(), s, ds, r, P);
  }

  /** One wrong answer to a clear load, somewhere ahead, and the program is not to be trusted. */
  lemma WrongLoad(cs: seq<Instruction>, s: State, ds: seq<Instruction>, r: State, pid: nat, va: nat)
    requires Program(cs) && After(cs) == Ok(s) && Reaches(s, ds, r) && Shape(r) && pid < PROCESSES && va < 64
    requires Clear(r, Load(pid, va)) && Step(r, Load(pid, va)).Reply?
    requires Step(r, Load(pid, va)).output !=
      if LastMap(cs + ds, pid, va / 16) == Absent then NotAllocated else Loaded(LastStore(cs + ds, pid, va))
    ensures !Trusted(cs)
  {
    ReachesAfter(cs, s, ds, r);
    var all := ds + [Load(pid, va)];
    assert all[..|all| - 1] == ds;
    assert ClearAhead(cs, all);
    assert !LoadHolds(cs + ds, pid, va);
  }

  // ----- Two processes with one table -----

  /** The entry of page e, in the table that a and b share, is of a writable page in frame f. */
  ghost predicate Held(s: State, a: nat, b: nat, e: nat, g: nat, f: nat) {
    && Shape(s) && a < PROCESSES && b < PROCESSES && a != b && e < PAGES && g < FRAMES && f < FRAMES && f != g
    && s.table[a] == g == s.table[b]
    && Claims(s.frames[g], e, f) && Prot(s.frames[g][2 * e]) == 1
  }

  /** With nobody stranded at frame f, an eviction there does not nest. */
  lemma VictimAtHand(k: State, slot: nat, f: nat, pid: nat)
    requires Shape(k) && slot < SLOTS && f < FRAMES && pid < PROCESSES && NobodyStrands(k, f) && k.table[pid] != f
    ensures var v, r := FindVictim(k, f, pid, 0), SwapPage(k, slot, f, pid);
      match v
      case NoVictim => r == Ok(k)
      case IssuersTable => false
      case TableOf(i) =>
        var b := BringIn(k, slot, f);
        r == Ok(Advance(b.(table := b.table[i := SwapToIndex(slot)])))
      case PageOf(i, j) =>
        && Resident(k, i) && k.table[i] != f
        && var marked := k.(frames := k.frames[k.table[i] := MarkOut(k.frames[k.table[i]], j, slot)]);
           r == Ok(Advance(BringIn(marked, slot, f)))
  {
    var v := FindVictim(k, f, pid, 0);
    if v.PageOf? {
      assert !Strands(k, v.pid, f);
    }
  }

  /** It leaves a table that two processes share where it is. */
  lemma SwapBeside(k: State, slot: nat, f: nat, a: nat, b: nat, g: nat, e: nat)
    requires Shape(k) && slot < SLOTS && f < FRAMES && a < PROCESSES && b < PROCESSES && g < FRAMES && e < PAGES
    requires k.table[a] == g == k.table[b] && f != g && NobodyStrands(k, f) && Alloc(k.frames[g][2 * e])
    ensures var r := SwapPage(k, slot, f, b);
            r.Ok? && r.state.table[a] == g == r.state.table[b] && Alloc(r.state.frames[g][2 * e])
  {
    VictimAtHand(k, slot, f, b);
    var v := FindVictim(k, f, b, 0);
    if v.PageOf? {
      MarkingKeepsAlloc(k.frames, k.table[v.pid], v.vp, slot, g, e);
    }
  }

  lemma MarkingKeepsAlloc(frames: seq<Page>, T: nat, j: nat, slot: nat, g: nat, e: nat)
    requires |frames| == FRAMES && T < FRAMES && j < PAGES && slot < SLOTS && g < FRAMES && e < PAGES
    ensures Alloc(frames[T := MarkOut(frames[T], j, slot)][g][2 * e]) == Alloc(frames[g][2 * e])
  {
  }

  lemma SkipStrandsNobody(s: State, b: nat)
    requires Shape(s) && b < PROCESSES && NobodyStrands(s, SkipTable(s, b).next)
    ensures NobodyStrands(SkipTable(s, b), SkipTable(s, b).next)
  {
    var k := SkipTable(s, b);
    assert forall i | 0 <= i < PROCESSES :: Strands(k, i, k.next) == Strands(s, i, k.next);
  }

  lemma TwinsClear(s: State, a: nat, b: nat, e: nat)
    requires Shape(s) && Twins(s, a, b, e)
    ensures Clear(s, Map(b, 16 * e, 1)) && FreeFrame(s) == FRAMES
  {
    SkipStrandsNobody(s, b);
  }

  /** Process b's map of the shared entry, from the swap that brings the page in. */
  lemma TwinsMap(s: State, a: nat, b: nat, e: nat, n: State)
    requires Shape(s) && Twins(s, a, b, e) && FreeFrame(s) == FRAMES && Shape(n)
    requires var k := SkipTable(s, b); SwapPage(k, EntrySlot(k, b, e), k.next, b) == Ok(n)
    ensures MapPage(s, b, e, 1) ==
      Ok(PutByte(n, s.table[a], 2 * e, MapFlags(n.frames[s.table[a]][2 * e], 1, SkipTable(s, b).next)))
  {
  }

  lemma EntryHeld(s: State, n: State, a: nat, b: nat, e: nat, g: nat, f: nat)
    requires Shape(s) && Shape(n) && a < PROCESSES && b < PROCESSES && a != b && e < PAGES && g < FRAMES && f < FRAMES
    requires f != g && s.table[a] == g == s.table[b] && n.table[a] == g == n.table[b]
    requires Alloc(s.frames[g][2 * e]) && Alloc(n.frames[g][2 * e])
    ensures Held(FinishMap(s, PutByte(n, g, 2 * e, MapFlags(n.frames[g][2 * e], 1, f)), b, e, 1).state, a, b, e, g, f)
  {
  }

  lemma TwinsFault(s: State, a: nat, b: nat, e: nat) returns (r: State, f: nat)
    requires Shape(s) && Twins(s, a, b, e)
    ensures Leads(s, Map(b, 16 * e, 1), r) && Held(r, a, b, e, s.table[a], f)
  {
    TwinsClear(s, a, b, e);
    var k, g := SkipTable(s, b), s.table[a];
    f := k.next;
    SkipStrandsNobody(s, b);
    SwapBeside(k, EntrySlot(k, b, e), f, a, b, g, e);
    var n := SwapPage(k, EntrySlot(k, b, e), f, b).state;
    TwinsMap(s, a, b, e, n);
    EntryHeld(s, n, a, b, e, g, f);
    r := FinishMap(s, PutByte(n, g, 2 * e, MapFlags(n.frames[g][2 * e], 1, f)), b, e, 1).state;
    TwinsReply(s, a, b, e, n, r);
  }

  lemma TwinsReply(s: State, a: nat, b: nat, e: nat, n: State, r: State)
    requires Shape(s) && Twins(s, a, b, e) && Shape(n)
    requires var m := PutByte(n, s.table[a], 2 * e, MapFlags(n.frames[s.table[a]][2 * e], 1, SkipTable(s, b).next));
      MapPage(s, b, e, 1) == Ok(m) && r == FinishMap(s, m, b, e, 1).state
    ensures Step(s, Map(b, 16 * e, 1)).Reply? && Step(s, Map(b, 16 * e, 1)).state == r
  {
    assert 16 * e / 16 == e;
    assert Step(s, Map(b, 16 * e, 1)) == MapResident(s, b, e, 1);
  }

  /** Either process may map or write the held page, in place. */
  lemma HeldSteps(s: State, a: nat, b: nat, e: nat, g: nat, f: nat, x: Byte)
    requires Held(s, a, b, e, g, f)
    ensures Leads(s, Map(a, 16 * e, 1), s)
    ensures Leads(s, Store(a, 16 * e, x), PutByte(s, f, 0, x))
    ensures Held(PutByte(s, f, 0, x), a, b, e, g, f) && Held(PutByte(s, f, 0, x), b, a, e, g, f)
    ensures Held(s, b, a, e, g, f)
  {
    assert 16 * e / 16 == e && 16 * e % 16 == 0;
  }

  lemma HeldRead(s: State, a: nat, b: nat, e: nat, g: nat, f: nat)
    requires Held(s, a, b, e, g, f)
    ensures Clear(s, Load(b, 16 * e)) && Step(s, Load(b, 16 * e)) == Reply(s, Loaded(s.frames[f][0]))
  {
    assert 16 * e / 16 == e && 16 * e % 16 == 0;
    LoadInPlace(s, b, 16 * e);
  }

  lemma LoadInPlace(s: State, pid: nat, va: nat)
    requires Shape(s) && pid < PROCESSES && va < 64 && Resident(s, pid)
    requires Alloc(EntryFlags(s, pid, va / 16)) && InCore(EntryFlags(s, pid, va / 16))
    ensures Clear(s, Load(pid, va))
    ensures Step(s, Load(pid, va)) == Reply(s, Loaded(s.frames[FrameOf(EntryFlags(s, pid, va / 16))][va % 16]))
  {
  }

  /** b maps its page e and stores 1, a stores 2 in its own page e. */
  function Crossing(a: nat, b: nat, e: nat): seq<Instruction> {
    [Map(b, 16 * e, 1)] + [Store(b, 16 * e, 1)] + [Map(a, 16 * e, 1)] + [Store(a, 16 * e, 2)]
  }

  lemma CrossingLeads(s: State, a: nat, b: nat, e: nat) returns (r: State, f: nat)
    requires Shape(s) && Twins(s, a, b, e)
    ensures Reaches(s, Crossing(a, b, e), r) && Held(r, a, b, e, s.table[a], f) && r.frames[f][0] == 2
  {
    var t;
    t, f := TwinsFault(s, a, b, e);
    Here(s);
    Onward(s, [], s, Map(b, 16 * e, 1), t);
    assert [] + [Map(b, 16 * e, 1)] == [Map(b, 16 * e, 1)];
    r := HeldCrossing(s, [Map(b, 16 * e, 1)], t, a, b, e, s.table[a], f);
  }

  lemma HeldCrossing(s: State, ds: seq<Instruction>, t: State, a: nat, b: nat, e: nat, g: nat, f: nat)
    returns (r: State)
    requires Reaches(s, ds, t) && Held(t, a, b, e, g, f)
    ensures Reaches(s, ds + [Store(b, 16 * e, 1)] + [Map(a, 16 * e, 1)] + [Store(a, 16 * e, 2)], r)
    ensures Held(r, a, b, e, g, f) && r.frames[f][0] == 2
  {
    var u := PutByte(t, f, 0, 1);
    HeldSteps(t, a, b, e, g, f, 1);
    HeldSteps(t, b, a, e, g, f, 1);
    Onward(s, ds, t, Store(b, 16 * e, 1), u);
    HeldSteps(u, a, b, e, g, f, 2);
    Onward(s, ds + [Store(b, 16 * e, 1)], u, Map(a, 16 * e, 1), u);
    r := PutByte(u, f, 0, 2);
    Onward(s, ds + [Store(b, 16 * e, 1)] + [Map(a, 16 * e, 1)], u, Store(a, 16 * e, 2), r);
  }

  /** What was last stored at b's address is 1. */
  lemma CrossingHistory(cs: seq<Instruction>, a: nat, b: nat, e: nat)
    requires a != b
    ensures var all := cs + Crossing(a, b, e);
      LastMap(all, b, 16 * e / 16) == Some(1) && LastStore(all, b, 16 * e) == 1
  {
    var ds := Crossing(a, b, e);
    HistoryGrows(cs, ds[0]);
    HistoryGrows(cs + [ds[0]], ds[1]);
    HistoryGrows(cs + [ds[0]] + [ds[1]], ds[2]);
    HistoryGrows(cs + [ds[0]] + [ds[1]] + [ds[2]], ds[3]);
    assert cs + ds == cs + [ds[0]] + [ds[1]] + [ds[2]] + [ds[3]];
  }

  /** And b reads 2. */
  lemma TwinsMislead(cs: seq<Instruction>, s: State, a: nat, b: nat, e: nat)
    requires Program(cs) && After(cs) == Ok(s) && Shape(s) && Twins(s, a, b, e)
    ensures !Trusted(cs)
  {
    var r, f := CrossingLeads(s, a, b, e);
    HeldRead(r, a, b, e, s.table[a], f);
    CrossingHistory(cs, a, b, e);
    WrongLoad(cs, s, Crossing(a, b, e), r, b, 16 * e);
  }

  // ----- A table in the frame of a page -----

  /** Entry vp of process pid's table, in frame T, is of a writable page in frame p, where l's table is. */
  ghost predicate Overlaid(s: State, pid: nat, vp: nat, T: nat, p: nat, l: nat) {
    && Shape(s) && pid < PROCESSES && vp < PAGES && T < FRAMES && p < FRAMES && l < PROCESSES && p != T
    && s.table[pid] == T && s.table[l] == p && Claims(s.frames[T], vp, p)
  }

  lemma OverlaidMap(s: State, pid: nat, vp: nat, T: nat, p: nat, l: nat) returns (r: State)
    requires Overlaid(s, pid, vp, T, p, l)
    ensures Leads(s, Map(pid, 16 * vp, 1), r) && Overlaid(r, pid, vp, T, p, l) && Prot(r.frames[T][2 * vp]) == 1
  {
    assert 16 * vp / 16 == vp;
    r := Step(s, Map(pid, 16 * vp, 1)).state;
  }

  /** A store to the page writes the flags of l's first entry. */
  lemma OverlaidStore(s: State, pid: nat, vp: nat, T: nat, p: nat, l: nat, x: Byte) returns (r: State)
    requires Overlaid(s, pid, vp, T, p, l) && Prot(s.frames[T][2 * vp]) == 1
    ensures Leads(s, Store(pid, 16 * vp, x), r)
    ensures Shape(r) && r.table[l] == p && r.frames[p][0] == x
  {
    assert 16 * vp / 16 == vp && 16 * vp % 16 == 0;
    r := PutByte(s, p, 0, x);
  }

  lemma LoadUnmapped(s: State, pid: nat, va: nat)
    requires Shape(s) && pid < PROCESSES && va < 64 && Resident(s, pid) && !Alloc(EntryFlags(s, pid, va / 16))
    ensures Clear(s, Load(pid, va)) && Step(s, Load(pid, va)) == Reply(s, NotAllocated)
  {
  }

  lemma NoFlags(s: State, l: nat, p: nat)
    requires Shape(s) && l < PROCESSES && p < FRAMES && s.table[l] == p && s.frames[p][0] == 0
    ensures Clear(s, Load(l, 0)) && Step(s, Load(l, 0)) == Reply(s, NotAllocated)
  {
    assert EntryFlags(s, l, 0) == 0;
    LoadUnmapped(s, l, 0);
  }

  lemma SomeFlags(s: State, l: nat, p: nat)
    requires Shape(s) && l < PROCESSES && p < FRAMES && s.table[l] == p && s.frames[p][0] == 3
    ensures Clear(s, Load(l, 0)) && Step(s, Load(l, 0)).Reply? && Step(s, Load(l, 0)).output.Loaded?
  {
    var flags := EntryFlags(s, l, 0);
    assert flags == 3 && Alloc(flags) && InCore(flags);
    LoadInPlace(s, l, 0);
  }

  /** Process l has mapped nothing meanwhile. */
  lemma OverlayHistory(cs: seq<Instruction>, pid: nat, vp: nat, x: Byte, l: nat)
    requires pid != l
    ensures LastMap(cs + [Map(pid, 16 * vp, 1), Store(pid, 16 * vp, x)], l, 0) == LastMap(cs, l, 0)
  {
    var c, d := Map(pid, 16 * vp, 1), Store(pid, 16 * vp, x);
    HistoryGrows(cs, c);
    HistoryGrows(cs + [c], d);
    assert cs + [c, d] == cs + [c] + [d];
  }

  lemma OverlaidReaches(s: State, c: Instruction, t: State, d: Instruction, r: State)
    requires Leads(s, c, t) && Leads(t, d, r)
    ensures Reaches(s, [c, d], r)
  {
    Here(s);
    Onward(s, [], s, c, t);
    Onward(s, [] + [c], t, d, r);
    assert [c, d] == [] + [c] + [d];
  }

  lemma OverlaidMisleads(cs: seq<Instruction>, s: State, pid: nat, vp: nat, T: nat, p: nat, l: nat)
    requires Program(cs) && After(cs) == Ok(s) && Overlaid(s, pid, vp, T, p, l)
    ensures !Trusted(cs)
  {
    var x := if LastMap(cs, l, 0) == Absent then 3 else 0;
    var ds := [Map(pid, 16 * vp, 1), Store(pid, 16 * vp, x)];
    var t := OverlaidMap(s, pid, vp, T, p, l);
    var r := OverlaidStore(t, pid, vp, T, p, l, x);
    OverlaidReaches(s, ds[0], t, ds[1], r);
    if x == 0 {
      NoFlags(r, l, p);
    } else {
      SomeFlags(r, l, p);
    }
    OverlayHistory(cs, pid, vp, x, l);
    WrongLoad(cs, s, ds, r, l, 0);
  }

  // ----- The law and its condition -----

  lemma BrokenMisleads(cs: seq<Instruction>, s: State, pid: nat, vp: nat, T: nat)
    requires Program(cs) && After(cs) == Ok(s) && pid < PROCESSES && vp < PAGES && T < FRAMES && Broken(s, pid, vp, T)
    ensures !Trusted(cs)
  {
    var p := FrameOf(s.frames[T][2 * vp]);
    if SharedTable(s, p, T) {
      var a: nat, b: nat, e: nat :| Twins(s, a, b, e) && s.table[a] != p && s.table[a] != T;
      TwinsMislead(cs, s, a, b, e);
    } else {
      var l :| 0 <= l < PROCESSES && s.table[l] == p;
      OverlaidMisleads(cs, s, pid, vp, T, p, l);
    }
  }

  lemma WildIsNotTrusted(cs: seq<Instruction>)
    requires Program(cs) && After(cs) == Wild
    ensures !Trusted(cs)
  {
    var ds: seq<Instruction> := [];
    var all := ds + [Load(0, 0)];
    assert cs + ds == cs && all[..|all| - 1] == ds;
    assert ClearAhead(cs, all);
    assert !LoadHolds(cs + ds, 0, 0);
  }

  /** After a clear program, an instruction is clear if and only if, however the run goes on after it, clearly, every
      load returns the byte last stored. */
  lemma InstructionTrustedIffClear(cs: seq<Instruction>, c: Instruction)
    requires Program(cs) && WellFormed(c) && ClearRun(cs)
    ensures Program(cs + [c]) && After(cs).Ok?
    ensures Clear(After(cs).state, c) <==> Trusted(cs + [c])
  {
    var o := RunRefines(cs);
    RunGrows(cs, c);
    if Clear(After(cs).state, c) {
      ClearIsTrusted(cs + [c]);
    } else {
      UnclearDamages(After(cs).state, c);
      var r := Step(After(cs).state, c);
      if r.Reply? {
        var T: nat :| T < FRAMES && Broken(r.state, c.pid, c.va / 16, T);
        BrokenMisleads(cs + [c], r.state, c.pid, c.va / 16, T);
      } else {
        WildIsNotTrusted(cs + [c]);
      }
    }
  }

  lemma ClearIsTrusted(cs: seq<Instruction>)
    requires Program(cs) && ClearRun(cs)
    ensures Trusted(cs)
  {
    forall ds, pid: nat, va: nat | Program(ds) && pid < PROCESSES && va < 64 && ClearAhead(cs, ds + [Load(pid, va)])
      ensures LoadHolds(cs + ds, pid, va)
    {
      ClearAheadRuns(cs, ds + [Load(pid, va)]);
      assert cs + (ds + [Load(pid, va)]) == cs + ds + [Load(pid, va)];
      LoadReturnsLastStore(cs + ds, pid, va);
    }
  }

  /** At every moment of the program. */
  ghost predicate TrustedThroughout(cs: seq<Instruction>)
    requires Program(cs)
  {
    Trusted(cs) && (cs != [] ==> TrustedThroughout(cs[..|cs| - 1]))
  }

  /** A program is clear if and only if at every moment of it, and of every clear way of going on from there, a load
      returns the byte last stored. */
  lemma {:induction false} RunTrustedIffClear(cs: seq<Instruction>)
    requires Program(cs)
    ensures ClearRun(cs) <==> TrustedThroughout(cs)
  {
    if cs == [] {
      ClearIsTrusted(cs);
    } else {
      var before, c := cs[..|cs| - 1], cs[|cs| - 1];
      assert cs == before + [c];
      RunTrustedIffClear(before);
      RunGrows(before, c);
      if ClearRun(before) {
        InstructionTrustedIffClear(before, c);
      }
    }
  }
}
