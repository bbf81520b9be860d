/**
 The converse of ClearDataFault: a data fault whose cascade comes round to a frame it has
 already filled always goes wrong. Either a table entry is written through a negative frame
 number, or two owners end up sharing one frame.
 */
module PagingCollision {
  import opened PagingModel
  import opened PagingOwnership
  import opened PagingCascade
  import opened PagingFaults

  /** What case D does with the outcome of its nested call. */
  function Closed(r: Outcome, i: nat, j: nat, slot: nat): Outcome
    requires r.Ok? ==> Shape(r.state)
    requires i < PROCESSES && j < PAGES && slot < SLOTS
  {
    match r
    case Wild => Wild
    case Ok(n) =>
      match MarkOutAt(n, i, j, slot)
      case Wild => Wild
      case Ok(m) => Ok(Advance(m))
  }

  /** Entry e says: allocated, in a swap slot. */
  predicate EntryOut(page: Page, e: nat)
    requires e < PAGES
  {
    Alloc(page[2 * e]) && !InCore(page[2 * e]) && page[2 * e + 1] < SLOTS
  }

  /** Closing a cascade moves no table and succeeds exactly when the table in question is resident. */
  lemma ClosedTables(r: Outcome, i: nat, j: nat, slot: nat)
    requires (r.Ok? ==> Shape(r.state)) && i < PROCESSES && j < PAGES && slot < SLOTS
    ensures Closed(r, i, j, slot).Ok? <==> r.Ok? && Resident(r.state, i)
    ensures Closed(r, i, j, slot).Ok? ==>
      Shape(Closed(r, i, j, slot).state) && Closed(r, i, j, slot).state.table == r.state.table
    ensures Closed(r, i, j, slot).Ok? ==> forall f | 0 <= f < FRAMES && f != r.state.table[i] ::
      Closed(r, i, j, slot).state.frames[f] == r.state.frames[f]
  {
  }

  /** What closing does to the table in frame c: nothing becomes allocated or unallocated, an entry that is out
      stays out, and entry j goes out if process i's table is the one. */
  lemma ClosedEffect(r: Outcome, i: nat, j: nat, slot: nat, c: nat)
    requires r.Ok? && Shape(r.state) && i < PROCESSES && j < PAGES && slot < SLOTS && c < FRAMES && Resident(r.state, i)
    ensures var q := Closed(r, i, j, slot);
            && q.Ok? && Shape(q.state) && q.state.table == r.state.table && q.state.slots == r.state.slots
            && q.state.next == (r.state.next + 1) % 4
            && (forall e | 0 <= e < PAGES ::
                 Alloc(q.state.frames[c][2 * e]) == Alloc(r.state.frames[c][2 * e]) &&
                 (EntryOut(r.state.frames[c], e) ==> EntryOut(q.state.frames[c], e)))
            && (r.state.table[i] == c && Alloc(r.state.frames[c][2 * j]) ==> EntryOut(q.state.frames[c], j))
  {
  }

  /** The outcome of the whole call is the outcome r of a call two levels down, closed twice. */
  ghost predicate ClosesTwice(result: Outcome, r: Outcome, v: Owner, w: Owner, slot: nat, t: nat) {
    && (r.Ok? ==> Shape(r.state))
    && Entity(v) && Entity(w) && v.Pg? && w.Pg? && slot < SLOTS && t < SLOTS
    && result == Closed(Closed(r, w.pid, w.vp, t), v.pid, v.vp, slot)
  }

  ghost predicate ClosesOnce(result: Outcome, r: Outcome, u: Owner, t: nat) {
    (r.Ok? ==> Shape(r.state)) && Entity(u) && u.Pg? && t < SLOTS && result == Closed(r, u.pid, u.vp, t)
  }

  // ----- The scan when a stale entry still claims the frame -----

  ghost predicate OnlyClaim(s: State, c: nat, a: nat, b: nat)
    requires Shape(s)
  {
    && a < PROCESSES && b < PAGES && s.table[a] < NOTALLOC
    && forall q, r | 0 <= q < PROCESSES && 0 <= r < PAGES && s.table[q] < NOTALLOC ::
         Claims(TablePage(s, q), r, c) <==> q == a && r == b
  }

  lemma {:induction false} FirstOfTwo(s: State, c: nat, pid: nat, i: nat, a: nat, b: nat, n: nat)
    requires Shape(s) && c < FRAMES && i < PROCESSES && i != pid && OnlyClaim(s, c, a, b) && i != a
    requires forall q | 0 <= q < PROCESSES :: s.table[q] == c <==> q == i
    requires n <= i && n <= a
    ensures FindVictim(s, c, pid, n) == if i < a then TableOf(i) else PageOf(a, b)
    decreases PROCESSES - n
  {
    if n != i && n != a {
      FirstOfTwo(s, c, pid, i, a, b, n + 1);
    }
  }

  lemma {:induction false} OnlyPage(s: State, c: nat, pid: nat, a: nat, b: nat, n: nat)
    requires Shape(s) && c < FRAMES && OnlyClaim(s, c, a, b)
    requires forall q | 0 <= q < PROCESSES :: s.table[q] != c
    requires n <= a
    ensures FindVictim(s, c, pid, n) == PageOf(a, b)
    decreases PROCESSES - n
  {
    if n != a {
      OnlyPage(s, c, pid, a, b, n + 1);
    }
  }

  /** A frame whose owner is a table or a pending page is claimed only by stale entries. */
  lemma StaleClaimOnly(s: State, o: Owners, pend: Pending, c: nat, a: nat, b: nat)
    requires Owned(s, o, pend) && c < FRAMES
    requires o.frame[c].Pg? ==> (o.frame[c].pid, o.frame[c].vp) in pend
    requires (a, b) in pend && Claims(TablePage(s, a), b, c) && s.table[a] < NOTALLOC
    requires forall q, r | (q, r) in pend && (q, r) != (a, b) ::
      q < PROCESSES && r < PAGES && !Claims(TablePage(s, q), r, c)
    ensures OnlyClaim(s, c, a, b)
  {
    forall q, r | 0 <= q < PROCESSES && 0 <= r < PAGES && s.table[q] < NOTALLOC
      ensures Claims(TablePage(s, q), r, c) <==> q == a && r == b
    {
      if (q, r) !in pend {
        assert Where(s, pend, Pg(q, r)) == ByteLoc(s, q, r);
      }
    }
  }

  /** The tables after an eviction that does not nest. */
  lemma FlatEviction(s: State, slot: nat, c: nat, pid: nat)
    requires Shape(s) && slot < SLOTS && c < FRAMES && pid < PROCESSES
    ensures var v, r := FindVictim(s, c, pid, 0), SwapPage(s, slot, c, pid);
            && (v.TableOf? ==> r.Ok? && r.state.table == Relocate(s.table, slot, c)[v.pid := SwapToIndex(slot)])
            && (v.PageOf? && Resident(s, v.pid) ==> r.Ok? && r.state.table == Relocate(s.table, slot, c))
            && (v.PageOf? && Resident(s, v.pid) ==> forall f | 0 <= f < FRAMES && f != c && f != s.table[v.pid] ::
                 r.state.frames[f] == s.frames[f])
            && (v.PageOf? && IndexToSwap(s.table[v.pid]) == slot ==> r.Ok? && r.state.table == s.table[v.pid := c])
  {
  }

  // ----- Going down -----

  /** A call under way on the path, with the issuer's table in a frame nobody stale claims. */
  ghost predicate Descending(s: State, o: Owners, pend: Pending, slot: nat, pid: nat, path: seq<nat>) {
    && Underway(s, o, pend, slot, pid, path)
    && Resident(s, pid) && o.slot[slot] != Tab(pid) && s.table[pid] !in path && Quiet(s, pend, s.table[pid])
    && o.frame[path[0]].Pg? && o.frame[path[0]].pid in AwayTables(s, o.slot[slot])
  }

  function NextState(s: State, o: Owners, slot: nat, pid: nat, f: nat): State
    requires Shape(s) && Proper(o) && slot < SLOTS && f < FRAMES && pid < PROCESSES
    requires o.frame[f].Tab? ==> o.frame[f].pid < PROCESSES
    requires o.slot[slot].Tab? ==> o.slot[slot].pid < PROCESSES
  {
    Exchanged(s, o, slot, f).(next := Landing(s.table[pid], (f + 1) % 4, s.next).1)
  }

  /** One level down: the state of the nested call and what is pending in it. */
  ghost predicate Descended(s: State, o: Owners, pend: Pending, slot: nat, pid: nat, f: nat, e: State)
    requires Shape(s) && Proper(o) && slot < SLOTS && f < FRAMES && pid < PROCESSES && o.frame[f].Pg?
    requires o.frame[f].pid < PROCESSES && o.frame[f].vp < PAGES
    requires o.slot[slot].Tab? ==> o.slot[slot].pid < PROCESSES
  {
    var v, x := o.frame[f], o.slot[slot];
    && -SLOTS <= s.table[v.pid] < 0
    && e == NextState(s, o, slot, pid, f)
    && Owned(e, Swapped(o, slot, f), Repend(pend, v, x, slot, f))
    && Swapped(o, slot, f).slot[IndexToSwap(s.table[v.pid])] == Tab(v.pid)
    && e.table == (if x.Tab? then s.table[x.pid := f] else s.table)
    && e.table[pid] == s.table[pid] && 0 <= s.table[pid] && Quiet(e, Repend(pend, v, x, slot, f), s.table[pid])
    && (v.pid, v.vp) !in pend
    && Claims(TablePage(s, v.pid), v.vp, f)
    && forall q | 0 <= q < PROCESSES :: TablePage(e, q) == TablePage(s, q)
  }

  /** What one step down needs: frame f holds a page whose table is elsewhere in swap, and not the issuer's table. */
  ghost predicate Dropping(s: State, o: Owners, pend: Pending, slot: nat, pid: nat, f: nat) {
    && Ready(s, o, pend, slot, f, pid) && Resident(s, pid) && o.slot[slot] != Tab(pid) && Quiet(s, pend, s.table[pid])
    && o.frame[f].Pg? && o.frame[f].pid in AwayTables(s, o.slot[slot]) && Entity(o.frame[f]) && Entity(o.slot[slot])
  }

  lemma DescendingDrops(s: State, o: Owners, pend: Pending, slot: nat, pid: nat, path: seq<nat>)
    requires Descending(s, o, pend, slot, pid, path) && Entity(o.frame[path[0]]) && Entity(o.slot[slot])
    ensures Dropping(s, o, pend, slot, pid, path[0])
  {
  }

  lemma DescendState(s: State, o: Owners, pend: Pending, slot: nat, pid: nat, f: nat, e: State)
    requires Dropping(s, o, pend, slot, pid, f) && e == NextState(s, o, slot, pid, f)
    ensures Descended(s, o, pend, slot, pid, f, e)
  {
    var v, x := o.frame[f], o.slot[slot];
    var ex, o', pend' := Exchanged(s, o, slot, f), Swapped(o, slot, f), Repend(pend, v, x, slot, f);
    assert Where(s, pend, Tab(v.pid)) == TableLoc(s, v.pid) && Where(s, pend, x) == InSlot(slot);
    ExchangeDone(s, o, pend, slot, f, pid);
    IssuerMoves(s, o, pend, slot, f, pid);
    PendingResolved(s, o, pend, slot, f);
    ExchangeKeepsQuiet(s, o, pend, slot, f, pid, s.table[pid]);
    OwnedIgnoresNext(ex, o', pend', e.next);
  }

  /** The state of the nested call, before any redirection. */
  lemma DescendedOwned(s: State, o: Owners, pend: Pending, slot: nat, pid: nat, f: nat)
    requires Dropping(s, o, pend, slot, pid, f)
    ensures var ex, pend' := Exchanged(s, o, slot, f), Repend(pend, o.frame[f], o.slot[slot], slot, f);
      && Owned(ex, Swapped(o, slot, f), pend') && ex.table[pid] == s.table[pid]
      && Quiet(ex, pend', s.table[pid]) && ex.next == s.next
    ensures -SLOTS <= s.table[o.frame[f].pid] < 0
  {
    assert Where(s, pend, Tab(o.frame[f].pid)) == TableLoc(s, o.frame[f].pid);
    ExchangeKeepsOwned(s, o, pend, slot, f);
    IssuerMoves(s, o, pend, slot, f, pid);
    ExchangeKeepsQuiet(s, o, pend, slot, f, pid, s.table[pid]);
  }

  lemma DescendLanding(s: State, o: Owners, pend: Pending, slot: nat, pid: nat, f: nat, e: State, g: nat)
    requires Dropping(s, o, pend, slot, pid, f) && e == NextState(s, o, slot, pid, f)
    requires g == Landing(s.table[pid], (f + 1) % 4, s.next).0
    ensures -SLOTS <= s.table[o.frame[f].pid] < 0 && Shape(e)
    ensures var t := IndexToSwap(s.table[o.frame[f].pid]);
      SwapPage(Exchanged(s, o, slot, f), t, (f + 1) % 4, pid) == SwapPage(e, t, g, pid)
  {
    var v, x := o.frame[f], o.slot[slot];
    DescendedOwned(s, o, pend, slot, pid, f);
    RedirectLands(Exchanged(s, o, slot, f), Swapped(o, slot, f), Repend(pend, v, x, slot, f),
                  IndexToSwap(s.table[v.pid]), (f + 1) % 4, pid, e, g);
  }

  lemma DescendCall(s: State, o: Owners, pend: Pending, slot: nat, pid: nat, f: nat, e: State, g: nat)
    requires Dropping(s, o, pend, slot, pid, f) && e == NextState(s, o, slot, pid, f)
    requires g == Landing(s.table[pid], (f + 1) % 4, s.next).0
    ensures var v := o.frame[f];
            && -SLOTS <= s.table[v.pid] < 0 && Shape(e)
            && SwapPage(s, slot, f, pid) ==
                 Closed(SwapPage(e, IndexToSwap(s.table[v.pid]), g, pid), v.pid, v.vp, slot)
  {
    EvictAwayFromTable(s, o, pend, slot, f, pid);
    DescendLanding(s, o, pend, slot, pid, f, e, g);
  }

  lemma DescendingNext(s: State, o: Owners, pend: Pending, slot: nat, pid: nat, path: seq<nat>, e: State)
    requires Descending(s, o, pend, slot, pid, path) && |path| > 1
    requires Entity(o.frame[path[0]]) && Entity(o.slot[slot]) && e == NextState(s, o, slot, pid, path[0])
    requires o.frame[path[1]].Pg? && o.frame[path[1]].pid in AwayTables(s, o.slot[slot]) - {o.frame[path[0]].pid}
    ensures Descending(e, Swapped(o, slot, path[0]), Repend(pend, o.frame[path[0]], o.slot[slot], slot, path[0]),
                       IndexToSwap(s.table[o.frame[path[0]].pid]), pid, path[1..])
  {
    assert GoesOn(s, o, pend, slot, pid, path, e);
    NestedUnderway(s, o, pend, slot, pid, path, e);
    NestedOwned(s, o, pend, slot, pid, path, e);
    DescendingDrops(s, o, pend, slot, pid, path);
    DescendState(s, o, pend, slot, pid, path[0], e);
  }

  // ----- The ways it ends -----

  /** Processes a and b use one frame as their table, entry e of it is of a page in swap, and a fault of b
      would meet no page of a process whose table is in swap. */
  ghost predicate Twins(s: State, a: nat, b: nat, e: nat)
    requires Shape(s)
  {
    && a < PROCESSES && b < PROCESSES && a != b && e < PAGES
    && Resident(s, a) && s.table[a] == s.table[b]
    && EntryOut(s.frames[s.table[a]], e)
    && (forall f | 0 <= f < FRAMES :: s.full[f])
    && NobodyStrands(s, SkipTable(s, b).next)
  }

  predicate NobodyStrands(s: State, f: nat)
    requires Shape(s)
  {
    forall i | 0 <= i < PROCESSES :: !Strands(s, i, f)
  }

  /** Two tables share a frame other than p and T. */
  ghost predicate SharedTable(s: State, p: int, T: int)
    requires Shape(s)
  {
    exists a: nat, b: nat, e: nat :: Twins(s, a, b, e) && s.table[a] != p && s.table[a] != T
  }

  /** Two tables share a frame; or a table sits in frame p, where the faulted page should be, while the
      issuer's table is as it was in state start. */
  ghost predicate Spoilt(s: State, p: nat, pid: nat, start: State)
    requires pid < PROCESSES && Shape(start) && Resident(start, pid)
  {
    && Shape(s)
    && (|| SharedTable(s, p, start.table[pid])
        || (&& s.table[pid] == start.table[pid] && TablePage(s, pid) == TablePage(start, pid)
            && exists l | 0 <= l < PROCESSES :: s.table[l] == p))
  }

  ghost predicate GoesWrong(r: Outcome, p: nat, pid: nat, start: State)
    requires pid < PROCESSES && Shape(start) && Resident(start, pid)
  {
    r.Ok? ==> Spoilt(r.state, p, pid, start)
  }

  lemma SoleTableAt(s: State, o: Owners, pend: Pending, c: nat)
    requires Owned(s, o, pend) && c < FRAMES
    ensures forall q | 0 <= q < PROCESSES :: s.table[q] == c <==> o.frame[c] == Tab(q)
  {
    forall q | 0 <= q < PROCESSES
      ensures s.table[q] == c <==> o.frame[c] == Tab(q)
    {
      assert Where(s, pend, Tab(q)) == TableLoc(s, q);
    }
  }

  /** The last nested call finds table i in frame c while process a's stale entry still claims c, and
      the table in slot t belongs to process l: either table i goes to swap, or it keeps sharing c with l's. */
  lemma CollideOnTable(s: State, o: Owners, pend: Pending, t: nat, c: nat, pid: nat, i: nat, a: nat, b: nat, l: nat)
    requires Owned(s, o, pend) && t < SLOTS && c < FRAMES && pid < PROCESSES && l < PROCESSES
    requires i < PROCESSES && i != pid && i != a && i != l && o.frame[c] == Tab(i) && OnlyClaim(s, c, a, b)
    requires s.table[l] == SwapToIndex(t)
    requires Resident(s, a) || a == l
    ensures var r := SwapPage(s, t, c, pid);
            r.Ok? && (if i < a then r.state.table[i] < 0 else TookFrame(s, r.state, t, c, l))
  {
    SoleTableAt(s, o, pend, c);
    FirstOfTwo(s, c, pid, i, a, b, 0);
    FlatEviction(s, t, c, pid);
    if a < i {
      SoleTableIn(s, o, pend, t, c, l);
      TookFrameHow(s, t, c, pid, a, b, l);
    }
  }

  /** Process l's table has come from slot t into frame c, no other table having moved. */
  ghost predicate TookFrame(s: State, r: State, t: nat, c: nat, l: nat)
    requires Shape(s) && t < SLOTS && c < FRAMES && l < PROCESSES
  {
    && Shape(r) && r.table == s.table[l := c] && r.next == (s.next + 1) % 4
    && (forall k | 0 <= k < SLOTS && k != t :: r.slots[k] == s.slots[k])
    && (forall e | 0 <= e < PAGES :: Alloc(r.frames[c][2 * e]) == Alloc(s.slots[t][2 * e]))
  }

  lemma SoleTableIn(s: State, o: Owners, pend: Pending, t: nat, c: nat, l: nat)
    requires Owned(s, o, pend) && t < SLOTS && c < FRAMES && l < PROCESSES && s.table[l] == SwapToIndex(t)
    ensures Relocate(s.table, t, c) == s.table[l := c]
  {
    forall q | 0 <= q < PROCESSES && q != l
      ensures s.table[q] != SwapToIndex(t)
    {
      assert Where(s, pend, Tab(q)) == TableLoc(s, q) && Where(s, pend, Tab(l)) == InSlot(t);
    }
  }

  lemma TookFrameHow(s: State, t: nat, c: nat, pid: nat, a: nat, b: nat, l: nat)
    requires Shape(s) && t < SLOTS && c < FRAMES && pid < PROCESSES && l < PROCESSES && a < PROCESSES && b < PAGES
    requires FindVictim(s, c, pid, 0) == PageOf(a, b) && Relocate(s.table, t, c) == s.table[l := c]
    requires Resident(s, a) || (a == l && s.table[l] == SwapToIndex(t))
    ensures SwapPage(s, t, c, pid).Ok? && TookFrame(s, SwapPage(s, t, c, pid).state, t, c, l)
  {
    if Resident(s, a) {
      TookBesideTable(s, t, c, pid, a, b, l);
    } else {
      TookWithPage(s, t, c, pid, b, l);
    }
  }

  lemma TookBesideTable(s: State, t: nat, c: nat, pid: nat, a: nat, b: nat, l: nat)
    requires Shape(s) && t < SLOTS && c < FRAMES && pid < PROCESSES && l < PROCESSES && a < PROCESSES && b < PAGES
    requires FindVictim(s, c, pid, 0) == PageOf(a, b) && Relocate(s.table, t, c) == s.table[l := c] && Resident(s, a)
    ensures SwapPage(s, t, c, pid).Ok? && TookFrame(s, SwapPage(s, t, c, pid).state, t, c, l)
  {
    var marked := s.(frames := s.frames[s.table[a] := MarkOut(s.frames[s.table[a]], b, t)]);
    assert SwapPage(s, t, c, pid) == Ok(Advance(BringIn(marked, t, c)));
  }

  lemma TookWithPage(s: State, t: nat, c: nat, pid: nat, b: nat, l: nat)
    requires Shape(s) && t < SLOTS && c < FRAMES && pid < PROCESSES && l < PROCESSES && b < PAGES
    requires FindVictim(s, c, pid, 0) == PageOf(l, b) && s.table[l] == SwapToIndex(t)
    ensures SwapPage(s, t, c, pid).Ok? && TookFrame(s, SwapPage(s, t, c, pid).state, t, c, l)
  {
    var e := Exchange(s, t, c);
    assert SwapPage(s, t, c, pid) ==
      Ok(Advance(e.(frames := e.frames[c := MarkOut(e.frames[c], b, t)], table := s.table[l := c])));
  }

  /** The last nested call finds frame c claimed by nobody but the stale entry of process a. */
  lemma CollideOnPage(s: State, o: Owners, pend: Pending, t: nat, c: nat, pid: nat, a: nat, b: nat, l: nat)
    requires Owned(s, o, pend) && t < SLOTS && c < FRAMES && pid < PROCESSES && l < PROCESSES
    requires o.frame[c].Pg? && OnlyClaim(s, c, a, b) && Resident(s, a) && s.table[l] == SwapToIndex(t)
    ensures var r := SwapPage(s, t, c, pid);
            && r.Ok? && r.state.table == Relocate(s.table, t, c) && r.state.table[l] == c
            && forall f | 0 <= f < FRAMES && f != c && f != s.table[a] :: r.state.frames[f] == s.frames[f]
  {
    SoleTableAt(s, o, pend, c);
    OnlyPage(s, c, pid, a, b, 0);
    FlatEviction(s, t, c, pid);
  }

  /** The state a colliding data fault starts from. */
  ghost predicate FaultStart(s: State, o: Owners, slot: nat, pid: nat, vp: nat) {
    && pid < PROCESSES && vp < PAGES && slot < SLOTS
    && Owned(s, o, map[(pid, vp) := InSlot(slot)]) && AllFull(o)
    && o.slot[slot] == Pg(pid, vp) && Resident(s, pid) && s.next != s.table[pid]
    && !(Alloc(TablePage(s, pid)[2 * vp]) && InCore(TablePage(s, pid)[2 * vp]))
  }

  /** Each frame of the path is owned by a page of a different process whose table is in swap. */
  predicate AllStranded(s: State, o: Owners, path: seq<nat>)
    requires Shape(s) && Proper(o)
  {
    && (forall m | 0 <= m < |path| :: path[m] < FRAMES && o.frame[path[m]].Pg? && o.frame[path[m]].pid < PROCESSES &&
         s.table[o.frame[path[m]].pid] < 0)
    && (forall m, n | 0 <= m < n < |path| :: o.frame[path[m]].pid != o.frame[path[n]].pid)
  }

  /** The one pending page is in swap, so it disturbs no frame. */
  lemma DataQuiet(s: State, slot: nat, pid: nat, vp: nat)
    requires Shape(s) && pid < PROCESSES && vp < PAGES
    requires !(Alloc(TablePage(s, pid)[2 * vp]) && InCore(TablePage(s, pid)[2 * vp]))
    ensures forall g | 0 <= g < FRAMES :: Quiet(s, map[(pid, vp) := InSlot(slot)], g)
  {
  }

  lemma StartDescending(s: State, o: Owners, slot: nat, pid: nat, vp: nat)
    requires FaultStart(s, o, slot, pid, vp) && AllStranded(s, o, DataPath(s.next, s.table[pid]))
    ensures Descending(s, o, map[(pid, vp) := InSlot(slot)], slot, pid, DataPath(s.next, s.table[pid]))
  {
    StartUnderway(s, o, slot, pid, vp, DataPath(s.next, s.table[pid]));
    FirstIsAway(s, o, DataPath(s.next, s.table[pid]), pid, vp);
  }

  lemma StartUnderway(s: State, o: Owners, slot: nat, pid: nat, vp: nat, path: seq<nat>)
    requires FaultStart(s, o, slot, pid, vp) && path == DataPath(s.next, s.table[pid])
    ensures Underway(s, o, map[(pid, vp) := InSlot(slot)], slot, pid, path)
    ensures s.table[pid] !in path && Quiet(s, map[(pid, vp) := InSlot(slot)], s.table[pid])
  {
    DataQuiet(s, slot, pid, vp);
    DataPathLinked(s.next, s.table[pid]);
    assert OnRoute(s, map[(pid, vp) := InSlot(slot)], path, s.table[pid]);
    assert Ready(s, o, map[(pid, vp) := InSlot(slot)], slot, s.next, pid);
  }

  lemma FirstIsAway(s: State, o: Owners, path: seq<nat>, pid: nat, vp: nat)
    requires Shape(s) && Proper(o) && |path| > 0 && AllStranded(s, o, path)
    ensures o.frame[path[0]].Pg? && o.frame[path[0]].pid in AwayTables(s, Pg(pid, vp))
  {
  }

  // ----- Stages of the descent -----

  /** Entry (a, b), pending, still claims frame c, and no other pending page's entry does. */
  ghost predicate Stale(s: State, pend: Pending, c: nat, a: nat, b: nat)
    requires Shape(s)
  {
    && (a, b) in pend && a < PROCESSES && b < PAGES && Claims(TablePage(s, a), b, c)
    && forall q, r | (q, r) in pend && (q, r) != (a, b) :: q < PROCESSES && r < PAGES ==> !Claims(TablePage(s, q), r, c)
  }

  /** One call of the descent: its state, owners, pending pages and slot. */
  datatype Stage = Stage(s: State, o: Owners, pend: Pending, slot: nat)

  ghost predicate Good(g: Stage, pid: nat, path: seq<nat>) {
    && Descending(g.s, g.o, g.pend, g.slot, pid, path)
    && Entity(g.o.frame[path[0]]) && Entity(g.o.slot[g.slot])
  }

  ghost function Deeper(g: Stage, pid: nat, path: seq<nat>): Stage
    requires Good(g, pid, path)
  {
    var f := path[0];
    Stage(NextState(g.s, g.o, g.slot, pid, f), Swapped(g.o, g.slot, f),
          Repend(g.pend, g.o.frame[f], g.o.slot[g.slot], g.slot, f), IndexToSwap(g.s.table[g.o.frame[f].pid]))
  }

  /** What one level down looks like, seen from the level above. */
  ghost predicate Below(g: Stage, h: Stage, f: nat, pid: nat)
    requires Shape(g.s) && Proper(g.o) && g.slot < SLOTS && f < FRAMES && pid < PROCESSES && Entity(g.o.frame[f])
  {
    var v, x := g.o.frame[f], g.o.slot[g.slot];
    && Owned(h.s, h.o, h.pend) && h.slot < SLOTS
    && g.s.table[v.pid] == SwapToIndex(h.slot)
    && (x.Tab? ==> x.pid < PROCESSES && h.s.table == g.s.table[x.pid := f])
    && (!x.Tab? ==> h.s.table == g.s.table)
    && h.s.table[pid] == g.s.table[pid]
    && h.o.frame == g.o.frame[f := x]
    && (v.Pg? ==> Stale(h.s, h.pend, f, v.pid, v.vp))
    && (x.Pg? ==> (x.pid, x.vp) in h.pend)
  }

  lemma GoDown(g: Stage, pid: nat, path: seq<nat>)
    requires Good(g, pid, path)
    ensures Below(g, Deeper(g, pid, path), path[0], pid)
    ensures var h := Deeper(g, pid, path); forall q | 0 <= q < PROCESSES :: TablePage(h.s, q) == TablePage(g.s, q)
  {
    var f, h, v, x := path[0], Deeper(g, pid, path), g.o.frame[path[0]], g.o.slot[g.slot];
    DescendingDrops(g.s, g.o, g.pend, g.slot, pid, path);
    DescendState(g.s, g.o, g.pend, g.slot, pid, f, h.s);
    assert Where(g.s, g.pend, x) == InSlot(g.slot);
    forall q, r | (q, r) in h.pend && (q, r) != (v.pid, v.vp)
      ensures q < PROCESSES && r < PAGES ==> !Claims(TablePage(h.s, q), r, f)
    {
      if (q, r) !in g.pend {
        assert x == Pg(q, r);
      }
    }
  }

  /** A stale claim on another frame stays as it is. */
  lemma StaleStays(g: Stage, pid: nat, path: seq<nat>, c: nat, a: nat, b: nat)
    requires Good(g, pid, path) && c != path[0] && g.o.slot[g.slot].Tab? && Stale(g.s, g.pend, c, a, b)
    ensures Shape(Deeper(g, pid, path).s) && Stale(Deeper(g, pid, path).s, Deeper(g, pid, path).pend, c, a, b)
  {
    GoDown(g, pid, path);
  }

  lemma CallDown(g: Stage, pid: nat, path: seq<nat>, f': nat)
    requires Good(g, pid, path) && f' == Landing(g.s.table[pid], (path[0] + 1) % 4, g.s.next).0
    ensures var h, v := Deeper(g, pid, path), g.o.frame[path[0]];
            && h.slot < SLOTS && Shape(h.s)
            && SwapPage(g.s, g.slot, path[0], pid) == Closed(SwapPage(h.s, h.slot, f', pid), v.pid, v.vp, g.slot)
  {
    DescendingDrops(g.s, g.o, g.pend, g.slot, pid, path);
    DescendCall(g.s, g.o, g.pend, g.slot, pid, path[0], Deeper(g, pid, path).s, f');
  }

  lemma StillGood(g: Stage, pid: nat, path: seq<nat>)
    requires Good(g, pid, path) && |path| > 1
    requires g.o.frame[path[1]].Pg?
    requires g.o.frame[path[1]].pid in AwayTables(g.s, g.o.slot[g.slot]) - {g.o.frame[path[0]].pid}
    ensures Good(Deeper(g, pid, path), pid, path[1..])
    ensures Deeper(g, pid, path).o.slot[Deeper(g, pid, path).slot] == Tab(g.o.frame[path[0]].pid)
  {
    var h := Deeper(g, pid, path);
    DescendingNext(g.s, g.o, g.pend, g.slot, pid, path, h.s);
    DescendingDrops(g.s, g.o, g.pend, g.slot, pid, path);
    DescendState(g.s, g.o, g.pend, g.slot, pid, path[0], h.s);
    assert Where(h.s, h.pend, h.o.frame[path[1]]) == InFrame(path[1]);
  }

  /** The state two levels down, seen from the start of the fault. */
  ghost predicate TwoBelow(g: Stage, h: Stage, pid: nat, path: seq<nat>)
    requires Shape(g.s) && Proper(g.o) && g.slot < SLOTS && pid < PROCESSES && |path| >= 2 && path[0] < FRAMES
    requires path[1] < FRAMES
  {
    var v, w := g.o.frame[path[0]], g.o.frame[path[1]];
    && Entity(v) && Entity(w) && v.Pg? && w.Pg?
    && Owned(h.s, h.o, h.pend) && h.slot < SLOTS
    && h.s.table == g.s.table[v.pid := path[1]] && h.s.table[w.pid] == SwapToIndex(h.slot)
    && TablePage(h.s, pid) == TablePage(g.s, pid)
    && h.o.frame == g.o.frame[path[0] := g.o.slot[g.slot]][path[1] := Tab(v.pid)]
    && Stale(h.s, h.pend, path[0], v.pid, v.vp) && Stale(h.s, h.pend, path[1], w.pid, w.vp)
    && (g.o.slot[g.slot].Pg? ==> (g.o.slot[g.slot].pid, g.o.slot[g.slot].vp) in h.pend)
  }

  lemma FirstTwo(g: Stage, pid: nat, path: seq<nat>) returns (h: Stage)
    requires Good(g, pid, path) && |path| >= 2 && g.o.slot[g.slot].Pg? && AllStranded(g.s, g.o, path)
    ensures Good(Deeper(g, pid, path), pid, path[1..]) && h == Deeper(Deeper(g, pid, path), pid, path[1..])
    ensures TwoBelow(g, h, pid, path)
  {
    var k := Deeper(g, pid, path);
    GoDown(g, pid, path);
    StillGood(g, pid, path);
    h := Deeper(k, pid, path[1..]);
    GoDown(k, pid, path[1..]);
    StaleStays(k, pid, path[1..], path[0], g.o.frame[path[0]].pid, g.o.frame[path[0]].vp);
  }

  /** What the second call down looks like. */
  lemma SecondCall(k: Stage, pid: nat, path: seq<nat>, h: Stage, c: nat, next: nat)
    requires Good(k, pid, path) && h == Deeper(k, pid, path)
    requires (c, next) == Landing(k.s.table[pid], (path[0] + 1) % 4, k.s.next)
    ensures h.s.next == next && h.slot < SLOTS && Shape(h.s) && k.slot < SLOTS && Shape(k.s)
    ensures var w := k.o.frame[path[0]];
      SwapPage(k.s, k.slot, path[0], pid) == Closed(SwapPage(h.s, h.slot, c, pid), w.pid, w.vp, k.slot)
  {
    CallDown(k, pid, path, c);
  }

  lemma TwoCalls(g: Stage, k: Stage, pid: nat, path: seq<nat>, h: Stage, c: nat, next: nat)
    requires Good(g, pid, path) && |path| >= 2 && g.s.next < FRAMES && k == Deeper(g, pid, path)
    requires Good(k, pid, path[1..]) && h == Deeper(k, pid, path[1..])
    requires path[1] == Landing(g.s.table[pid], (path[0] + 1) % 4, g.s.next).0
    requires k.s.table[pid] == g.s.table[pid] && k.s.next == Landing(g.s.table[pid], (path[0] + 1) % 4, g.s.next).1
    requires (c, next) == Landing(g.s.table[pid], (path[1] + 1) % 4, k.s.next)
    ensures h.s.next == next && h.slot < SLOTS && Shape(h.s)
    ensures var v, w := g.o.frame[path[0]], k.o.frame[path[1]];
            k.slot < SLOTS && SwapPage(g.s, g.slot, path[0], pid) ==
              Closed(Closed(SwapPage(h.s, h.slot, c, pid), w.pid, w.vp, k.slot), v.pid, v.vp, g.slot)
  {
    var rest := path[1..];
    assert rest[0] == path[1];
    SecondCall(k, pid, rest, h, c, next);
    SecondCall(g, pid, path, k, path[1], k.s.next);
  }

  lemma StartGood(s: State, o: Owners, slot: nat, pid: nat, vp: nat) returns (g: Stage)
    requires FaultStart(s, o, slot, pid, vp) && AllStranded(s, o, DataPath(s.next, s.table[pid]))
    ensures g == Stage(s, o, map[(pid, vp) := InSlot(slot)], slot) && Good(g, pid, DataPath(s.next, s.table[pid]))
    ensures Deeper(g, pid, DataPath(s.next, s.table[pid])).s.table[pid] == s.table[pid]
  {
    g := Stage(s, o, map[(pid, vp) := InSlot(slot)], slot);
    StartDescending(s, o, slot, pid, vp);
    assert Entity(o.frame[s.next]);
    GoDown(g, pid, DataPath(s.next, s.table[pid]));
  }

  /** A table that is lost is missed when the cascade unwinds. */
  lemma UnwindLost(r: Outcome, i: nat, j: nat, slot: nat, k: nat, m: nat, t: nat)
    requires (r.Ok? ==> Shape(r.state)) && i < PROCESSES && k < PROCESSES && j < PAGES && m < PAGES
    requires slot < SLOTS && t < SLOTS && (r.Ok? ==> r.state.table[i] < 0)
    ensures Closed(Closed(r, k, m, t), i, j, slot) == Wild
  {
    ClosedTables(r, k, m, t);
    ClosedTables(Closed(r, k, m, t), i, j, slot);
  }

  /** Two tables that share frame c go on sharing it while the cascade unwinds. */
  lemma UnwindShared(r: Outcome, i: nat, j: nat, slot: nat, k: nat, m: nat, t: nat, c: nat)
    requires r.Ok? && Shape(r.state) && i < PROCESSES && k < PROCESSES && j < PAGES && m < PAGES && c < FRAMES
    requires slot < SLOTS && t < SLOTS && Resident(r.state, i) && Resident(r.state, k)
    ensures var q := Closed(Closed(r, k, m, t), i, j, slot);
            && q.Ok? && Shape(q.state) && q.state.table == r.state.table && q.state.slots == r.state.slots
            && q.state.next == (r.state.next + 2) % 4
            && (r.state.table[k] == c && Alloc(r.state.frames[c][2 * m]) ==> EntryOut(q.state.frames[c], m))
            && forall e | 0 <= e < PAGES :: EntryOut(r.state.frames[c], e) ==> EntryOut(q.state.frames[c], e)
  {
    ClosedEffect(r, k, m, t, c);
    ClosedEffect(Closed(r, k, m, t), i, j, slot, c);
  }

  /** swapPage never touches the free list. */
  lemma {:induction false} SwapKeepsFull(s: State, slot: nat, f: nat, pid: nat)
    requires Shape(s) && slot < SLOTS && f < FRAMES && pid < PROCESSES
    ensures SwapPage(s, slot, f, pid).Ok? ==> SwapPage(s, slot, f, pid).state.full == s.full
    decreases Away(s, slot), Redirections(s, f, pid)
  {
    var v := FindVictim(s, f, pid, 0);
    if v.IssuersTable? {
      RedirectionEnds(s, f, pid);
      SwapKeepsFull(Advance(s), slot, Advance(s).next, pid);
    } else if v.PageOf? && s.table[v.pid] < 0 && IndexToSwap(s.table[v.pid]) != slot {
      CascadeShrinks(s, slot, f, v.pid);
      SwapKeepsFull(BringIn(s, slot, f), IndexToSwap(s.table[v.pid]), (f + 1) % 4, pid);
    }
  }

  /** With the pointer at p and the issuer's table in frame T, the call made at the second frame of the
      path lands on that frame again. */
  predicate ComesBack(path: seq<nat>, T: int, p: nat) {
    && p < FRAMES && |path| == 2 && path[0] < FRAMES && path[1] < FRAMES
    && Landing(T, (path[0] + 1) % 4, p) == (path[1], p)
    && Landing(T, (path[1] + 1) % 4, p) == (path[1], path[1])
  }

  lemma RouteTwo(p: nat, T: nat)
    requires p < FRAMES && T < FRAMES && T != p && |DataPath(p, T)| == 2
    ensures ComesBack(DataPath(p, T), T, p)
  {
  }

  lemma TwoDown(s: State, o: Owners, slot: nat, pid: nat, vp: nat, path: seq<nat>) returns (g: Stage, h: Stage, t: nat)
    requires FaultStart(s, o, slot, pid, vp) && path == DataPath(s.next, s.table[pid]) && AllStranded(s, o, path)
    requires ComesBack(path, s.table[pid], s.next)
    ensures g.s == s && g.o == o && Good(g, pid, path) && TwoBelow(g, h, pid, path) && h.s.next == path[1]
    ensures g.o.slot[g.slot].Pg?
    ensures ClosesTwice(SwapPage(s, slot, s.next, pid), SwapPage(h.s, h.slot, path[1], pid), o.frame[path[0]],
      o.frame[path[1]], slot, t)
  {
    g := StartGood(s, o, slot, pid, vp);
    h := FirstTwo(g, pid, path);
    TwoCalls(g, Deeper(g, pid, path), pid, path, h, path[1], path[1]);
    assert Deeper(g, pid, path).o.frame[path[1]] == o.frame[path[1]];
    t := Deeper(g, pid, path).slot;
  }

  lemma CollideTwo(s: State, o: Owners, slot: nat, pid: nat, vp: nat, path: seq<nat>)
    requires FaultStart(s, o, slot, pid, vp) && path == DataPath(s.next, s.table[pid]) && AllStranded(s, o, path)
    requires ComesBack(path, s.table[pid], s.next)
    ensures GoesWrong(SwapPage(s, slot, s.next, pid), s.next, pid, s)
  {
    var g, h, t := TwoDown(s, o, slot, pid, vp, path);
    TwoEnds(g, h, pid, path);
    SwapKeepsFull(s, slot, s.next, pid);
    TwoWrong(g, h, pid, path, slot, t, SwapPage(s, slot, s.next, pid));
  }

  lemma TwoWrong(g: Stage, h: Stage, pid: nat, path: seq<nat>, slot: nat, t: nat, result: Outcome)
    requires Shape(g.s) && Proper(g.o) && g.slot < SLOTS && pid < PROCESSES && |path| == 2 && GoodPath(path, path[0])
    requires TwoBelow(g, h, pid, path) && g.o.slot[g.slot].Pg? && h.s.next == path[1] == (path[0] + 1) % 4
    requires Resident(g.s, pid) && g.s.table[pid] != path[1]
    requires (result.Ok? ==> result.state.full == g.s.full) && forall f | 0 <= f < FRAMES :: g.s.full[f]
    requires var v, w, r := g.o.frame[path[0]], g.o.frame[path[1]], SwapPage(h.s, h.slot, path[1], pid);
      && ClosesTwice(result, r, v, w, slot, t) && r.Ok? && v.pid != w.pid
      && (if v.pid < w.pid then r.state.table[v.pid] < 0
          else TookFrame(h.s, r.state, h.slot, path[1], w.pid) && Alloc(r.state.frames[path[1]][2 * w.vp]))
    ensures GoesWrong(result, path[0], pid, g.s)
  {
    var v, w, r := g.o.frame[path[0]], g.o.frame[path[1]], SwapPage(h.s, h.slot, path[1], pid);
    if v.pid < w.pid {
      UnwindLost(r, v.pid, v.vp, slot, w.pid, w.vp, t);
    } else {
      TwoShare(g, h, pid, path, slot, t, result);
      SharedIsSpoilt(g.s, result.state, v.pid, w.pid, w.vp, path[0], pid);
    }
  }

  lemma SharedIsSpoilt(s: State, q: State, a: nat, b: nat, e: nat, p: nat, pid: nat)
    requires Shape(s) && Shape(q) && pid < PROCESSES && Resident(s, pid) && q.full == s.full
    requires (forall f | 0 <= f < FRAMES :: s.full[f]) && a < PROCESSES && b < PROCESSES && a != b && e < PAGES
    requires Resident(q, a) && q.table[a] == q.table[b] && q.table[a] != p && q.table[a] != s.table[pid]
    requires EntryOut(q.frames[q.table[a]], e) && NobodyStrands(q, SkipTable(q, b).next)
    ensures Spoilt(q, p, pid, s)
  {
    assert Twins(q, a, b, e);
  }

  /** Unwinding from the bottom of two levels, tables v and w sharing frame c. */
  lemma TwoUnwind(s: State, r: Outcome, result: Outcome, v: Owner, w: Owner, slot: nat, t: nat, bottom: nat, c: nat,
                  p: nat)
    requires Shape(s) && ClosesTwice(result, r, v, w, slot, t) && r.Ok? && bottom < SLOTS && c < FRAMES && p < FRAMES
    requires s.table[v.pid] == c && s.next == c == (p + 1) % 4
    requires TookFrame(s, r.state, bottom, c, w.pid) && Alloc(r.state.frames[c][2 * w.vp])
    ensures result.Ok? && Shape(result.state) && result.state.table == s.table[w.pid := c] && result.state.next == p
    ensures EntryOut(result.state.frames[c], w.vp)
    ensures forall k | 0 <= k < SLOTS && k != bottom :: result.state.slots[k] == s.slots[k]
  {
    UnwindShared(r, v.pid, v.vp, slot, w.pid, w.vp, t, c);
  }

  lemma TwoShare(g: Stage, h: Stage, pid: nat, path: seq<nat>, slot: nat, t: nat, result: Outcome)
    requires Shape(g.s) && Proper(g.o) && g.slot < SLOTS && pid < PROCESSES && |path| == 2 && GoodPath(path, path[0])
    requires TwoBelow(g, h, pid, path) && g.o.slot[g.slot].Pg? && h.s.next == path[1] == (path[0] + 1) % 4
    requires var v, w, r := g.o.frame[path[0]], g.o.frame[path[1]], SwapPage(h.s, h.slot, path[1], pid);
      && ClosesTwice(result, r, v, w, slot, t) && r.Ok? && v.pid != w.pid
      && TookFrame(h.s, r.state, h.slot, path[1], w.pid) && Alloc(r.state.frames[path[1]][2 * w.vp])
    ensures var v, w := g.o.frame[path[0]], g.o.frame[path[1]];
      && result.Ok? && Shape(result.state) && result.state.table[v.pid] == path[1] == result.state.table[w.pid]
      && EntryOut(result.state.frames[path[1]], w.vp)
      && NobodyStrands(result.state, SkipTable(result.state, w.pid).next)
  {
    var v, w, r := g.o.frame[path[0]], g.o.frame[path[1]], SwapPage(h.s, h.slot, path[1], pid);
    TwoUnwind(h.s, r, result, v, w, slot, t, h.slot, path[1], path[0]);
    TwoStale(g, h, pid, path);
    BackInFrame(h.s, h.o, h.pend, result.state, h.slot, path[1], w.pid, path[0], v.pid, v.vp);
  }

  lemma TwoEnds(g: Stage, h: Stage, pid: nat, path: seq<nat>)
    requires Good(g, pid, path) && |path| >= 2 && GoodPath(path, path[0]) && AllStranded(g.s, g.o, path)
    requires TwoBelow(g, h, pid, path)
    ensures var v, w, r := g.o.frame[path[0]], g.o.frame[path[1]], SwapPage(h.s, h.slot, path[1], pid);
            && r.Ok? && v.pid != w.pid
            && (if v.pid < w.pid then r.state.table[v.pid] < 0
                else TookFrame(h.s, r.state, h.slot, path[1], w.pid) && Alloc(r.state.frames[path[1]][2 * w.vp]))
  {
    var v, w := g.o.frame[path[0]], g.o.frame[path[1]];
    StaleClaimOnly(h.s, h.o, h.pend, path[1], w.pid, w.vp);
    CollideOnTable(h.s, h.o, h.pend, h.slot, path[1], pid, v.pid, w.pid, w.vp, w.pid);
  }

  lemma TwoStale(g: Stage, h: Stage, pid: nat, path: seq<nat>)
    requires Shape(g.s) && Proper(g.o) && g.slot < SLOTS && pid < PROCESSES && |path| >= 2 && GoodPath(path, path[0])
    requires TwoBelow(g, h, pid, path) && g.o.slot[g.slot].Pg?
    ensures OnlyClaim(h.s, path[0], g.o.frame[path[0]].pid, g.o.frame[path[0]].vp)
  {
    StaleClaimOnly(h.s, h.o, h.pend, path[0], g.o.frame[path[0]].pid, g.o.frame[path[0]].vp);
  }

  /** Once process l's table is back in frame c, nobody whose table is in swap claims frame p. */
  lemma BackInFrame(s: State, o: Owners, pend: Pending, q: State, t: nat, c: nat, l: nat, p: nat, a: nat, b: nat)
    requires Owned(s, o, pend) && Shape(q) && l < PROCESSES && t < SLOTS && c < FRAMES && p < FRAMES
    requires q.table == s.table[l := c] && s.table[l] == SwapToIndex(t) && OnlyClaim(s, p, a, b) && q.table[a] >= 0
    requires forall k | 0 <= k < SLOTS && k != t :: q.slots[k] == s.slots[k]
    ensures NobodyStrands(q, p)
  {
    forall i | 0 <= i < PROCESSES
      ensures !Strands(q, i, p)
    {
      if q.table[i] < 0 {
        assert Where(s, pend, Tab(i)) == TableLoc(s, i) && Where(s, pend, Tab(l)) == InSlot(t);
        assert TablePage(q, i) == TablePage(s, i);
        assert forall r | 0 <= r < PAGES :: !Claims(TablePage(s, i), r, p);
      }
    }
  }

  // ----- Three levels -----

  /** With the pointer at p and the issuer's table in frame T, the calls follow the path and the one made at
      its end lands on c, the pointer then being at n. */
  predicate ComesRound(path: seq<nat>, T: int, p: nat, n: nat, c: nat) {
    && p < FRAMES && n < FRAMES && |path| == 3 && path[0] < FRAMES && path[1] < FRAMES && path[2] < FRAMES
    && Landing(T, (path[0] + 1) % 4, p) == (path[1], n)
    && Landing(T, (path[1] + 1) % 4, n) == (path[2], n)
    && Landing(T, (path[2] + 1) % 4, n).0 == c
  }

  lemma RouteThree(p: nat, T: nat) returns (n: nat)
    requires p < FRAMES && T < FRAMES && T != p && |DataPath(p, T)| == 3
    ensures ComesRound(DataPath(p, T), T, p, n, DataPath(p, T)[0]) ||
      ComesRound(DataPath(p, T), T, p, n, DataPath(p, T)[1])
  {
    n := Landing(T, (p + 1) % 4, p).1;
  }

  lemma TwoOfThree(s: State, o: Owners, slot: nat, pid: nat, vp: nat) returns (g: Stage, h: Stage)
    requires FaultStart(s, o, slot, pid, vp) && |DataPath(s.next, s.table[pid])| == 3
    requires AllStranded(s, o, DataPath(s.next, s.table[pid]))
    ensures g == Stage(s, o, map[(pid, vp) := InSlot(slot)], slot)
    ensures var path := DataPath(s.next, s.table[pid]);
            && Good(g, pid, path) && Good(Deeper(g, pid, path), pid, path[1..])
            && h == Deeper(Deeper(g, pid, path), pid, path[1..])
            && Deeper(g, pid, path).s.table[pid] == s.table[pid]
            && TwoBelow(g, h, pid, path) && Good(h, pid, path[2..]) && h.o.slot[h.slot] == Tab(o.frame[path[1]].pid)
            && h.s.table[pid] == s.table[pid]
  {
    var path := DataPath(s.next, s.table[pid]);
    g := StartGood(s, o, slot, pid, vp);
    h := FirstTwo(g, pid, path);
    ThirdGood(g, pid, path);
  }

  lemma ThirdGood(g: Stage, pid: nat, path: seq<nat>)
    requires Good(g, pid, path) && |path| == 3 && g.o.slot[g.slot].Pg? && AllStranded(g.s, g.o, path)
    requires Good(Deeper(g, pid, path), pid, path[1..])
    ensures var h := Deeper(Deeper(g, pid, path), pid, path[1..]);
            Good(h, pid, path[2..]) && h.o.slot[h.slot] == Tab(g.o.frame[path[1]].pid) &&
              h.s.table[pid] == g.s.table[pid]
  {
    var k := Deeper(g, pid, path);
    assert Below(g, k, path[0], pid) by { GoDown(g, pid, path); }
    assert k.o.slot[k.slot] == Tab(g.o.frame[path[0]].pid) by { VictimsTableNext(g, pid, path); }
    ThirdFromSecond(g, k, pid, path);
  }

  /** The slot of the call one level down holds the victim's table. */
  lemma VictimsTableNext(g: Stage, pid: nat, path: seq<nat>)
    requires Good(g, pid, path)
    ensures Deeper(g, pid, path).slot < SLOTS && Proper(Deeper(g, pid, path).o)
    ensures Deeper(g, pid, path).o.slot[Deeper(g, pid, path).slot] == Tab(g.o.frame[path[0]].pid)
  {
    DescendingDrops(g.s, g.o, g.pend, g.slot, pid, path);
    DescendState(g.s, g.o, g.pend, g.slot, pid, path[0], Deeper(g, pid, path).s);
  }

  lemma ThirdFromSecond(g: Stage, k: Stage, pid: nat, path: seq<nat>)
    requires Good(g, pid, path) && |path| == 3 && g.o.slot[g.slot].Pg? && AllStranded(g.s, g.o, path)
    requires k == Deeper(g, pid, path) && Good(k, pid, path[1..]) && Below(g, k, path[0], pid)
    requires k.o.slot[k.slot] == Tab(g.o.frame[path[0]].pid)
    ensures var h := Deeper(k, pid, path[1..]);
            Good(h, pid, path[2..]) && h.o.slot[h.slot] == Tab(g.o.frame[path[1]].pid) &&
              h.s.table[pid] == g.s.table[pid]
  {
    assert path[1..][0] == path[1] && path[1..][1] == path[2] && path[1..][1..] == path[2..];
    ThirdStranded(g, k, pid, path);
    StillGood(k, pid, path[1..]);
    IssuerStays(k, pid, path[1..]);
  }

  lemma ThirdStranded(g: Stage, k: Stage, pid: nat, path: seq<nat>)
    requires Shape(g.s) && Proper(g.o) && g.slot < SLOTS && |path| == 3 && GoodPath(path, path[0])
    requires AllStranded(g.s, g.o, path) && Entity(g.o.frame[path[0]])
    requires pid < PROCESSES && Below(g, k, path[0], pid) && k.o.slot[k.slot] == Tab(g.o.frame[path[0]].pid)
    requires g.o.slot[g.slot].Pg?
    ensures k.o.frame[path[1]] == g.o.frame[path[1]] && k.o.frame[path[2]] == g.o.frame[path[2]]
    ensures k.o.frame[path[2]].Pg?
    ensures k.o.frame[path[2]].pid in AwayTables(k.s, k.o.slot[k.slot]) - {k.o.frame[path[1]].pid}
  {
  }

  /** Going down one level does not move the issuer's table. */
  lemma IssuerStays(k: Stage, pid: nat, path: seq<nat>)
    requires Good(k, pid, path)
    ensures Deeper(k, pid, path).s.table[pid] == k.s.table[pid]
  {
    IssuerMoves(k.s, k.o, k.pend, k.slot, path[0], pid);
  }

  /** The state three levels down. */
  ghost predicate ThreeBelow(g: Stage, j: Stage, pid: nat, path: seq<nat>)
    requires Shape(g.s) && Proper(g.o) && g.slot < SLOTS && pid < PROCESSES
    requires GoodPath(path, if path == [] then 0 else path[0]) && |path| == 3
    requires AllStranded(g.s, g.o, path)
  {
    var v, w, u := g.o.frame[path[0]], g.o.frame[path[1]], g.o.frame[path[2]];
    && v.vp < PAGES && w.vp < PAGES && u.vp < PAGES
    && Owned(j.s, j.o, j.pend) && j.slot < SLOTS
    && j.s.table == g.s.table[v.pid := path[1]][w.pid := path[2]] && j.s.table[u.pid] == SwapToIndex(j.slot)
    && TablePage(j.s, pid) == TablePage(g.s, pid)
    && j.o.frame[path[0]] == g.o.slot[g.slot] && j.o.frame[path[1]] == Tab(v.pid)
    && Stale(j.s, j.pend, path[0], v.pid, v.vp) && Stale(j.s, j.pend, path[1], w.pid, w.vp)
    && Claims(TablePage(j.s, u.pid), u.vp, path[2])
    && (g.o.slot[g.slot].Pg? ==> (g.o.slot[g.slot].pid, g.o.slot[g.slot].vp) in j.pend)
  }

  lemma ThirdStep(g: Stage, h: Stage, pid: nat, path: seq<nat>) returns (j: Stage)
    requires Shape(g.s) && Proper(g.o) && g.slot < SLOTS && pid < PROCESSES && |path| == 3 && GoodPath(path, path[0])
    requires AllStranded(g.s, g.o, path) && TwoBelow(g, h, pid, path) && Good(h, pid, path[2..])
    requires h.o.slot[h.slot] == Tab(g.o.frame[path[1]].pid)
    ensures j == Deeper(h, pid, path[2..]) && ThreeBelow(g, j, pid, path)
  {
    var v, w := g.o.frame[path[0]], g.o.frame[path[1]];
    j := Deeper(h, pid, path[2..]);
    GoDown(h, pid, path[2..]);
    StaleStays(h, pid, path[2..], path[0], v.pid, v.vp);
    StaleStays(h, pid, path[2..], path[1], w.pid, w.vp);
    PendingStays(h, pid, path[2..]);
  }

  lemma PendingStays(h: Stage, pid: nat, path: seq<nat>)
    requires Good(h, pid, path)
    ensures forall k | k in h.pend :: k in Deeper(h, pid, path).pend
  {
  }

  lemma TopCalls(g: Stage, h: Stage, pid: nat, path: seq<nat>, n: nat, c: nat)
    requires |path| == 3 && Good(g, pid, path) && AllStranded(g.s, g.o, path)
    requires Good(Deeper(g, pid, path), pid, path[1..]) && h == Deeper(Deeper(g, pid, path), pid, path[1..])
    requires Deeper(g, pid, path).s.table[pid] == g.s.table[pid]
    requires ComesRound(path, g.s.table[pid], g.s.next, n, c)
    ensures h.s.next == n && h.slot < SLOTS && Shape(h.s)
    ensures ClosesTwice(SwapPage(g.s, g.slot, path[0], pid), SwapPage(h.s, h.slot, path[2], pid),
                        g.o.frame[path[0]], g.o.frame[path[1]], g.slot, Deeper(g, pid, path).slot)
  {
    TwoCalls(g, Deeper(g, pid, path), pid, path, h, path[2], n);
    assert Deeper(g, pid, path).o.frame[path[1]] == g.o.frame[path[1]];
  }

  lemma BottomCall(h: Stage, pid: nat, path: seq<nat>, c: nat)
    requires Good(h, pid, path) && c == Landing(h.s.table[pid], (path[0] + 1) % 4, h.s.next).0
    ensures var j := Deeper(h, pid, path);
            && j.slot < SLOTS && Shape(j.s)
            && ClosesOnce(SwapPage(h.s, h.slot, path[0], pid), SwapPage(j.s, j.slot, c, pid), h.o.frame[path[0]],
                 h.slot)
  {
    CallDown(h, pid, path, c);
  }

  lemma ThreeTop(s: State, o: Owners, slot: nat, pid: nat, vp: nat, path: seq<nat>, n: nat, c: nat)
    returns (g: Stage, h: Stage, t: nat)
    requires FaultStart(s, o, slot, pid, vp) && path == DataPath(s.next, s.table[pid]) && AllStranded(s, o, path)
    requires ComesRound(path, s.table[pid], s.next, n, c)
    ensures g == Stage(s, o, map[(pid, vp) := InSlot(slot)], slot) && TwoBelow(g, h, pid, path)
    ensures Good(h, pid, path[2..]) && h.o.slot[h.slot] == Tab(o.frame[path[1]].pid) && h.s.table[pid] == s.table[pid]
    ensures h.s.next == n && h.slot < SLOTS && Shape(h.s)
    ensures ClosesTwice(SwapPage(s, slot, s.next, pid), SwapPage(h.s, h.slot, path[2], pid), o.frame[path[0]],
      o.frame[path[1]], slot, t)
  {
    g, h := TwoOfThree(s, o, slot, pid, vp);
    TopCalls(g, h, pid, path, n, c);
    t := Deeper(g, pid, path).slot;
  }

  lemma ThreeDown(s: State, o: Owners, slot: nat, pid: nat, vp: nat, path: seq<nat>, n: nat, c: nat)
    returns (g: Stage, h: Stage, j: Stage, t: nat)
    requires FaultStart(s, o, slot, pid, vp) && path == DataPath(s.next, s.table[pid]) && AllStranded(s, o, path)
    requires ComesRound(path, s.table[pid], s.next, n, c)
    ensures g == Stage(s, o, map[(pid, vp) := InSlot(slot)], slot) && ThreeBelow(g, j, pid, path)
    ensures h.slot < SLOTS && Shape(h.s)
    ensures ClosesTwice(SwapPage(s, slot, s.next, pid), SwapPage(h.s, h.slot, path[2], pid), o.frame[path[0]],
      o.frame[path[1]], slot, t)
    ensures ClosesOnce(SwapPage(h.s, h.slot, path[2], pid), SwapPage(j.s, j.slot, c, pid), o.frame[path[2]], h.slot)
  {
    g, h, t := ThreeTop(s, o, slot, pid, vp, path, n, c);
    j := ThirdDown(g, h, pid, path, c);
  }

  lemma ThirdDown(g: Stage, h: Stage, pid: nat, path: seq<nat>, c: nat) returns (j: Stage)
    requires Shape(g.s) && Proper(g.o) && g.slot < SLOTS && pid < PROCESSES && |path| == 3 && GoodPath(path, path[0])
    requires AllStranded(g.s, g.o, path) && TwoBelow(g, h, pid, path) && Good(h, pid, path[2..])
    requires h.o.slot[h.slot] == Tab(g.o.frame[path[1]].pid)
    requires c == Landing(h.s.table[pid], (path[2] + 1) % 4, h.s.next).0
    ensures ThreeBelow(g, j, pid, path) && h.slot < SLOTS && j.slot < SLOTS && Shape(h.s) && Shape(j.s)
    ensures ClosesOnce(SwapPage(h.s, h.slot, path[2], pid), SwapPage(j.s, j.slot, c, pid), g.o.frame[path[2]], h.slot)
  {
    j := ThirdStep(g, h, pid, path);
    assert path[2..][0] == path[2];
    BottomCall(h, pid, path[2..], c);
    assert h.o.frame[path[2]] == g.o.frame[path[2]];
  }

  /** Unwinding three levels: a table lost at the bottom is missed. */
  lemma UnwindThreeLost(r0: Outcome, r2: Outcome, r3: Outcome, v: Owner, w: Owner, u: Owner, slot: nat, t: nat, t': nat)
    requires ClosesTwice(r0, r2, v, w, slot, t) && ClosesOnce(r2, r3, u, t')
    requires r3.Ok? ==> r3.state.table[v.pid] < 0
    ensures r0 == Wild
  {
    ClosedTables(r3, u.pid, u.vp, t');
    UnwindLost(r2, v.pid, v.vp, slot, w.pid, w.vp, t);
  }

  /** Unwinding three levels: tables that share a frame at the bottom go on sharing it. */
  lemma UnwindThreeShared(r0: Outcome, r2: Outcome, r3: Outcome, v: Owner, w: Owner, u: Owner, slot: nat, t: nat,
                          t': nat, c: nat)
    requires ClosesTwice(r0, r2, v, w, slot, t) && ClosesOnce(r2, r3, u, t') && r3.Ok? && c < FRAMES
    requires Resident(r3.state, v.pid) && Resident(r3.state, w.pid) && r3.state.table[u.pid] == c
    requires Alloc(r3.state.frames[c][2 * u.vp])
    ensures r0.Ok? && Shape(r0.state) && r0.state.table == r3.state.table && EntryOut(r0.state.frames[c], u.vp)
  {
    ClosedEffect(r3, u.pid, u.vp, t', c);
    UnwindShared(r2, v.pid, v.vp, slot, w.pid, w.vp, t, c);
  }

  lemma CollideThree(s: State, o: Owners, slot: nat, pid: nat, vp: nat, path: seq<nat>, n: nat)
    requires FaultStart(s, o, slot, pid, vp) && path == DataPath(s.next, s.table[pid]) && AllStranded(s, o, path)
    requires |path| == 3 && ComesRound(path, s.table[pid], s.next, n, path[1])
    ensures GoesWrong(SwapPage(s, slot, s.next, pid), s.next, pid, s)
  {
    var g, h, j, t := ThreeDown(s, o, slot, pid, vp, path, n, path[1]);
    ThreeEnds(g, j, pid, path);
    SwapKeepsFull(s, slot, s.next, pid);
    ThreeWrong(g, pid, path, SwapPage(s, slot, s.next, pid), SwapPage(h.s, h.slot, path[2], pid),
               SwapPage(j.s, j.slot, path[1], pid), slot, t, h.slot);
  }

  lemma ThreeWrong(g: Stage, pid: nat, path: seq<nat>, r0: Outcome, r2: Outcome, r3: Outcome, slot: nat, t: nat,
                   t': nat)
    requires Shape(g.s) && Proper(g.o) && pid < PROCESSES && |path| == 3 && GoodPath(path, path[0])
    requires AllStranded(g.s, g.o, path) && Resident(g.s, pid) && g.s.table[pid] !in path
    requires (r0.Ok? ==> r0.state.full == g.s.full) && forall f | 0 <= f < FRAMES :: g.s.full[f]
    requires var v, w, u := g.o.frame[path[0]], g.o.frame[path[1]], g.o.frame[path[2]];
      && ClosesTwice(r0, r2, v, w, slot, t) && ClosesOnce(r2, r3, u, t') && r3.Ok? && v.pid != w.pid
      && (if v.pid < w.pid then r3.state.table[v.pid] < 0
          else && Shape(r3.state) && Alloc(r3.state.frames[path[1]][2 * u.vp])
               && r3.state.table == g.s.table[v.pid := path[1]][w.pid := path[2]][u.pid := path[1]])
    ensures GoesWrong(r0, path[0], pid, g.s)
  {
    var v, w, u := g.o.frame[path[0]], g.o.frame[path[1]], g.o.frame[path[2]];
    if v.pid < w.pid {
      UnwindThreeLost(r0, r2, r3, v, w, u, slot, t, t');
    } else {
      UnwindThreeShared(r0, r2, r3, v, w, u, slot, t, t', path[1]);
      AllResident(g.s, r0.state, pid, v.pid, w.pid, u.pid, path[1], path[2]);
      SharedIsSpoilt(g.s, r0.state, v.pid, u.pid, u.vp, path[0], pid);
    }
  }

  /** With all four tables in frames no process can strand a page. */
  lemma AllResident(s: State, q: State, pid: nat, v: nat, w: nat, u: nat, c: nat, d: nat)
    requires Shape(s) && Shape(q) && pid < PROCESSES && v < PROCESSES && w < PROCESSES && u < PROCESSES
    requires Resident(s, pid) && s.table[v] < 0 && s.table[w] < 0 && s.table[u] < 0 && v != w && v != u && w != u
    requires c < FRAMES && d < FRAMES && q.table == s.table[v := c][w := d][u := c]
    ensures forall f: nat :: NobodyStrands(q, f)
    ensures q.table[pid] == s.table[pid]
  {
    forall i | 0 <= i < PROCESSES
      ensures q.table[i] >= 0
    {
      assert i == pid || i == v || i == w || i == u;
    }
  }

  /** Unwinding three levels: a table that took the faulted page's frame stays there. */
  lemma UnwindThreePlaced(r0: Outcome, r2: Outcome, r3: Outcome, v: Owner, w: Owner, u: Owner, slot: nat, t: nat,
                          t': nat, p: nat, pid: nat, start: State)
    requires pid < PROCESSES && Shape(start) && Resident(start, pid) && start.table[pid] != p
    requires ClosesTwice(r0, r2, v, w, slot, t) && ClosesOnce(r2, r3, u, t')
    requires r3.Ok? ==>
      r3.state.table[u.pid] == p && r3.state.table[pid] == start.table[pid] &&
      TablePage(r3.state, pid) == TablePage(start, pid)
    requires r3.Ok? ==> r3.state.table[v.pid] != start.table[pid] && r3.state.table[w.pid] != start.table[pid]
    ensures GoesWrong(r0, p, pid, start)
  {
    ClosedTables(r3, u.pid, u.vp, t');
    UnwindPlaced(r2, v.pid, v.vp, slot, w.pid, w.vp, t, u.pid, p, pid, start);
  }

  lemma CollideAround(s: State, o: Owners, slot: nat, pid: nat, vp: nat, path: seq<nat>, n: nat)
    requires FaultStart(s, o, slot, pid, vp) && path == DataPath(s.next, s.table[pid]) && AllStranded(s, o, path)
    requires |path| == 3 && ComesRound(path, s.table[pid], s.next, n, path[0])
    ensures GoesWrong(SwapPage(s, slot, s.next, pid), s.next, pid, s)
  {
    var g, h, j, t := ThreeDown(s, o, slot, pid, vp, path, n, path[0]);
    AroundEnds(g, j, pid, path);
    UnwindThreePlaced(SwapPage(s, slot, s.next, pid), SwapPage(h.s, h.slot, path[2], pid),
                      SwapPage(j.s, j.slot, path[0], pid),
                      o.frame[path[0]], o.frame[path[1]], o.frame[path[2]], slot, t, h.slot, s.next, pid, s);
  }

  lemma ThreeEnds(g: Stage, j: Stage, pid: nat, path: seq<nat>)
    requires Shape(g.s) && Proper(g.o) && g.slot < SLOTS && pid < PROCESSES && |path| == 3 && GoodPath(path, path[0])
    requires AllStranded(g.s, g.o, path) && ThreeBelow(g, j, pid, path) && Resident(g.s, pid)
    ensures var v, w, u := g.o.frame[path[0]], g.o.frame[path[1]], g.o.frame[path[2]];
            var r := SwapPage(j.s, j.slot, path[1], pid);
            && r.Ok? && v.pid != w.pid
            && (if v.pid < w.pid then r.state.table[v.pid] < 0
                else && Shape(r.state) && Alloc(r.state.frames[path[1]][2 * u.vp])
                     && r.state.table == g.s.table[v.pid := path[1]][w.pid := path[2]][u.pid := path[1]])
  {
    var v, w, u := g.o.frame[path[0]], g.o.frame[path[1]], g.o.frame[path[2]];
    StaleClaimOnly(j.s, j.o, j.pend, path[1], w.pid, w.vp);
    CollideOnTable(j.s, j.o, j.pend, j.slot, path[1], pid, v.pid, w.pid, w.vp, u.pid);
  }

  lemma AroundEnds(g: Stage, j: Stage, pid: nat, path: seq<nat>)
    requires Shape(g.s) && Proper(g.o) && g.slot < SLOTS && pid < PROCESSES && |path| == 3 && GoodPath(path, path[0])
    requires AllStranded(g.s, g.o, path) && g.o.slot[g.slot].Pg? && ThreeBelow(g, j, pid, path) && Resident(g.s, pid)
    requires g.s.table[pid] !in path
    ensures var r := SwapPage(j.s, j.slot, path[0], pid);
      var v, w, u := g.o.frame[path[0]], g.o.frame[path[1]], g.o.frame[path[2]];
            && r.Ok? && r.state.table[u.pid] == path[0] && r.state.table[v.pid] == path[1]
            && r.state.table[w.pid] == path[2]
            && r.state.table[pid] == g.s.table[pid] && TablePage(r.state, pid) == TablePage(g.s, pid)
  {
    var v, u := g.o.frame[path[0]], g.o.frame[path[2]];
    StaleClaimOnly(j.s, j.o, j.pend, path[0], v.pid, v.vp);
    CollideOnPage(j.s, j.o, j.pend, j.slot, path[0], pid, v.pid, v.vp, u.pid);
  }

  lemma UnwindPlaced(r: Outcome, i: nat, j: nat, slot: nat, k: nat, m: nat, t: nat, l: nat, p: nat, pid: nat,
                     start: State)
    requires pid < PROCESSES && Shape(start) && Resident(start, pid) && (r.Ok? ==> Shape(r.state)) && i < PROCESSES
    requires k < PROCESSES && l < PROCESSES && j < PAGES && m < PAGES && slot < SLOTS && t < SLOTS
    requires r.Ok? ==>
      r.state.table[l] == p && r.state.table[pid] == start.table[pid] &&
      TablePage(r.state, pid) == TablePage(start, pid)
    requires r.Ok? ==> r.state.table[i] != start.table[pid] && r.state.table[k] != start.table[pid]
    ensures GoesWrong(Closed(Closed(r, k, m, t), i, j, slot), p, pid, start)
  {
    ClosedTables(r, k, m, t);
    ClosedTables(Closed(r, k, m, t), i, j, slot);
  }

  lemma UnsettledMeansStranded(s: State, o: Owners, path: seq<nat>, pid: nat, vp: nat)
    requires Shape(s) && Proper(o) && 2 <= |path| <= 3 && forall k | 0 <= k < |path| :: path[k] < FRAMES
    requires !Settles(o, path, AwayTables(s, Pg(pid, vp)))
    ensures AllStranded(s, o, path)
  {
    UnfoldSettles(o, path, AwayTables(s, Pg(pid, vp)));
  }

  lemma CollidesMeansStranded(s: State, o: Owners, slot: nat, pid: nat, vp: nat)
    requires FaultStart(s, o, slot, pid, vp) && Collides(s, pid)
    ensures AllStranded(s, o, DataPath(s.next, s.table[pid]))
  {
    DataQuiet(s, slot, pid, vp);
    CollidesIffUnsettled(s, o, map[(pid, vp) := InSlot(slot)], pid, Pg(pid, vp));
    UnsettledMeansStranded(s, o, DataPath(s.next, s.table[pid]), pid, vp);
  }

  /** Every colliding data fault goes wrong. */
  lemma CollisionGoesWrong(s: State, o: Owners, slot: nat, pid: nat, vp: nat)
    requires FaultStart(s, o, slot, pid, vp) && Collides(s, pid)
    ensures GoesWrong(SwapPage(s, slot, s.next, pid), s.next, pid, s)
  {
    CollidesMeansStranded(s, o, slot, pid, vp);
    var path := DataPath(s.next, s.table[pid]);
    if |path| == 2 {
      RouteTwo(s.next, s.table[pid]);
      CollideTwo(s, o, slot, pid, vp, path);
    } else {
      var n := RouteThree(s.next, s.table[pid]);
      if ComesRound(path, s.table[pid], s.next, n, path[1]) {
        CollideThree(s, o, slot, pid, vp, path, n);
      } else {
        CollideAround(s, o, slot, pid, vp, path, n);
      }
    }
  }
}
