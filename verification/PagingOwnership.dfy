/**
 Who owns what: every occupied frame and slot holds either one process's table or one
 allocated page of one process.

 While swapPage runs, some pages have moved but their table entries do not say so yet. The
 map `pend` holds the true place of each such page, so that one invariant covers both
 the states between instructions (pend empty) and every state inside a cascade.
 */
module PagingOwnership {
  import opened Basics
  import opened PagingModel

  datatype Owner = Free | Tab(pid: nat) | Pg(pid: nat, vp: nat)

  datatype Owners = Owners(frame: seq<Owner>, slot: seq<Owner>)

  datatype Loc = InFrame(f: nat) | InSlot(t: nat) | Nowhere

  type Pending = map<(nat, nat), Loc>

  predicate Entity(e: Owner) {
    match e
    case Free => false
    case Tab(i) => i < PROCESSES
    case Pg(i, j) => i < PROCESSES && j < PAGES
  }

  predicate Proper(o: Owners) { |o.frame| == FRAMES && |o.slot| == SLOTS }

  function At(o: Owners, l: Loc): Owner
    requires Proper(o)
  {
    match l
    case InFrame(f) => if f < FRAMES then o.frame[f] else Free
    case InSlot(t) => if t < SLOTS then o.slot[t] else Free
    case Nowhere => Free
  }

  function TableLoc(s: State, i: nat): Loc
    requires Shape(s) && i < PROCESSES
  {
    if 0 <= s.table[i] <= 3 then InFrame(s.table[i])
    else if s.table[i] < 0 then InSlot(IndexToSwap(s.table[i]))
    else Nowhere
  }

  /** Where the bytes of i's table say page j is. */
  function ByteLoc(s: State, i: nat, j: nat): Loc
    requires Shape(s) && i < PROCESSES && j < PAGES
  {
    var p := TablePage(s, i);
    if TableLoc(s, i) == Nowhere || !Alloc(p[2 * j]) then Nowhere
    else if InCore(p[2 * j]) then InFrame(FrameOf(p[2 * j]))
    else InSlot(p[2 * j + 1])
  }

  function Where(s: State, pend: Pending, e: Owner): Loc
    requires Shape(s) && Entity(e)
  {
    match e
    case Tab(i) => TableLoc(s, i)
    case Pg(i, j) => if (i, j) in pend then pend[(i, j)] else ByteLoc(s, i, j)
  }

  ghost predicate Placed(s: State, o: Owners, pend: Pending)
    requires Shape(s) && Proper(o)
  {
    forall e | Entity(e) && Where(s, pend, e) != Nowhere :: At(o, Where(s, pend, e)) == e
  }

  ghost predicate FramesOwned(s: State, o: Owners, pend: Pending)
    requires Shape(s) && Proper(o)
  {
    forall f | 0 <= f < FRAMES && o.frame[f] != Free :: Entity(o.frame[f]) && Where(s, pend, o.frame[f]) == InFrame(f)
  }

  ghost predicate SlotsOwned(s: State, o: Owners, pend: Pending)
    requires Shape(s) && Proper(o)
  {
    forall t | 0 <= t < SLOTS && o.slot[t] != Free :: Entity(o.slot[t]) && Where(s, pend, o.slot[t]) == InSlot(t)
  }

  /** Entities and occupied places correspond one to one. */
  ghost predicate Owned(s: State, o: Owners, pend: Pending) {
    && Shape(s) && Proper(o)
    && Placed(s, o, pend) && FramesOwned(s, o, pend) && SlotsOwned(s, o, pend)
    && (forall f | 0 <= f < FRAMES :: s.full[f] <==> o.frame[f] != Free)
    && (forall t | 0 <= t < SLOTS :: s.used[t] <==> o.slot[t] != Free)
    && (forall i, j | (i, j) in pend :: i < PROCESSES && j < PAGES)
  }

  // ----- What the processes see -----

  datatype VPage = VPage(prot: nat, data: Page)


  function Content(s: State, l: Loc): Page
    requires Shape(s)
  {
    match l
    case InFrame(f) => if f < FRAMES then s.frames[f] else ZeroPage
    case InSlot(t) => if t < SLOTS then s.slots[t] else ZeroPage
    case Nowhere => ZeroPage
  }

  function Seen(s: State, pend: Pending, i: nat, j: nat): Option<VPage>
    requires Shape(s) && i < PROCESSES && j < PAGES
  {
    var l := Where(s, pend, Pg(i, j));
    if l == Nowhere then Absent else Some(VPage(Prot(TablePage(s, i)[2 * j]), Content(s, l)))
  }

  ghost predicate SameView(s: State, pend: Pending, s': State, pend': Pending)
    requires Shape(s) && Shape(s')
  {
    forall i, j | 0 <= i < PROCESSES && 0 <= j < PAGES :: Seen(s', pend', i, j) == Seen(s, pend, i, j)
  }

  // ----- Exchanging a frame with a slot -----

  function Swapped(o: Owners, slot: nat, f: nat): (r: Owners)
    requires Proper(o) && slot < SLOTS && f < FRAMES
    ensures Proper(r)
  {
    Owners(o.frame[f := o.slot[slot]], o.slot[slot := o.frame[f]])
  }

  /** page_table_start after the exchange of victim v in frame f with x in the slot. */
  function MovedTables(table: seq<int>, v: Owner, x: Owner, slot: nat, f: nat): (r: seq<int>)
    requires |table| == PROCESSES
    requires v.Tab? ==> v.pid < PROCESSES
    requires x.Tab? ==> x.pid < PROCESSES
    ensures |r| == PROCESSES
  {
    var a := if x.Tab? then table[x.pid := f] else table;
    if v.Tab? then a[v.pid := SwapToIndex(slot)] else a
  }

  function Repend(pend: Pending, v: Owner, x: Owner, slot: nat, f: nat): Pending {
    var a := if x.Pg? then pend[(x.pid, x.vp) := InFrame(f)] else pend;
    if v.Pg? then a[(v.pid, v.vp) := InSlot(slot)] else a
  }

  /** The state after the exchange, with every table pointer right and no entry touched. */
  function Exchanged(s: State, o: Owners, slot: nat, f: nat): (r: State)
    requires Shape(s) && Proper(o) && slot < SLOTS && f < FRAMES
    requires o.frame[f].Tab? ==> o.frame[f].pid < PROCESSES
    requires o.slot[slot].Tab? ==> o.slot[slot].pid < PROCESSES
    ensures Shape(r)
  {
    Exchange(s, slot, f).(table := MovedTables(s.table, o.frame[f], o.slot[slot], slot, f))
  }

  /** Tables travel with their bytes. */
  lemma TablesTravel(s: State, o: Owners, pend: Pending, slot: nat, f: nat, i: nat)
    requires Owned(s, o, pend) && slot < SLOTS && f < FRAMES && i < PROCESSES
    requires o.frame[f] != Free && o.slot[slot] != Free
    ensures TablePage(Exchanged(s, o, slot, f), i) == TablePage(s, i)
    ensures TableLoc(Exchanged(s, o, slot, f), i) ==
            if o.frame[f] == Tab(i) then InSlot(slot) else if o.slot[slot] == Tab(i) then InFrame(f) else TableLoc(s, i)
  {
    assert Entity(Tab(i)) && Where(s, pend, Tab(i)) == TableLoc(s, i);
    assert Where(s, pend, o.frame[f]) == InFrame(f) && Where(s, pend, o.slot[slot]) == InSlot(slot);
  }

  lemma ExchangeMoves(s: State, o: Owners, pend: Pending, slot: nat, f: nat, e: Owner)
    requires Owned(s, o, pend) && slot < SLOTS && f < FRAMES && Entity(e)
    requires o.frame[f] != Free && o.slot[slot] != Free
    ensures Where(Exchanged(s, o, slot, f), Repend(pend, o.frame[f], o.slot[slot], slot, f), e) ==
            if o.frame[f] == e then InSlot(slot) else if o.slot[slot] == e then InFrame(f) else Where(s, pend, e)
  {
    TablesTravel(s, o, pend, slot, f, e.pid);
    assert Where(s, pend, o.frame[f]) == InFrame(f) && Where(s, pend, o.slot[slot]) == InSlot(slot);
  }

  /** Exactly the owners of frame f and the slot have traded places. */
  ghost predicate Traded(s: State, o: Owners, pend: Pending, s': State, pend': Pending, slot: nat, f: nat) {
    && Owned(s, o, pend) && slot < SLOTS && f < FRAMES && Shape(s') && o.frame[f] != Free && o.slot[slot] != Free
    && forall e | Entity(e) :: Where(s', pend', e) ==
         if o.frame[f] == e then InSlot(slot) else if o.slot[slot] == e then InFrame(f) else Where(s, pend, e)
  }

  lemma TradePlaces(s: State, o: Owners, pend: Pending, s': State, pend': Pending, slot: nat, f: nat)
    requires Traded(s, o, pend, s', pend', slot, f)
    ensures Placed(s', Swapped(o, slot, f), pend')
  {
  }

  lemma TradeFrames(s: State, o: Owners, pend: Pending, s': State, pend': Pending, slot: nat, f: nat)
    requires Traded(s, o, pend, s', pend', slot, f)
    ensures FramesOwned(s', Swapped(o, slot, f), pend')
  {
    assert Where(s, pend, o.frame[f]) == InFrame(f) && Where(s, pend, o.slot[slot]) == InSlot(slot);
  }

  lemma TradeSlots(s: State, o: Owners, pend: Pending, s': State, pend': Pending, slot: nat, f: nat)
    requires Traded(s, o, pend, s', pend', slot, f)
    ensures SlotsOwned(s', Swapped(o, slot, f), pend')
  {
    assert Where(s, pend, o.frame[f]) == InFrame(f) && Where(s, pend, o.slot[slot]) == InSlot(slot);
  }

  lemma ExchangeKeepsOwned(s: State, o: Owners, pend: Pending, slot: nat, f: nat)
    requires Owned(s, o, pend) && slot < SLOTS && f < FRAMES
    requires o.frame[f] != Free && o.slot[slot] != Free
    ensures Owned(Exchanged(s, o, slot, f), Swapped(o, slot, f), Repend(pend, o.frame[f], o.slot[slot], slot, f))
  {
    var s', o', pend' := Exchanged(s, o, slot, f), Swapped(o, slot, f), Repend(pend, o.frame[f], o.slot[slot], slot, f);
    assert Placed(s', o', pend') && FramesOwned(s', o', pend') && SlotsOwned(s', o', pend') by {
      forall e | Entity(e)
        ensures Where(s', pend', e) ==
                if o.frame[f] == e then InSlot(slot) else if o.slot[slot] == e then InFrame(f) else Where(s, pend, e)
      {
        ExchangeMoves(s, o, pend, slot, f, e);
      }
      TradePlaces(s, o, pend, s', pend', slot, f);
      TradeFrames(s, o, pend, s', pend', slot, f);
      TradeSlots(s, o, pend, s', pend', slot, f);
    }
    assert Entity(o.frame[f]) && Entity(o.slot[slot]);
  }

  lemma ExchangeKeepsSeen(s: State, o: Owners, pend: Pending, slot: nat, f: nat, i: nat, j: nat)
    requires Owned(s, o, pend) && slot < SLOTS && f < FRAMES && i < PROCESSES && j < PAGES
    requires o.frame[f] != Free && o.slot[slot] != Free
    ensures Seen(Exchanged(s, o, slot, f), Repend(pend, o.frame[f], o.slot[slot], slot, f), i, j) == Seen(s, pend, i, j)
  {
    TablesTravel(s, o, pend, slot, f, i);
    ExchangeMoves(s, o, pend, slot, f, Pg(i, j));
  }

  lemma ExchangeKeepsView(s: State, o: Owners, pend: Pending, slot: nat, f: nat)
    requires Owned(s, o, pend) && slot < SLOTS && f < FRAMES
    requires o.frame[f] != Free && o.slot[slot] != Free
    ensures SameView(s, pend, Exchanged(s, o, slot, f), Repend(pend, o.frame[f], o.slot[slot], slot, f))
  {
    forall i, j | 0 <= i < PROCESSES && 0 <= j < PAGES
      ensures Seen(Exchanged(s, o, slot, f), Repend(pend, o.frame[f], o.slot[slot], slot, f), i, j) ==
        Seen(s, pend, i, j)
    {
      ExchangeKeepsSeen(s, o, pend, slot, f, i, j);
    }
  }

  // ----- Writing an entry -----

  /** Rewriting entry (i, j) so that its bytes give the true place of the page. The rest of the
      table must keep its bytes; the view changes at most at (i, j). */
  lemma RecordEntry(s: State, o: Owners, pend: Pending, i: nat, j: nat, page: Page)
    requires Owned(s, o, pend) && i < PROCESSES && j < PAGES
    requires (i, j) in pend && pend[(i, j)] != Nowhere && Resident(s, i)
    requires forall k | 0 <= k < PAGES && k != j ::
      page[2 * k] == TablePage(s, i)[2 * k] && page[2 * k + 1] == TablePage(s, i)[2 * k + 1]
    requires Alloc(page[2 * j])
    requires pend[(i, j)] == if InCore(page[2 * j]) then InFrame(FrameOf(page[2 * j])) else InSlot(page[2 * j + 1])
    ensures Owned(s.(frames := s.frames[s.table[i] := page]), o, pend - {(i, j)})
    ensures var s' := s.(frames := s.frames[s.table[i] := page]);
            forall q, r | 0 <= q < PROCESSES && 0 <= r < PAGES && (q, r) != (i, j) ::
              Seen(s', pend - {(i, j)}, q, r) == Seen(s, pend, q, r)
    ensures var s' := s.(frames := s.frames[s.table[i] := page]);
            Seen(s', pend - {(i, j)}, i, j) == Some(VPage(Prot(page[2 * j]), Content(s, pend[(i, j)])))
  {
    var T := s.table[i];
    var s' := s.(frames := s.frames[T := page]);
    var pend' := pend - {(i, j)};
    assert Where(s, pend, Tab(i)) == InFrame(T) && o.frame[T] == Tab(i);
    assert Where(s, pend, Pg(i, j)) == pend[(i, j)];
    forall e | Entity(e)
      ensures Where(s', pend', e) == Where(s, pend, e)
    {
      assert Where(s, pend, Tab(e.pid)) == TableLoc(s, e.pid);
    }
    forall q, r | 0 <= q < PROCESSES && 0 <= r < PAGES
      ensures Where(s, pend, Pg(q, r)) != InFrame(T)
    {
      assert Entity(Pg(q, r));
    }
    forall q | 0 <= q < PROCESSES && q != i
      ensures TablePage(s', q) == TablePage(s, q)
    {
      assert Where(s, pend, Tab(q)) == TableLoc(s, q);
    }
  }
}
