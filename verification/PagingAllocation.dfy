/**
 Allocation: new tables and pages in free frames or freshly appended swap slots, and the
 bound on swap usage that makes appending always possible.
 */
module PagingAllocation {
  import opened Basics
  import opened PagingModel
  import opened PagingOwnership
  import opened PagingCascade
  import opened PagingFaults

  // ----- How much swap can be in use -----

  /** A number below 20 for each table and page. */
  function Number(e: Owner): nat
    requires Entity(e)
  {
    match e
    case Tab(i) => i
    case Pg(i, j) => 4 + 4 * i + j
  }

  function Elements(a: seq<nat>): (r: set<nat>)
    ensures forall x :: x in r <==> x in a
  {
    if a == [] then {} else Elements(a[1..]) + {a[0]}
  }

  lemma {:induction false} DistinctElements(a: seq<nat>)
    requires forall k, l | 0 <= k < l < |a| :: a[k] != a[l]
    ensures |Elements(a)| == |a|
  {
    if a != [] {
      DistinctElements(a[1..]);
    }
  }

  lemma DistinctBelow(a: seq<nat>, n: nat)
    requires (forall k, l | 0 <= k < l < |a| :: a[k] != a[l]) && forall k | 0 <= k < |a| :: a[k] < n
    ensures |a| <= n
  {
    DistinctElements(a);
    SubsetSize(Elements(a), UpTo(n));
  }

  /** The owners of the frames, then of the first n slots, then those that are nowhere. */
  function Census(o: Owners, n: nat, absent: seq<Owner>): seq<Owner>
    requires Proper(o) && n <= SLOTS
  {
    o.frame + o.slot[..n] + absent
  }

  lemma CensusPlaces(s: State, o: Owners, n: nat, absent: seq<Owner>, k: nat)
    requires Owned(s, o, map[]) && AllFull(o) && n <= SLOTS && forall t | 0 <= t < n :: s.used[t]
    requires forall m | 0 <= m < |absent| :: Entity(absent[m]) && Where(s, map[], absent[m]) == Nowhere
    requires k < |Census(o, n, absent)|
    ensures var e := Census(o, n, absent)[k];
            Entity(e) && Where(s, map[], e) == if k < 4 then InFrame(k) else if k < 4 + n then InSlot(k - 4)
              else Nowhere
  {
    if k < 4 {
      assert Census(o, n, absent)[k] == o.frame[k];
    } else if k < 4 + n {
      assert Census(o, n, absent)[k] == o.slot[k - 4];
    }
  }

  /** With all frames full, n occupied slots and the absent entities leave room for at most 20 in all. */
  lemma SwapHasRoom(s: State, o: Owners, n: nat, absent: seq<Owner>)
    requires Owned(s, o, map[]) && AllFull(o) && n <= SLOTS && forall t | 0 <= t < n :: s.used[t]
    requires |absent| <= 1 && forall m | 0 <= m < |absent| :: Entity(absent[m]) && Where(s, map[], absent[m]) == Nowhere
    ensures n + |absent| <= 16
  {
    var all := Census(o, n, absent);
    forall k | 0 <= k < |all|
      ensures Entity(all[k])
      ensures Where(s, map[], all[k]) == if k < 4 then InFrame(k) else if k < 4 + n then InSlot(k - 4) else Nowhere
    {
      CensusPlaces(s, o, n, absent, k);
    }
    var numbers := seq(|all|, k requires 0 <= k < |all| => Number(all[k]));
    assert forall k, l | 0 <= k < l < |all| :: all[k] != all[l];
    DistinctBelow(numbers, 20);
  }

  // ----- Appending -----

  lemma {:induction false} PrefixCount(flags: seq<bool>, n: nat)
    requires n <= |flags| && (forall k | 0 <= k < n :: flags[k]) && (forall k | n <= k < |flags| :: !flags[k])
    ensures CountUsed(flags) == n
  {
    if flags != [] {
      var m := |flags| - 1;
      PrefixCount(flags[..m], if n <= m then n else m);
    }
  }

  /** Appending uses the first free slot, and the count of occupied slots minus one names it. */
  lemma AppendUsesNextSlot(s: State, o: Owners, e: Owner) returns (n: nat)
    requires Inv(s, o) && AllFull(o) && Entity(e) && Where(s, map[], e) == Nowhere
    ensures n < 16 && o.slot[n] == Free && !s.used[n]
    ensures AppendZero(s) == s.(slots := s.slots[n := ZeroPage], used := s.used[n := true])
    ensures LastUsed(AppendZero(s)) == n
    ensures IsPrefix(s.used[n := true])
  {
    n := FirstNot(s.used, true, 0);
    SwapHasRoom(s, o, n, [e]);
    PrefixCount(s.used[n := true], n + 1);
  }

  // ----- New entities -----

  /** Make place l, which is free, belong to e. */
  function Granted(o: Owners, l: Loc, e: Owner): (r: Owners)
    requires Proper(o)
    ensures Proper(r)
  {
    match l
    case InFrame(f) => if f < FRAMES then o.(frame := o.frame[f := e]) else o
    case InSlot(t) => if t < SLOTS then o.(slot := o.slot[t := e]) else o
    case Nowhere => o
  }

  predicate InRange(l: Loc) {
    match l
    case InFrame(f) => f < FRAMES
    case InSlot(t) => t < SLOTS
    case Nowhere => false
  }

  /** s' is s with the place l marked occupied. */
  ghost predicate Occupies(s: State, s': State, l: Loc)
    requires Shape(s) && Shape(s') && InRange(l)
  {
    && s'.full == (if l.InFrame? then s.full[l.f := true] else s.full)
    && s'.used == (if l.InSlot? then s.used[l.t := true] else s.used)
  }

  /** Exactly e has appeared, at the free place l. */
  ghost predicate Appeared(s: State, o: Owners, pend: Pending, s': State, pend': Pending, l: Loc, e: Owner) {
    && Owned(s, o, pend) && Shape(s') && InRange(l) && At(o, l) == Free && Entity(e) && Where(s, pend, e) == Nowhere
    && forall d | Entity(d) :: Where(s', pend', d) == if d == e then l else Where(s, pend, d)
  }

  lemma AppearancePlaced(s: State, o: Owners, pend: Pending, s': State, pend': Pending, l: Loc, e: Owner)
    requires Appeared(s, o, pend, s', pend', l, e)
    ensures Placed(s', Granted(o, l, e), pend')
  {
  }

  lemma AppearanceFrames(s: State, o: Owners, pend: Pending, s': State, pend': Pending, l: Loc, e: Owner, f: nat)
    requires Appeared(s, o, pend, s', pend', l, e) && f < FRAMES && Granted(o, l, e).frame[f] != Free
    ensures Entity(Granted(o, l, e).frame[f]) && Where(s', pend', Granted(o, l, e).frame[f]) == InFrame(f)
  {
    assert o.frame[f] != Free ==> Where(s, pend, o.frame[f]) == InFrame(f);
  }

  lemma AppearanceSlots(s: State, o: Owners, pend: Pending, s': State, pend': Pending, l: Loc, e: Owner, t: nat)
    requires Appeared(s, o, pend, s', pend', l, e) && t < SLOTS && Granted(o, l, e).slot[t] != Free
    ensures Entity(Granted(o, l, e).slot[t]) && Where(s', pend', Granted(o, l, e).slot[t]) == InSlot(t)
  {
    assert o.slot[t] != Free ==> Where(s, pend, o.slot[t]) == InSlot(t);
  }

  /** If e alone appears, at the free place l, ownership is kept. */
  lemma AppearanceKeepsOwned(s: State, o: Owners, pend: Pending, s': State, pend': Pending, l: Loc, e: Owner)
    requires Appeared(s, o, pend, s', pend', l, e)
    requires Occupies(s, s', l)
    requires forall i, j | (i, j) in pend' :: i < PROCESSES && j < PAGES
    ensures Owned(s', Granted(o, l, e), pend')
  {
    var o' := Granted(o, l, e);
    AppearancePlaced(s, o, pend, s', pend', l, e);
    forall f | 0 <= f < FRAMES && o'.frame[f] != Free
      ensures Entity(o'.frame[f]) && Where(s', pend', o'.frame[f]) == InFrame(f)
    {
      AppearanceFrames(s, o, pend, s', pend', l, e, f);
    }
    forall t | 0 <= t < SLOTS && o'.slot[t] != Free
      ensures Entity(o'.slot[t]) && Where(s', pend', o'.slot[t]) == InSlot(t)
    {
      AppearanceSlots(s, o, pend, s', pend', l, e, t);
    }
  }

  /** A page of zeroes at l becomes the empty table of a process that had none. */
  ghost predicate MakesTable(s: State, o: Owners, s': State, pid: nat, l: Loc) {
    && Owned(s, o, map[]) && Shape(s') && pid < PROCESSES && s.table[pid] == NOTALLOC
    && InRange(l) && At(o, l) == Free && Occupies(s, s', l) && Content(s', l) == ZeroPage
    && s'.table == s.table[pid := if l.InFrame? then l.f else SwapToIndex(l.t)]
    && (forall f | 0 <= f < FRAMES && l != InFrame(f) :: s'.frames[f] == s.frames[f])
    && (forall t | 0 <= t < SLOTS && l != InSlot(t) :: s'.slots[t] == s.slots[t])
  }

  lemma NewTablePlaces(s: State, o: Owners, s': State, pid: nat, l: Loc, d: Owner)
    requires MakesTable(s, o, s', pid, l) && Entity(d)
    ensures Where(s', map[], d) == if d == Tab(pid) then l else Where(s, map[], d)
    ensures d.pid != pid ==> TablePage(s', d.pid) == TablePage(s, d.pid)
  {
    if d.pid != pid {
      TablesKept(s, o, map[], s', l, pid);
    } else {
      EmptyTablePlaces(s, o, s', pid, l, d);
    }
  }

  lemma EmptyTablePlaces(s: State, o: Owners, s': State, pid: nat, l: Loc, d: Owner)
    requires MakesTable(s, o, s', pid, l) && Entity(d) && d.pid == pid
    ensures Where(s', map[], d) == if d == Tab(pid) then l else Where(s, map[], d)
  {
    assert TablePage(s', pid) == ZeroPage;
  }

  lemma NewTable(s: State, o: Owners, s': State, pid: nat, l: Loc)
    requires MakesTable(s, o, s', pid, l)
    ensures Owned(s', Granted(o, l, Tab(pid)), map[]) && SameView(s, map[], s', map[])
  {
    assert Owned(s', Granted(o, l, Tab(pid)), map[]) by {
      forall d | Entity(d)
        ensures Where(s', map[], d) == if d == Tab(pid) then l else Where(s, map[], d)
      {
        NewTablePlaces(s, o, s', pid, l, d);
      }
      AppearanceKeepsOwned(s, o, map[], s', map[], l, Tab(pid));
    }
    forall i, j | 0 <= i < PROCESSES && 0 <= j < PAGES
      ensures Seen(s', map[], i, j) == Seen(s, map[], i, j)
    {
      NewTablePlaces(s, o, s', pid, l, Pg(i, j));
      assert Where(s, map[], Pg(i, j)) != l;
    }
  }

  /** Tables other than pid's do not notice that l was filled. */
  lemma TablesKept(s: State, o: Owners, pend: Pending, s': State, l: Loc, pid: nat)
    requires Owned(s, o, pend) && Shape(s') && InRange(l) && At(o, l) == Free
    requires forall i | 0 <= i < PROCESSES && i != pid :: s'.table[i] == s.table[i]
    requires forall f | 0 <= f < FRAMES && l != InFrame(f) :: s'.frames[f] == s.frames[f]
    requires forall t | 0 <= t < SLOTS && l != InSlot(t) :: s'.slots[t] == s.slots[t]
    ensures forall i | 0 <= i < PROCESSES && i != pid ::
      TablePage(s', i) == TablePage(s, i) && TableLoc(s', i) == TableLoc(s, i)
  {
    forall i | 0 <= i < PROCESSES && i != pid
      ensures TablePage(s', i) == TablePage(s, i) && TableLoc(s', i) == TableLoc(s, i)
    {
      assert Where(s, pend, Tab(i)) == TableLoc(s, i);
    }
  }

  /** Place l becomes a page of a process with a resident table; its entry is still to be written. */
  ghost predicate MakesPage(s: State, o: Owners, s': State, pid: nat, vp: nat, l: Loc) {
    && Owned(s, o, map[]) && Shape(s') && pid < PROCESSES && vp < PAGES && Resident(s, pid)
    && Where(s, map[], Pg(pid, vp)) == Nowhere
    && InRange(l) && At(o, l) == Free && Occupies(s, s', l)
    && s'.table == s.table
    && (forall f | 0 <= f < FRAMES && l != InFrame(f) && f != s.table[pid] :: s'.frames[f] == s.frames[f])
    && (forall t | 0 <= t < SLOTS && l != InSlot(t) :: s'.slots[t] == s.slots[t])
    && l != InFrame(s.table[pid])
    && (forall k | 0 <= k < PAGES :: TablePage(s', pid)[2 * k] == TablePage(s, pid)[2 * k])
    && (forall k | 0 <= k < PAGES && k != vp :: TablePage(s', pid)[2 * k + 1] == TablePage(s, pid)[2 * k + 1])
  }

  lemma NewPageTables(s: State, o: Owners, s': State, pid: nat, vp: nat, l: Loc, i: nat)
    requires MakesPage(s, o, s', pid, vp, l) && i < PROCESSES && i != pid
    ensures TablePage(s', i) == TablePage(s, i) && TableLoc(s', i) == TableLoc(s, i)
  {
    assert Where(s, map[], Tab(pid)) == InFrame(s.table[pid]);
    assert Where(s, map[], Tab(i)) == TableLoc(s, i);
  }

  lemma NewPagePlaces(s: State, o: Owners, s': State, pid: nat, vp: nat, l: Loc, d: Owner)
    requires MakesPage(s, o, s', pid, vp, l) && Entity(d)
    ensures Where(s', map[(pid, vp) := l], d) == if d == Pg(pid, vp) then l else Where(s, map[], d)
  {
    if d.pid != pid {
      NewPageTables(s, o, s', pid, vp, l, d.pid);
    }
  }

  lemma NewPageSeen(s: State, o: Owners, s': State, pid: nat, vp: nat, l: Loc, i: nat, j: nat)
    requires MakesPage(s, o, s', pid, vp, l) && i < PROCESSES && j < PAGES && (i, j) != (pid, vp)
    ensures Seen(s', map[(pid, vp) := l], i, j) == Seen(s, map[], i, j)
  {
    NewPagePlaces(s, o, s', pid, vp, l, Pg(i, j));
    assert Where(s, map[], Tab(pid)) == InFrame(s.table[pid]);
    assert Where(s, map[], Pg(i, j)) != l && Where(s, map[], Pg(i, j)) != InFrame(s.table[pid]);
    if i != pid {
      NewPageTables(s, o, s', pid, vp, l, i);
    }
  }

  lemma NewPage(s: State, o: Owners, s': State, pid: nat, vp: nat, l: Loc)
    requires MakesPage(s, o, s', pid, vp, l)
    ensures Owned(s', Granted(o, l, Pg(pid, vp)), map[(pid, vp) := l])
    ensures forall i, j | 0 <= i < PROCESSES && 0 <= j < PAGES && (i, j) != (pid, vp) ::
              Seen(s', map[(pid, vp) := l], i, j) == Seen(s, map[], i, j)
  {
    var pend': Pending := map[(pid, vp) := l];
    forall d | Entity(d)
      ensures Where(s', pend', d) == if d == Pg(pid, vp) then l else Where(s, map[], d)
    {
      NewPagePlaces(s, o, s', pid, vp, l, d);
    }
    AppearanceKeepsOwned(s, o, map[], s', pend', l, Pg(pid, vp));
    forall i, j | 0 <= i < PROCESSES && 0 <= j < PAGES && (i, j) != (pid, vp)
      ensures Seen(s', pend', i, j) == Seen(s, map[], i, j)
    {
      NewPageSeen(s, o, s', pid, vp, l, i, j);
    }
  }
}
