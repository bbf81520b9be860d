/**
 What one call of swapPage does, however deep its cascade of nested evictions goes.
 */
module PagingCascade {
  import opened Basics
  import opened PagingModel
  import opened PagingOwnership

  ghost predicate AllFull(o: Owners) { Proper(o) && forall f | 0 <= f < FRAMES :: o.frame[f] != Free }

  /** No pending page is in frame g, and no stale entry of a pending page claims it. */
  ghost predicate Quiet(s: State, pend: Pending, g: nat)
    requires Shape(s)
  {
    forall i, j | (i, j) in pend ::
      pend[(i, j)] != InFrame(g) && (i < PROCESSES && j < PAGES ==> !Claims(TablePage(s, i), j, g))
  }

  function VictimFor(e: Owner, pid: nat): Victim {
    match e
    case Free => NoVictim
    case Tab(k) => if k == pid then IssuersTable else TableOf(k)
    case Pg(k, j) => PageOf(k, j)
  }

  /** The scan over the processes finds the owner of the frame. */
  lemma ScanFindsOwner(s: State, o: Owners, pend: Pending, f: nat, pid: nat, i: nat)
    requires Owned(s, o, pend) && f < FRAMES && o.frame[f] != Free && Quiet(s, pend, f)
    requires i <= o.frame[f].pid
    ensures FindVictim(s, f, pid, i) == VictimFor(o.frame[f], pid)
    decreases PROCESSES - i
  {
    var e := o.frame[f];
    assert Entity(e) && Where(s, pend, e) == InFrame(f);
    assert Where(s, pend, Tab(i)) == TableLoc(s, i);
    if s.table[i] < NOTALLOC {
      var j := FirstClaim(TablePage(s, i), f, 0);
      if j < PAGES {
        assert (i, j) !in pend;
        assert Where(s, pend, Pg(i, j)) == InFrame(f);
      }
    }
    if i < e.pid {
      ScanFindsOwner(s, o, pend, f, pid, i + 1);
    } else if e.Pg? {
      assert (i, e.vp) !in pend;
      assert Claims(TablePage(s, i), e.vp, f);
    }
  }

  // ----- Redirection -----

  /** Where a call aimed at frame g ends up, and the pointer then, when the issuer's table is in frame T. */
  function Landing(T: int, g: nat, next: int): (r: (nat, nat))
    requires g < FRAMES && 0 <= next < FRAMES
    ensures r.0 < FRAMES && r.1 < FRAMES && r.0 != T
  {
    if g != T then (g, next)
    else if (next + 1) % 4 != T then ((next + 1) % 4, (next + 1) % 4)
    else ((next + 2) % 4, (next + 2) % 4)
  }

  lemma OwnedIgnoresNext(s: State, o: Owners, pend: Pending, n: nat)
    requires Owned(s, o, pend) && n < FRAMES
    ensures Owned(s.(next := n), o, pend)
    ensures SameView(s, pend, s.(next := n), pend)
    ensures forall i | 0 <= i < PROCESSES :: TablePage(s.(next := n), i) == TablePage(s, i)
  {
    forall e | Entity(e)
      ensures Where(s.(next := n), pend, e) == Where(s, pend, e)
    {
    }
  }

  lemma RedirectOnce(s: State, o: Owners, pend: Pending, slot: nat, g: nat, pid: nat)
    requires Owned(s, o, pend) && slot < SLOTS && g < FRAMES && pid < PROCESSES
    requires s.table[pid] == g && Quiet(s, pend, g)
    ensures SwapPage(s, slot, g, pid) == SwapPage(Advance(s), slot, Advance(s).next, pid)
    ensures Owned(Advance(s), o, pend) && Quiet(Advance(s), pend, g)
  {
    assert Where(s, pend, Tab(pid)) == InFrame(g);
    ScanFindsOwner(s, o, pend, g, pid, 0);
    OwnedIgnoresNext(s, o, pend, Advance(s).next);
  }

  lemma RedirectTwice(s: State, o: Owners, pend: Pending, slot: nat, g: nat, pid: nat)
    requires Owned(s, o, pend) && slot < SLOTS && g < FRAMES && pid < PROCESSES
    requires s.table[pid] == g && Quiet(s, pend, g) && Advance(s).next == g
    ensures SwapPage(s, slot, g, pid) == SwapPage(Advance(Advance(s)), slot, Advance(Advance(s)).next, pid)
  {
    RedirectOnce(s, o, pend, slot, g, pid);
    RedirectOnce(Advance(s), o, pend, slot, g, pid);
  }

  lemma RedirectLands(s: State, o: Owners, pend: Pending, slot: nat, g: nat, pid: nat, s': State, g': nat)
    requires Owned(s, o, pend) && slot < SLOTS && g < FRAMES && pid < PROCESSES
    requires s.table[pid] == g ==> Quiet(s, pend, g)
    requires s' == s.(next := Landing(s.table[pid], g, s.next).1) && g' == Landing(s.table[pid], g, s.next).0
    ensures SwapPage(s, slot, g, pid) == SwapPage(s', slot, g', pid)
  {
    if s.table[pid] != g {
      assert s' == s && g' == g;
    } else if Advance(s).next != g {
      assert s' == Advance(s) && g' == Advance(s).next;
      RedirectOnce(s, o, pend, slot, g, pid);
    } else {
      assert s' == Advance(Advance(s)) && g' == s'.next;
      RedirectTwice(s, o, pend, slot, g, pid);
    }
  }

  // ----- The route of a cascade -----

  /** Each frame of the path is where the nested call made at the previous one lands. */
  predicate Linked(path: seq<nat>, T: int, next: int)
    requires 0 <= next < FRAMES
    requires forall k | 0 <= k < |path| :: path[k] < FRAMES
  {
    |path| <= 1 ||
    var l := Landing(T, (path[0] + 1) % 4, next);
    path[1] == l.0 && Linked(path[1..], T, l.1)
  }

  predicate Straight(path: seq<nat>, T: int) {
    forall k | 0 <= k < |path| - 1 :: (path[k] + 1) % 4 != T
  }

  predicate GoodPath(path: seq<nat>, f: nat) {
    && |path| > 0 && path[0] == f
    && (forall k | 0 <= k < |path| :: path[k] < FRAMES)
    && (forall k, l | 0 <= k < l < |path| :: path[k] != path[l])
  }

  /** Somewhere on the path is a frame whose owner's table is at hand, so the cascade stops there. */
  predicate Settles(o: Owners, path: seq<nat>, away: set<nat>)
    requires Proper(o) && forall k | 0 <= k < |path| :: path[k] < FRAMES
  {
    path != [] &&
    match o.frame[path[0]]
    case Pg(i, j) => i in away ==> Settles(o, path[1..], away - {i})
    case _ => true
  }

  function AwayTables(s: State, x: Owner): set<nat>
    requires Shape(s)
  {
    set k: nat | k < PROCESSES && s.table[k] < 0 && x != Tab(k)
  }

  lemma SettlesFrame(o: Owners, o': Owners, path: seq<nat>, away: set<nat>)
    requires Proper(o) && Proper(o') && forall k | 0 <= k < |path| ::
      path[k] < FRAMES && o.frame[path[k]] == o'.frame[path[k]]
    ensures Settles(o, path, away) == Settles(o', path, away)
  {
    if path != [] && o.frame[path[0]].Pg? {
      SettlesFrame(o, o', path[1..], away - {o.frame[path[0]].pid});
    }
  }

  /** The place of the issuer's table once x has been brought into frame f. */
  function IssuerAfter(s: State, x: Owner, f: nat, pid: nat): int
    requires Shape(s) && pid < PROCESSES
  {
    if x == Tab(pid) then f else s.table[pid]
  }

  function PendAfter(pend: Pending, x: Owner, f: nat): Pending {
    if x.Pg? then pend[(x.pid, x.vp) := InFrame(f)] else pend
  }

  /** What a successful call promises: x sits in frame f, everybody sees what they saw, every
      entry off the path is where it was, and nothing was allocated or freed. */
  ghost predicate Done(s: State, o: Owners, pend: Pending, x: Owner, f: nat, path: seq<nat>, s': State, o': Owners,
                       pend': Pending)
    requires Shape(s) && Proper(o)
  {
    && Owned(s', o', pend')
    && SameView(s, pend, s', pend')
    && f < FRAMES && o'.frame[f] == x
    && (forall g | 0 <= g < FRAMES && g !in path :: o'.frame[g] == o.frame[g])
    && s'.used == s.used && s'.full == s.full
    && (forall i | 0 <= i < PROCESSES :: TableLoc(s', i) == Nowhere <==> TableLoc(s, i) == Nowhere)
    && (forall i, j | 0 <= i < PROCESSES && 0 <= j < PAGES ::
          Alloc(TablePage(s', i)[2 * j]) == Alloc(TablePage(s, i)[2 * j]))
  }

  // ----- The four eviction cases -----

  ghost predicate Ready(s: State, o: Owners, pend: Pending, slot: nat, f: nat, pid: nat) {
    && Owned(s, o, pend) && AllFull(o) && slot < SLOTS && f < FRAMES && pid < PROCESSES
    && o.slot[slot] != Free && Quiet(s, pend, f) && s.table[pid] != f
  }

  /** The exchange itself, before any entry is corrected. */
  lemma ExchangeDone(s: State, o: Owners, pend: Pending, slot: nat, f: nat, pid: nat)
    requires Ready(s, o, pend, slot, f, pid)
    ensures var pend' := Repend(pend, o.frame[f], o.slot[slot], slot, f);
            Done(s, o, pend, o.slot[slot], f, [f], Exchanged(s, o, slot, f), Swapped(o, slot, f), pend')
    ensures forall i | 0 <= i < PROCESSES :: TablePage(Exchanged(s, o, slot, f), i) == TablePage(s, i)
  {
    ExchangeKeepsOwned(s, o, pend, slot, f);
    ExchangeKeepsView(s, o, pend, slot, f);
    forall i | 0 <= i < PROCESSES
      ensures TablePage(Exchanged(s, o, slot, f), i) == TablePage(s, i)
      ensures TableLoc(Exchanged(s, o, slot, f), i) == Nowhere <==> TableLoc(s, i) == Nowhere
    {
      TablesTravel(s, o, pend, slot, f, i);
    }
    assert s.used[slot := true] == s.used;
  }

  /** The loop over k relocates exactly the table that was in the slot. */
  lemma RelocateIsMoved(s: State, o: Owners, pend: Pending, slot: nat, f: nat)
    requires Owned(s, o, pend) && slot < SLOTS && f < FRAMES && o.slot[slot] != Free
    ensures Relocate(s.table, slot, f) == if o.slot[slot].Tab? then s.table[o.slot[slot].pid := f] else s.table
  {
    var x := o.slot[slot];
    assert Entity(x) && Where(s, pend, x) == InSlot(slot);
    forall k | 0 <= k < PROCESSES
      ensures IndexToSwap(s.table[k]) == slot <==> x == Tab(k)
    {
      assert Entity(Tab(k)) && Where(s, pend, Tab(k)) == TableLoc(s, k);
    }
  }

  lemma EvictTable(s: State, o: Owners, pend: Pending, slot: nat, f: nat, pid: nat)
    requires Ready(s, o, pend, slot, f, pid) && o.frame[f].Tab?
    ensures SwapPage(s, slot, f, pid) == Ok(Advance(Exchanged(s, o, slot, f)))
  {
    ScanFindsOwner(s, o, pend, f, pid, 0);
    assert Where(s, pend, o.frame[f]) == InFrame(f);
    RelocateIsMoved(s, o, pend, slot, f);
  }

  /** Entry (i, j) of the victim rewritten to say: in the slot. */
  function Corrected(s: State, i: nat, j: nat, slot: nat): State
    requires Shape(s) && i < PROCESSES && j < PAGES && slot < SLOTS && Resident(s, i)
  {
    s.(frames := s.frames[s.table[i] := MarkOut(s.frames[s.table[i]], j, slot)])
  }

  lemma EvictWithTableAtHand(s: State, o: Owners, pend: Pending, slot: nat, f: nat, pid: nat)
    requires Ready(s, o, pend, slot, f, pid) && o.frame[f].Pg? && o.frame[f].pid !in AwayTables(s, o.slot[slot])
    ensures var e := Exchanged(s, o, slot, f);
            && o.frame[f].pid < PROCESSES && o.frame[f].vp < PAGES
            && Resident(e, o.frame[f].pid)
            && SwapPage(s, slot, f, pid) == Ok(Advance(Corrected(e, o.frame[f].pid, o.frame[f].vp, slot)))
  {
    var v, x := o.frame[f], o.slot[slot];
    ScanFindsOwner(s, o, pend, f, pid, 0);
    assert Where(s, pend, v) == InFrame(f);
    assert Where(s, pend, x) == InSlot(slot);
    assert Where(s, pend, Tab(v.pid)) == TableLoc(s, v.pid);
    RelocateIsMoved(s, o, pend, slot, f);
    var e := Exchanged(s, o, slot, f);
    if Resident(s, v.pid) {
      var r := s.table[v.pid];
      var marked := s.(frames := s.frames[r := MarkOut(s.frames[r], v.vp, slot)]);
      assert BringIn(marked, slot, f).frames == Corrected(e, v.pid, v.vp, slot).frames;
      assert BringIn(marked, slot, f) == Corrected(e, v.pid, v.vp, slot);
    } else {
      assert x == Tab(v.pid);
    }
  }

  lemma EvictAwayFromTable(s: State, o: Owners, pend: Pending, slot: nat, f: nat, pid: nat)
    requires Ready(s, o, pend, slot, f, pid) && o.frame[f].Pg? && o.frame[f].pid in AwayTables(s, o.slot[slot])
    ensures var e, v := Exchanged(s, o, slot, f), o.frame[f];
            && v.pid < PROCESSES && v.vp < PAGES && e.table[v.pid] == s.table[v.pid] < 0
            && SwapPage(s, slot, f, pid) ==
               match SwapPage(e, IndexToSwap(e.table[v.pid]), (f + 1) % 4, pid)
               case Wild => Wild
               case Ok(n) =>
                 match MarkOutAt(n, v.pid, v.vp, slot)
                 case Wild => Wild
                 case Ok(m) => Ok(Advance(m))
  {
    var v, x := o.frame[f], o.slot[slot];
    ScanFindsOwner(s, o, pend, f, pid, 0);
    assert Where(s, pend, v) == InFrame(f);
    assert Where(s, pend, x) == InSlot(slot);
    assert Where(s, pend, Tab(v.pid)) == TableLoc(s, v.pid);
    RelocateIsMoved(s, o, pend, slot, f);
    assert BringIn(s, slot, f) == Exchanged(s, o, slot, f);
  }

  /** Correcting the victim's entry completes the exchange. */
  lemma CorrectionDone(s: State, o: Owners, pend: Pending, i: nat, j: nat, slot: nat)
    requires Owned(s, o, pend) && i < PROCESSES && j < PAGES && slot < SLOTS && Resident(s, i)
    requires (i, j) in pend && pend[(i, j)] == InSlot(slot) && Alloc(TablePage(s, i)[2 * j])
    ensures Owned(Corrected(s, i, j, slot), o, pend - {(i, j)})
    ensures SameView(s, pend, Corrected(s, i, j, slot), pend - {(i, j)})
    ensures forall q, r | 0 <= q < PROCESSES && 0 <= r < PAGES ::
              Alloc(TablePage(Corrected(s, i, j, slot), q)[2 * r]) == Alloc(TablePage(s, q)[2 * r])
  {
    var page := MarkOut(s.frames[s.table[i]], j, slot);
    RecordEntry(s, o, pend, i, j, page);
    assert Seen(s, pend, i, j) == Some(VPage(Prot(page[2 * j]), Content(s, InSlot(slot))));
    forall q | 0 <= q < PROCESSES && q != i
      ensures TablePage(Corrected(s, i, j, slot), q) == TablePage(s, q)
    {
      assert Where(s, pend, Tab(q)) == TableLoc(s, q) && Where(s, pend, Tab(i)) == TableLoc(s, i);
    }
  }

  lemma SameViewTrans(s: State, pend: Pending, s': State, pend': Pending, s'': State, pend'': Pending)
    requires Shape(s) && Shape(s') && Shape(s'')
    requires SameView(s, pend, s', pend') && SameView(s', pend', s'', pend'')
    ensures SameView(s, pend, s'', pend'')
  {
  }

  // ----- The whole cascade -----

  /** The path is the one the nested calls take while the issuer's table is in frame T. */
  ghost predicate OnRoute(s: State, pend: Pending, path: seq<nat>, T: int)
    requires Shape(s) && |path| > 0 && GoodPath(path, path[0])
  {
    Linked(path, T, s.next) && (Straight(path, T) || (0 <= T < FRAMES && T !in path && Quiet(s, pend, T)))
  }

  /** A call whose cascade, as far as it goes, follows the path. */
  ghost predicate Underway(s: State, o: Owners, pend: Pending, slot: nat, pid: nat, path: seq<nat>) {
    && |path| > 0 && GoodPath(path, path[0])
    && Ready(s, o, pend, slot, path[0], pid)
    && (Resident(s, pid) || o.slot[slot] == Tab(pid))
    && (forall k | 0 <= k < |path| :: path[k] != s.table[pid] && Quiet(s, pend, path[k]))
    && OnRoute(s, pend, path, IssuerAfter(s, o.slot[slot], path[0], pid))
  }

  ghost predicate CascadeReady(s: State, o: Owners, pend: Pending, slot: nat, pid: nat, path: seq<nat>) {
    && Underway(s, o, pend, slot, pid, path)
    && Settles(o, path, AwayTables(s, o.slot[slot]))
  }

  lemma LeafDone(s: State, o: Owners, pend: Pending, slot: nat, f: nat, pid: nat)
    requires Ready(s, o, pend, slot, f, pid)
    requires o.frame[f].Pg? ==> o.frame[f].pid !in AwayTables(s, o.slot[slot])
    ensures SwapPage(s, slot, f, pid).Ok?
    ensures Done(s, o, pend, o.slot[slot], f, [f], SwapPage(s, slot, f, pid).state, Swapped(o, slot, f),
                 PendAfter(pend, o.slot[slot], f))
  {
    var v, x := o.frame[f], o.slot[slot];
    var e, o', pend' := Exchanged(s, o, slot, f), Swapped(o, slot, f), Repend(pend, v, x, slot, f);
    ExchangeDone(s, o, pend, slot, f, pid);
    if v.Tab? {
      EvictTable(s, o, pend, slot, f, pid);
      OwnedIgnoresNext(e, o', pend', Advance(e).next);
    } else {
      EvictWithTableAtHand(s, o, pend, slot, f, pid);
      PendingResolved(s, o, pend, slot, f);
      CorrectionDone(e, o', pend', v.pid, v.vp, slot);
      var c := Corrected(e, v.pid, v.vp, slot);
      OwnedIgnoresNext(c, o', PendAfter(pend, x, f), Advance(c).next);
    }
  }

  /** The victim was not pending, so dropping it again leaves only the incoming page. */
  lemma PendingResolved(s: State, o: Owners, pend: Pending, slot: nat, f: nat)
    requires Owned(s, o, pend) && slot < SLOTS && f < FRAMES && o.slot[slot] != Free && o.frame[f].Pg?
    requires Quiet(s, pend, f)
    ensures var v, x := o.frame[f], o.slot[slot];
            && (v.pid, v.vp) !in pend
            && Alloc(TablePage(s, v.pid)[2 * v.vp])
            && Claims(TablePage(s, v.pid), v.vp, f)
            && Repend(pend, v, x, slot, f) - {(v.pid, v.vp)} == PendAfter(pend, x, f)
            && Repend(pend, v, x, slot, f)[(v.pid, v.vp)] == InSlot(slot)
  {
    assert Where(s, pend, o.frame[f]) == InFrame(f) && Where(s, pend, o.slot[slot]) == InSlot(slot);
  }

  lemma ExchangeKeepsQuiet(s: State, o: Owners, pend: Pending, slot: nat, f: nat, pid: nat, g: nat)
    requires Ready(s, o, pend, slot, f, pid) && o.frame[f].Pg? && g < FRAMES && g != f && Quiet(s, pend, g)
    ensures Quiet(Exchanged(s, o, slot, f), Repend(pend, o.frame[f], o.slot[slot], slot, f), g)
  {
    var v, x := o.frame[f], o.slot[slot];
    PendingResolved(s, o, pend, slot, f);
    ExchangeDone(s, o, pend, slot, f, pid);
    assert Where(s, pend, x) == InSlot(slot);
  }

  lemma IssuerMoves(s: State, o: Owners, pend: Pending, slot: nat, f: nat, pid: nat)
    requires Ready(s, o, pend, slot, f, pid) && o.frame[f].Pg?
    ensures Exchanged(s, o, slot, f).table[pid] == IssuerAfter(s, o.slot[slot], f, pid)
    ensures forall k | 0 <= k < PROCESSES :: Exchanged(s, o, slot, f).table[k] < 0 <==>
      s.table[k] < 0 && o.slot[slot] != Tab(k)
  {
    assert Entity(o.frame[f]);
  }

  /** The cascade goes on past the first frame of the path; e is the state the nested call works in. */
  ghost predicate GoesOn(s: State, o: Owners, pend: Pending, slot: nat, pid: nat, path: seq<nat>, e: State) {
    && Underway(s, o, pend, slot, pid, path) && |path| > 1
    && o.frame[path[0]].Pg? && o.frame[path[0]].pid in AwayTables(s, o.slot[slot])
    && e == Exchanged(s, o, slot, path[0]).(next := Landing(IssuerAfter(s, o.slot[slot], path[0], pid),
         (path[0] + 1) % 4, s.next).1)
  }

  lemma NestedOwned(s: State, o: Owners, pend: Pending, slot: nat, pid: nat, path: seq<nat>, e: State)
    requires GoesOn(s, o, pend, slot, pid, path, e)
    ensures var f, v := path[0], o.frame[path[0]];
            && v.pid < PROCESSES && v.vp < PAGES && Shape(e)
            && Owned(e, Swapped(o, slot, f), Repend(pend, v, o.slot[slot], slot, f))
            && SameView(s, pend, e, Repend(pend, v, o.slot[slot], slot, f))
            && Swapped(o, slot, f).slot[IndexToSwap(s.table[v.pid])] == Tab(v.pid)
            && e.table[pid] == IssuerAfter(s, o.slot[slot], f, pid)
            && AwayTables(e, Tab(v.pid)) == AwayTables(s, o.slot[slot]) - {v.pid}
    ensures forall i | 0 <= i < PROCESSES ::
      TablePage(e, i) == TablePage(s, i) && (TableLoc(e, i) == Nowhere <==> TableLoc(s, i) == Nowhere)
  {
    var f, v, x := path[0], o.frame[path[0]], o.slot[slot];
    var ex, o1, pend1 := Exchanged(s, o, slot, f), Swapped(o, slot, f), Repend(pend, v, x, slot, f);
    assert Entity(v) && Entity(Tab(v.pid)) && Where(s, pend, Tab(v.pid)) == TableLoc(s, v.pid);
    assert Where(s, pend, x) == InSlot(slot);
    ExchangeDone(s, o, pend, slot, f, pid);
    IssuerMoves(s, o, pend, slot, f, pid);
    OwnedIgnoresNext(ex, o1, pend1, e.next);
    SameViewTrans(s, pend, ex, pend1, e, pend1);
  }

  lemma NestedQuiet(s: State, o: Owners, pend: Pending, slot: nat, pid: nat, path: seq<nat>, e: State, g: nat)
    requires GoesOn(s, o, pend, slot, pid, path, e) && g < FRAMES && g != path[0] && Quiet(s, pend, g)
    ensures Shape(e) && Quiet(e, Repend(pend, o.frame[path[0]], o.slot[slot], slot, path[0]), g)
  {
    ExchangeKeepsQuiet(s, o, pend, slot, path[0], pid, g);
    NestedOwned(s, o, pend, slot, pid, path, e);
    ExchangeDone(s, o, pend, slot, path[0], pid);
  }

  /** What is left of a path after its first frame. */
  lemma RestOfPath(path: seq<nat>, T: int)
    requires |path| > 1 && GoodPath(path, path[0])
    ensures GoodPath(path[1..], path[1]) && (Straight(path, T) ==> Straight(path[1..], T))
    ensures (T !in path ==> T !in path[1..])
  {
    var rest := path[1..];
    assert forall k | 0 <= k < |rest| :: rest[k] == path[k + 1];
  }

  lemma NestedRoute(s: State, o: Owners, pend: Pending, slot: nat, pid: nat, path: seq<nat>, e: State)
    requires GoesOn(s, o, pend, slot, pid, path, e)
    ensures Shape(e) && GoodPath(path[1..], path[1])
    ensures OnRoute(e, Repend(pend, o.frame[path[0]], o.slot[slot], slot, path[0]), path[1..],
                    IssuerAfter(s, o.slot[slot], path[0], pid))
  {
    var T := IssuerAfter(s, o.slot[slot], path[0], pid);
    RestOfPath(path, T);
    assert Shape(e);
    assert Linked(path[1..], T, e.next);
    if !Straight(path, T) {
      NestedQuiet(s, o, pend, slot, pid, path, e, T);
    }
  }

  /** A nested call is made in a state of the same kind, one frame further along the path. */
  lemma NestedUnderway(s: State, o: Owners, pend: Pending, slot: nat, pid: nat, path: seq<nat>, e: State)
    requires GoesOn(s, o, pend, slot, pid, path, e)
    ensures var f := path[0];
            Underway(e, Swapped(o, slot, f), Repend(pend, o.frame[f], o.slot[slot], slot, f),
                     IndexToSwap(s.table[o.frame[f].pid]), pid, path[1..])
  {
    var f, v, x := path[0], o.frame[path[0]], o.slot[slot];
    var o1, pend1, rest := Swapped(o, slot, f), Repend(pend, v, x, slot, f), path[1..];
    var t := IndexToSwap(s.table[v.pid]);
    assert Owned(e, o1, pend1) && AllFull(o1) && o1.slot[t] == Tab(v.pid) by {
      NestedOwned(s, o, pend, slot, pid, path, e);
    }
    assert IssuerAfter(e, Tab(v.pid), path[1], pid) == IssuerAfter(s, x, f, pid) == e.table[pid] by {
      NestedOwned(s, o, pend, slot, pid, path, e);
    }
    NestedRoute(s, o, pend, slot, pid, path, e);
    forall k | 0 <= k < |rest|
      ensures rest[k] != e.table[pid] && Quiet(e, pend1, rest[k])
    {
      assert rest[k] == path[k + 1];
      NestedQuiet(s, o, pend, slot, pid, path, e, rest[k]);
    }
    assert Ready(e, o1, pend1, t, rest[0], pid);
  }

  lemma NestedReady(s: State, o: Owners, pend: Pending, slot: nat, pid: nat, path: seq<nat>, e: State)
    requires GoesOn(s, o, pend, slot, pid, path, e) && Settles(o, path, AwayTables(s, o.slot[slot]))
    ensures var f := path[0];
            CascadeReady(e, Swapped(o, slot, f), Repend(pend, o.frame[f], o.slot[slot], slot, f),
                         IndexToSwap(s.table[o.frame[f].pid]), pid, path[1..])
  {
    var f, v, x := path[0], o.frame[path[0]], o.slot[slot];
    NestedUnderway(s, o, pend, slot, pid, path, e);
    NestedOwned(s, o, pend, slot, pid, path, e);
    SettlesFrame(o, Swapped(o, slot, f), path[1..], AwayTables(s, x) - {v.pid});
  }

  lemma SettlesGoesOn(s: State, o: Owners, pend: Pending, slot: nat, pid: nat, path: seq<nat>, e: State)
    requires CascadeReady(s, o, pend, slot, pid, path)
    requires o.frame[path[0]].Pg? && o.frame[path[0]].pid in AwayTables(s, o.slot[slot])
    requires e == Exchanged(s, o, slot, path[0]).(next := Landing(IssuerAfter(s, o.slot[slot], path[0], pid),
      (path[0] + 1) % 4, s.next).1)
    ensures GoesOn(s, o, pend, slot, pid, path, e)
  {
    assert Settles(o, path[1..], AwayTables(s, o.slot[slot]) - {o.frame[path[0]].pid});
  }

  /** A call whose path settles succeeds and keeps everything in order, however deep it goes. */
  lemma {:induction false} CascadeSettles(s: State, o: Owners, pend: Pending, slot: nat, pid: nat, path: seq<nat>)
    returns (o': Owners)
    requires CascadeReady(s, o, pend, slot, pid, path)
    ensures SwapPage(s, slot, path[0], pid).Ok?
    ensures Done(s, o, pend, o.slot[slot], path[0], path, SwapPage(s, slot, path[0], pid).state, o',
                 PendAfter(pend, o.slot[slot], path[0]))
    decreases |path|
  {
    var f, v, x := path[0], o.frame[path[0]], o.slot[slot];
    if v.Pg? && v.pid in AwayTables(s, x) {
      var e := Exchanged(s, o, slot, f).(next := Landing(IssuerAfter(s, x, f, pid), (f + 1) % 4, s.next).1);
      SettlesGoesOn(s, o, pend, slot, pid, path, e);
      NestedReady(s, o, pend, slot, pid, path, e);
      o' := CascadeSettles(e, Swapped(o, slot, f), Repend(pend, v, x, slot, f), IndexToSwap(s.table[v.pid]), pid,
        path[1..]);
      assert Swapped(o, slot, f).slot[IndexToSwap(s.table[v.pid])] == Tab(v.pid) by {
        NestedOwned(s, o, pend, slot, pid, path, e);
      }
      CascadeReturns(s, o, pend, slot, pid, path, e, o');
    } else {
      o' := Swapped(o, slot, f);
      LeafDone(s, o, pend, slot, f, pid);
      assert forall g | g !in path :: g !in [f];
    }
  }

  /** Frame f holds a page whose table is to be fetched, and a redirection of the nested call would be harmless. */
  ghost predicate Fetching(s: State, o: Owners, pend: Pending, slot: nat, pid: nat, f: nat, T: int) {
    && Ready(s, o, pend, slot, f, pid) && o.frame[f].Pg? && o.frame[f].pid in AwayTables(s, o.slot[slot])
    && T == IssuerAfter(s, o.slot[slot], f, pid)
    && (T == (f + 1) % 4 ==> Quiet(s, pend, T))
  }

  lemma GoesOnFetching(s: State, o: Owners, pend: Pending, slot: nat, pid: nat, path: seq<nat>, e1: State)
    requires GoesOn(s, o, pend, slot, pid, path, e1)
    ensures var f, T := path[0], IssuerAfter(s, o.slot[slot], path[0], pid);
      && Fetching(s, o, pend, slot, pid, f, T) && path[1] == Landing(T, (f + 1) % 4, s.next).0
      && e1 == Exchanged(s, o, slot, f).(next := Landing(T, (f + 1) % 4, s.next).1)
  {
    var T := IssuerAfter(s, o.slot[slot], path[0], pid);
    if T == (path[0] + 1) % 4 {
      assert !Straight(path, T) by { assert (path[0] + 1) % 4 == T; }
    }
  }

  /** The state in which the nested call is made. */
  lemma FetchingState(s: State, o: Owners, pend: Pending, slot: nat, pid: nat, f: nat, T: int)
    requires Fetching(s, o, pend, slot, pid, f, T)
    ensures var e, pend' := Exchanged(s, o, slot, f), Repend(pend, o.frame[f], o.slot[slot], slot, f);
      && Owned(e, Swapped(o, slot, f), pend') && e.table[pid] == T && (T == (f + 1) % 4 ==> Quiet(e, pend', T))
    ensures -SLOTS <= s.table[o.frame[f].pid] < 0
  {
    ExchangeKeepsOwned(s, o, pend, slot, f);
    IssuerMoves(s, o, pend, slot, f, pid);
    if T == (f + 1) % 4 {
      ExchangeKeepsQuiet(s, o, pend, slot, f, pid, T);
    }
  }

  lemma FetchingLands(s: State, o: Owners, pend: Pending, slot: nat, pid: nat, f: nat, T: int, e1: State, g: nat)
    requires Fetching(s, o, pend, slot, pid, f, T) && g == Landing(T, (f + 1) % 4, s.next).0
    requires e1 == Exchanged(s, o, slot, f).(next := Landing(T, (f + 1) % 4, s.next).1)
    ensures -SLOTS <= s.table[o.frame[f].pid] < 0 && Shape(e1)
    ensures var t := IndexToSwap(s.table[o.frame[f].pid]);
      SwapPage(Exchanged(s, o, slot, f), t, (f + 1) % 4, pid) == SwapPage(e1, t, g, pid)
  {
    FetchingState(s, o, pend, slot, pid, f, T);
    RedirectLands(Exchanged(s, o, slot, f), Swapped(o, slot, f), Repend(pend, o.frame[f], o.slot[slot], slot, f),
                  IndexToSwap(s.table[o.frame[f].pid]), (f + 1) % 4, pid, e1, g);
  }

  /** The call made by case D is the call the induction hypothesis speaks of. */
  lemma NestedCall(s: State, o: Owners, pend: Pending, slot: nat, pid: nat, path: seq<nat>, e1: State)
    requires GoesOn(s, o, pend, slot, pid, path, e1)
    ensures var f := path[0];
            SwapPage(Exchanged(s, o, slot, f), IndexToSwap(s.table[o.frame[f].pid]), (f + 1) % 4, pid) ==
            SwapPage(e1, IndexToSwap(s.table[o.frame[f].pid]), path[1], pid)
  {
    GoesOnFetching(s, o, pend, slot, pid, path, e1);
    FetchingLands(s, o, pend, slot, pid, path[0], IssuerAfter(s, o.slot[slot], path[0], pid), e1, path[1]);
  }

  /** When the nested call returns n, with the victim's table resident, its entry can be corrected. */
  lemma FetchReturns(s: State, o: Owners, pend: Pending, slot: nat, pid: nat, f: nat, n: State)
    requires Ready(s, o, pend, slot, f, pid) && o.frame[f].Pg? && o.frame[f].pid in AwayTables(s, o.slot[slot])
    requires Shape(n) && o.frame[f].pid < PROCESSES && o.frame[f].vp < PAGES && Resident(n, o.frame[f].pid)
    requires SwapPage(Exchanged(s, o, slot, f), IndexToSwap(s.table[o.frame[f].pid]), (f + 1) % 4, pid) == Ok(n)
    ensures SwapPage(s, slot, f, pid) == Ok(Advance(Corrected(n, o.frame[f].pid, o.frame[f].vp, slot)))
  {
    EvictAwayFromTable(s, o, pend, slot, f, pid);
  }

  /** After the nested call the victim's table is resident and its entry can be corrected. */
  lemma CascadeReturns(s: State, o: Owners, pend: Pending, slot: nat, pid: nat, path: seq<nat>, e1: State, o3: Owners)
    requires GoesOn(s, o, pend, slot, pid, path, e1)
    requires var f := path[0];
             var n := SwapPage(e1, IndexToSwap(s.table[o.frame[f].pid]), path[1], pid);
             n.Ok? && Done(e1, Swapped(o, slot, f), Repend(pend, o.frame[f], o.slot[slot], slot, f),
                           Tab(o.frame[f].pid), path[1], path[1..], n.state, o3,
                           Repend(pend, o.frame[f], o.slot[slot], slot, f))
    ensures SwapPage(s, slot, path[0], pid).Ok?
    ensures Done(s, o, pend, o.slot[slot], path[0], path, SwapPage(s, slot, path[0], pid).state, o3,
                 PendAfter(pend, o.slot[slot], path[0]))
  {
    var n := SwapPage(e1, IndexToSwap(s.table[o.frame[path[0]].pid]), path[1], pid).state;
    NestedCall(s, o, pend, slot, pid, path, e1);
    CascadeComposes(s, o, pend, slot, pid, path, e1, n, o3);
    FetchReturns(s, o, pend, slot, pid, path[0], n);
  }

  lemma CascadeComposes(s: State, o: Owners, pend: Pending, slot: nat, pid: nat, path: seq<nat>, e1: State, n: State,
                        o3: Owners)
    requires GoesOn(s, o, pend, slot, pid, path, e1)
    requires var f := path[0];
             Done(e1, Swapped(o, slot, f), Repend(pend, o.frame[f], o.slot[slot], slot, f),
                  Tab(o.frame[f].pid), path[1], path[1..], n, o3, Repend(pend, o.frame[f], o.slot[slot], slot, f))
    ensures var v := o.frame[path[0]];
            && v.pid < PROCESSES && v.vp < PAGES && Resident(n, v.pid)
            && Done(s, o, pend, o.slot[slot], path[0], path, Advance(Corrected(n, v.pid, v.vp, slot)), o3,
                    PendAfter(pend, o.slot[slot], path[0]))
  {
    var f, v, x := path[0], o.frame[path[0]], o.slot[slot];
    var pend1, pend' := Repend(pend, v, x, slot, f), PendAfter(pend, x, f);
    NestedOwned(s, o, pend, slot, pid, path, e1);
    PendingResolved(s, o, pend, slot, f);
    assert Resident(n, v.pid) by { assert Where(n, pend1, o3.frame[path[1]]) == InFrame(path[1]); }
    var c := Corrected(n, v.pid, v.vp, slot);
    CorrectionDone(n, o3, pend1, v.pid, v.vp, slot);
    OwnedIgnoresNext(c, o3, pend', Advance(c).next);
    assert SameView(s, pend, Advance(c), pend') by {
      SameViewTrans(s, pend, e1, pend1, n, pend1);
      SameViewTrans(s, pend, n, pend1, c, pend');
      SameViewTrans(s, pend, c, pend', Advance(c), pend');
    }
    forall g | 0 <= g < FRAMES && g !in path
      ensures o3.frame[g] == o.frame[g]
    {
      assert g !in path[1..] && g != f;
    }
    assert f !in path[1..];
  }
}
