/**
 Table faults always succeed; data faults succeed unless the cascade runs into itself.
 */
module PagingFaults {
  import opened Basics
  import opened PagingModel
  import opened PagingOwnership
  import opened PagingCascade

  /** The occupied slots come first. */
  ghost predicate IsPrefix(flags: seq<bool>) {
    forall t, u | 0 <= t < u < |flags| && flags[u] :: flags[t]
  }

  /** The invariant between instructions. */
  ghost predicate Inv(s: State, o: Owners) {
    && Owned(s, o, map[])
    && IsPrefix(s.used)
    && (forall f, t | 0 <= f < FRAMES && 0 <= t < SLOTS && !s.full[f] :: !s.used[t])
    && (forall f | 0 <= f < FRAMES && !s.full[f] :: s.frames[f] == ZeroPage)
  }

  ghost predicate Valid(s: State) { exists o :: Inv(s, o) }

  // ----- Table faults -----

  /** A cascade settles on any path longer than the number of tables it can still have to fetch. */
  lemma {:induction false} FewAwaySettles(o: Owners, path: seq<nat>, away: set<nat>)
    requires Proper(o) && forall k | 0 <= k < |path| :: path[k] < FRAMES
    requires |away| < |path|
    ensures Settles(o, path, away)
  {
    var v := o.frame[path[0]];
    if v.Pg? && v.pid in away {
      FewAwaySettles(o, path[1..], away - {v.pid});
    }
  }

  lemma AwayAtMostThree(s: State, pid: nat)
    requires Shape(s) && pid < PROCESSES
    ensures |AwayTables(s, Tab(pid))| <= 3
  {
    var others: set<nat> := {0, 1, 2, 3} - {pid};
    assert |others| == 3;
    assert AwayTables(s, Tab(pid)) <= others;
    SubsetSize(AwayTables(s, Tab(pid)), others);
  }

  function FullCircle(p: nat): (path: seq<nat>)
    requires p < FRAMES
    ensures GoodPath(path, p) && |path| == 4 && Straight(path, p)
  {
    [p, (p + 1) % 4, (p + 2) % 4, (p + 3) % 4]
  }

  lemma FullCircleLinked(p: nat)
    requires p < FRAMES
    ensures Linked(FullCircle(p), p, p)
  {
    var path := FullCircle(p);
    assert path[1..][1..][1..] == [(p + 3) % 4];
    assert Linked(path[1..][1..][1..], p, p);
    assert Linked(path[1..][1..], p, p);
    assert Linked(path[1..], p, p);
  }

  /** Fetching the issuer's own table is a cascade that settles, all four frames being on its path. */
  lemma TableFaultReady(s: State, o: Owners, pid: nat)
    requires Owned(s, o, map[]) && AllFull(o) && pid < PROCESSES && s.table[pid] < 0
    ensures 0 <= IndexToSwap(s.table[pid]) < SLOTS && o.slot[IndexToSwap(s.table[pid])] == Tab(pid)
    ensures CascadeReady(s, o, map[], IndexToSwap(s.table[pid]), pid, FullCircle(s.next))
  {
    FullCircleLinked(s.next);
    assert Where(s, map[], Tab(pid)) == InSlot(IndexToSwap(s.table[pid]));
    AwayAtMostThree(s, pid);
    FewAwaySettles(o, FullCircle(s.next), AwayTables(s, Tab(pid)));
  }

  /** Fetching the issuer's own table never fails, whatever the cascade, and puts it in the
      frame nextSwap named on entry. */
  lemma TableFault(s: State, o: Owners, pid: nat) returns (o': Owners)
    requires Owned(s, o, map[]) && AllFull(o) && pid < PROCESSES && s.table[pid] < 0
    ensures SwapPage(s, IndexToSwap(s.table[pid]), s.next, pid).Ok?
    ensures var s' := SwapPage(s, IndexToSwap(s.table[pid]), s.next, pid).state;
            && Owned(s', o', map[]) && SameView(s, map[], s', map[])
            && s'.table[pid] == s.next
            && s'.used == s.used && s'.full == s.full
  {
    var slot, p := IndexToSwap(s.table[pid]), s.next;
    TableFaultReady(s, o, pid);
    o' := CascadeSettles(s, o, map[], slot, pid, FullCircle(p));
    var s' := SwapPage(s, slot, p, pid).state;
    assert Where(s', map[], o'.frame[p]) == InFrame(p);
  }

  // ----- Data faults -----

  /** The frames a data fault's cascade visits, the pointer being at p and the issuer's table in frame T. */
  function DataPath(p: nat, T: nat): (path: seq<nat>)
    requires p < FRAMES && T < FRAMES && T != p
    ensures GoodPath(path, p) && T !in path && 2 <= |path| <= 3
  {
    var q, r, u := (p + 1) % 4, (p + 2) % 4, (p + 3) % 4;
    if T == q then [p, r, u] else if T == r then [p, q] else [p, q, r]
  }

  lemma DataPathLinked(p: nat, T: nat)
    requires p < FRAMES && T < FRAMES && T != p
    ensures Linked(DataPath(p, T), T, p)
  {
    var path := DataPath(p, T);
    var n := Landing(T, (p + 1) % 4, p).1;
    if |path| == 3 {
      assert path[1..][1..] == [path[2]];
      assert Linked(path[1..][1..], T, n);
    }
    assert Linked(path[1..], T, n);
  }

  /** Process i's table is in swap while one of its pages is in frame g. */
  predicate Strands(s: State, i: nat, g: nat)
    requires Shape(s) && i < PROCESSES
  {
    s.table[i] < 0 && FirstClaim(TablePage(s, i), g, 0) < PAGES
  }

  /** The frames of the path belong to different stranding processes. */
  predicate Blocked(s: State, path: seq<nat>)
    requires Shape(s) && 2 <= |path| <= 3
  {
    exists i, k | 0 <= i < PROCESSES && 0 <= k < PROCESSES && i != k ::
      && Strands(s, i, path[0]) && Strands(s, k, path[1])
      && (|path| == 3 ==> exists l | 0 <= l < PROCESSES && l != i && l != k :: Strands(s, l, path[2]))
  }

  /** Whether the cascade of a data fault would come round to a frame it has just filled. */
  predicate Collides(s: State, pid: nat)
    requires Shape(s) && pid < PROCESSES && Resident(s, pid) && s.next != s.table[pid]
  {
    Blocked(s, DataPath(s.next, s.table[pid]))
  }

  lemma StrandsIsOwnership(s: State, o: Owners, pend: Pending, i: nat, g: nat)
    requires Owned(s, o, pend) && i < PROCESSES && g < FRAMES && o.frame[g] != Free && Quiet(s, pend, g)
    ensures Strands(s, i, g) <==> s.table[i] < 0 && o.frame[g].Pg? && o.frame[g].pid == i
  {
    var e := o.frame[g];
    assert Entity(e) && Where(s, pend, e) == InFrame(g);
    if s.table[i] < 0 {
      var j := FirstClaim(TablePage(s, i), g, 0);
      if j < PAGES {
        assert (i, j) !in pend && Where(s, pend, Pg(i, j)) == InFrame(g);
      }
      if e.Pg? && e.pid == i {
        assert (i, e.vp) !in pend;
        assert Claims(TablePage(s, i), e.vp, g);
      }
    }
  }

  ghost predicate PathOwned(s: State, o: Owners, path: seq<nat>, away: set<nat>)
    requires Shape(s) && Proper(o) && 2 <= |path| <= 3
  {
    forall m | 0 <= m < |path| ::
      && path[m] < FRAMES && (o.frame[path[m]].Pg? ==> o.frame[path[m]].pid < PROCESSES)
      && forall i | 0 <= i < PROCESSES :: Strands(s, i, path[m]) <==>
           o.frame[path[m]].Pg? && o.frame[path[m]].pid == i && i in away
  }

  /** Seen from the owners, a collision is exactly a cascade that never settles. */
  lemma BlockedIffUnsettled(s: State, o: Owners, path: seq<nat>, away: set<nat>)
    requires Shape(s) && Proper(o) && 2 <= |path| <= 3 && PathOwned(s, o, path, away)
    ensures Blocked(s, path) <==> !Settles(o, path, away)
  {
    UnfoldSettles(o, path, away);
    if !Settles(o, path, away) {
      var i, k := o.frame[path[0]].pid, o.frame[path[1]].pid;
      assert Strands(s, i, path[0]) && Strands(s, k, path[1]);
      if |path| == 3 {
        assert Strands(s, o.frame[path[2]].pid, path[2]);
      }
    }
  }

  lemma CollidesIffUnsettled(s: State, o: Owners, pend: Pending, pid: nat, x: Owner)
    requires Owned(s, o, pend) && AllFull(o) && pid < PROCESSES && Resident(s, pid) && s.next != s.table[pid] && x.Pg?
    requires forall g | g in DataPath(s.next, s.table[pid]) :: Quiet(s, pend, g)
    ensures Collides(s, pid) <==> !Settles(o, DataPath(s.next, s.table[pid]), AwayTables(s, x))
  {
    var path, away := DataPath(s.next, s.table[pid]), AwayTables(s, x);
    forall m | 0 <= m < |path|
      ensures o.frame[path[m]].Pg? ==> o.frame[path[m]].pid < PROCESSES
      ensures forall i | 0 <= i < PROCESSES :: Strands(s, i, path[m]) <==>
        o.frame[path[m]].Pg? && o.frame[path[m]].pid == i && i in away
    {
      assert Entity(o.frame[path[m]]);
      forall i | 0 <= i < PROCESSES
        ensures Strands(s, i, path[m]) <==> o.frame[path[m]].Pg? && o.frame[path[m]].pid == i && i in away
      {
        StrandsIsOwnership(s, o, pend, i, path[m]);
      }
    }
    BlockedIffUnsettled(s, o, path, away);
  }

  lemma UnfoldSettles(o: Owners, path: seq<nat>, away: set<nat>)
    requires Proper(o) && (forall k | 0 <= k < |path| :: path[k] < FRAMES) && 2 <= |path| <= 3
    ensures var v, w := o.frame[path[0]], o.frame[path[1]];
            !Settles(o, path, away) <==>
            && v.Pg? && v.pid in away && w.Pg? && w.pid in away && w.pid != v.pid
            && (|path| == 3 ==> var u := o.frame[path[2]]; u.Pg? && u.pid in away && u.pid != v.pid && u.pid != w.pid)
  {
    assert |path| == 3 ==> path[1..][1..] == [path[2]];
    assert |path| == 2 ==> path[1..][1..] == [];
    var v, w := o.frame[path[0]], o.frame[path[1]];
    if v.Pg? && v.pid in away {
      assert Settles(o, path, away) == Settles(o, path[1..], away - {v.pid});
      if w.Pg? && w.pid in away - {v.pid} {
        assert Settles(o, path[1..], away - {v.pid}) == Settles(o, path[1..][1..], away - {v.pid} - {w.pid});
      }
    }
  }

  lemma DataFaultReady(s: State, o: Owners, slot: nat, pid: nat, vp: nat)
    requires pid < PROCESSES && vp < PAGES && slot < SLOTS
    requires Owned(s, o, map[(pid, vp) := InSlot(slot)]) && AllFull(o)
    requires o.slot[slot] == Pg(pid, vp) && Resident(s, pid) && s.next != s.table[pid]
    requires !(Alloc(TablePage(s, pid)[2 * vp]) && InCore(TablePage(s, pid)[2 * vp]))
    requires !Collides(s, pid)
    ensures CascadeReady(s, o, map[(pid, vp) := InSlot(slot)], slot, pid, DataPath(s.next, s.table[pid]))
  {
    var pend: Pending := map[(pid, vp) := InSlot(slot)];
    var p, T := s.next, s.table[pid];
    var path := DataPath(p, T);
    assert forall g | 0 <= g < FRAMES :: Quiet(s, pend, g);
    CollidesIffUnsettled(s, o, pend, pid, Pg(pid, vp));
    DataPathLinked(p, T);
    assert OnRoute(s, pend, path, T);
    assert Ready(s, o, pend, slot, p, pid);
  }

  /** A table in a frame off the path stays where it is. */
  lemma TableStays(s: State, o: Owners, pend: Pending, x: Owner, f: nat, path: seq<nat>, s': State, o': Owners,
                   pend': Pending, pid: nat)
    requires Owned(s, o, pend) && Done(s, o, pend, x, f, path, s', o', pend')
    requires pid < PROCESSES && Resident(s, pid) && s.table[pid] !in path
    ensures s'.table[pid] == s.table[pid]
  {
    assert Where(s, pend, Tab(pid)) == InFrame(s.table[pid]);
    assert Where(s', pend', o'.frame[s.table[pid]]) == InFrame(s.table[pid]);
  }

  /** What a data fault should achieve: the page (pid, vp) is in frame p, the issuer's table has not
      moved, and nobody's view has changed. Only the page's own entry remains to be written. */
  ghost predicate FaultedIn(s: State, slot: nat, pid: nat, vp: nat, p: nat, s': State, o': Owners)
    requires Shape(s) && pid < PROCESSES && vp < PAGES
  {
    && Owned(s', o', map[(pid, vp) := InFrame(p)])
    && SameView(s, map[(pid, vp) := InSlot(slot)], s', map[(pid, vp) := InFrame(p)])
    && s'.table[pid] == s.table[pid]
    && s'.used == s.used && s'.full == s.full
    && Alloc(TablePage(s', pid)[2 * vp]) == Alloc(TablePage(s, pid)[2 * vp])
  }

  lemma DoneFaultsIn(s: State, o: Owners, slot: nat, pid: nat, vp: nat, path: seq<nat>, s': State, o': Owners)
    requires pid < PROCESSES && vp < PAGES && slot < SLOTS
    requires Owned(s, o, map[(pid, vp) := InSlot(slot)]) && Resident(s, pid) && s.table[pid] !in path
    requires Done(s, o, map[(pid, vp) := InSlot(slot)], Pg(pid, vp), s.next, path, s', o',
                  PendAfter(map[(pid, vp) := InSlot(slot)], Pg(pid, vp), s.next))
    ensures FaultedIn(s, slot, pid, vp, s.next, s', o')
  {
    var pend: Pending := map[(pid, vp) := InSlot(slot)];
    assert PendAfter(pend, Pg(pid, vp), s.next) == map[(pid, vp) := InFrame(s.next)];
    TableStays(s, o, pend, Pg(pid, vp), s.next, path, s', o', map[(pid, vp) := InFrame(s.next)], pid);
  }

  lemma ClearDataFault(s: State, o: Owners, slot: nat, pid: nat, vp: nat) returns (o': Owners)
    requires pid < PROCESSES && vp < PAGES && slot < SLOTS
    requires Owned(s, o, map[(pid, vp) := InSlot(slot)]) && AllFull(o)
    requires o.slot[slot] == Pg(pid, vp) && Resident(s, pid) && s.next != s.table[pid]
    requires !(Alloc(TablePage(s, pid)[2 * vp]) && InCore(TablePage(s, pid)[2 * vp]))
    requires !Collides(s, pid)
    ensures SwapPage(s, slot, s.next, pid).Ok?
    ensures FaultedIn(s, slot, pid, vp, s.next, SwapPage(s, slot, s.next, pid).state, o')
  {
    var path := DataPath(s.next, s.table[pid]);
    DataFaultReady(s, o, slot, pid, vp);
    o' := CascadeSettles(s, o, map[(pid, vp) := InSlot(slot)], slot, pid, path);
    DoneFaultsIn(s, o, slot, pid, vp, path, SwapPage(s, slot, s.next, pid).state, o');
  }
}
