/**
 Process groups and sessions: setpgid and setsid, with the births and deaths that happen
 around them. Whatever the interleaving, a process group lies inside one session.
 */
module KernelSessions {
  import opened Basics

  /** A thread group, named by the pid of its leader. */
  datatype Process = Process(parent: nat, pgrp: nat, session: nat, leader: bool, forkNoExec: bool)

  /** threads maps the id of every further thread to its process. */
  datatype Table = Table(processes: map<nat, Process>, threads: map<nat, nat>)

  const EPERM := -1
  const ESRCH := -3
  const EACCES := -13
  const EINVAL := -22

  ghost predicate GroupExists(t: Table, g: nat) { exists p :: p in t.processes && t.processes[p].pgrp == g }

  // ----- The calls -----

  /** The pid setpgid acts on: that of the caller's process when 0 is passed. */
  function Subject(me: nat, pid: int): int { if pid == 0 then me else pid }

  function Group(me: nat, pid: int, pgid: int): int { if pgid == 0 then Subject(me, pid) else pgid }

  /** What setpgid returns, hook being the answer of the security module and session that of any member of the group
      asked for. */
  function SetpgidResult(t: Table, me: nat, pid: int, pgid: int, session: Option<nat>, hook: int): int
    requires me in t.processes
  {
    var p, g := Subject(me, pid), Group(me, pid, pgid);
    if g < 0 then EINVAL
    else if p in t.threads && p !in t.processes then EINVAL
    else if p !in t.processes then ESRCH
    else if t.processes[p].parent == me && t.processes[p].session != t.processes[me].session then EPERM
    else if t.processes[p].parent == me && !t.processes[p].forkNoExec then EACCES
    else if t.processes[p].parent != me && p != me then ESRCH
    else if t.processes[p].leader then EPERM
    else if g != p && session != Some(t.processes[me].session) then EPERM
    else hook
  }

  /** The member of a group that pid_task happens to find. */
  ghost predicate FoundMember(t: Table, g: int, session: Option<nat>) {
    match session
    case Absent => forall p | p in t.processes :: t.processes[p].pgrp != g
    case Some(s) => exists p :: p in t.processes && t.processes[p].pgrp == g && t.processes[p].session == s
  }

  function Regrouped(t: Table, p: nat, g: nat): Table
    requires p in t.processes
  {
    t.(processes := t.processes[p := t.processes[p].(pgrp := g)])
  }

  /** setsid: the process becomes the leader of a session and a group of its own. */
  function NewSession(t: Table, p: nat): Table
    requires p in t.processes
  {
    t.(processes := t.processes[p := t.processes[p].(leader := true, session := p, pgrp := p)])
  }

  // ----- Steps -----

  datatype Step =
    | Setpgid(me: nat, pid: int, pgid: int, found: Option<nat>, hook: int)
    | Setsid(me: nat)
    | Fork(me: nat, child: nat, parent: nat)
    | Clone(me: nat, tid: nat)
    | Exec(me: nat)
    | ThreadExit(tid: nat)
    | Exit(me: nat, reaper: nat)

  /** A number is not given out while it names a process, a thread, a group or a session. */
  ghost predicate Unused(t: Table, n: nat) {
    && n !in t.processes && n !in t.threads
    && forall p | p in t.processes :: t.processes[p].pgrp != n && t.processes[p].session != n
  }

  ghost predicate Enabled(t: Table, step: Step) {
    match step
    case Setpgid(me, pid, pgid, found, _) => me in t.processes && FoundMember(t, Group(me, pid, pgid), found)
    case Fork(me, child, parent) => me in t.processes && Unused(t, child) &&
      (parent == me || parent == t.processes[me].parent)
    case Clone(me, tid) => me in t.processes && Unused(t, tid)
    case ThreadExit(tid) => tid in t.threads
    case Exit(me, reaper) => me in t.processes && reaper != me
    case Setsid(me) => me in t.processes
    case Exec(me) => me in t.processes
  }

  ghost function Next(t: Table, step: Step): (r: Table)
    requires Enabled(t, step)
  {
    match step
    case Setpgid(me, pid, pgid, found, hook) =>
      if SetpgidResult(t, me, pid, pgid, found, hook) != 0 then t
      else Regrouped(t, Subject(me, pid), Group(me, pid, pgid))
    case Setsid(me) => if t.processes[me].leader || GroupExists(t, me) then t else NewSession(t, me)
    case Fork(me, child, parent) =>
      t.(processes := t.processes[child := t.processes[me].(parent := parent, leader := false, forkNoExec := true)])
    case Clone(me, tid) => t.(threads := t.threads[tid := me])
    case Exec(me) => t.(processes := t.processes[me := t.processes[me].(forkNoExec := false)])
    case ThreadExit(tid) => t.(threads := t.threads - {tid})
    case Exit(me, reaper) => t.(processes := Orphaned(t.processes - {me}, me, reaper))
  }

  /** The children of a process that is gone have a new parent. */
  function Orphaned(m: map<nat, Process>, gone: nat, reaper: nat): map<nat, Process> {
    map p | p in m :: if m[p].parent == gone then m[p].(parent := reaper) else m[p]
  }

  // ----- The invariant -----

  /** Two processes of one group are in one session. */
  ghost predicate OneSession(t: Table) {
    forall p, q | p in t.processes && q in t.processes && t.processes[p].pgrp == t.processes[q].pgrp ::
      t.processes[p].session == t.processes[q].session
  }

  /** A live process is in the session of the group that bears its pid. */
  ghost predicate NamesakeInSession(t: Table) {
    forall p, q | p in t.processes && q in t.processes && t.processes[q].pgrp == p ::
      t.processes[q].session == t.processes[p].session
  }

  /** A session leader leads its own session and group; a session that bears the pid of a live process is led by it. */
  ghost predicate LeadersLead(t: Table) {
    && (forall p | p in t.processes && t.processes[p].leader :: t.processes[p].session == p && t.processes[p].pgrp == p)
    && (forall p, q | p in t.processes && q in t.processes && t.processes[q].session == p :: t.processes[p].leader)
  }

  ghost predicate Inv(t: Table) { OneSession(t) && NamesakeInSession(t) && LeadersLead(t) }

  lemma RegroupKeeps(t: Table, p: nat, g: nat)
    requires Inv(t) && p in t.processes && !t.processes[p].leader
    requires g == p || exists m ::
      m in t.processes && t.processes[m].pgrp == g && t.processes[m].session == t.processes[p].session
    ensures Inv(Regrouped(t, p, g))
  {
  }

  lemma SetpgidKeeps(t: Table, step: Step)
    requires Inv(t) && Enabled(t, step) && step.Setpgid?
    ensures Inv(Next(t, step))
  {
    if SetpgidResult(t, step.me, step.pid, step.pgid, step.found, step.hook) == 0 {
      RegroupKeeps(t, Subject(step.me, step.pid), Group(step.me, step.pid, step.pgid));
    }
  }

  lemma SetsidKeeps(t: Table, p: nat)
    requires Inv(t) && p in t.processes && !t.processes[p].leader && !GroupExists(t, p)
    ensures Inv(NewSession(t, p))
  {
    assert forall q | q in t.processes :: t.processes[q].pgrp != p;
  }

  lemma ForkKeeps(t: Table, step: Step)
    requires Inv(t) && Enabled(t, step) && step.Fork?
    ensures Inv(Next(t, step))
  {
  }

  lemma ExitKeeps(t: Table, step: Step)
    requires Inv(t) && Enabled(t, step) && step.Exit?
    ensures Inv(Next(t, step))
  {
  }

  lemma StepKeeps(t: Table, step: Step)
    requires Inv(t) && Enabled(t, step)
    ensures Inv(Next(t, step))
  {
    match step
    case Setpgid(_, _, _, _, _) => SetpgidKeeps(t, step);
    case Setsid(me) => if !t.processes[me].leader && !GroupExists(t, me) { SetsidKeeps(t, me); }
    case Fork(_, _, _) => ForkKeeps(t, step);
    case Exit(_, _) => ExitKeeps(t, step);
    case _ =>
  }

  // ----- Runs -----

  /** The machine starts with one process, in the group and session of the idle task. */
  ghost predicate Run(tables: seq<Table>, steps: seq<Step>) {
    && |tables| == |steps| + 1
    && tables[0] == Table(map[1 := Process(0, 0, 0, false, false)], map[])
    && forall i | 0 <= i < |steps| :: Enabled(tables[i], steps[i]) && tables[i + 1] == Next(tables[i], steps[i])
  }

  lemma {:induction false} RunKeeps(tables: seq<Table>, steps: seq<Step>, i: nat)
    requires Run(tables, steps) && i < |tables|
    ensures Inv(tables[i])
  {
    if i > 0 {
      RunKeeps(tables, steps, i - 1);
      StepKeeps(tables[i - 1], steps[i - 1]);
    }
  }

  /** In every reachable state every process group lies inside a single session. */
  lemma GroupsInsideSessions(tables: seq<Table>, steps: seq<Step>, i: nat, p: nat, q: nat)
    requires Run(tables, steps) && i < |tables| && p in tables[i].processes && q in tables[i].processes
    ensures tables[i].processes[p].pgrp == tables[i].processes[q].pgrp ==>
      tables[i].processes[p].session == tables[i].processes[q].session
  {
    RunKeeps(tables, steps, i);
  }

  /** So it does not matter which member of the group pid_task finds: setpgid has one answer. */
  lemma AnyMemberWillDo(tables: seq<Table>, steps: seq<Step>, i: nat, me: nat, pid: int, pgid: int, a: Option<nat>,
                        b: Option<nat>, hook: int)
    requires Run(tables, steps) && i < |tables| && me in tables[i].processes
    requires FoundMember(tables[i], Group(me, pid, pgid), a) && FoundMember(tables[i], Group(me, pid, pgid), b)
    ensures SetpgidResult(tables[i], me, pid, pgid, a, hook) == SetpgidResult(tables[i], me, pid, pgid, b, hook)
  {
    RunKeeps(tables, steps, i);
  }

  /** As long as it lives, a session leader stays the leader of the session and the group that bear its pid. */
  lemma LeaderForLife(tables: seq<Table>, steps: seq<Step>, i: nat, j: nat, p: nat)
    requires Run(tables, steps) && i <= j < |tables|
    requires (forall k | i <= k <= j :: p in tables[k].processes) && tables[i].processes[p].leader
    ensures tables[j].processes[p].leader && tables[j].processes[p].session == p && tables[j].processes[p].pgrp == p
  {
    RunKeeps(tables, steps, j);
    StaysLeader(tables, steps, i, j, p);
  }

  lemma {:induction false} StaysLeader(tables: seq<Table>, steps: seq<Step>, i: nat, j: nat, p: nat)
    requires Run(tables, steps) && i <= j < |tables|
    requires (forall k | i <= k <= j :: p in tables[k].processes) && tables[i].processes[p].leader
    ensures tables[j].processes[p].leader
  {
    if i < j {
      var h: nat := j - 1;
      StaysLeader(tables, steps, i, h, p);
      assert Enabled(tables[h], steps[h]) && tables[h + 1] == Next(tables[h], steps[h]);
      LeaderStays(tables[h], steps[h], p);
    }
  }

  lemma LeaderStays(t: Table, step: Step, p: nat)
    requires Enabled(t, step) && p in t.processes && t.processes[p].leader && p in Next(t, step).processes
    ensures Next(t, step).processes[p].leader
  {
  }

  /** A process that setsid made a leader is alone in its group and session at that moment. */
  lemma SetsidStartsAlone(tables: seq<Table>, steps: seq<Step>, i: nat, q: nat)
    requires Run(tables, steps) && i < |steps| && steps[i].Setsid? && tables[i + 1] != tables[i]
    requires q in tables[i + 1].processes && q != steps[i].me
    ensures tables[i + 1].processes[q].pgrp != steps[i].me && tables[i + 1].processes[q].session != steps[i].me
  {
    RunKeeps(tables, steps, i);
    RunKeeps(tables, steps, i + 1);
  }

  // ----- What the calls do, told from the fields -----

  /** What POSIX asks of setpgid: the process named is the caller or a child of its session that has not called exec, it
      leads no session, and the group is its own or one of the caller's session. */
  ghost predicate MayMove(t: Table, me: nat, p: int, g: int)
    requires me in t.processes
  {
    && g >= 0 && p in t.processes && !t.processes[p].leader
    && (if t.processes[p].parent == me
        then t.processes[p].session == t.processes[me].session && t.processes[p].forkNoExec
        else p == me)
    && (g == p || exists m ::
         m in t.processes && t.processes[m].pgrp == g && t.processes[m].session == t.processes[me].session)
  }

  /** Then the security module decides. Otherwise a negative group or a thread is invalid, a process that is neither the
      caller nor its child is not found, a child of the session that has called exec is out of reach, and anything else
      is not permitted. */
  lemma SetpgidAnswers(tables: seq<Table>, steps: seq<Step>, i: nat, me: nat, pid: int, pgid: int,
                       found: Option<nat>, hook: int)
    requires Run(tables, steps) && i < |tables| && Enabled(tables[i], Step.Setpgid(me, pid, pgid, found, hook))
    ensures var t, p := tables[i], if pid == 0 then me else pid;
      var g, r := if pgid == 0 then p else pgid, SetpgidResult(t, me, pid, pgid, found, hook);
      if MayMove(t, me, p, g) then r == hook else
        && (r == -22 <==> g < 0 || (p in t.threads && p !in t.processes))
        && (r == -3 <==> g >= 0 && if p in t.processes then p != me && t.processes[p].parent != me else p !in t.threads)
        && (r == -13 <==>
             && g >= 0 && p in t.processes && t.processes[p].parent == me && !t.processes[p].forkNoExec
             && t.processes[p].session == t.processes[me].session)
        && r in {-1, -3, -13, -22}
  {
    RunKeeps(tables, steps, i);
  }

  /** A setpgid that may, and that the security module answers with 0, moves that one process and changes nothing else
      about it; any other setpgid changes nothing. */
  lemma SetpgidMoves(tables: seq<Table>, steps: seq<Step>, i: nat)
    requires Run(tables, steps) && i < |steps| && steps[i].Setpgid?
    ensures var t, me := tables[i], steps[i].me;
      var p := if steps[i].pid == 0 then me else steps[i].pid;
      var g := if steps[i].pgid == 0 then p else steps[i].pgid;
      tables[i + 1] == if !MayMove(t, me, p, g) || steps[i].hook != 0 then t else
        var was := t.processes[p];
        Table(t.processes[p := Process(was.parent, g, was.session, false, was.forkNoExec)], t.threads)
  {
    var step := steps[i];
    assert Enabled(tables[i], step) && tables[i + 1] == Next(tables[i], step);
    SetpgidAnswers(tables, steps, i, step.me, step.pid, step.pgid, step.found, step.hook);
  }

  /** A process that leads no session, when no process is in a group that bears its pid, becomes by setsid the leader of
      the session and the group of that pid, and everything else stays; any other setsid changes nothing. */
  lemma SetsidMakesALeader(tables: seq<Table>, steps: seq<Step>, i: nat, me: nat)
    requires Run(tables, steps) && i < |steps| && steps[i] == Step.Setsid(me)
    ensures var t := tables[i];
      var was := t.processes[me];
      tables[i + 1] == if was.leader || exists q :: q in t.processes && t.processes[q].pgrp == me then t else
        Table(t.processes[me := Process(was.parent, me, me, true, was.forkNoExec)], t.threads)
  {
    assert Enabled(tables[i], steps[i]) && tables[i + 1] == Next(tables[i], steps[i]);
  }

  /** By step j: p called setsid when it did not lead and no process was in a group that bears its pid. */
  ghost predicate FoundedAt(tables: seq<Table>, steps: seq<Step>, j: nat, p: nat)
    requires Run(tables, steps)
  {
    && j < |steps| && steps[j] == Step.Setsid(p) && Enabled(tables[j], steps[j]) && !tables[j].processes[p].leader
    && forall q | q in tables[j].processes :: tables[j].processes[q].pgrp != p
  }

  ghost predicate Alive(tables: seq<Table>, from: nat, to: nat, p: nat) {
    to < |tables| && forall k | from <= k <= to :: p in tables[k].processes
  }

  /** A process leads a session exactly when it has called setsid with success during its life. */
  lemma {:induction false} LeadsIffFounded(tables: seq<Table>, steps: seq<Step>, i: nat, p: nat)
    requires Run(tables, steps) && i < |tables| && p in tables[i].processes
    ensures tables[i].processes[p].leader <==>
      exists j: nat :: j < i && FoundedAt(tables, steps, j, p) && Alive(tables, j, i, p)
  {
    if i > 0 {
      var h := i - 1;
      var t, step := tables[h], steps[h];
      assert Enabled(t, step) && tables[h + 1] == Next(t, step);
      if p in t.processes {
        LeadsIffFounded(tables, steps, h, p);
        if t.processes[p].leader {
          var j: nat :| j < h && FoundedAt(tables, steps, j, p) && Alive(tables, j, h, p);
          assert Alive(tables, j, i, p);
          LeaderStays(t, step, p);
        } else if FoundedAt(tables, steps, h, p) {
          assert Alive(tables, h, i, p);
        } else {
          assert !tables[i].processes[p].leader;
        }
      }
      forall j: nat | j < i && FoundedAt(tables, steps, j, p) && Alive(tables, j, i, p)
        ensures tables[i].processes[p].leader
      {
        assert p in tables[h].processes;
        if j < h {
          assert Alive(tables, j, h, p);
        }
      }
    }
  }

  /** A setpgid that names p, or a setsid by p. */
  predicate MayRegroup(step: Step, p: nat) {
    step == Step.Setsid(p) || (step.Setpgid? && (step.pid == p || (step.pid == 0 && step.me == p)))
  }

  /** What a process born by step b, of a creator as given, still has of its birth at moment i. */
  ghost predicate AsBorn(creator: Process, process: Process, steps: seq<Step>, b: nat, i: nat, p: nat, parent: nat)
    requires i <= |steps|
  {
    && process.session == (if process.leader then p else creator.session)
    && ((forall k: nat | b < k < i :: !MayRegroup(steps[k], p)) ==> process.pgrp == creator.pgrp)
    && (process.forkNoExec <==> forall k: nat | b < k < i :: steps[k] != Exec(p))
    && ((forall k: nat | b < k < i :: !steps[k].Exit? || steps[k].me != parent) ==> process.parent == parent)
  }

  lemma StillAsBorn(t: Table, creator: Process, steps: seq<Step>, b: nat, h: nat, p: nat, parent: nat)
    requires b < h < |steps| && Enabled(t, steps[h]) && p in t.processes && p in Next(t, steps[h]).processes
    requires AsBorn(creator, t.processes[p], steps, b, h, p, parent)
    ensures AsBorn(creator, Next(t, steps[h]).processes[p], steps, b, h + 1, p, parent)
  {
  }

  /** A process born of me by step b stays in the session me was in, unless it leads its own, and in the group me was in
      until a call names it; it counts as one that has not called exec exactly as long as it has not; and it has the
      parent it was given until that one exits. */
  lemma {:induction false} SinceBirth(tables: seq<Table>, steps: seq<Step>, b: nat, i: nat, me: nat, p: nat,
                                      parent: nat)
    requires Run(tables, steps) && b < i < |tables| && steps[b] == Fork(me, p, parent) && Alive(tables, b + 1, i, p)
    ensures me in tables[b].processes
    ensures AsBorn(tables[b].processes[me], tables[i].processes[p], steps, b, i, p, parent)
  {
    var h: nat := i - 1;
    assert Enabled(tables[h], steps[h]) && tables[h + 1] == Next(tables[h], steps[h]);
    if b < h {
      assert Alive(tables, b + 1, h, p);
      SinceBirth(tables, steps, b, h, me, p, parent);
      StillAsBorn(tables[h], tables[b].processes[me], steps, b, h, p, parent);
    }
  }

  /** When a process exits its children pass to the reaper, and nothing else about anybody changes. */
  lemma ExitOrphans(tables: seq<Table>, steps: seq<Step>, i: nat, me: nat, reaper: nat)
    requires Run(tables, steps) && i < |steps| && steps[i] == Exit(me, reaper)
    ensures tables[i + 1].threads == tables[i].threads
    ensures tables[i + 1].processes.Keys == tables[i].processes.Keys - {me}
    ensures forall q | q in tables[i + 1].processes ::
      var was := tables[i].processes[q];
      tables[i + 1].processes[q] == Process(if was.parent == me then reaper else was.parent, was.pgrp, was.session,
                                            was.leader, was.forkNoExec)
  {
    assert Enabled(tables[i], steps[i]) && tables[i + 1] == Next(tables[i], steps[i]);
  }

  /** Step j gave a number to a new process or thread, and up to moment i no step took it back. */
  ghost predicate BornAt(steps: seq<Step>, j: nat, i: nat, p: nat) {
    && j < i <= |steps| && steps[j].Fork? && steps[j].child == p
    && forall k: nat | j < k < i :: !steps[k].Exit? || steps[k].me != p
  }

  ghost predicate StartedAt(steps: seq<Step>, j: nat, i: nat, tid: nat) {
    && j < i <= |steps| && steps[j].Clone? && steps[j].tid == tid
    && forall k: nat | j < k < i :: steps[k] != ThreadExit(tid)
  }

  /** Alive are the first process until it exits and everyone who was born and has not exited. */
  lemma {:induction false} LivesIffBorn(tables: seq<Table>, steps: seq<Step>, i: nat, p: nat)
    requires Run(tables, steps) && i < |tables|
    ensures p in tables[i].processes <==>
      || (p == 1 && forall k: nat | k < i :: !steps[k].Exit? || steps[k].me != 1)
      || exists j: nat :: BornAt(steps, j, i, p)
  {
    if i > 0 {
      var h: nat := i - 1;
      assert Enabled(tables[h], steps[h]) && tables[h + 1] == Next(tables[h], steps[h]);
      LivesIffBorn(tables, steps, h, p);
      if j: nat :| BornAt(steps, j, i, p) {
        assert j < h ==> BornAt(steps, j, h, p);
      }
      if steps[h].Fork? && steps[h].child == p {
        assert BornAt(steps, h, i, p);
      } else if j: nat :| BornAt(steps, j, h, p) {
        assert !(steps[h].Exit? && steps[h].me == p) ==> BornAt(steps, j, i, p);
      }
    }
  }

  /** And the further threads are those started and not ended. */
  lemma {:induction false} RunsIffStarted(tables: seq<Table>, steps: seq<Step>, i: nat, tid: nat)
    requires Run(tables, steps) && i < |tables|
    ensures tid in tables[i].threads <==> exists j: nat :: StartedAt(steps, j, i, tid)
  {
    if i > 0 {
      var h: nat := i - 1;
      assert Enabled(tables[h], steps[h]) && tables[h + 1] == Next(tables[h], steps[h]);
      RunsIffStarted(tables, steps, h, tid);
      if j: nat :| StartedAt(steps, j, i, tid) {
        assert j < h ==> StartedAt(steps, j, h, tid);
      }
      if steps[h].Clone? && steps[h].tid == tid {
        assert StartedAt(steps, h, i, tid);
      } else if j: nat :| StartedAt(steps, j, h, tid) {
        assert steps[h] != ThreadExit(tid) ==> StartedAt(steps, j, i, tid);
      }
    }
  }

  // ----- The table updated in place -----

  class TaskTable {
    var processes: map<nat, Process>
    var threads: map<nat, nat>

    ghost function View(): Table
      reads this
    {
      Table(processes, threads)
    }

    constructor ()
      ensures View() == Table(map[1 := Process(0, 0, 0, false, false)], map[])
    {
      processes, threads := map[1 := Process(0, 0, 0, false, false)], map[];
    }

    method Setpgid(me: nat, pid: int, pgid: int, hook: int) returns (err: int, ghost found: Option<nat>)
      requires me in processes
      modifies this`processes
      ensures FoundMember(old(View()), Group(me, pid, pgid), found)
      ensures err == SetpgidResult(old(View()), me, pid, pgid, found, hook)
      ensures View() == Next(old(View()), Step.Setpgid(me, pid, pgid, found, hook))
      ensures threads == old(threads)
      ensures var p := if pid == 0 then me else pid;
        processes == if err != 0 then old(processes)
          else old(processes)[p := old(processes)[p].(pgrp := if pgid == 0 then p else pgid)]
    {
      var p, g := pid, pgid;
      if p == 0 { p := me; }
      if g == 0 { g := p; }
      found := AnyMember(View(), g);
      if g < 0 { return EINVAL, found; }
      if p !in processes { return if p in threads then EINVAL else ESRCH, found; }
      if processes[p].parent == me {
        if processes[p].session != processes[me].session { return EPERM, found; }
        if !processes[p].forkNoExec { return EACCES, found; }
      } else if p != me {
        return ESRCH, found;
      }
      if processes[p].leader { return EPERM, found; }
      if g != p {
        if m :| m in processes && processes[m].pgrp == g {
          found := Some(processes[m].session);
          if processes[m].session != processes[me].session { return EPERM, found; }
        } else {
          return EPERM, found;
        }
      }
      if hook != 0 { return hook, found; }
      processes := processes[p := processes[p].(pgrp := g)];
      err := 0;
    }

    method Setsid(me: nat) returns (err: int)
      requires me in processes
      modifies this`processes
      ensures View() == Next(old(View()), Step.Setsid(me))
      ensures var was := old(processes);
        if was[me].leader || exists q :: q in was && was[q].pgrp == me then err == -1 && processes == was
        else err == me && processes == was[me := Process(was[me].parent, me, me, true, was[me].forkNoExec)]
    {
      if processes[me].leader { return EPERM; }
      if m :| m in processes && processes[m].pgrp == me { return EPERM; }
      processes := processes[me := processes[me].(leader := true)];
      if processes[me].session != me { processes := processes[me := processes[me].(session := me)]; }
      if processes[me].pgrp != me { processes := processes[me := processes[me].(pgrp := me)]; }
      err := me;
    }
  }

  ghost function AnyMember(t: Table, g: int): (found: Option<nat>)
    ensures FoundMember(t, g, found)
  {
    if exists p :: p in t.processes && t.processes[p].pgrp == g then
      var p :| p in t.processes && t.processes[p].pgrp == g; Some(t.processes[p].session)
    else Absent
  }
}
