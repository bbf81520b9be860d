/**
 setpriority and getpriority over the tasks a request selects. The error of one task is
 carried through the loop, so what comes out at the end depends on all of them.
 */
module KernelPriority {

  /** A task: what it can be selected by, its nice value, and how the checks on the way to changing it answer. */
  datatype Task = Task(pid: nat, pgrp: nat, uid: nat, visible: bool, nice: int, permitted: bool, canNice: bool,
    hook: int)

  /** Who calls, how ids are read in the caller's user namespace, and which users are known. */
  datatype Caller = Caller(pid: nat, pgrp: nat, uid: nat, ns: map<int, nat>, users: set<nat>)

  const PRIO_PROCESS := 0
  const PRIO_PGRP := 1
  const PRIO_USER := 2

  const EPERM := -1
  const ESRCH := -3
  const EACCES := -13
  const EINVAL := -22

  function Clamp(nice: int): (r: int)
    ensures -20 <= r <= 19 && (-20 <= nice <= 19 ==> r == nice)
    ensures (nice < -20 ==> r == -20) && (nice > 19 ==> r == 19)
  {
    if nice < -20 then -20 else if nice > 19 then 19 else nice
  }

  /** 0 when the task may be given the nice value, else the error set_one_prio reports for it. */
  function Refusal(t: Task, nice: int): int {
    if !t.permitted then EPERM else if nice < t.nice && !t.canNice then EACCES else t.hook
  }

  /** set_one_prio. */
  function Carry(t: Task, nice: int, error: int): int {
    var r := Refusal(t, nice);
    if r != 0 then r else if error == ESRCH then 0 else error
  }

  function Niced(t: Task, nice: int): Task { if Refusal(t, nice) == 0 then t.(nice := nice) else t }

  function Carried(tasks: seq<Task>, nice: int): int {
    if tasks == [] then ESRCH else Carry(tasks[|tasks| - 1], nice, Carried(tasks[..|tasks| - 1], nice))
  }

  // ----- Which tasks a request selects -----

  predicate Known(which: int) { PRIO_PROCESS <= which <= PRIO_USER }

  /** 0 stands for the caller's own process, group or user. A user nobody has heard of selects nothing. */
  predicate Selected(t: Task, which: int, who: int, c: Caller) {
    if which == PRIO_PROCESS then t.pid == if who == 0 then c.pid else who
    else if which == PRIO_PGRP then t.pgrp == if who == 0 then c.pgrp else who
    else if who == 0 then t.uid == c.uid && t.visible
    else who in c.ns && (c.ns[who] == c.uid || c.ns[who] in c.users) && t.uid == c.ns[who] && t.visible
  }

  function Chosen(tasks: seq<Task>, which: int, who: int, c: Caller): seq<Task> {
    if tasks == [] then []
    else
      var n := |tasks| - 1;
      Chosen(tasks[..n], which, who, c) + if Selected(tasks[n], which, who, c) then [tasks[n]] else []
  }

  lemma ChosenStep(tasks: seq<Task>, i: nat, which: int, who: int, c: Caller)
    requires i < |tasks|
    ensures var before := Chosen(tasks[..i], which, who, c);
      Chosen(tasks[..i + 1], which, who, c) == if Selected(tasks[i], which, who, c) then before + [tasks[i]] else before
  {
    assert tasks[..i + 1][..i] == tasks[..i];
  }

  lemma {:induction false} NoneChosen(tasks: seq<Task>, which: int, who: int, c: Caller)
    requires forall i | 0 <= i < |tasks| :: !Selected(tasks[i], which, who, c)
    ensures Chosen(tasks, which, who, c) == []
  {
    if tasks != [] {
      NoneChosen(tasks[..|tasks| - 1], which, who, c);
    }
  }

  predicate Distinct(tasks: seq<Task>) { forall i, j | 0 <= i < j < |tasks| :: tasks[i].pid != tasks[j].pid }

  /** A pid selects the one task that bears it. */
  lemma {:induction false} OneChosen(tasks: seq<Task>, k: nat, who: int, c: Caller)
    requires Distinct(tasks) && k < |tasks| && Selected(tasks[k], PRIO_PROCESS, who, c)
    ensures Chosen(tasks, PRIO_PROCESS, who, c) == [tasks[k]]
  {
    var n := |tasks| - 1;
    if k == n {
      NoneChosen(tasks[..n], PRIO_PROCESS, who, c);
    } else {
      OneChosen(tasks[..n], k, who, c);
    }
  }

  // ----- The calls -----

  /** find_task_by_vpid, or the caller itself. */
  method FindTask(tasks: array<Task>, who: int, c: Caller) returns (k: nat)
    requires Distinct(tasks[..])
    ensures k <= tasks.Length
    ensures Chosen(tasks[..], PRIO_PROCESS, who, c) == if k < tasks.Length then [tasks[k]] else []
    ensures k < tasks.Length ==> Selected(tasks[k], PRIO_PROCESS, who, c)
    ensures forall j | 0 <= j < tasks.Length && j != k :: !Selected(tasks[j], PRIO_PROCESS, who, c)
  {
    k := 0;
    while k < tasks.Length && !Selected(tasks[k], PRIO_PROCESS, who, c)
      invariant 0 <= k <= tasks.Length && forall j | 0 <= j < k :: !Selected(tasks[j], PRIO_PROCESS, who, c)
    {
      k := k + 1;
    }
    if k < tasks.Length {
      OneChosen(tasks[..], k, who, c);
      assert forall j | 0 <= j < tasks.Length && j != k :: tasks[..][j].pid != tasks[..][k].pid;
    } else {
      NoneChosen(tasks[..], PRIO_PROCESS, who, c);
    }
  }

  /** A task after setpriority. */
  function Renewed(t: Task, which: int, who: int, c: Caller, nice: int): Task {
    if Selected(t, which, who, c) then Niced(t, nice) else t
  }

  /** What setpriority does to a task, told from its fields: it gets the nice value, cut to -20..19, if the request
      names its pid or its group, or its user and it is to be seen; if its owner may; if that is no smaller than its
      nice value, or it may be given a smaller one; and if the security module answers 0. Nothing else about it
      changes. */
  predicate Told(was: Task, now: Task, which: int, who: int, c: Caller, niceval: int) {
    && now == was.(nice := now.nice)
    && var wanted := if niceval < -20 then -20 else if niceval > 19 then 19 else niceval;
       var named := match which
         case 0 => was.pid == (if who == 0 then c.pid else who)
         case 1 => was.pgrp == (if who == 0 then c.pgrp else who)
         case _ => was.visible && (if who == 0 then was.uid == c.uid else
           who in c.ns && was.uid == c.ns[who] && (c.ns[who] in c.users || c.ns[who] == c.uid));
       now.nice == if named && was.permitted && (wanted >= was.nice || was.canNice) && was.hook == 0 then wanted
         else was.nice
  }

  method Setpriority(which: int, who: int, c: Caller, tasks: array<Task>, niceval: int) returns (error: int)
    requires Distinct(tasks[..])
    modifies tasks
    ensures !Known(which) ==> error == EINVAL && tasks[..] == old(tasks[..])
    ensures Known(which) ==> error == Carried(Chosen(old(tasks[..]), which, who, c), Clamp(niceval))
    ensures Known(which) ==>
      forall i | 0 <= i < tasks.Length :: tasks[i] == Renewed(old(tasks[i]), which, who, c, Clamp(niceval))
    ensures Known(which) ==>
      forall i | 0 <= i < tasks.Length :: Told(old(tasks[i]), tasks[i], which, who, c, niceval)
  {
    if which > PRIO_USER || which < PRIO_PROCESS { return EINVAL; }
    error := ESRCH;
    var nice := niceval;
    if nice < -20 { nice := -20; }
    if nice > 19 { nice := 19; }
    if which == PRIO_PROCESS {
      var k := FindTask(tasks, who, c);
      if k < tasks.Length {
        error := SetOnePrio(tasks, k, nice, error);
      }
      assert k < tasks.Length ==> [old(tasks[k])][..0] == [];
    } else {
      error := SetAll(which, who, c, tasks, nice);
    }
  }

  /** The loops over the threads of a group or of a user. */
  method SetAll(which: int, who: int, c: Caller, tasks: array<Task>, nice: int) returns (error: int)
    modifies tasks
    ensures error == Carried(Chosen(old(tasks[..]), which, who, c), nice)
    ensures forall i | 0 <= i < tasks.Length :: tasks[i] == Renewed(old(tasks[i]), which, who, c, nice)
  {
    error := ESRCH;
    var i := 0;
    ghost var was := tasks[..];
    while i < tasks.Length
      invariant 0 <= i <= tasks.Length && error == Carried(Chosen(was[..i], which, who, c), nice)
      invariant forall j | 0 <= j < tasks.Length ::
        tasks[j] == if j < i then Renewed(was[j], which, who, c, nice) else was[j]
    {
      ChosenStep(was, i, which, who, c);
      if Selected(tasks[i], which, who, c) {
        ghost var before := Chosen(was[..i], which, who, c);
        assert (before + [was[i]])[..|before|] == before;
        error := SetOnePrio(tasks, i, nice, error);
      }
      i := i + 1;
    }
    assert was[..i] == was;
  }

  method SetOnePrio(tasks: array<Task>, i: nat, nice: int, error: int) returns (r: int)
    requires i < tasks.Length
    modifies tasks
    ensures r == Carry(old(tasks[i]), nice, error) && tasks[i] == Niced(old(tasks[i]), nice)
    ensures var was := old(tasks[i]);
      && (!was.permitted ==> r == -1)
      && (was.permitted && nice < was.nice && !was.canNice ==> r == -13)
      && (was.permitted && (nice >= was.nice || was.canNice) ==>
           r == if was.hook != 0 then was.hook else if error == -3 then 0 else error)
    ensures forall j | 0 <= j < tasks.Length && j != i :: tasks[j] == old(tasks[j])
  {
    var t := tasks[i];
    if !t.permitted { return EPERM; }
    if nice < t.nice && !t.canNice { return EACCES; }
    if t.hook != 0 { return t.hook; }
    tasks[i] := t.(nice := nice);
    r := if error == ESRCH then 0 else error;
  }

  function Shown(nice: int): int { 19 - nice + 1 }

  /** The largest of what the tasks show. */
  ghost predicate Shows(tasks: seq<Task>, r: int) {
    && (forall i | 0 <= i < |tasks| :: Shown(tasks[i].nice) <= r)
    && exists i :: 0 <= i < |tasks| && r == Shown(tasks[i].nice)
  }

  predicate NicesInRange(tasks: seq<Task>) { forall i | 0 <= i < |tasks| :: -20 <= tasks[i].nice <= 19 }

  lemma ShowsOneMore(tasks: seq<Task>, t: Task, r: int)
    requires if tasks == [] then r < Shown(t.nice) else Shows(tasks, r)
    ensures Shows(tasks + [t], if Shown(t.nice) > r then Shown(t.nice) else r)
  {
    var more := tasks + [t];
    assert more[|tasks|] == t;
    if Shown(t.nice) <= r {
      var i :| 0 <= i < |tasks| && r == Shown(tasks[i].nice);
      assert more[i] == tasks[i];
    }
  }

  method Getpriority(which: int, who: int, c: Caller, tasks: seq<Task>) returns (retval: int)
    requires NicesInRange(tasks)
    ensures !Known(which) ==> retval == EINVAL
    ensures Known(which) && Chosen(tasks, which, who, c) == [] ==> retval == ESRCH
    ensures Known(which) && Chosen(tasks, which, who, c) != [] ==> Shows(Chosen(tasks, which, who, c), retval)
  {
    if which > PRIO_USER || which < PRIO_PROCESS { return EINVAL; }
    retval := ESRCH;
    var k := 0;
    while k < |tasks|
      invariant 0 <= k <= |tasks|
      invariant var seen := Chosen(tasks[..k], which, who, c);
        if seen == [] then retval == ESRCH else Shows(seen, retval)
    {
      ChosenStep(tasks, k, which, who, c);
      if Selected(tasks[k], which, who, c) {
        ShowsOneMore(Chosen(tasks[..k], which, who, c), tasks[k], retval);
        if Shown(tasks[k].nice) > retval {
          retval := Shown(tasks[k].nice);
        }
      }
      k := k + 1;
    }
    assert tasks[..k] == tasks;
  }

  /** The i-th task was the last one to be refused. */
  predicate LastRefused(tasks: seq<Task>, nice: int, i: nat) {
    i < |tasks| && Refusal(tasks[i], nice) != 0 && forall j | i < j < |tasks| :: Refusal(tasks[j], nice) == 0
  }

  /** What the error is when some task was refused: decided by the last of them. */
  lemma {:induction false} CarriedFrom(tasks: seq<Task>, nice: int, i: nat)
    requires LastRefused(tasks, nice, i)
    ensures var r := Refusal(tasks[i], nice); Carried(tasks, nice) == if r == ESRCH && i + 1 < |tasks| then 0 else r
    decreases |tasks|
  {
    var n := |tasks| - 1;
    if i < n {
      CarriedFrom(tasks[..n], nice, i);
    }
  }

  lemma {:induction false} CarriedAll(tasks: seq<Task>, nice: int)
    requires tasks != [] && forall i | 0 <= i < |tasks| :: Refusal(tasks[i], nice) == 0
    ensures Carried(tasks, nice) == 0
  {
    var n := |tasks| - 1;
    if n > 0 {
      CarriedAll(tasks[..n], nice);
    }
  }

  /** setpriority returns 0 exactly when it selected a task and either refused none or the last refusal was a security
      module's ESRCH and not for the last task. */
  lemma ZeroIff(tasks: seq<Task>, nice: int)
    ensures Carried(tasks, nice) == 0 <==>
      && tasks != []
      && forall i: nat | LastRefused(tasks, nice, i) :: Refusal(tasks[i], nice) == ESRCH && i + 1 < |tasks|
  {
    NoneOrLast(tasks, nice);
    if i: nat :| LastRefused(tasks, nice, i) {
      CarriedFrom(tasks, nice, i);
      assert forall j: nat | LastRefused(tasks, nice, j) :: j == i;
    } else if tasks != [] {
      CarriedAll(tasks, nice);
    }
  }

  lemma {:induction false} NoneOrLast(tasks: seq<Task>, nice: int)
    ensures (forall i | 0 <= i < |tasks| :: Refusal(tasks[i], nice) == 0) || exists i: nat ::
      LastRefused(tasks, nice, i)
  {
    if tasks != [] {
      var n := |tasks| - 1;
      NoneOrLast(tasks[..n], nice);
      if Refusal(tasks[n], nice) != 0 {
        assert LastRefused(tasks, nice, n);
      } else if i: nat :| LastRefused(tasks[..n], nice, i) {
        assert LastRefused(tasks, nice, i);
      }
    }
  }

  /** When no security module answers ESRCH, it is 0 exactly when a task was selected and none refused. */
  lemma ZeroMeansAll(tasks: seq<Task>, nice: int)
    requires forall i | 0 <= i < |tasks| :: tasks[i].hook != ESRCH
    ensures Carried(tasks, nice) == 0 <==> tasks != [] && forall i | 0 <= i < |tasks| :: Refusal(tasks[i], nice) == 0
  {
    ZeroIff(tasks, nice);
    NoneOrLast(tasks, nice);
  }

  function SomeTask(pid: nat, permitted: bool, hook: int): Task { Task(pid, 1, 1, true, 0, permitted, true, hook) }

  /** With one that does, 0 can hide a refusal: the first task keeps its nice value, and getpriority shows it. */
  lemma ZeroCanHideARefusal()
    ensures var tasks := [SomeTask(1, false, 0), SomeTask(2, true, ESRCH), SomeTask(3, true, 0)];
      Carried(tasks, 5) == 0 && Niced(tasks[0], 5).nice == 0 && !NoneAbove(tasks, 5)
  {
    var tasks := [SomeTask(1, false, 0), SomeTask(2, true, ESRCH), SomeTask(3, true, 0)];
    assert tasks[..2] == [tasks[0], tasks[1]] && [tasks[0], tasks[1]][..1] == [tasks[0]] && [tasks[0]][..0] == [];
  }

  // ----- setpriority, then getpriority -----

  /** Setting nice values changes nobody's pid, group or user, so the same tasks are selected again. */
  lemma {:induction false} ChosenAgain(before: seq<Task>, after: seq<Task>, which: int, who: int, c: Caller, nice: int)
    requires |after| == |before|
    requires forall i | 0 <= i < |before| :: after[i] == Renewed(before[i], which, who, c, nice)
    ensures |Chosen(after, which, who, c)| == |Chosen(before, which, who, c)|
    ensures forall i | 0 <= i < |Chosen(before, which, who, c)| ::
      Chosen(after, which, who, c)[i] == Niced(Chosen(before, which, who, c)[i], nice)
  {
    if before != [] {
      var n := |before| - 1;
      ChosenAgain(before[..n], after[..n], which, who, c, nice);
    }
  }

  /** Nobody who was refused has a smaller nice value, hence a higher priority, than the one asked for. */
  predicate NoneAbove(tasks: seq<Task>, nice: int) {
    forall i | 0 <= i < |tasks| && Refusal(tasks[i], nice) != 0 :: tasks[i].nice >= nice
  }

  lemma ShownAfterZero(before: seq<Task>, after: seq<Task>, nice: int, r: int)
    requires Carried(before, nice) == 0 && |after| == |before|
    requires forall i | 0 <= i < |before| :: after[i] == Niced(before[i], nice)
    requires Shows(after, r)
    ensures r == 20 - nice <==> NoneAbove(before, nice)
  {
    ZeroIff(before, nice);
    NoneOrLast(before, nice);
    var n: nat := |before| - 1;
    assert Refusal(before[n], nice) != 0 ==> LastRefused(before, nice, n);
    assert after[n].nice == nice;
    if NoneAbove(before, nice) {
      assert forall i | 0 <= i < |after| :: after[i].nice >= nice;
    } else {
      var i :| 0 <= i < |before| && Refusal(before[i], nice) != 0 && before[i].nice < nice;
      assert after[i] == before[i];
    }
  }

  /** After a setpriority that returned 0, getpriority for the same tasks shows 20 minus the clamped nice value exactly
      when no task was refused that had a smaller one. */
  method SetThenGet(which: int, who: int, c: Caller, tasks: array<Task>, niceval: int) returns (error: int, shown: int)
    requires Distinct(tasks[..]) && NicesInRange(tasks[..])
    modifies tasks
    ensures error == 0 ==>
      (shown == 20 - Clamp(niceval) <==> NoneAbove(Chosen(old(tasks[..]), which, who, c), Clamp(niceval)))
  {
    ghost var was := tasks[..];
    error := Setpriority(which, who, c, tasks, niceval);
    shown := Getpriority(which, who, c, tasks[..]);
    if error == 0 {
      ChosenAgain(was, tasks[..], which, who, c, Clamp(niceval));
      ShownAfterZero(Chosen(was, which, who, c), Chosen(tasks[..], which, who, c), Clamp(niceval), shown);
    }
  }
}
