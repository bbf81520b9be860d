/** Resource limits: do_prlimit, and the conversions between words of 32 or 64 bits and the 64-bit interface. */
module KernelLimits {
  import opened Basics

  datatype Limit = Limit(cur: nat, max: nat)

  const RLIMIT_CPU := 0
  const RLIMIT_NOFILE := 7
  const RLIM_NLIMITS := 16

  const EPERM := -1
  const ESRCH := -3
  const EINVAL := -22

  /** What the call meets: CAP_SYS_RESOURCE, the security module's answer, whether the task still has its signal
      handlers, and the system's bound on open files. */
  datatype Env = Env(capable: bool, hook: int, alive: bool, nrOpen: nat)

  /** What is stored for a request. */
  function Stored(resource: nat, l: Limit): Limit { if resource == RLIMIT_CPU && l.cur == 0 then l.(cur := 1) else l }

  function Result(limits: seq<Limit>, resource: nat, request: Option<Limit>, e: Env): int
    requires |limits| == RLIM_NLIMITS
  {
    if resource >= RLIM_NLIMITS then EINVAL
    else if request.Some? && request.value.cur > request.value.max then EINVAL
    else if request.Some? && resource == RLIMIT_NOFILE && request.value.max > e.nrOpen then EPERM
    else if !e.alive then ESRCH
    else if request.Some? && request.value.max > limits[resource].max && !e.capable then EPERM
    else if request.Some? then e.hook
    else 0
  }

  function Changed(limits: seq<Limit>, resource: nat, request: Option<Limit>, e: Env): (r: seq<Limit>)
    requires |limits| == RLIM_NLIMITS
    ensures |r| == RLIM_NLIMITS
  {
    if Result(limits, resource, request, e) == 0 && request.Some? then
      limits[resource := Stored(resource, request.value)]
    else limits
  }

  class Signal {
    const rlim: array<Limit>

    constructor (limits: array<Limit>)
      ensures rlim == limits
    {
      rlim := limits;
    }

    method DoPrlimit(resource: nat, request: Option<Limit>, e: Env) returns (retval: int, previous: Option<Limit>)
      requires rlim.Length == RLIM_NLIMITS
      modifies rlim
      ensures retval == Result(old(rlim[..]), resource, request, e)
      ensures rlim[..] == Changed(old(rlim[..]), resource, request, e)
      ensures previous == if retval == 0 then Some(old(rlim[..])[resource]) else Absent
      ensures retval == 0 <==>
        && resource < 16 && e.alive
        && (request.Some? ==>
             && request.value.cur <= request.value.max && (resource == 7 ==> request.value.max <= e.nrOpen)
             && (e.capable || request.value.max <= old(rlim[..])[resource].max) && e.hook == 0)
      ensures rlim[..] == if retval != 0 || request.Absent? then old(rlim[..]) else
        old(rlim[..])[resource := Limit(if resource == 0 && request.value.cur == 0 then 1 else request.value.cur,
                                        request.value.max)]
      ensures retval != 0 ==>
        retval == if resource >= 16 || (request.Some? && request.value.cur > request.value.max) then -22
          else if request.Some? && resource == 7 && request.value.max > e.nrOpen then -1
          else if !e.alive then -3
          else if !e.capable && request.value.max > old(rlim[..])[resource].max then -1 else e.hook
    {
      previous := Absent;
      if resource >= RLIM_NLIMITS { return EINVAL, Absent; }
      if request.Some? {
        if request.value.cur > request.value.max { return EINVAL, Absent; }
        if resource == RLIMIT_NOFILE && request.value.max > e.nrOpen { return EPERM, Absent; }
      }
      if !e.alive { return ESRCH, Absent; }
      retval := 0;
      var wanted := request;
      if request.Some? {
        if request.value.max > rlim[resource].max && !e.capable { retval := EPERM; }
        if retval == 0 { retval := e.hook; }
        if resource == RLIMIT_CPU && request.value.cur == 0 { wanted := Some(request.value.(cur := 1)); }
      }
      if retval == 0 {
        previous := Some(rlim[resource]);
        if wanted.Some? { rlim[resource] := wanted.value; }
      }
    }

    /** What was asked for is read back, no CPU time as one second, whatever may be said against a further change. */
    method SetThenGet(resource: nat, request: Limit, e: Env, later: Env) returns (retval: int, shown: Option<Limit>)
      requires rlim.Length == RLIM_NLIMITS
      modifies rlim
      ensures retval == 0 && later.alive ==>
        shown == Some(if resource == 0 && request.cur == 0 then Limit(1, request.max) else request)
    {
      var before, now;
      retval, before := DoPrlimit(resource, Some(request), e);
      now, shown := DoPrlimit(resource, Absent, later);
    }
  }

  // ----- Runs -----

  datatype Change = Change(resource: nat, request: Option<Limit>, e: Env)

  function After(limits: seq<Limit>, changes: seq<Change>): (r: seq<Limit>)
    requires |limits| == RLIM_NLIMITS
    ensures |r| == RLIM_NLIMITS
    decreases |changes|
  {
    if changes == [] then limits
    else After(Changed(limits, changes[0].resource, changes[0].request, changes[0].e), changes[1..])
  }

  /** The i-th change is one of the limit r and is made. */
  predicate MadeAt(limits: seq<Limit>, changes: seq<Change>, i: nat, r: nat)
    requires |limits| == RLIM_NLIMITS && i < |changes|
  {
    var c := changes[i];
    c.resource == r && c.request.Some? && Result(After(limits, changes[..i]), r, c.request, c.e) == 0
  }

  lemma {:induction false} AfterLast(limits: seq<Limit>, changes: seq<Change>)
    requires |limits| == RLIM_NLIMITS && changes != []
    ensures var n := |changes| - 1;
      var c := changes[n];
      After(limits, changes) == Changed(After(limits, changes[..n]), c.resource, c.request, c.e)
    decreases |changes|
  {
    if |changes| > 1 {
      var c, n := changes[0], |changes| - 1;
      AfterLast(Changed(limits, c.resource, c.request, c.e), changes[1..]);
      assert changes[1..][..n - 1] == changes[..n][1..];
    }
  }

  /** At the end of any run a limit is what the last change of it that was made asked for, no CPU time being one second,
      and what it was at first if none was made. */
  lemma {:induction false} LastRequestHolds(limits: seq<Limit>, changes: seq<Change>, last: Option<nat>, r: nat)
    requires |limits| == RLIM_NLIMITS && r < RLIM_NLIMITS
    requires last.Some? ==> last.value < |changes| && MadeAt(limits, changes, last.value, r)
    requires forall j: nat | j < |changes| && (last.Some? ==> last.value < j) :: !MadeAt(limits, changes, j, r)
    ensures After(limits, changes)[r] ==
      if last.Absent? then limits[r]
      else
        var l := changes[last.value].request.value;
        Limit(if r == 0 && l.cur == 0 then 1 else l.cur, l.max)
    decreases |changes|
  {
    if changes != [] {
      var n := |changes| - 1;
      AfterLast(limits, changes);
      if last != Some(n) {
        assert !MadeAt(limits, changes, n, r);
        forall j: nat | j < n
          ensures MadeAt(limits, changes[..n], j, r) <==> MadeAt(limits, changes, j, r)
        {
          assert changes[..n][..j] == changes[..j];
        }
        LastRequestHolds(limits, changes[..n], last, r);
      }
    }
  }

  /** Soft is at most hard; for the CPU time, at most the larger of hard and 1. */
  predicate Ordered(limits: seq<Limit>) {
    forall r | 0 <= r < |limits| :: limits[r].cur <= limits[r].max || (r == RLIMIT_CPU && limits[r] == Limit(1, 0))
  }

  lemma {:induction false} RunStaysOrdered(limits: seq<Limit>, changes: seq<Change>)
    requires |limits| == RLIM_NLIMITS && Ordered(limits)
    ensures Ordered(After(limits, changes))
    decreases |changes|
  {
    if changes != [] {
      RunStaysOrdered(Changed(limits, changes[0].resource, changes[0].request, changes[0].e), changes[1..]);
    }
  }

  /** A change that is made leaves soft above hard exactly when it asks for no CPU time at all. */
  lemma SoftAboveHardIff(limits: seq<Limit>, c: Change)
    requires |limits| == RLIM_NLIMITS && Ordered(limits) && c.request.Some?
    requires Result(limits, c.resource, c.request, c.e) == 0
    ensures var l := Changed(limits, c.resource, c.request, c.e)[c.resource];
      l.cur > l.max <==> c.resource == RLIMIT_CPU && c.request == Some(Limit(0, 0))
  {
  }

  /** Without the capability no hard limit rises. */
  lemma {:induction false} HardNeverRises(limits: seq<Limit>, changes: seq<Change>, r: nat)
    requires |limits| == RLIM_NLIMITS && r < RLIM_NLIMITS && forall i | 0 <= i < |changes| :: !changes[i].e.capable
    ensures After(limits, changes)[r].max <= limits[r].max
    decreases |changes|
  {
    if changes != [] {
      var c := changes[0];
      HardNeverRises(Changed(limits, c.resource, c.request, c.e), changes[1..], r);
    }
  }

  // ----- The 64-bit interface -----

  const Top64: nat := 0xFFFF_FFFF_FFFF_FFFF

  /** The largest word: 2^32 - 1 or 2^64 - 1. It stands for infinity. */
  predicate WordTop(top: nat) { top == 0xFFFF_FFFF || top == Top64 }

  function To64(x: nat, top: nat): nat { if x == top then Top64 else x }

  predicate IsInfinity(x: nat, top: nat) { if top < Top64 then x >= top else x == Top64 }

  function From64(x: nat, top: nat): nat { if IsInfinity(x, top) then top else x % (top + 1) }

  /** Out and back is the identity, and order is kept both ways, at both word sizes. */
  lemma ConversionsAgree(x: nat, y: nat, top: nat)
    requires WordTop(top) && x <= top && y <= top
    ensures From64(To64(x, top), top) == x && To64(x, top) <= Top64
    ensures x <= y <==> To64(x, top) <= To64(y, top)
  {
  }

  /** The way back keeps order too, and is exact unless the value is at or above the word's infinity. */
  lemma BackIsMonotone(x: nat, y: nat, top: nat)
    requires WordTop(top) && x <= y <= Top64
    ensures From64(x, top) <= From64(y, top) <= top
    ensures To64(From64(x, top), top) == x <==> x < top || x == Top64
  {
    BackIs(x, top);
    BackIs(y, top);
  }

  lemma BackIs(x: nat, top: nat)
    requires WordTop(top) && x <= Top64
    ensures From64(x, top) == if x < top then x else top
  {
    if x < top {
      assert x % (top + 1) == x;
    }
  }
}
