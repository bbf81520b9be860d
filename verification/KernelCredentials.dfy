/**
 The calls that change a task's user ids, and their copies for group ids. Which ids can a
 task without the capability ever have? Exactly those it already holds.
 */
module KernelCredentials {

  /** The real, effective, saved and file-system id. */
  datatype Ids = Ids(uid: nat, euid: nat, suid: nat, fs: nat)

  /** An argument: -1 leaves the id as it is. */
  datatype Arg = Keep | To(id: nat)

  /** What the call meets: the capability in the user namespace, memory for the copy, the answers of set_user and of the
      security module (always 0 for group ids), and the namespace's map from ids to kernel ids. */
  datatype Env = Env(capable: bool, memory: bool, setUser: int, hook: int, ns: map<nat, nat>)

  datatype Outcome = Outcome(ret: int, ids: Ids)

  const EPERM := -1
  const ENOMEM := -12
  const EINVAL := -22

  predicate Valid(e: Env, a: Arg) { a.To? ==> a.id in e.ns }

  function Kid(e: Env, a: Arg, otherwise: nat): nat
    requires Valid(e, a)
  {
    match a case Keep => otherwise case To(id) => e.ns[id]
  }

  /** setreuid; setregid when the hooks say 0. */
  function Setre(was: Ids, e: Env, r: Arg, eff: Arg): Outcome {
    if !Valid(e, r) || !Valid(e, eff) then Outcome(EINVAL, was)
    else if !e.memory then Outcome(ENOMEM, was)
    else
      var uid, euid := Kid(e, r, was.uid), Kid(e, eff, was.euid);
      if r.To? && uid != was.uid && uid != was.euid && !e.capable then Outcome(EPERM, was)
      else if eff.To? && euid != was.uid && euid != was.euid && euid != was.suid && !e.capable then Outcome(EPERM, was)
      else if uid != was.uid && e.setUser < 0 then Outcome(e.setUser, was)
      else if e.hook < 0 then Outcome(e.hook, was)
      else
        var suid := if r.To? || (eff.To? && euid != was.uid) then euid else was.suid;
        Outcome(0, Ids(uid, euid, suid, euid))
  }

  /** setuid, setgid. */
  function Set(was: Ids, e: Env, id: nat): Outcome {
    if id !in e.ns then Outcome(EINVAL, was)
    else if !e.memory then Outcome(ENOMEM, was)
    else
      var k := e.ns[id];
      if e.capable && k != was.uid && e.setUser < 0 then Outcome(e.setUser, was)
      else if !e.capable && k != was.uid && k != was.suid then Outcome(EPERM, was)
      else if e.hook < 0 then Outcome(e.hook, was)
      else if e.capable then Outcome(0, Ids(k, k, k, k))
      else Outcome(0, was.(euid := k, fs := k))
  }

  predicate Held(ids: Ids, k: nat) { k == ids.uid || k == ids.euid || k == ids.suid }

  /** setresuid, setresgid. */
  function Setres(was: Ids, e: Env, r: Arg, eff: Arg, s: Arg): Outcome {
    if !Valid(e, r) || !Valid(e, eff) || !Valid(e, s) then Outcome(EINVAL, was)
    else if !e.memory then Outcome(ENOMEM, was)
    else
      var uid, euid, suid := Kid(e, r, was.uid), Kid(e, eff, was.euid), Kid(e, s, was.suid);
      if !e.capable && !(Held(was, uid) && Held(was, euid) && Held(was, suid)) then Outcome(EPERM, was)
      else if uid != was.uid && e.setUser < 0 then Outcome(e.setUser, was)
      else if e.hook < 0 then Outcome(e.hook, was)
      else Outcome(0, Ids(uid, euid, suid, euid))
  }

  /** setfsuid, setfsgid: no error is reported; the answer is the old id as the namespace shows it (munged). */
  function Setfs(was: Ids, e: Env, id: nat, munged: int): Outcome {
    if id !in e.ns || !e.memory then Outcome(munged, was)
    else
      var k := e.ns[id];
      if (Held(was, k) || k == was.fs || e.capable) && k != was.fs && e.hook == 0 then Outcome(munged, was.(fs := k))
      else Outcome(munged, was)
  }

  // ----- Runs -----

  datatype Call =
    | CallSetre(e: Env, r: Arg, eff: Arg)
    | CallSet(e: Env, id: nat)
    | CallSetres(e: Env, r: Arg, eff: Arg, s: Arg)
    | CallSetfs(e: Env, id: nat, munged: int)

  function Apply(ids: Ids, c: Call): Outcome {
    match c
    case CallSetre(e, r, eff) => Setre(ids, e, r, eff)
    case CallSet(e, id) => Set(ids, e, id)
    case CallSetres(e, r, eff, s) => Setres(ids, e, r, eff, s)
    case CallSetfs(e, id, munged) => Setfs(ids, e, id, munged)
  }

  function After(ids: Ids, calls: seq<Call>): Ids
    decreases |calls|
  {
    if calls == [] then ids else After(Apply(ids, calls[0]).ids, calls[1..])
  }

  predicate Unprivileged(calls: seq<Call>) { forall i | 0 <= i < |calls| :: !calls[i].e.capable }

  function HeldSet(ids: Ids): set<nat> { {ids.uid, ids.euid, ids.suid} }

  /** Nothing changed, or the ids are among those held before and the file-system id among those held now. */
  predicate Within(ids: Ids, goal: Ids) { goal == ids || (HeldSet(goal) <= HeldSet(ids) && goal.fs in HeldSet(goal)) }

  lemma CallStaysWithin(ids: Ids, c: Call)
    requires !c.e.capable
    ensures Within(ids, Apply(ids, c).ids)
  {
  }

  lemma {:induction false} RunStaysWithin(ids: Ids, calls: seq<Call>)
    requires Unprivileged(calls)
    ensures Within(ids, After(ids, calls))
    decreases |calls|
  {
    if calls != [] {
      CallStaysWithin(ids, calls[0]);
      RunStaysWithin(Apply(ids, calls[0]).ids, calls[1..]);
    }
  }

  /** Over any run of calls made without the capability the held ids only shrink, and the file-system id stays among
      the first four. */
  lemma RunOnlyShrinks(ids: Ids, calls: seq<Call>)
    requires Unprivileged(calls)
    ensures HeldSet(After(ids, calls)) <= HeldSet(ids)
    ensures After(ids, calls).fs in HeldSet(ids) + {ids.fs}
  {
    RunStaysWithin(ids, calls);
  }

  /** A namespace that shows the given ids as they are, and nothing in the way but the missing capability. */
  function Plain(ids: Ids): Env {
    Env(false, true, 0, 0, map[ids.uid := ids.uid, ids.euid := ids.euid, ids.suid := ids.suid, ids.fs := ids.fs])
  }

  /** What a task without the capability can become: exactly the combinations of ids it holds, the file-system id being
      one of those it then holds. One setresuid and one setfsuid are enough. */
  lemma ReachableIff(ids: Ids, goal: Ids)
    ensures (exists calls :: Unprivileged(calls) && After(ids, calls) == goal) <==> Within(ids, goal)
  {
    if goal == ids {
      assert After(ids, []) == goal && Unprivileged([]);
    } else if Within(ids, goal) {
      var a := CallSetres(Plain(goal), To(goal.uid), To(goal.euid), To(goal.suid));
      var b := CallSetfs(Plain(goal), goal.fs, 0);
      assert Apply(ids, a).ids == goal.(fs := goal.euid) && Apply(goal.(fs := goal.euid), b).ids == goal;
      assert [a, b][1..] == [b];
      assert After(ids, [a, b]) == After(goal.(fs := goal.euid), [b]) == goal && Unprivileged([a, b]);
    }
    forall calls | Unprivileged(calls) && After(ids, calls) == goal
      ensures Within(ids, goal)
    {
      RunStaysWithin(ids, calls);
    }
  }

  predicate Mapped(ids: Ids, ns: map<nat, nat>) {
    ids.uid in ns.Values && ids.euid in ns.Values && ids.suid in ns.Values && ids.fs in ns.Values
  }

  /** Every call is made in the surroundings e. */
  predicate All(calls: seq<Call>, e: Env) { forall i | 0 <= i < |calls| :: calls[i].e == e }

  lemma {:induction false} RunStaysMapped(ids: Ids, e: Env, calls: seq<Call>)
    requires Mapped(ids, e.ns) && All(calls, e)
    ensures Mapped(After(ids, calls), e.ns)
    decreases |calls|
  {
    if calls != [] {
      RunStaysMapped(Apply(ids, calls[0]).ids, e, calls[1..]);
    }
  }

  /** What a task with the capability can become when nothing else is in its way: exactly the combinations of ids that
      the namespace knows, whatever it held. Again one setresuid and one setfsuid are enough. */
  lemma PrivilegedReachableIff(ids: Ids, goal: Ids, e: Env)
    requires e.capable && e.memory && e.setUser >= 0 && e.hook == 0 && Mapped(ids, e.ns)
    ensures (exists calls :: All(calls, e) && After(ids, calls) == goal) <==> Mapped(goal, e.ns)
  {
    if Mapped(goal, e.ns) {
      var r :| r in e.ns && e.ns[r] == goal.uid;
      var eff :| eff in e.ns && e.ns[eff] == goal.euid;
      var s :| s in e.ns && e.ns[s] == goal.suid;
      var f :| f in e.ns && e.ns[f] == goal.fs;
      var a, b, mid := CallSetres(e, To(r), To(eff), To(s)), CallSetfs(e, f, 0), goal.(fs := goal.euid);
      assert Apply(ids, a).ids == mid && Apply(mid, b).ids == goal;
      assert [a, b][1..] == [b];
      assert After(ids, [a, b]) == After(mid, [b]) == goal && All([a, b], e);
    }
    forall calls | All(calls, e) && After(ids, calls) == goal
      ensures Mapped(goal, e.ns)
    {
      RunStaysMapped(ids, e, calls);
    }
  }

  /** An effective id can be regained without the capability exactly when it is held. */
  lemma RegainIff(ids: Ids, k: nat)
    ensures (exists calls :: Unprivileged(calls) && After(ids, calls).euid == k) <==> Held(ids, k)
  {
    if Held(ids, k) {
      var c := CallSetres(Plain(Ids(k, k, k, k)), Keep, To(k), Keep);
      assert After(ids, [c]).euid == k && Unprivileged([c]);
    }
    forall calls | Unprivileged(calls) && After(ids, calls).euid == k
      ensures Held(ids, k)
    {
      RunOnlyShrinks(ids, calls);
    }
  }

  /** Once the four ids are equal, no run without the capability changes them. */
  lemma {:induction false} DroppedForGood(ids: Ids, calls: seq<Call>)
    requires Unprivileged(calls) && ids.uid == ids.euid == ids.suid == ids.fs
    ensures After(ids, calls) == ids
  {
    RunOnlyShrinks(ids, calls);
    var r := After(ids, calls);
    assert r.uid in HeldSet(r) && r.euid in HeldSet(r) && r.suid in HeldSet(r);
  }

  /** A setuid that succeeds with the capability, and a setreuid that succeeds with one id for both, drop for good. */
  lemma DropsForGood(ids: Ids, c: Call, calls: seq<Call>)
    requires Apply(ids, c).ret == 0 && Unprivileged(calls)
    requires (c.CallSet? && c.e.capable) || (c.CallSetre? && c.r.To? && c.eff == c.r)
    ensures exists k :: After(Apply(ids, c).ids, calls) == Ids(k, k, k, k)
  {
    var r := Apply(ids, c).ids;
    assert r == Ids(r.uid, r.uid, r.uid, r.uid);
    DroppedForGood(r, calls);
  }

  /** setuid without the capability does not: it leaves the real and saved ids, so a held id can be taken back. */
  lemma SetuidCanBeUndone(ids: Ids, e: Env, id: nat)
    requires !e.capable && Set(ids, e, id).ret == 0 && Held(ids.(euid := ids.suid), ids.euid)
    ensures exists calls :: Unprivileged(calls) && After(Set(ids, e, id).ids, calls).euid == ids.euid
  {
    RegainIff(Set(ids, e, id).ids, ids.euid);
  }

  // ----- The calls on a task's credentials -----

  class Task {
    var cred: Ids

    constructor (ids: Ids)
      ensures cred == ids
    {
      cred := ids;
    }

    method Setreuid(e: Env, r: Arg, eff: Arg) returns (ret: int)
      modifies this
      ensures Outcome(ret, cred) == Setre(old(cred), e, r, eff)
      ensures ret == 0 <==> var was := old(cred);
        && (r.To? ==>
             && r.id in e.ns && (e.capable || e.ns[r.id] in {was.uid, was.euid})
             && (e.setUser >= 0 || e.ns[r.id] == was.uid))
        && (eff.To? ==> eff.id in e.ns && (e.capable || e.ns[eff.id] in {was.uid, was.euid, was.suid}))
        && e.memory && e.hook >= 0
      ensures ret == 0 ==> var was := old(cred);
        && cred.uid == (if r.To? then e.ns[r.id] else was.uid)
        && cred.euid == cred.fs == (if eff.To? then e.ns[eff.id] else was.euid)
        && cred.suid == (if r.To? || (eff.To? && e.ns[eff.id] != was.uid) then cred.euid else was.suid)
      ensures ret != 0 ==> var was := old(cred);
        && cred == was
        && ret == if (r.To? && r.id !in e.ns) || (eff.To? && eff.id !in e.ns) then -22
             else if !e.memory then -12
             else if !e.capable && ((r.To? && e.ns[r.id] !in {was.uid, was.euid}) ||
                                    (eff.To? && e.ns[eff.id] !in {was.uid, was.euid, was.suid})) then -1
             else if r.To? && e.ns[r.id] != was.uid && e.setUser < 0 then e.setUser else e.hook
    {
      if r.To? && r.id !in e.ns { return EINVAL; }
      if eff.To? && eff.id !in e.ns { return EINVAL; }
      if !e.memory { return ENOMEM; }
      var copy := cred;
      if r.To? {
        copy := copy.(uid := e.ns[r.id]);
        if cred.uid != copy.uid && cred.euid != copy.uid && !e.capable { return EPERM; }
      }
      if eff.To? {
        copy := copy.(euid := e.ns[eff.id]);
        if cred.uid != copy.euid && cred.euid != copy.euid && cred.suid != copy.euid && !e.capable { return EPERM; }
      }
      if copy.uid != cred.uid && e.setUser < 0 { return e.setUser; }
      if r.To? || (eff.To? && copy.euid != cred.uid) {
        copy := copy.(suid := copy.euid);
      }
      copy := copy.(fs := copy.euid);
      if e.hook < 0 { return e.hook; }
      cred := copy;
      ret := 0;
    }

    method Setuid(e: Env, id: nat) returns (ret: int)
      modifies this
      ensures Outcome(ret, cred) == Set(old(cred), e, id)
      ensures ret == 0 <==> var was := old(cred);
        && id in e.ns && e.memory && e.hook >= 0
        && if e.capable then e.setUser >= 0 || e.ns[id] == was.uid else e.ns[id] in {was.uid, was.suid}
      ensures ret == 0 ==> var k, was := e.ns[id], old(cred);
        cred == if e.capable then Ids(k, k, k, k) else Ids(was.uid, k, was.suid, k)
      ensures ret != 0 ==> var was := old(cred);
        && cred == was
        && ret == if id !in e.ns then -22
             else if !e.memory then -12
             else if !e.capable && e.ns[id] !in {was.uid, was.suid} then -1
             else if e.capable && e.ns[id] != was.uid && e.setUser < 0 then e.setUser else e.hook
    {
      if id !in e.ns { return EINVAL; }
      if !e.memory { return ENOMEM; }
      var copy, k := cred, e.ns[id];
      if e.capable {
        copy := copy.(suid := k, uid := k);
        if k != cred.uid && e.setUser < 0 { return e.setUser; }
      } else if k != cred.uid && k != copy.suid {
        return EPERM;
      }
      copy := copy.(fs := k, euid := k);
      if e.hook < 0 { return e.hook; }
      cred := copy;
      ret := 0;
    }

    method Setresuid(e: Env, r: Arg, eff: Arg, s: Arg) returns (ret: int)
      modifies this
      ensures Outcome(ret, cred) == Setres(old(cred), e, r, eff, s)
      ensures ret == 0 <==> var was := old(cred);
        && (forall a | a in {r, eff, s} && a.To? ::
             a.id in e.ns && (e.capable || e.ns[a.id] in {was.uid, was.euid, was.suid}))
        && (r.To? && e.ns[r.id] != was.uid ==> e.setUser >= 0)
        && e.memory && e.hook >= 0
      ensures ret == 0 ==> var was := old(cred);
        && cred.uid == (if r.To? then e.ns[r.id] else was.uid)
        && cred.euid == cred.fs == (if eff.To? then e.ns[eff.id] else was.euid)
        && cred.suid == (if s.To? then e.ns[s.id] else was.suid)
      ensures ret != 0 ==> var was := old(cred);
        && cred == was
        && ret == if exists a :: a in {r, eff, s} && a.To? && a.id !in e.ns then -22
             else if !e.memory then -12
             else if !e.capable && exists a ::
               a in {r, eff, s} && a.To? && e.ns[a.id] !in {was.uid, was.euid, was.suid} then -1
             else if r.To? && e.ns[r.id] != was.uid && e.setUser < 0 then e.setUser else e.hook
    {
      if r.To? && r.id !in e.ns { return EINVAL; }
      if eff.To? && eff.id !in e.ns { return EINVAL; }
      if s.To? && s.id !in e.ns { return EINVAL; }
      if !e.memory { return ENOMEM; }
      var copy := cred;
      if !e.capable {
        if r.To? && !Held(cred, e.ns[r.id]) { return EPERM; }
        if eff.To? && !Held(cred, e.ns[eff.id]) { return EPERM; }
        if s.To? && !Held(cred, e.ns[s.id]) { return EPERM; }
      }
      if r.To? {
        copy := copy.(uid := e.ns[r.id]);
        if copy.uid != cred.uid && e.setUser < 0 { return e.setUser; }
      }
      if eff.To? { copy := copy.(euid := e.ns[eff.id]); }
      if s.To? { copy := copy.(suid := e.ns[s.id]); }
      copy := copy.(fs := copy.euid);
      if e.hook < 0 { return e.hook; }
      cred := copy;
      ret := 0;
    }

    method Setfsuid(e: Env, id: nat, munged: int) returns (ret: int)
      modifies this
      ensures Outcome(ret, cred) == Setfs(old(cred), e, id, munged)
      ensures ret == munged
      ensures var was := old(cred);
        cred == if id in e.ns && e.memory && e.hook == 0 &&
          (e.capable || e.ns[id] in {was.uid, was.euid, was.suid}) then Ids(was.uid, was.euid, was.suid, e.ns[id])
        else was
    {
      ret := munged;
      if id !in e.ns || !e.memory { return; }
      var k := e.ns[id];
      if Held(cred, k) || k == cred.fs || e.capable {
        if k != cred.fs && e.hook == 0 {
          cred := cred.(fs := k);
        }
      }
    }
  }
}
