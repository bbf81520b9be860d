/** Definitions shared by the models. */
module Basics {

  datatype Option<T> = Absent | Some(value: T)

  /** A part has at most as many elements as the whole. */
  lemma {:induction false} SubsetSize<T>(a: set<T>, b: set<T>)
    requires a <= b
    ensures |a| <= |b|
  {
    if a != {} {
      var x :| x in a;
      SubsetSize(a - {x}, b - {x});
    }
  }

  /** The n smallest natural numbers. */
  ghost function UpTo(n: nat): (r: set<nat>)
    ensures |r| == n && forall k: nat :: k in r <==> k < n
  {
    if n == 0 then {} else UpTo(n - 1) + {n - 1}
  }

  /** The steps cs lead from s to r. */
  ghost predicate Chain<S(!new), C>(step: (S, C, S) -> bool, s: S, cs: seq<C>, r: S) {
    exists states: seq<S> | |states| == |cs| + 1 ::
      states[0] == s && states[|cs|] == r && forall k | 0 <= k < |cs| :: step(states[k], cs[k], states[k + 1])
  }

  lemma ChainStart<S(!new), C>(step: (S, C, S) -> bool, s: S)
    ensures Chain(step, s, [], s)
  {
    assert |[s]| == 1;
  }

  lemma ChainOn<S(!new), C>(step: (S, C, S) -> bool, s: S, cs: seq<C>, t: S, c: C, r: S)
    requires Chain(step, s, cs, t) && step(t, c, r)
    ensures Chain(step, s, cs + [c], r)
  {
    var states: seq<S> :| |states| == |cs| + 1 && states[0] == s && states[|cs|] == t &&
      forall k | 0 <= k < |cs| :: step(states[k], cs[k], states[k + 1]);
    var all := states + [r];
    forall k | 0 <= k < |cs + [c]|
      ensures step(all[k], (cs + [c])[k], all[k + 1])
    {
      if k < |cs| {
        assert step(states[k], cs[k], states[k + 1]);
      }
    }
    assert |all| == |cs + [c]| + 1;
  }

  /** What holds at the start and is kept by every step holds at the end. */
  lemma {:induction false} ChainKeeps<S(!new), C(!new)>(step: (S, C, S) -> bool, s: S, cs: seq<C>, r: S,
                                                        P: (seq<C>, S) -> bool)
    requires Chain(step, s, cs, r) && P([], s)
    requires forall ds, t, c, u :: P(ds, t) && step(t, c, u) ==> P(ds + [c], u)
    ensures P(cs, r)
  {
    if cs != [] {
      var before, c := cs[..|cs| - 1], cs[|cs| - 1];
      var t := ChainLast(step, s, cs, r);
      ChainKeeps(step, s, before, t, P);
      assert cs == before + [c];
    }
  }

  lemma ChainLast<S(!new), C>(step: (S, C, S) -> bool, s: S, cs: seq<C>, r: S) returns (t: S)
    requires Chain(step, s, cs, r) && cs != []
    ensures Chain(step, s, cs[..|cs| - 1], t) && step(t, cs[|cs| - 1], r)
  {
    var states: seq<S> :| |states| == |cs| + 1 && states[0] == s && states[|cs|] == r &&
      forall k | 0 <= k < |cs| :: step(states[k], cs[k], states[k + 1]);
    t := states[|cs| - 1];
    assert |states[..|cs|]| == |cs[..|cs| - 1]| + 1;
  }
}
