/**
 Whole runs from the initial state: the machine answers like the flat memory, and a load
 returns the byte last stored.
 */
module PagingRuns {
  import opened Basics
  import opened PagingModel
  import opened PagingOwnership
  import opened PagingFaults
  import opened PagingRefinement

  predicate Program(cs: seq<Instruction>) { forall k | 0 <= k < |cs| :: WellFormed(cs[k]) }

  /** The machine state after a program. */
  function After(cs: seq<Instruction>): (r: Outcome)
    requires Program(cs)
    ensures r.Ok? ==> Shape(r.state)
  {
    if cs == [] then Ok(Initial())
    else match After(cs[..|cs| - 1])
      case Wild => Wild
      case Ok(s) =>
        match Step(s, cs[|cs| - 1])
        case Lost => Wild
        case Reply(s', _) => Ok(s')
  }

  /** No instruction of the program starts a data fault that would run into itself. */
  predicate ClearRun(cs: seq<Instruction>)
    requires Program(cs)
  {
    cs == [] ||
    (&& ClearRun(cs[..|cs| - 1])
     && (After(cs[..|cs| - 1]).Ok? ==> Clear(After(cs[..|cs| - 1]).state, cs[|cs| - 1])))
  }

  function FlatAfter(cs: seq<Instruction>): Flat
    requires Program(cs)
  {
    if cs == [] then NothingMapped() else FlatStep(FlatAfter(cs[..|cs| - 1]), cs[|cs| - 1]).0
  }

  lemma InitialValid()
    ensures Shape(Initial()) && Inv(Initial(), Owners(seq(FRAMES, _ => Free), seq(SLOTS, _ => Free)))
    ensures View(Initial()) == NothingMapped()
  {
    var o := Owners(seq(FRAMES, _ => Free), seq(SLOTS, _ => Free));
    forall e | Entity(e)
      ensures Where(Initial(), map[], e) == Nowhere
    {
    }
    forall i | 0 <= i < 4
      ensures View(Initial())[i] == NothingMapped()[i]
    {
      forall j | 0 <= j < 4
        ensures View(Initial())[i][j] == NothingMapped()[i][j]
      {
        assert Where(Initial(), map[], Pg(i, j)) == Nowhere;
      }
    }
  }

  /** Every clear program runs to its end inside bounds, keeps the ownership invariant, and leaves
      every process seeing what the flat memory holds. */
  lemma {:induction false} RunRefines(cs: seq<Instruction>) returns (o: Owners)
    requires Program(cs) && ClearRun(cs)
    ensures After(cs).Ok? && Inv(After(cs).state, o) && View(After(cs).state) == FlatAfter(cs)
  {
    if cs == [] {
      InitialValid();
      o := Owners(seq(FRAMES, _ => Free), seq(SLOTS, _ => Free));
    } else {
      o := RunRefines(cs[..|cs| - 1]);
      o := StepRefines(After(cs[..|cs| - 1]).state, o, cs[|cs| - 1]);
    }
  }

  /** Every answer along a clear program is the flat memory's answer. */
  lemma AnswersLikeFlat(cs: seq<Instruction>, c: Instruction)
    requires Program(cs) && WellFormed(c) && ClearRun(cs + [c])
    ensures After(cs).Ok?
    ensures var r := Step(After(cs).state, c);
            r.Reply? && Valid(r.state) && (View(r.state), r.output) == FlatStep(FlatAfter(cs), c)
  {
    var all := cs + [c];
    assert all[..|all| - 1] == cs;
    var o := RunRefines(cs);
    o := StepRefines(After(cs).state, o, c);
  }

  // ----- What a load returns, from the program alone -----

  predicate Addresses(c: Instruction, pid: nat, vp: nat) { c.pid == pid && c.va / 16 == vp }

  /** The protection of the last map of the page, if there was one. */
  function LastMap(cs: seq<Instruction>, pid: nat, vp: nat): Option<nat>
  {
    if cs == [] then Absent
    else
      var c := cs[|cs| - 1];
      if c.Map? && Addresses(c, pid, vp) then Some(c.value % 2) else LastMap(cs[..|cs| - 1], pid, vp)
  }

  /** The byte of the last store to the address that found its page mapped and writable; zero if none did. */
  function LastStore(cs: seq<Instruction>, pid: nat, va: nat): Byte
  {
    if cs == [] then 0
    else
      var c, before := cs[|cs| - 1], cs[..|cs| - 1];
      if c.Store? && c.pid == pid && c.va == va && LastMap(before, pid, va / 16) == Some(1) then c.value % 256
      else LastStore(before, pid, va)
  }

  lemma {:induction false} FlatHistory(cs: seq<Instruction>, pid: nat, va: nat)
    requires Program(cs) && pid < PROCESSES && va < 64
    ensures var cell := FlatAfter(cs)[pid][va / 16];
            match LastMap(cs, pid, va / 16)
            case Absent => cell == Absent && LastStore(cs, pid, va) == 0
            case Some(p) =>
              cell.Some? && cell.value.prot == p && p < 2 && cell.value.data[va % 16] == LastStore(cs, pid, va)
  {
    if cs != [] {
      FlatHistory(cs[..|cs| - 1], pid, va);
      var c := cs[|cs| - 1];
      if Addresses(c, pid, va / 16) && c.va != va {
        assert c.va % 16 != va % 16;
      }
    }
  }

  /** A load after the program answers with the byte last stored at that virtual address, zero if there was none,
      or that its page is not allocated if it was never mapped. */
  predicate LoadHolds(cs: seq<Instruction>, pid: nat, va: nat)
    requires Program(cs) && pid < PROCESSES && va < 64
  {
    && After(cs).Ok?
    && var r := Step(After(cs).state, Load(pid, va));
       r.Reply? && r.output ==
         (if LastMap(cs, pid, va / 16) == Absent then NotAllocated else Loaded(LastStore(cs, pid, va)))
  }

  /** A load at the end of a clear program returns what was last stored, and changes nobody's view. */
  lemma LoadReturnsLastStore(cs: seq<Instruction>, pid: nat, va: nat)
    requires Program(cs) && pid < PROCESSES && va < 64
    requires ClearRun(cs + [Load(pid, va)])
    ensures LoadHolds(cs, pid, va)
    ensures View(Step(After(cs).state, Load(pid, va)).state) == View(After(cs).state)
  {
    AnswersLikeFlat(cs, Load(pid, va));
    FlatHistory(cs, pid, va);
    var o := PrefixRefines(cs, Load(pid, va));
    LoadLeavesFlat(FlatAfter(cs), pid, va);
  }

  /** An answer, by the last map of the page and the last byte stored at the address. */
  predicate Answers(c: Instruction, mapped: Option<nat>, byte: Byte, answer: Output) {
    && (c.Map? ==>
         && (answer == Mapped <==> mapped == Absent)
         && (answer == AlreadyMapped <==> mapped.Some? && mapped.value == c.value)
         && (answer == ProtectionUpdated <==> mapped.Some? && mapped.value != c.value))
    && (c.Store? ==>
         && (answer == NotAllocated <==> mapped == Absent)
         && (answer == ReadOnly <==> mapped == Some(0))
         && (answer == Stored <==> mapped == Some(1)))
    && (c.Load? ==> answer == if mapped == Absent then NotAllocated else Loaded(byte))
  }

  lemma CellAnswers(cell: Option<VPage>, c: Instruction, mapped: Option<nat>, byte: Byte)
    requires WellFormed(c) && (mapped == Absent <==> cell == Absent)
    requires mapped.Some? ==> cell.value.prot == mapped.value < 2 && cell.value.data[c.va % 16] == byte
    ensures Answers(c, mapped, byte, CellStep(cell, c).1)
  {
  }

  /** What a clear instruction answers can be told from the program before it alone. */
  lemma AnswerFromProgram(cs: seq<Instruction>, c: Instruction)
    requires Program(cs) && WellFormed(c) && ClearRun(cs + [c])
    ensures After(cs).Ok? && Step(After(cs).state, c).Reply?
    ensures Answers(c, LastMap(cs, c.pid, c.va / 16), LastStore(cs, c.pid, c.va), Step(After(cs).state, c).output)
  {
    AnswersLikeFlat(cs, c);
    FlatHistory(cs, c.pid, c.va);
    CellAnswers(FlatAfter(cs)[c.pid][c.va / 16], c, LastMap(cs, c.pid, c.va / 16), LastStore(cs, c.pid, c.va));
  }

  lemma PrefixRefines(cs: seq<Instruction>, c: Instruction) returns (o: Owners)
    requires Program(cs) && WellFormed(c) && ClearRun(cs + [c])
    ensures After(cs).Ok? && Inv(After(cs).state, o) && View(After(cs).state) == FlatAfter(cs)
  {
    assert (cs + [c])[..|cs + [c]| - 1] == cs;
    o := RunRefines(cs);
  }

  lemma LoadLeavesFlat(m: Flat, pid: nat, va: nat)
    requires pid < PROCESSES && va < 64
    ensures FlatStep(m, Load(pid, va)).0 == m
  {
    assert m[pid][va / 16 := m[pid][va / 16]] == m[pid];
  }
}
