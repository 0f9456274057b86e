/**
 * The VM unit tests test1 to test10 of tests.cc replayed on the model: each
 * program is run twice on one VM, and the verdicts, the pc and the cache bits
 * agree with what the tests check. Then a program those tests miss, whose second
 * `run` flips its verdict because `run` leaves a pending Not in place, and
 * the corrected run on it.
 */
module MachineScenarios {
  import opened Opcodes
  import opened Machine
  import opened MachineRerun

  /** The reference backend: every question answered true. */
  function Stub(): Query -> bool {
    _ => true
  }

  /** The cache bits that are set. */
  function SetBits(cache: seq<bool>): set<nat> {
    set i: nat | i < |cache| && cache[i]
  }

  const U: Word := Unbounded

  /** A top-level state: the instruction words a, b and c are 0, the stack and the prints are empty. */
  function At(op: Word, pc: Word, count: Word, r: bool, n: bool, mode: Word, cache: seq<bool>, cursor: nat): State {
    State(Registers(op, 0, 0, 0, pc, count, r, n, mode), [], cache, cursor, [])
  }

  /** `run(0)`: the cursor and pc go to slot 0 and the budget is unbounded. */
  lemma Enter(p: Program, s: State, fuel: nat)
    requires WellFormed(p, s) && |p.code| > 0
    ensures Run(p, s, 0, 0, fuel) == RunFrom(p, s.(regs := s.regs.(pc := 0, count := U), cursor := 0), fuel)
  {
  }

  /** A slot holding anything but `kExecuteSingle` resolves to itself. */
  lemma ResolvesTo(code: seq<Word>, slot: Word, hops: nat)
    requires kSize * slot + kSize <= |code| && code[kSize * slot] != kExecuteSingle
    ensures Resolve(code, slot, slot, hops) == Slot(slot)
  {
  }

  /** A pass that goes on hands the rest of the run to the state it leaves. */
  lemma PassOn(p: Program, s: State, t: State, fuel: nat)
    requires WellFormed(p, s) && fuel > 0 && Iterate(p, s) == Next(t)
    ensures RunFrom(p, s, fuel) == RunFrom(p, t, fuel - 1)
  {
  }

  /** A pass that stops ends the run with the Result register. */
  lemma Stops(p: Program, s: State, t: State, fuel: nat)
    requires WellFormed(p, s) && fuel > 0 && Iterate(p, s) == Stop(t)
    ensures RunFrom(p, s, fuel) == Done(t, t.regs.r)
  {
  }

  /** test1's program when v is true, test2's when v is false: [kTrue; kHalt] or [kFalse; kHalt]. */
  function ValueHalt(v: bool): Program {
    Program([Lit(v), 0, 0, 0, kHalt, 0, 0, 0], Stub())
  }

  /** The cache after the first run: slot 0 valid with v. */
  function ValueHaltCache(v: bool): seq<bool> {
    Init(ValueHalt(v)).cache[0 := true][1 := v]
  }

  /** Where both runs end: the kHalt in slot 1, pc 2. */
  function ValueHaltLast(v: bool): State {
    At(kHalt, 2, U - 2, v, false, ModeNone, ValueHaltCache(v), 4)
  }

  lemma ValueHaltPass1(v: bool)
    ensures Iterate(ValueHalt(v), At(0, 0, U, true, false, ModeNone, Init(ValueHalt(v)).cache, 0))
            == Next(At(Lit(v), 1, U - 1, v, false, ModeNone, ValueHaltCache(v), 2))
  {
    var p, c := ValueHalt(v), Init(ValueHalt(v)).cache;
    ResolvesTo(p.code, 0, |p.code|);
    assert Fetch(p, At(0, 0, U, true, false, ModeNone, c, 0)) == Next(At(Lit(v), 1, U - 1, true, false, ModeNone, c, 0));
    assert Dispatch(p, At(Lit(v), 1, U - 1, true, false, ModeNone, c, 0))
           == Next(At(Lit(v), 1, U - 1, v, false, ModeNone, ValueHaltCache(v), 2));
  }

  /** On the second run slot 0 is a hit and gives the cached v. */
  lemma ValueHaltHit(v: bool)
    ensures Iterate(ValueHalt(v), At(kHalt, 0, U, v, false, ModeNone, ValueHaltCache(v), 0))
            == Next(At(kHalt, 1, U - 1, v, false, ModeNone, ValueHaltCache(v), 2))
  {
  }

  lemma ValueHaltStop(v: bool, op: Word)
    ensures Iterate(ValueHalt(v), At(op, 1, U - 1, v, false, ModeNone, ValueHaltCache(v), 2)) == Stop(ValueHaltLast(v))
  {
    var p, d := ValueHalt(v), ValueHaltCache(v);
    ResolvesTo(p.code, 1, |p.code|);
    assert Fetch(p, At(op, 1, U - 1, v, false, ModeNone, d, 2)) == Next(At(kHalt, 2, U - 2, v, false, ModeNone, d, 2));
  }

  /** The first run fills slot 0 with v and halts in slot 1. */
  lemma ValueHaltFirstRun(v: bool)
    ensures Run(ValueHalt(v), Init(ValueHalt(v)), 0, 0, 5) == Done(ValueHaltLast(v), v)
  {
    var p, c, d := ValueHalt(v), Init(ValueHalt(v)).cache, ValueHaltCache(v);
    Enter(p, Init(p), 5);
    ValueHaltPass1(v);
    PassOn(p, At(0, 0, U, true, false, ModeNone, c, 0), At(Lit(v), 1, U - 1, v, false, ModeNone, d, 2), 5);
    ValueHaltStop(v, Lit(v));
    Stops(p, At(Lit(v), 1, U - 1, v, false, ModeNone, d, 2), ValueHaltLast(v), 4);
  }

  /** The second run hits slot 0 and ends in the same state. */
  lemma ValueHaltSecondRun(v: bool)
    ensures Run(ValueHalt(v), ValueHaltLast(v), 0, 0, 5) == Done(ValueHaltLast(v), v)
  {
    var p, d := ValueHalt(v), ValueHaltCache(v);
    Enter(p, ValueHaltLast(v), 5);
    ValueHaltHit(v);
    PassOn(p, At(kHalt, 0, U, v, false, ModeNone, d, 0), At(kHalt, 1, U - 1, v, false, ModeNone, d, 2), 5);
    ValueHaltStop(v, kHalt);
    Stops(p, At(kHalt, 1, U - 1, v, false, ModeNone, d, 2), ValueHaltLast(v), 4);
  }

  lemma ValueHaltBits(v: bool)
    ensures SetBits(ValueHaltCache(v)) == if v then {0, 1} else {0}
  {
    var d := ValueHaltCache(v);
    assert forall i: nat :: i < |d| ==> (d[i] <==> i == 0 || (v && i == 1));
  }

  /** test1, [kTrue; kHalt]: true both times; slot 0 cached valid with value true. */
  lemma Test1()
    ensures var p := Program([kTrue, 0, 0, 0, kHalt, 0, 0, 0], Stub());
      var r1 := Run(p, Init(p), 0, 0, 5);
      r1.Done? && r1.value &&
      var r2 := Run(p, r1.s, 0, 0, 5);
      r2.Done? && r2.value && SetBits(r2.s.cache) == {0, 1}
  {
    assert Program([kTrue, 0, 0, 0, kHalt, 0, 0, 0], Stub()) == ValueHalt(true);
    ValueHaltFirstRun(true);
    ValueHaltSecondRun(true);
    ValueHaltBits(true);
  }

  /** test2, [kFalse; kHalt]: false both times; slot 0 cached valid with value false. */
  lemma Test2()
    ensures var p := Program([kFalse, 0, 0, 0, kHalt, 0, 0, 0], Stub());
      var r1 := Run(p, Init(p), 0, 0, 5);
      r1.Done? && !r1.value &&
      var r2 := Run(p, r1.s, 0, 0, 5);
      r2.Done? && !r2.value && SetBits(r2.s.cache) == {0}
  {
    assert Program([kFalse, 0, 0, 0, kHalt, 0, 0, 0], Stub()) == ValueHalt(false);
    ValueHaltFirstRun(false);
    ValueHaltSecondRun(false);
    ValueHaltBits(false);
  }

  /** test3's program, [kNot; kTrue; kHalt]. */
  function NotTrue(): Program {
    Program([kNot, 0, 0, 0, kTrue, 0, 0, 0, kHalt, 0, 0, 0], Stub())
  }

  /** The cache after test3's first run: slot 1 valid with the raw value true. */
  function NotTrueCache(): seq<bool> {
    Init(NotTrue()).cache[2 := true][3 := true]
  }

  lemma NotTruePass1()
    ensures Iterate(NotTrue(), At(0, 0, U, true, false, ModeNone, Init(NotTrue()).cache, 0))
            == Next(At(kNot, 1, U - 1, true, true, ModeNone, Init(NotTrue()).cache, 2))
  {
  }

  lemma NotTruePass2()
    ensures Iterate(NotTrue(), At(kNot, 1, U - 1, true, true, ModeNone, Init(NotTrue()).cache, 2))
            == Next(At(kTrue, 2, U - 2, false, false, ModeNone, NotTrueCache(), 4))
  {
    var p, c := NotTrue(), Init(NotTrue()).cache;
    ResolvesTo(p.code, 1, |p.code|);
    assert Fetch(p, At(kNot, 1, U - 1, true, true, ModeNone, c, 2)) == Next(At(kTrue, 2, U - 2, true, true, ModeNone, c, 2));
  }

  lemma NotTruePass3(op: Word, r: bool)
    ensures Iterate(NotTrue(), At(op, 2, U - 2, r, false, ModeNone, NotTrueCache(), 4))
            == Stop(At(kHalt, 3, U - 3, r, false, ModeNone, NotTrueCache(), 6))
  {
  }

  /** The second run fetches the Not, then finds the True's slot valid and folds the cached true through it. */
  lemma NotTrueRerunPasses()
    ensures Iterate(NotTrue(), At(kHalt, 0, U, false, false, ModeNone, NotTrueCache(), 0))
            == Next(At(kNot, 1, U - 1, false, true, ModeNone, NotTrueCache(), 2))
    ensures Iterate(NotTrue(), At(kNot, 1, U - 1, false, true, ModeNone, NotTrueCache(), 2))
            == Next(At(kNot, 2, U - 2, false, false, ModeNone, NotTrueCache(), 4))
  {
    var p, d := NotTrue(), NotTrueCache();
    ResolvesTo(p.code, 0, |p.code|);
    assert Fetch(p, At(kHalt, 0, U, false, false, ModeNone, d, 0)) == Next(At(kNot, 1, U - 1, false, false, ModeNone, d, 0));
  }

  /** test3's first run: the Not is folded into the True, which fills slot 1; the run returns false. */
  lemma NotTrueFirstRun()
    ensures Run(NotTrue(), Init(NotTrue()), 0, 0, 6)
            == Done(At(kHalt, 3, U - 3, false, false, ModeNone, NotTrueCache(), 6), false)
  {
    var p, c, d := NotTrue(), Init(NotTrue()).cache, NotTrueCache();
    Enter(p, Init(p), 6);
    NotTruePass1();
    PassOn(p, At(0, 0, U, true, false, ModeNone, c, 0), At(kNot, 1, U - 1, true, true, ModeNone, c, 2), 6);
    NotTruePass2();
    PassOn(p, At(kNot, 1, U - 1, true, true, ModeNone, c, 2), At(kTrue, 2, U - 2, false, false, ModeNone, d, 4), 5);
    NotTruePass3(kTrue, false);
    Stops(p, At(kTrue, 2, U - 2, false, false, ModeNone, d, 4), At(kHalt, 3, U - 3, false, false, ModeNone, d, 6), 4);
  }

  /** test3's second run: the Not is fetched again and the True is a hit; the run returns false again. */
  lemma NotTrueSecondRun()
    ensures var last := At(kHalt, 3, U - 3, false, false, ModeNone, NotTrueCache(), 6);
      Run(NotTrue(), last, 0, 0, 6) == Done(last, false)
  {
    var p, d := NotTrue(), NotTrueCache();
    var last := At(kHalt, 3, U - 3, false, false, ModeNone, d, 6);
    Enter(p, last, 6);
    NotTrueRerunPasses();
    PassOn(p, At(kHalt, 0, U, false, false, ModeNone, d, 0), At(kNot, 1, U - 1, false, true, ModeNone, d, 2), 6);
    PassOn(p, At(kNot, 1, U - 1, false, true, ModeNone, d, 2), At(kNot, 2, U - 2, false, false, ModeNone, d, 4), 5);
    NotTruePass3(kNot, false);
    Stops(p, At(kNot, 2, U - 2, false, false, ModeNone, d, 4), last, 4);
  }

  lemma NotTrueBits()
    ensures SetBits(NotTrueCache()) == {2, 3}
  {
    var d := NotTrueCache();
    assert forall i: nat :: i < |d| ==> (d[i] <==> i == 2 || i == 3);
  }

  /** test3, [kNot; kTrue; kHalt]: false both times; slot 1 cached valid with the raw value true. */
  lemma Test3()
    ensures var p := Program([kNot, 0, 0, 0, kTrue, 0, 0, 0, kHalt, 0, 0, 0], Stub());
      var r1 := Run(p, Init(p), 0, 0, 6);
      r1.Done? && !r1.value &&
      var r2 := Run(p, r1.s, 0, 0, 6);
      r2.Done? && !r2.value && SetBits(r2.s.cache) == {2, 3}
  {
    NotTrueFirstRun();
    NotTrueSecondRun();
    NotTrueBits();
  }

  /** test4's program, [kAnd; kNot; kFalse; kHalt]. */
  function AndNotFalse(): Program {
    Program([kAnd, 0, 0, 0, kNot, 0, 0, 0, kFalse, 0, 0, 0, kHalt, 0, 0, 0], Stub())
  }

  /** The cache after test4's first run: slot 2 valid with the raw value false. */
  function AndNotFalseCache(): seq<bool> {
    Init(AndNotFalse()).cache[4 := true][5 := false]
  }

  lemma AndNotFalsePass1()
    ensures Iterate(AndNotFalse(), At(0, 0, U, true, false, ModeNone, Init(AndNotFalse()).cache, 0))
            == Next(At(kAnd, 1, U - 1, true, false, ModeAnd, Init(AndNotFalse()).cache, 2))
  {
  }

  lemma AndNotFalsePass2(c: seq<bool>)
    requires c == Init(AndNotFalse()).cache || c == AndNotFalseCache()
    ensures Iterate(AndNotFalse(), At(kAnd, 1, U - 1, true, false, ModeAnd, c, 2))
            == Next(At(kNot, 2, U - 2, true, true, ModeAnd, c, 4))
  {
  }

  lemma AndNotFalsePass3()
    ensures Iterate(AndNotFalse(), At(kNot, 2, U - 2, true, true, ModeAnd, Init(AndNotFalse()).cache, 4))
            == Next(At(kFalse, 3, U - 3, true, false, ModeAnd, AndNotFalseCache(), 6))
  {
  }

  lemma AndNotFalsePass4(op: Word)
    ensures Iterate(AndNotFalse(), At(op, 3, U - 3, true, false, ModeAnd, AndNotFalseCache(), 6))
            == Stop(At(kHalt, 4, U - 4, true, false, ModeAnd, AndNotFalseCache(), 8))
  {
  }

  /** The second run fetches the And, then the Not, then finds the False's slot valid. */
  lemma AndNotFalseRerunPasses()
    ensures Iterate(AndNotFalse(), At(kHalt, 0, U, true, false, ModeAnd, AndNotFalseCache(), 0))
            == Next(At(kAnd, 1, U - 1, true, false, ModeAnd, AndNotFalseCache(), 2))
    ensures Iterate(AndNotFalse(), At(kNot, 2, U - 2, true, true, ModeAnd, AndNotFalseCache(), 4))
            == Next(At(kNot, 3, U - 3, true, false, ModeAnd, AndNotFalseCache(), 6))
  {
  }

  /** test4's first run: And, Not, then the False fills slot 2 and the Not turns it into true. */
  lemma AndNotFalseFirstRun()
    ensures Run(AndNotFalse(), Init(AndNotFalse()), 0, 0, 7)
            == Done(At(kHalt, 4, U - 4, true, false, ModeAnd, AndNotFalseCache(), 8), true)
  {
    var p, c, d := AndNotFalse(), Init(AndNotFalse()).cache, AndNotFalseCache();
    Enter(p, Init(p), 7);
    AndNotFalsePass1();
    PassOn(p, At(0, 0, U, true, false, ModeNone, c, 0), At(kAnd, 1, U - 1, true, false, ModeAnd, c, 2), 7);
    AndNotFalsePass2(c);
    PassOn(p, At(kAnd, 1, U - 1, true, false, ModeAnd, c, 2), At(kNot, 2, U - 2, true, true, ModeAnd, c, 4), 6);
    AndNotFalsePass3();
    PassOn(p, At(kNot, 2, U - 2, true, true, ModeAnd, c, 4), At(kFalse, 3, U - 3, true, false, ModeAnd, d, 6), 5);
    AndNotFalsePass4(kFalse);
    Stops(p, At(kFalse, 3, U - 3, true, false, ModeAnd, d, 6), At(kHalt, 4, U - 4, true, false, ModeAnd, d, 8), 4);
  }

  /** test4's second run: And and Not fetched again, the False a hit; the run returns true again. */
  lemma AndNotFalseSecondRun()
    ensures var last := At(kHalt, 4, U - 4, true, false, ModeAnd, AndNotFalseCache(), 8);
      Run(AndNotFalse(), last, 0, 0, 7) == Done(last, true)
  {
    var p, d := AndNotFalse(), AndNotFalseCache();
    var last := At(kHalt, 4, U - 4, true, false, ModeAnd, d, 8);
    Enter(p, last, 7);
    AndNotFalseRerunPasses();
    AndNotFalsePass2(d);
    PassOn(p, At(kHalt, 0, U, true, false, ModeAnd, d, 0), At(kAnd, 1, U - 1, true, false, ModeAnd, d, 2), 7);
    PassOn(p, At(kAnd, 1, U - 1, true, false, ModeAnd, d, 2), At(kNot, 2, U - 2, true, true, ModeAnd, d, 4), 6);
    PassOn(p, At(kNot, 2, U - 2, true, true, ModeAnd, d, 4), At(kNot, 3, U - 3, true, false, ModeAnd, d, 6), 5);
    AndNotFalsePass4(kNot);
    Stops(p, At(kNot, 3, U - 3, true, false, ModeAnd, d, 6), last, 4);
  }

  lemma AndNotFalseBits()
    ensures SetBits(AndNotFalseCache()) == {4}
  {
    var d := AndNotFalseCache();
    assert forall i: nat :: i < |d| ==> (d[i] <==> i == 4);
  }

  /** test4, [kAnd; kNot; kFalse; kHalt]: true both times; slot 2 cached valid with the raw value false. */
  lemma Test4()
    ensures var p := Program([kAnd, 0, 0, 0, kNot, 0, 0, 0, kFalse, 0, 0, 0, kHalt, 0, 0, 0], Stub());
      var r1 := Run(p, Init(p), 0, 0, 7);
      r1.Done? && r1.value &&
      var r2 := Run(p, r1.s, 0, 0, 7);
      r2.Done? && r2.value && SetBits(r2.s.cache) == {4}
  {
    AndNotFalseFirstRun();
    AndNotFalseSecondRun();
    AndNotFalseBits();
  }

  /** test5's program: kOr, kFalse, fourteen kTrue, kHalt (seventeen slots, operands 0). */
  function OrFalseTrues(): Program {
    Program(seq(68, i => if i % kSize != 0 then 0
                         else if i < 4 then kOr else if i < 8 then kFalse else if i < 64 then kTrue else kHalt),
            Stub())
  }

  /** The cache after test5's first run: slot 1 valid with false, slot 2 valid with true. */
  function OrFalseTruesCache(): seq<bool> {
    Init(OrFalseTrues()).cache[2 := true][3 := false][4 := true][5 := true]
  }

  lemma OrFalseTruesPass1()
    ensures Iterate(OrFalseTrues(), At(0, 0, U, true, false, ModeNone, Init(OrFalseTrues()).cache, 0))
            == Next(At(kOr, 1, U - 1, false, false, ModeOr, Init(OrFalseTrues()).cache, 2))
  {
  }

  lemma OrFalseTruesPass2()
    ensures var c := Init(OrFalseTrues()).cache;
      Iterate(OrFalseTrues(), At(kOr, 1, U - 1, false, false, ModeOr, c, 2))
      == Next(At(kFalse, 2, U - 2, false, false, ModeOr, c[2 := true][3 := false], 4))
  {
  }

  lemma OrFalseTruesPass3()
    ensures var c := Init(OrFalseTrues()).cache[2 := true][3 := false];
      Iterate(OrFalseTrues(), At(kFalse, 2, U - 2, false, false, ModeOr, c, 4))
      == Next(At(kTrue, 3, U - 3, true, false, ModeOr, OrFalseTruesCache(), 6))
  {
  }

  /** kOr with Result true short-circuits: the pass is a forced return, which stops the top level. */
  lemma OrFalseTruesShortCircuit(op: Word, pc: Word, count: Word, cursor: nat)
    requires count > 0 && cursor + 2 <= kBits * |OrFalseTrues().code|
    ensures Iterate(OrFalseTrues(), At(op, pc, count, true, false, ModeOr, OrFalseTruesCache(), cursor))
            == Stop(At(kReturn, pc, count, true, false, ModeOr, OrFalseTruesCache(), cursor + 2))
  {
  }

  /** test5's first run: Or, False, then the first True ends the block; true, with pc 3. */
  lemma OrFalseTruesFirstRun()
    ensures Run(OrFalseTrues(), Init(OrFalseTrues()), 0, 0, 5)
            == Done(At(kReturn, 3, U - 3, true, false, ModeOr, OrFalseTruesCache(), 8), true)
  {
    var p, c, d := OrFalseTrues(), Init(OrFalseTrues()).cache, OrFalseTruesCache();
    var c2 := c[2 := true][3 := false];
    Enter(p, Init(p), 5);
    OrFalseTruesPass1();
    PassOn(p, At(0, 0, U, true, false, ModeNone, c, 0), At(kOr, 1, U - 1, false, false, ModeOr, c, 2), 5);
    OrFalseTruesPass2();
    PassOn(p, At(kOr, 1, U - 1, false, false, ModeOr, c, 2), At(kFalse, 2, U - 2, false, false, ModeOr, c2, 4), 4);
    OrFalseTruesPass3();
    PassOn(p, At(kFalse, 2, U - 2, false, false, ModeOr, c2, 4), At(kTrue, 3, U - 3, true, false, ModeOr, d, 6), 3);
    OrFalseTruesShortCircuit(kTrue, 3, U - 3, 6);
    Stops(p, At(kTrue, 3, U - 3, true, false, ModeOr, d, 6), At(kReturn, 3, U - 3, true, false, ModeOr, d, 8), 2);
  }

  /**
   * test5's second run: the Or mode and the true Result are still in the
   * registers, so the very first pass short-circuits and returns true.
   */
  lemma OrFalseTruesSecondRun()
    ensures Run(OrFalseTrues(), At(kReturn, 3, U - 3, true, false, ModeOr, OrFalseTruesCache(), 8), 0, 0, 5)
            == Done(At(kReturn, 0, U, true, false, ModeOr, OrFalseTruesCache(), 2), true)
  {
    var p, d := OrFalseTrues(), OrFalseTruesCache();
    Enter(p, At(kReturn, 3, U - 3, true, false, ModeOr, d, 8), 5);
    OrFalseTruesShortCircuit(kReturn, 0, U, 0);
    Stops(p, At(kReturn, 0, U, true, false, ModeOr, d, 0), At(kReturn, 0, U, true, false, ModeOr, d, 2), 5);
  }

  lemma OrFalseTruesBits()
    ensures SetBits(OrFalseTruesCache()) == {2, 4, 5}
  {
    var d := OrFalseTruesCache();
    assert forall i: nat :: i < |d| ==> (d[i] <==> i == 2 || i == 4 || i == 5);
  }

  /** test5, kOr then [kFalse; kTrue; ...]: the Or block stops after the first true; true both times, pc 3. */
  lemma Test5()
    ensures var p := OrFalseTrues();
      var r1 := Run(p, Init(p), 0, 0, 5);
      r1.Done? && r1.value && r1.s.regs.pc == 3 &&
      var r2 := Run(p, r1.s, 0, 0, 5);
      r2.Done? && r2.value && SetBits(r2.s.cache) == {2, 4, 5}
  {
    OrFalseTruesFirstRun();
    OrFalseTruesSecondRun();
    OrFalseTruesBits();
  }

  /** test6's program: kAnd, kTrue, kFalse, thirteen kTrue, kHalt (seventeen slots, operands 0). */
  function AndTrueFalse(): Program {
    Program(seq(68, i => if i % kSize != 0 then 0
                         else if i < 4 then kAnd else if i < 8 then kTrue else if i < 12 then kFalse
                         else if i < 64 then kTrue else kHalt),
            Stub())
  }

  /** The cache after test6's first run: slot 1 valid with true, slot 2 valid with false. */
  function AndTrueFalseCache(): seq<bool> {
    Init(AndTrueFalse()).cache[2 := true][3 := true][4 := true][5 := false]
  }

  lemma AndTrueFalsePass1()
    ensures Iterate(AndTrueFalse(), At(0, 0, U, true, false, ModeNone, Init(AndTrueFalse()).cache, 0))
            == Next(At(kAnd, 1, U - 1, true, false, ModeAnd, Init(AndTrueFalse()).cache, 2))
  {
  }

  lemma AndTrueFalsePass2()
    ensures var c := Init(AndTrueFalse()).cache;
      Iterate(AndTrueFalse(), At(kAnd, 1, U - 1, true, false, ModeAnd, c, 2))
      == Next(At(kTrue, 2, U - 2, true, false, ModeAnd, c[2 := true][3 := true], 4))
  {
  }

  lemma AndTrueFalsePass3()
    ensures var c := Init(AndTrueFalse()).cache[2 := true][3 := true];
      Iterate(AndTrueFalse(), At(kTrue, 2, U - 2, true, false, ModeAnd, c, 4))
      == Next(At(kFalse, 3, U - 3, false, false, ModeAnd, AndTrueFalseCache(), 6))
  {
  }

  /** kAnd with Result false short-circuits: the pass is a forced return, which stops the top level. */
  lemma AndTrueFalseShortCircuit(op: Word, pc: Word, count: Word, cursor: nat)
    requires count > 0 && cursor + 2 <= kBits * |AndTrueFalse().code|
    ensures Iterate(AndTrueFalse(), At(op, pc, count, false, false, ModeAnd, AndTrueFalseCache(), cursor))
            == Stop(At(kReturn, pc, count, false, false, ModeAnd, AndTrueFalseCache(), cursor + 2))
  {
  }

  /** test6's first run: And, True, then the False ends the block; false, with pc 3. */
  lemma AndTrueFalseFirstRun()
    ensures Run(AndTrueFalse(), Init(AndTrueFalse()), 0, 0, 5)
            == Done(At(kReturn, 3, U - 3, false, false, ModeAnd, AndTrueFalseCache(), 8), false)
  {
    var p, c, d := AndTrueFalse(), Init(AndTrueFalse()).cache, AndTrueFalseCache();
    var c2 := c[2 := true][3 := true];
    Enter(p, Init(p), 5);
    AndTrueFalsePass1();
    PassOn(p, At(0, 0, U, true, false, ModeNone, c, 0), At(kAnd, 1, U - 1, true, false, ModeAnd, c, 2), 5);
    AndTrueFalsePass2();
    PassOn(p, At(kAnd, 1, U - 1, true, false, ModeAnd, c, 2), At(kTrue, 2, U - 2, true, false, ModeAnd, c2, 4), 4);
    AndTrueFalsePass3();
    PassOn(p, At(kTrue, 2, U - 2, true, false, ModeAnd, c2, 4), At(kFalse, 3, U - 3, false, false, ModeAnd, d, 6), 3);
    AndTrueFalseShortCircuit(kFalse, 3, U - 3, 6);
    Stops(p, At(kFalse, 3, U - 3, false, false, ModeAnd, d, 6), At(kReturn, 3, U - 3, false, false, ModeAnd, d, 8), 2);
  }

  /** test6's second run: the And mode and the false Result are still there, so the first pass short-circuits. */
  lemma AndTrueFalseSecondRun()
    ensures Run(AndTrueFalse(), At(kReturn, 3, U - 3, false, false, ModeAnd, AndTrueFalseCache(), 8), 0, 0, 5)
            == Done(At(kReturn, 0, U, false, false, ModeAnd, AndTrueFalseCache(), 2), false)
  {
    var p, d := AndTrueFalse(), AndTrueFalseCache();
    Enter(p, At(kReturn, 3, U - 3, false, false, ModeAnd, d, 8), 5);
    AndTrueFalseShortCircuit(kReturn, 0, U, 0);
    Stops(p, At(kReturn, 0, U, false, false, ModeAnd, d, 0), At(kReturn, 0, U, false, false, ModeAnd, d, 2), 5);
  }

  lemma AndTrueFalseBits()
    ensures SetBits(AndTrueFalseCache()) == {2, 3, 4}
  {
    var d := AndTrueFalseCache();
    assert forall i: nat :: i < |d| ==> (d[i] <==> 2 <= i <= 4);
  }

  /** test6, kAnd then [kTrue; kFalse; ...]: the And block stops after the first false; false both times, pc 3. */
  lemma Test6()
    ensures var p := AndTrueFalse();
      var r1 := Run(p, Init(p), 0, 0, 5);
      r1.Done? && !r1.value && r1.s.regs.pc == 3 &&
      var r2 := Run(p, r1.s, 0, 0, 5);
      r2.Done? && !r2.value && SetBits(r2.s.cache) == {2, 3, 4}
  {
    AndTrueFalseFirstRun();
    AndTrueFalseSecondRun();
    AndTrueFalseBits();
  }

  /** The caching instruction for a value. */
  function Lit(v: bool): Word {
    if v then kTrue else kFalse
  }

  /**
   * test7's program when v is false, test8's when v is true: a kExecute of
   * mode kNone and budget 1 into slot 3, whose instruction yields v; slots 2
   * and 4 yield the opposite value but are never reached.
   */
  function ExecuteBlock(v: bool): Program {
    Program(seq(24, i => var k := i / kSize;
                         if i % kSize != 0 then (if k == 0 then [0, 1, 3, 1][i % kSize] else 0)
                         else if k == 0 then kExecute else if k == 1 || k == 5 then kHalt
                         else if k == 3 then Lit(v) else Lit(!v)),
            Stub())
  }

  /** The registers the kExecute in slot 0 saves: pc already stepped past it. */
  function Caller(): Registers {
    Registers(kExecute, 1, 3, 1, 1, U - 1, true, false, ModeNone)
  }

  /** The cache after the first run: the block's slot 3 and the calling slot 0 both valid with v. */
  function ExecuteBlockCache(v: bool): seq<bool> {
    Init(ExecuteBlock(v)).cache[6 := true][7 := v][0 := true][1 := v]
  }

  /** Where both runs end: the kHalt in slot 1, pc 2. */
  function ExecuteBlockLast(v: bool): State {
    At(kHalt, 2, U - 2, v, false, ModeNone, ExecuteBlockCache(v), 4)
  }

  /** The kExecute pushes the registers and enters slot 3 with a budget of one instruction. */
  lemma ExecuteBlockPass1(v: bool)
    ensures var c := Init(ExecuteBlock(v)).cache;
      Iterate(ExecuteBlock(v), At(0, 0, U, true, false, ModeNone, c, 0))
      == Next(State(Registers(0, 0, 0, 0, 3, 1, true, false, ModeNone), [Caller()], c, 6, []))
  {
  }

  /** The block's one instruction fills slot 3 and uses up the budget. */
  lemma ExecuteBlockPass2(v: bool)
    ensures var c := Init(ExecuteBlock(v)).cache;
      Iterate(ExecuteBlock(v), State(Registers(0, 0, 0, 0, 3, 1, true, false, ModeNone), [Caller()], c, 6, []))
      == Next(State(Registers(Lit(v), 0, 0, 0, 4, 0, v, false, ModeNone), [Caller()], c[6 := true][7 := v], 8, []))
  {
    var p, c := ExecuteBlock(v), Init(ExecuteBlock(v)).cache;
    var s := State(Registers(0, 0, 0, 0, 3, 1, true, false, ModeNone), [Caller()], c, 6, []);
    var s1 := State(Registers(Lit(v), 0, 0, 0, 4, 0, true, false, ModeNone), [Caller()], c, 6, []);
    ResolvesTo(p.code, 3, |p.code|);
    assert Fetch(p, s) == Next(s1);
  }

  /** The spent budget forces a return: the caller's registers come back with v, and slot 0 caches v. */
  lemma ExecuteBlockPass3(v: bool)
    ensures var c := Init(ExecuteBlock(v)).cache[6 := true][7 := v];
      Iterate(ExecuteBlock(v), State(Registers(Lit(v), 0, 0, 0, 4, 0, v, false, ModeNone), [Caller()], c, 8, []))
      == Next(State(Caller().(r := v), [], ExecuteBlockCache(v), 2, []))
  {
  }

  /** The kHalt in slot 1 stops the run, whatever instruction the registers last held. */
  lemma ExecuteBlockHalt(v: bool, op: Word, a: Word, b: Word, c: Word)
    ensures Iterate(ExecuteBlock(v), State(Registers(op, a, b, c, 1, U - 1, v, false, ModeNone), [], ExecuteBlockCache(v), 2, []))
            == Stop(ExecuteBlockLast(v))
  {
    var p, d := ExecuteBlock(v), ExecuteBlockCache(v);
    var s := State(Registers(op, a, b, c, 1, U - 1, v, false, ModeNone), [], d, 2, []);
    ResolvesTo(p.code, 1, |p.code|);
    assert Fetch(p, s) == Next(s.(regs := Registers(kHalt, 0, 0, 0, 2, U - 2, v, false, ModeNone)));
  }

  /** On the second run slot 0 is valid: its cached v is the Result, and nothing is entered. */
  lemma ExecuteBlockHit(v: bool)
    ensures Iterate(ExecuteBlock(v), At(kHalt, 0, U, v, false, ModeNone, ExecuteBlockCache(v), 0))
            == Next(At(kHalt, 1, U - 1, v, false, ModeNone, ExecuteBlockCache(v), 2))
  {
  }

  lemma ExecuteBlockFirstRun(v: bool)
    ensures Run(ExecuteBlock(v), Init(ExecuteBlock(v)), 0, 0, 5) == Done(ExecuteBlockLast(v), v)
  {
    var p, c := ExecuteBlock(v), Init(ExecuteBlock(v)).cache;
    var s1 := State(Registers(0, 0, 0, 0, 3, 1, true, false, ModeNone), [Caller()], c, 6, []);
    var s2 := State(Registers(Lit(v), 0, 0, 0, 4, 0, v, false, ModeNone), [Caller()], c[6 := true][7 := v], 8, []);
    var s3 := State(Caller().(r := v), [], ExecuteBlockCache(v), 2, []);
    Enter(p, Init(p), 5);
    ExecuteBlockPass1(v);
    PassOn(p, At(0, 0, U, true, false, ModeNone, c, 0), s1, 5);
    ExecuteBlockPass2(v);
    PassOn(p, s1, s2, 4);
    ExecuteBlockPass3(v);
    PassOn(p, s2, s3, 3);
    ExecuteBlockHalt(v, kExecute, 1, 3, 1);
    Stops(p, s3, ExecuteBlockLast(v), 2);
  }

  lemma ExecuteBlockSecondRun(v: bool)
    ensures Run(ExecuteBlock(v), ExecuteBlockLast(v), 0, 0, 5) == Done(ExecuteBlockLast(v), v)
  {
    var p, d := ExecuteBlock(v), ExecuteBlockCache(v);
    Enter(p, ExecuteBlockLast(v), 5);
    ExecuteBlockHit(v);
    PassOn(p, At(kHalt, 0, U, v, false, ModeNone, d, 0), At(kHalt, 1, U - 1, v, false, ModeNone, d, 2), 5);
    ExecuteBlockHalt(v, kHalt, 0, 0, 0);
    Stops(p, At(kHalt, 1, U - 1, v, false, ModeNone, d, 2), ExecuteBlockLast(v), 4);
  }

  lemma ExecuteBlockBits(v: bool)
    ensures SetBits(ExecuteBlockCache(v)) == if v then {0, 1, 6, 7} else {0, 6}
  {
    var d := ExecuteBlockCache(v);
    assert forall i: nat :: i < |d| ==> (d[i] <==> i == 0 || i == 6 || (v && (i == 1 || i == 7)));
  }

  /** test7: the block [kFalse] with budget 1 returns false into slot 0; false both times, pc 2. */
  lemma Test7()
    ensures var p := ExecuteBlock(false);
      var r1 := Run(p, Init(p), 0, 0, 5);
      r1.Done? && !r1.value && r1.s.regs.pc == 2 &&
      var r2 := Run(p, r1.s, 0, 0, 5);
      r2.Done? && !r2.value && SetBits(r2.s.cache) == {0, 6}
  {
    ExecuteBlockFirstRun(false);
    ExecuteBlockSecondRun(false);
    ExecuteBlockBits(false);
  }

  /** test8: the block [kTrue] with budget 1 returns true into slot 0; true both times, pc 2. */
  lemma Test8()
    ensures var p := ExecuteBlock(true);
      var r1 := Run(p, Init(p), 0, 0, 5);
      r1.Done? && r1.value && r1.s.regs.pc == 2 &&
      var r2 := Run(p, r1.s, 0, 0, 5);
      r2.Done? && r2.value && SetBits(r2.s.cache) == {0, 1, 6, 7}
  {
    ExecuteBlockFirstRun(true);
    ExecuteBlockSecondRun(true);
    ExecuteBlockBits(true);
  }

  /** A top-level state at slot pc with the budget spent by pc steps, mode kNone and no pending Not. */
  function Top(op: Word, a: Word, b: Word, c: Word, pc: Word, r: bool, cache: seq<bool>, log: seq<PrintCall>): State {
    State(Registers(op, a, b, c, pc, U - pc, r, false, ModeNone), [], cache, 2 * pc, log)
  }

  /** test9's program: a kExecuteSingle redirected to the kPrintError in slot 2, then kHalt. */
  function SinglePrint(): Program {
    Program([kExecuteSingle, 2, 0, 0, kHalt, 0, 0, 0, kPrintError, 1, 0, 0], Stub())
  }

  /** The redirect loads slot 2's print, which is issued; pc steps from slot 0 to 1 all the same. */
  lemma SinglePrintPass1(op: Word, log: seq<PrintCall>)
    ensures var c := Init(SinglePrint()).cache;
      Iterate(SinglePrint(), Top(op, 0, 0, 0, 0, true, c, log))
      == Next(Top(kPrintError, 1, 0, 0, 1, true, c, log + [PrintCall(kPrintError, 1, 0)]))
  {
  }

  lemma SinglePrintPass2(log: seq<PrintCall>)
    ensures var c := Init(SinglePrint()).cache;
      Iterate(SinglePrint(), Top(kPrintError, 1, 0, 0, 1, true, c, log))
      == Stop(Top(kHalt, 0, 0, 0, 2, true, c, log))
  {
    var p, c := SinglePrint(), Init(SinglePrint()).cache;
    ResolvesTo(p.code, 1, |p.code|);
    assert Fetch(p, Top(kPrintError, 1, 0, 0, 1, true, c, log)) == Next(Top(kHalt, 0, 0, 0, 2, true, c, log).(cursor := 2));
  }

  lemma SinglePrintRun(op: Word, log: seq<PrintCall>)
    ensures var c := Init(SinglePrint()).cache;
      RunFrom(SinglePrint(), Top(op, 0, 0, 0, 0, true, c, log), 5)
      == Done(Top(kHalt, 0, 0, 0, 2, true, c, log + [PrintCall(kPrintError, 1, 0)]), true)
  {
    var p, c := SinglePrint(), Init(SinglePrint()).cache;
    var l1 := log + [PrintCall(kPrintError, 1, 0)];
    SinglePrintPass1(op, log);
    PassOn(p, Top(op, 0, 0, 0, 0, true, c, log), Top(kPrintError, 1, 0, 0, 1, true, c, l1), 5);
    SinglePrintPass2(l1);
    Stops(p, Top(kPrintError, 1, 0, 0, 1, true, c, l1), Top(kHalt, 0, 0, 0, 2, true, c, l1), 4);
  }

  /** test9: true both times with pc 2 (the pc after slot 0, not after slot 2); the message is printed on each run. */
  lemma Test9()
    ensures var p := SinglePrint();
      var r1 := Run(p, Init(p), 0, 0, 5);
      r1.Done? && r1.value && r1.s.regs.pc == 2 && r1.s.log == [PrintCall(kPrintError, 1, 0)] &&
      var r2 := Run(p, r1.s, 0, 0, 5);
      r2.Done? && r2.value && r2.s.log == [PrintCall(kPrintError, 1, 0), PrintCall(kPrintError, 1, 0)]
  {
    var p, c := SinglePrint(), Init(SinglePrint()).cache;
    var l1 := [PrintCall(kPrintError, 1, 0)];
    Enter(p, Init(p), 5);
    SinglePrintRun(0, []);
    Enter(p, Top(kHalt, 0, 0, 0, 2, true, c, l1), 5);
    SinglePrintRun(kHalt, l1);
  }

  /** test10's program: kFalse, prints guarded by kAnd and kOr, kFlip, the same prints again, kHalt. */
  function GuardedPrints(): Program {
    Program(seq(28, i => var k := i / kSize;
                         if i % kSize == 0 then
                           (if k == 0 then kFalse else if k == 3 then kFlip else if k == 6 then kHalt else kPrintError)
                         else if i % kSize == 1 then (if k == 1 || k == 2 then 1 else if k == 4 || k == 5 then 5 else 0)
                         else if i % kSize == 3 then (if k == 1 || k == 4 then 2 else if k == 2 || k == 5 then 3 else 0)
                         else 0),
            Stub())
  }

  /** The cache after the kFalse (slot 0 valid with false). */
  function GuardedPrintsCache0(): seq<bool> {
    Init(GuardedPrints()).cache[0 := true][1 := false]
  }

  /** The cache after the kFlip as well (slot 3 valid with the raw value true). */
  function GuardedPrintsCache(): seq<bool> {
    GuardedPrintsCache0()[6 := true][7 := true]
  }

  const FooPrint := PrintCall(kPrintError, 1, 0)
  const BarPrint := PrintCall(kPrintError, 5, 0)

  lemma GuardedPrintsPass1()
    ensures Iterate(GuardedPrints(), Top(0, 0, 0, 0, 0, true, Init(GuardedPrints()).cache, []))
            == Next(Top(kFalse, 0, 0, 0, 1, false, GuardedPrintsCache0(), []))
  {
    var p, c := GuardedPrints(), Init(GuardedPrints()).cache;
    ResolvesTo(p.code, 0, |p.code|);
    assert Fetch(p, Top(0, 0, 0, 0, 0, true, c, [])) == Next(Top(kFalse, 0, 0, 0, 1, true, c, []).(cursor := 0));
    assert Dispatch(p, Top(kFalse, 0, 0, 0, 1, true, c, []).(cursor := 0))
           == Next(Top(kFalse, 0, 0, 0, 1, false, GuardedPrintsCache0(), []));
  }

  /** The print guarded by kAnd is skipped while the Result is false. */
  lemma GuardedPrintsPass2(op: Word, c: seq<bool>, log: seq<PrintCall>)
    requires c == GuardedPrintsCache0() || c == GuardedPrintsCache()
    ensures Iterate(GuardedPrints(), Top(op, 0, 0, 0, 1, false, c, log))
            == Next(Top(kPrintError, 1, 0, 2, 2, false, c, log))
  {
  }

  /** The print guarded by kOr is issued while the Result is false. */
  lemma GuardedPrintsPass3(c: seq<bool>, log: seq<PrintCall>)
    requires c == GuardedPrintsCache0() || c == GuardedPrintsCache()
    ensures Iterate(GuardedPrints(), Top(kPrintError, 1, 0, 2, 2, false, c, log))
            == Next(Top(kPrintError, 1, 0, 3, 3, false, c, log + [FooPrint]))
  {
  }

  /** The kFlip turns the Result true and caches it. */
  lemma GuardedPrintsFlip(log: seq<PrintCall>)
    ensures Iterate(GuardedPrints(), Top(kPrintError, 1, 0, 3, 3, false, GuardedPrintsCache0(), log))
            == Next(Top(kFlip, 0, 0, 0, 4, true, GuardedPrintsCache(), log))
  {
  }

  /** On the second run the kFlip's slot is a hit and gives the cached true. */
  lemma GuardedPrintsFlipHit(log: seq<PrintCall>)
    ensures Iterate(GuardedPrints(), Top(kPrintError, 1, 0, 3, 3, false, GuardedPrintsCache(), log))
            == Next(Top(kPrintError, 1, 0, 3, 4, true, GuardedPrintsCache(), log))
  {
  }

  /** On the second run slot 0 is a hit and gives the cached false. */
  lemma GuardedPrintsHit(log: seq<PrintCall>)
    ensures Iterate(GuardedPrints(), Top(kHalt, 0, 0, 0, 0, true, GuardedPrintsCache(), log))
            == Next(Top(kHalt, 0, 0, 0, 1, false, GuardedPrintsCache(), log))
  {
  }

  /** With the Result true the kAnd-guarded print is issued. */
  lemma GuardedPrintsPass5(op: Word, a: Word, c: Word, log: seq<PrintCall>)
    ensures Iterate(GuardedPrints(), Top(op, a, 0, c, 4, true, GuardedPrintsCache(), log))
            == Next(Top(kPrintError, 5, 0, 2, 5, true, GuardedPrintsCache(), log + [BarPrint]))
  {
  }

  /** With the Result true the kOr-guarded print is skipped. */
  lemma GuardedPrintsPass6(log: seq<PrintCall>)
    ensures Iterate(GuardedPrints(), Top(kPrintError, 5, 0, 2, 5, true, GuardedPrintsCache(), log))
            == Next(Top(kPrintError, 5, 0, 3, 6, true, GuardedPrintsCache(), log))
  {
  }

  lemma GuardedPrintsPass7(log: seq<PrintCall>)
    ensures Iterate(GuardedPrints(), Top(kPrintError, 5, 0, 3, 6, true, GuardedPrintsCache(), log))
            == Stop(Top(kHalt, 0, 0, 0, 7, true, GuardedPrintsCache(), log))
  {
  }

  /** From slot 4 on, both runs do the same: the run ends true at pc 7 with one more print. */
  lemma GuardedPrintsTailRun(op: Word, a: Word, c: Word, log: seq<PrintCall>)
    ensures var d := GuardedPrintsCache();
      RunFrom(GuardedPrints(), Top(op, a, 0, c, 4, true, d, log), 4)
      == Done(Top(kHalt, 0, 0, 0, 7, true, d, log + [BarPrint]), true)
  {
    var p, d, l := GuardedPrints(), GuardedPrintsCache(), log + [BarPrint];
    GuardedPrintsPass5(op, a, c, log);
    GuardedPrintsPass6(l);
    GuardedPrintsPass7(l);
    PassOn(p, Top(op, a, 0, c, 4, true, d, log), Top(kPrintError, 5, 0, 2, 5, true, d, l), 4);
    PassOn(p, Top(kPrintError, 5, 0, 2, 5, true, d, l), Top(kPrintError, 5, 0, 3, 6, true, d, l), 3);
    Stops(p, Top(kPrintError, 5, 0, 3, 6, true, d, l), Top(kHalt, 0, 0, 0, 7, true, d, l), 2);
  }

  /** The first run up to slot 4: kFalse, the skipped and the issued print, then the kFlip. */
  lemma GuardedPrintsFirstHead()
    ensures RunFrom(GuardedPrints(), Top(0, 0, 0, 0, 0, true, Init(GuardedPrints()).cache, []), 8)
            == RunFrom(GuardedPrints(), Top(kFlip, 0, 0, 0, 4, true, GuardedPrintsCache(), [FooPrint]), 4)
  {
    var p, c0, c, d := GuardedPrints(), Init(GuardedPrints()).cache, GuardedPrintsCache0(), GuardedPrintsCache();
    GuardedPrintsPass1();
    PassOn(p, Top(0, 0, 0, 0, 0, true, c0, []), Top(kFalse, 0, 0, 0, 1, false, c, []), 8);
    GuardedPrintsPass2(kFalse, c, []);
    PassOn(p, Top(kFalse, 0, 0, 0, 1, false, c, []), Top(kPrintError, 1, 0, 2, 2, false, c, []), 7);
    GuardedPrintsPass3(c, []);
    PassOn(p, Top(kPrintError, 1, 0, 2, 2, false, c, []), Top(kPrintError, 1, 0, 3, 3, false, c, [FooPrint]), 6);
    GuardedPrintsFlip([FooPrint]);
    PassOn(p, Top(kPrintError, 1, 0, 3, 3, false, c, [FooPrint]), Top(kFlip, 0, 0, 0, 4, true, d, [FooPrint]), 5);
  }

  lemma GuardedPrintsFirstRun()
    ensures Run(GuardedPrints(), Init(GuardedPrints()), 0, 0, 8)
            == Done(Top(kHalt, 0, 0, 0, 7, true, GuardedPrintsCache(), [FooPrint, BarPrint]), true)
  {
    var p := GuardedPrints();
    Enter(p, Init(p), 8);
    GuardedPrintsFirstHead();
    GuardedPrintsTailRun(kFlip, 0, 0, [FooPrint]);
  }

  /** The second run up to slot 4: the hit on slot 0, the same two prints, then the hit on the kFlip's slot. */
  lemma GuardedPrintsSecondHead(log: seq<PrintCall>)
    ensures var d := GuardedPrintsCache();
      RunFrom(GuardedPrints(), Top(kHalt, 0, 0, 0, 0, true, d, log), 8)
      == RunFrom(GuardedPrints(), Top(kPrintError, 1, 0, 3, 4, true, d, log + [FooPrint]), 4)
  {
    var p, d := GuardedPrints(), GuardedPrintsCache();
    var l1 := log + [FooPrint];
    GuardedPrintsHit(log);
    PassOn(p, Top(kHalt, 0, 0, 0, 0, true, d, log), Top(kHalt, 0, 0, 0, 1, false, d, log), 8);
    GuardedPrintsPass2(kHalt, d, log);
    PassOn(p, Top(kHalt, 0, 0, 0, 1, false, d, log), Top(kPrintError, 1, 0, 2, 2, false, d, log), 7);
    GuardedPrintsPass3(d, log);
    PassOn(p, Top(kPrintError, 1, 0, 2, 2, false, d, log), Top(kPrintError, 1, 0, 3, 3, false, d, l1), 6);
    GuardedPrintsFlipHit(l1);
    PassOn(p, Top(kPrintError, 1, 0, 3, 3, false, d, l1), Top(kPrintError, 1, 0, 3, 4, true, d, l1), 5);
  }

  lemma GuardedPrintsSecondRun(log: seq<PrintCall>)
    ensures var last := Top(kHalt, 0, 0, 0, 7, true, GuardedPrintsCache(), log);
      Run(GuardedPrints(), last, 0, 0, 8)
      == Done(Top(kHalt, 0, 0, 0, 7, true, GuardedPrintsCache(), log + [FooPrint, BarPrint]), true)
  {
    var p, d := GuardedPrints(), GuardedPrintsCache();
    Enter(p, Top(kHalt, 0, 0, 0, 7, true, d, log), 8);
    GuardedPrintsSecondHead(log);
    GuardedPrintsTailRun(kPrintError, 1, 3, log + [FooPrint]);
    assert log + [FooPrint] + [BarPrint] == log + [FooPrint, BarPrint];
  }

  lemma GuardedPrintsBits()
    ensures SetBits(GuardedPrintsCache()) == {0, 6, 7}
  {
    var d := GuardedPrintsCache();
    assert forall i: nat :: i < |d| ==> (d[i] <==> i == 0 || i == 6 || i == 7);
  }

  /**
   * test10: true both times, ending at pc 7; each run prints the kOr-guarded
   * message while the Result is false and the kAnd-guarded one once the
   * kFlip has made it true.
   */
  lemma Test10()
    ensures var p := GuardedPrints();
      var r1 := Run(p, Init(p), 0, 0, 8);
      r1.Done? && r1.value && r1.s.log == [FooPrint, BarPrint] &&
      var r2 := Run(p, r1.s, 0, 0, 8);
      r2.Done? && r2.value && r2.s.regs.pc == 7 && r2.s.log == [FooPrint, BarPrint, FooPrint, BarPrint]
      && SetBits(r2.s.cache) == {0, 6, 7}
  {
    GuardedPrintsFirstRun();
    GuardedPrintsSecondRun([FooPrint, BarPrint]);
    GuardedPrintsBits();
  }

  /** [kTrue; kNot; kHalt]: the Not is still pending when the program halts. */
  function TrueNot(): Program {
    Program([kTrue, 0, 0, 0, kNot, 0, 0, 0, kHalt, 0, 0, 0], Stub())
  }

  /** The cache after its first run: slot 0 valid with the value true. */
  function TrueNotCache(): seq<bool> {
    Init(TrueNot()).cache[0 := true][1 := true]
  }

  lemma TrueNotPass1()
    ensures Iterate(TrueNot(), At(0, 0, U, true, false, ModeNone, Init(TrueNot()).cache, 0))
            == Next(At(kTrue, 1, U - 1, true, false, ModeNone, TrueNotCache(), 2))
  {
  }

  lemma TrueNotPass2(op: Word, r: bool)
    ensures Iterate(TrueNot(), At(op, 1, U - 1, r, false, ModeNone, TrueNotCache(), 2))
            == Next(At(kNot, 2, U - 2, r, true, ModeNone, TrueNotCache(), 4))
  {
    var p, d := TrueNot(), TrueNotCache();
    ResolvesTo(p.code, 1, |p.code|);
    assert Fetch(p, At(op, 1, U - 1, r, false, ModeNone, d, 2)) == Next(At(kNot, 2, U - 2, r, false, ModeNone, d, 2));
  }

  lemma TrueNotPass3(r: bool)
    ensures Iterate(TrueNot(), At(kNot, 2, U - 2, r, true, ModeNone, TrueNotCache(), 4))
            == Stop(At(kHalt, 3, U - 3, r, true, ModeNone, TrueNotCache(), 6))
  {
  }

  /** A hit on slot 0 folds the cached true through whatever Not is pending. */
  lemma TrueNotHit(op: Word, n: bool)
    ensures Iterate(TrueNot(), At(op, 0, U, true, n, ModeNone, TrueNotCache(), 0))
            == Next(At(op, 1, U - 1, !n, false, ModeNone, TrueNotCache(), 2))
  {
  }

  /**
   * As written, the second `run` of [kTrue; kNot; kHalt] starts with the Not
   * of the first still pending, folds it into the cached true and returns
   * false after a first run that returned true; the corrected run returns
   * true again.
   */
  lemma PendingNotFlipsSecondRun()
    ensures var p := TrueNot();
      var r1 := Run(p, Init(p), 0, 0, 6);
      r1.Done? && r1.value && r1.s.regs.n &&
      var r2 := Run(p, r1.s, 0, 0, 6);
      r2.Done? && !r2.value &&
      var r3 := Rerun(p, r1.s, 0, 0, 6);
      r3.Done? && r3.value
  {
    var p, c, d := TrueNot(), Init(TrueNot()).cache, TrueNotCache();
    var last := At(kHalt, 3, U - 3, true, true, ModeNone, d, 6);
    Enter(p, Init(p), 6);
    TrueNotPass1();
    PassOn(p, At(0, 0, U, true, false, ModeNone, c, 0), At(kTrue, 1, U - 1, true, false, ModeNone, d, 2), 6);
    TrueNotPass2(kTrue, true);
    PassOn(p, At(kTrue, 1, U - 1, true, false, ModeNone, d, 2), At(kNot, 2, U - 2, true, true, ModeNone, d, 4), 5);
    TrueNotPass3(true);
    Stops(p, At(kNot, 2, U - 2, true, true, ModeNone, d, 4), last, 4);
    assert Run(p, Init(p), 0, 0, 6) == Done(last, true);
    var flipped := At(kHalt, 3, U - 3, false, true, ModeNone, d, 6);
    Enter(p, last, 6);
    TrueNotHit(kHalt, true);
    PassOn(p, At(kHalt, 0, U, true, true, ModeNone, d, 0), At(kHalt, 1, U - 1, false, false, ModeNone, d, 2), 6);
    TrueNotPass2(kHalt, false);
    PassOn(p, At(kHalt, 1, U - 1, false, false, ModeNone, d, 2), At(kNot, 2, U - 2, false, true, ModeNone, d, 4), 5);
    TrueNotPass3(false);
    Stops(p, At(kNot, 2, U - 2, false, true, ModeNone, d, 4), flipped, 4);
    assert Run(p, last, 0, 0, 6) == Done(flipped, false);
    Enter(p, last.(regs := Restart), 6);
    TrueNotHit(0, false);
    PassOn(p, At(0, 0, U, true, false, ModeNone, d, 0), At(0, 1, U - 1, true, false, ModeNone, d, 2), 6);
    TrueNotPass2(0, true);
    PassOn(p, At(0, 1, U - 1, true, false, ModeNone, d, 2), At(kNot, 2, U - 2, true, true, ModeNone, d, 4), 5);
    Stops(p, At(kNot, 2, U - 2, true, true, ModeNone, d, 4), last, 4);
    assert Rerun(p, last, 0, 0, 6) == Done(last, true);
  }
}
