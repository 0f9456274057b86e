/**
 * What the rule engine's virtual machine promises, proved about the
 * functions of `Machine`: the budget and the short-circuit force a return
 * without running or asking anything, a cache hit stands in for the
 * instruction it memoises, only caching instructions write the cache,
 * prints obey their guard mode, and fuel is only a bound.
 */
module MachineProperties {
  import opened Opcodes
  import opened Machine

  /** The raw value a caching instruction computes, before a pending Not is applied. */
  function Raw(p: Program, g: Registers): (v: bool)
    requires IsCaching(g.op)
    ensures g.op == kTrue ==> v
    ensures g.op == kFalse ==> !v
    ensures g.op == kFlip ==> v == !g.r
  {
    if g.op == kTrue then true
    else if g.op == kFalse then false
    else if g.op == kFlip then !g.r
    else p.backend(Query(g.op, g.a, g.b, g.c))
  }

  /** There is room in the bitmap for the two bits of the slot under the cursor. */
  ghost predicate Room(p: Program, s: State) {
    WellFormed(p, s) && s.cursor + 2 <= kBits * |p.code|
  }

  /**
   * A caching instruction sets its slot's valid bit, stores its raw value in
   * the value bit, and folds that value through `result()`; the stack and the
   * prints are untouched.
   */
  lemma CachingStoresRawValue(p: Program, s: State)
    requires Room(p, s) && IsCaching(s.regs.op)
    ensures Dispatch(p, s).Next?
    ensures var t := Dispatch(p, s).s;
      t.cache == s.cache[s.cursor := true][s.cursor + 1 := Raw(p, s.regs)]
      && t.regs == Result(s.regs, Raw(p, s.regs)) && t.cursor == s.cursor + 2
      && t.stack == s.stack && t.log == s.log
  {
  }

  /** Every other instruction except `kExecute` leaves the cache bits as they were. */
  lemma OthersLeaveCache(p: Program, s: State)
    requires WellFormed(p, s) && !IsCaching(s.regs.op) && s.regs.op != kExecute
    ensures Dispatch(p, s).Next? ==> Dispatch(p, s).s.cache == s.cache
  {
  }

  /** A print runs unless its guard mode and the Result register suppress it, and changes nothing else. */
  lemma PrintObeysGuard(p: Program, s: State)
    requires Room(p, s) && IsPrint(s.regs.op) && s.regs.c < ModeUpperBound
    ensures Dispatch(p, s).Next?
    ensures var t := Dispatch(p, s).s;
      t.log == s.log + (if PrintSuppressed(s.regs.c, s.regs.r) then []
                        else [PrintCall(s.regs.op, s.regs.a, s.regs.b)])
      && t.regs == s.regs && t.cache == s.cache && t.cursor == s.cursor + 2
  {
  }

  /** A print whose guard is not a mode (c >= 4) is a failed assertion. */
  lemma PrintGuardOutOfRange(p: Program, s: State)
    requires WellFormed(p, s) && IsPrint(s.regs.op) && s.regs.c >= ModeUpperBound
    ensures Dispatch(p, s) == Fault
  {
  }

  /** The starts-with queries and the other undispatched opcodes are failed assertions. */
  lemma UndispatchedFault(p: Program, s: State)
    requires WellFormed(p, s)
    requires IsStartsWith(s.regs.op) || s.regs.op == kNull || s.regs.op == kExecuteSingle
             || s.regs.op >= kUpperBound
    ensures Dispatch(p, s) == Fault
  {
  }

  /**
   * When the budget is spent, or the mode short-circuits (kAnd with Result
   * false, kOr with Result true), the pass is a forced `kReturn`: nothing is
   * fetched, the backend is not asked, and at top level the run stops with
   * the Result register as it was.
   */
  lemma ForcedReturn(p: Program, s: State, other: Query -> bool)
    requires Room(p, s) && IsMode(s.regs.mode)
    requires s.regs.count == 0 || !Proceeds(s.regs.mode, s.regs.r)
    ensures Iterate(p, s) == Iterate(p.(backend := other), s)
    ensures |s.stack| == 0 ==>
      Iterate(p, s) == Stop(s.(regs := ForceReturn(s.regs), cursor := s.cursor + 2))
  {
  }

  /** An empty budget forces the return whatever the mode and the Result register. */
  lemma BudgetSpentStops(p: Program, s: State)
    requires Room(p, s) && IsMode(s.regs.mode) && s.regs.count == 0 && |s.stack| == 0
    ensures Iterate(p, s).Stop? && Iterate(p, s).s.regs.r == s.regs.r
  {
    ForcedReturn(p, s, p.backend);
  }

  /**
   * A cache hit neither reads the code nor asks the backend: the pass is
   * the same for any code of the same length and any backend.
   */
  lemma CacheHitIgnoresCodeAndBackend(p: Program, s: State, code: seq<Word>, other: Query -> bool)
    requires WellFormed(p, s) && IsMode(s.regs.mode) && s.regs.count > 0
    requires Proceeds(s.regs.mode, s.regs.r) && s.cache[s.cursor]
    requires |code| == |p.code|
    ensures Iterate(p, s) == Iterate(Program(code, other), s)
  {
  }

  /**
   * Memoisation is sound: when a caching instruction runs from an unset slot,
   * the same pass replayed with the cache it filled is a cache hit that ends
   * in the same Result, pc, budget, mode, cursor and cache — only the
   * instruction words are not reloaded.
   */
  lemma CacheHitReplaysInstruction(p: Program, s: State)
    requires Room(p, s) && IsMode(s.regs.mode) && s.regs.count > 0
    requires Proceeds(s.regs.mode, s.regs.r) && !s.cache[s.cursor]
    requires SlotInCode(p.code, s.regs.pc) && IsCaching(p.code[kSize * s.regs.pc])
    ensures Iterate(p, s).Next?
    ensures var t := Iterate(p, s).s;
      var u := s.(cache := t.cache);
      WellFormed(p, u) && Iterate(p, u).Next?
      && Iterate(p, u).s == t.(regs := t.regs.(op := s.regs.op, a := s.regs.a, b := s.regs.b, c := s.regs.c))
  {
    FillingPass(p, s);
    var t := Iterate(p, s).s;
    HittingPass(p, s.(cache := t.cache));
  }

  /** The pass that runs a caching instruction from an unset slot, spelled out. */
  lemma FillingPass(p: Program, s: State)
    requires Room(p, s) && IsMode(s.regs.mode) && s.regs.count > 0
    requires Proceeds(s.regs.mode, s.regs.r) && !s.cache[s.cursor]
    requires SlotInCode(p.code, s.regs.pc) && IsCaching(p.code[kSize * s.regs.pc])
    ensures var f := Step(Load(s.regs, p.code, s.regs.pc));
      Iterate(p, s) == Next(s.(regs := Result(f, Raw(p, f)),
                               cache := s.cache[s.cursor := true][s.cursor + 1 := Raw(p, f)],
                               cursor := s.cursor + 2))
  {
    var op := p.code[kSize * s.regs.pc];
    CachingOpcodes(op);
    assert Resolve(p.code, s.regs.pc, s.regs.pc, |p.code|) == Slot(s.regs.pc);
    var f := Fetch(p, s).s;
    CachingStoresRawValue(p, f);
  }

  /** A pass that finds its slot valid in the cache, spelled out. */
  lemma HittingPass(p: Program, u: State)
    requires Room(p, u) && IsMode(u.regs.mode) && u.regs.count > 0
    requires Proceeds(u.regs.mode, u.regs.r) && u.cache[u.cursor]
    ensures Iterate(p, u) == Next(u.(regs := Step(Result(u.regs, u.cache[u.cursor + 1])), cursor := u.cursor + 2))
  {
  }

  /** A forced return unwinds into a caller by popping, folding the block's Result, and resuming after the call. */
  lemma UnwindResumesCaller(p: Program, s: State)
    requires WellFormed(p, s) && |s.stack| > 0
    requires var top := s.stack[|s.stack| - 1];
      0 < top.pc < |p.code| && kSize * top.pc + kBits <= |p.code|
      && 2 * top.pc + 1 <= kBits * |p.code|
    ensures Unwind(p, s).Next?
    ensures var top := s.stack[|s.stack| - 1];
      var t := Unwind(p, s).s;
      t.regs == Result(top, s.regs.r) && t.stack == s.stack[..|s.stack| - 1]
      && t.cursor == kBits * top.pc
  {
  }

  /**
   * Returning into a `kExecute` slot caches the block's RAW Result there,
   * the one before the caller's pending Not: the valid bit is set and the
   * value bit is the block's Result register.
   */
  lemma UnwindCachesRawBlockResult(p: Program, s: State)
    requires WellFormed(p, s) && |s.stack| > 0
    requires var top := s.stack[|s.stack| - 1];
      0 < top.pc < |p.code| && kSize * top.pc + kBits <= |p.code|
      && p.code[kSize * (top.pc - 1)] == kExecute
    ensures Unwind(p, s).Next?
    ensures var top := s.stack[|s.stack| - 1];
      var t := Unwind(p, s).s;
      t.cache[kBits * (top.pc - 1)] && t.cache[kBits * (top.pc - 1) + 1] == s.regs.r
      && t.regs.r == (s.regs.r != top.n)
  {
    CachesOnReturnAlways(p.code[kSize * (s.stack[|s.stack| - 1].pc - 1) + 1]);
  }

  /** `kExecute` enters its block with the mode's starting Result and the saved registers on the stack. */
  lemma ExecuteEntersBlock(p: Program, s: State)
    requires WellFormed(p, s) && s.regs.op == kExecute && IsMode(s.regs.a) && s.regs.b < |p.code|
    ensures Dispatch(p, s).Next?
    ensures var t := Dispatch(p, s).s;
      t.stack == s.stack + [s.regs] && t.regs.pc == s.regs.b && t.regs.mode == s.regs.a
      && t.regs.r == (s.regs.a != ModeOr) && !t.regs.n
      && t.regs.count == InitialCount(s.regs.c) && t.cursor == kBits * s.regs.b
  {
  }

  /** Fuel is only a bound: a run that ends within some fuel ends the same way with more. */
  lemma RunFromMoreFuel(p: Program, s: State, fuel: nat, more: nat)
    requires WellFormed(p, s) && !RunFrom(p, s, fuel).OutOfFuel?
    ensures RunFrom(p, s, fuel + more) == RunFrom(p, s, fuel)
  {
    ContinueMoreFuel(p, Iterate(p, s), fuel - 1, more);
  }

  /** The same for the rest of a run after a pass. */
  lemma {:induction false} ContinueMoreFuel(p: Program, o: Outcome, fuel: nat, more: nat)
    requires o.Next? || o.Stop? ==> WellFormed(p, o.s)
    requires !Continue(p, o, fuel).OutOfFuel?
    ensures Continue(p, o, fuel + more) == Continue(p, o, fuel)
    decreases fuel
  {
    if o.Next? {
      ContinueMoreFuel(p, Iterate(p, o.s), fuel - 1, more);
    }
  }

  /** A run either ends with the Result register of its final state, or fails, diverges or runs out of fuel. */
  lemma RunValueIsResult(p: Program, s: State, o: Word, j: Word, fuel: nat)
    requires WellFormed(p, s)
    ensures Run(p, s, o, j, fuel).Done? ==> Run(p, s, o, j, fuel).value == Run(p, s, o, j, fuel).s.regs.r
    ensures o >= |p.code| || j >= |p.code| - o ==> Run(p, s, o, j, fuel) == Failed
  {
  }
}
