/**
 * The meaning of the rule engine's virtual machine (vm.h, vm-impl.h) as
 * functions over machine states: one function per register helper, one for
 * `dispatch`, one for a pass of `run`'s main loop, and `RunFrom`, which
 * iterates passes under a fuel bound. The imperative `Vm` class is proved
 * against these functions.
 *
 * A fatal `ASSERT` the bytecode can trigger, and a read outside the code,
 * becomes the outcome `Fault`; a `kExecuteSingle` redirect cycle that `fetch`
 * would follow forever becomes `Hang`.
 */
module Machine {
  import opened Opcodes

  /** Words per instruction (`kSize`) and cache bits per instruction slot (`kBits`). */
  const kSize: nat := 4
  const kBits: nat := 2

  /** Unsigned 32-bit wrap-around. */
  function Wrap(x: int): (w: Word)
    ensures 0 <= x < 0x1_0000_0000 ==> w == x
  {
    x % 0x1_0000_0000
  }

  /** The "unbounded" budget: `-1` stored in a `uint32_t`. */
  const Unbounded: Word := 0xFFFF_FFFF

  datatype Registers = Registers(op: Word, a: Word, b: Word, c: Word, pc: Word, count: Word,
                                 r: bool, n: bool, mode: Word)

  /** `Registers()`: every word 0, Result true, no pending Not, mode kNull. */
  const Defaults: Registers := Registers(0, 0, 0, 0, 0, 0, true, false, ModeNull)

  /** A question put to the request backend: the opcode and its operands (a and b may be arena offsets). */
  datatype Query = Query(op: Word, a: Word, b: Word, c: Word)

  /** A call of the backend's `PrintError` / `PrintDebug`, recorded by the print sink. */
  datatype PrintCall = PrintCall(op: Word, a: Word, b: Word)

  /** The code words and the backend's answers (the template parameter `I`). */
  datatype Program = Program(code: seq<Word>, backend: Query -> bool)

  /** Registers, call stack, the cache bits, the cursor's bit index, and the prints so far. */
  datatype State = State(regs: Registers, stack: seq<Registers>, cache: seq<bool>, cursor: nat,
                         log: seq<PrintCall>)

  datatype Outcome = Next(s: State) | Stop(s: State) | Fault | Hang

  datatype RunResult = Done(s: State, value: bool) | Failed | Diverged | OutOfFuel

  /** Bits actually stored by `Bitmap(words * kBits)`: whole bytes, `size / 8 + 1` of them. */
  function CacheBits(words: nat): nat {
    8 * ((words * kBits) / 8 + 1)
  }

  /** The cache has the bitmap's shape and the cursor is at most the bitmap's `end()`. */
  ghost predicate WellFormed(p: Program, s: State) {
    |s.cache| == CacheBits(|p.code|) && s.cursor <= kBits * |p.code|
  }

  /** The VM constructor: empty stack, mode kNone, every cache bit clear, cursor at `begin()`. */
  function Init(p: Program): (s: State)
    ensures WellFormed(p, s)
    ensures s.stack == [] && s.regs.mode == ModeNone && s.cursor == 0 && s.log == []
    ensures forall i :: 0 <= i < |s.cache| ==> !s.cache[i]
  {
    State(Defaults.(mode := ModeNone), [], seq(CacheBits(|p.code|), _ => false), 0, [])
  }

  /** `forceReturn`: the current instruction becomes `kReturn 0 0 0`. */
  function ForceReturn(g: Registers): (h: Registers)
    ensures h.op == kReturn && h.a == 0 && h.b == 0 && h.c == 0
    ensures h.(op := g.op, a := g.a, b := g.b, c := g.c) == g
  {
    g.(op := kReturn, a := 0, b := 0, c := 0)
  }

  /** `result(v)`: a pending Not negates v once; the flag is cleared either way. */
  function Result(g: Registers, v: bool): (h: Registers)
    ensures h.r == (v != g.n) && !h.n
    ensures h.(r := g.r, n := g.n) == g
  {
    if g.n then g.(r := !v, n := false) else g.(r := v)
  }

  /** `step`: pc up by one, budget down by one (both unsigned 32-bit). */
  function Step(g: Registers): (h: Registers)
    ensures Wrap(h.pc + h.count) == Wrap(g.pc + g.count)
    ensures h.(pc := g.pc, count := g.count) == g
    ensures g.pc < 0xFFFF_FFFF ==> h.pc == g.pc + 1
    ensures g.count > 0 ==> h.count == g.count - 1
  {
    g.(pc := Wrap(g.pc + 1), count := Wrap(g.count - 1))
  }

  /** `stackPush`: the registers are saved and reset to `Registers()`. */
  function StackPush(s: State): (t: State)
    ensures t.regs == Defaults && t.stack == s.stack + [s.regs]
    ensures t.cache == s.cache && t.cursor == s.cursor && t.log == s.log
  {
    s.(stack := s.stack + [s.regs], regs := Defaults)
  }

  /** `stackPop`: the last saved registers come back (the stack must not be empty). */
  function StackPop(s: State): (t: State)
    requires |s.stack| > 0
    ensures t.regs == s.stack[|s.stack| - 1] && t.stack + [t.regs] == s.stack
    ensures t.cache == s.cache && t.cursor == s.cursor && t.log == s.log
  {
    s.(regs := s.stack[|s.stack| - 1], stack := s.stack[..|s.stack| - 1])
  }

  /** Popping undoes pushing. */
  lemma PopUndoesPush(s: State)
    ensures StackPop(StackPush(s)) == s
  {
    assert (s.stack + [s.regs])[..|s.stack|] == s.stack;
  }

  /** `jumpBit(i)`: the cursor moves to slot i's valid bit, 2i; i must be below the code's word count. */
  function JumpBit(p: Program, s: State, i: Word): (o: Outcome)
    requires WellFormed(p, s)
    ensures o.Fault? <==> i >= |p.code|
    ensures o.Next? ==> o.s == s.(cursor := kBits * i) && WellFormed(p, o.s)
    ensures !o.Stop? && !o.Hang?
  {
    if i >= |p.code| then Fault else Next(s.(cursor := kBits * i))
  }

  /** `incrementBit`: the cursor moves one bit on and must stay at or before `end()`. */
  function IncrementBit(p: Program, s: State): (o: Outcome)
    requires WellFormed(p, s)
    ensures o.Fault? <==> s.cursor == kBits * |p.code|
    ensures o.Next? ==> o.s == s.(cursor := s.cursor + 1) && WellFormed(p, o.s)
    ensures !o.Stop? && !o.Hang?
  {
    if s.cursor + 1 > kBits * |p.code| then Fault else Next(s.(cursor := s.cursor + 1))
  }

  /** Assigning the bit under the cursor. */
  function SetBit(p: Program, s: State, v: bool): (t: State)
    requires WellFormed(p, s)
    ensures WellFormed(p, t) && t.cache == s.cache[s.cursor := v] && t.(cache := s.cache) == s
  {
    s.(cache := s.cache[s.cursor := v])
  }

  /**
   * The tail of `dispatch`: a caching instruction sets its slot's valid bit and
   * stores the raw value in the value bit; either way the cursor moves past
   * both bits of the slot.
   */
  function After(p: Program, s: State, cache: bool, v: bool): (o: Outcome)
    requires WellFormed(p, s)
    ensures o.Next? ==> WellFormed(p, o.s) && o.s.cursor == s.cursor + 2
                        && o.s.regs == s.regs && o.s.stack == s.stack && o.s.log == s.log
    ensures o.Next? && cache ==> o.s.cache == s.cache[s.cursor := true][s.cursor + 1 := v]
    ensures o.Next? && !cache ==> o.s.cache == s.cache
    ensures o.Fault? <==> s.cursor + 2 > kBits * |p.code|
    ensures !o.Stop? && !o.Hang?
  {
    var s1 := if cache then SetBit(p, s, true) else s;
    match IncrementBit(p, s1)
    case Next(s2) =>
      var s3 := if cache then SetBit(p, s2, v) else s2;
      IncrementBit(p, s3)
    case _ => Fault
  }

  /** Where a `kExecuteSingle` chain ends: an instruction slot, a failed assertion, or a cycle. */
  datatype Resolved = Slot(t: nat) | BadFetch | Loops

  /** The instruction slot starting at word `kSize * t` lies inside the code. */
  predicate SlotInCode(code: seq<Word>, t: nat) {
    kSize * t + kSize <= |code|
  }

  /**
   * The redirect loop of `fetch`: every hop's target must differ from the
   * original pc and lie below the word count; `hops` bounds how many hops are
   * followed before the chain is known to cycle.
   */
  function Resolve(code: seq<Word>, orig: Word, slot: nat, hops: nat): (r: Resolved)
    ensures r.Slot? ==> SlotInCode(code, r.t) && code[kSize * r.t] != kExecuteSingle
    ensures r.Slot? && r.t != slot ==> r.t != orig
    decreases hops
  {
    if !SlotInCode(code, slot) then BadFetch
    else if code[kSize * slot] != kExecuteSingle then Slot(slot)
    else
      var t := code[kSize * slot + 1];
      if t == orig || t >= |code| then BadFetch
      else if hops == 0 then Loops
      else Resolve(code, orig, t, hops - 1)
  }

  /** The four words of slot t loaded into op, a, b and c. */
  function Load(g: Registers, code: seq<Word>, t: nat): (h: Registers)
    requires SlotInCode(code, t)
  {
    g.(op := code[kSize * t], a := code[kSize * t + 1], b := code[kSize * t + 2], c := code[kSize * t + 3])
  }

  /**
   * `fetch`: follow the redirects from pc, load the instruction found, and step
   * — pc advances by one from its ORIGINAL value, whatever the chain.
   */
  function Fetch(p: Program, s: State): (o: Outcome)
    ensures o.Next? ==> o.s == s.(regs := o.s.regs)
    ensures o.Next? ==> o.s.regs.pc == Wrap(s.regs.pc + 1) && o.s.regs.count == Wrap(s.regs.count - 1)
    ensures o.Next? ==> o.s.regs.op != kExecuteSingle
                        && o.s.regs.(op := s.regs.op, a := s.regs.a, b := s.regs.b, c := s.regs.c)
                           == Step(s.regs)
    ensures !o.Stop?
  {
    match Resolve(p.code, s.regs.pc, s.regs.pc, |p.code|)
    case Slot(t) => Next(s.(regs := Step(Load(s.regs, p.code, t))))
    case BadFetch => Fault
    case Loops => Hang
  }

  /** A print guarded by mode c is skipped when (c is kAnd and Result false) or (c is kOr and Result true). */
  predicate PrintSuppressed(c: Word, r: bool) {
    (c == ModeAnd && !r) || (c == ModeOr && r)
  }

  /** The registers a `kExecute` of mode `m` starts its block with. */
  function BlockRegisters(m: Word, target: Word, budget: Word): (g: Registers)
    requires IsMode(m)
    ensures g.mode == m && g.pc == target && !g.n && g.op == 0
    ensures g.r == (m != ModeOr)
    ensures g.count == (if budget > 0 then budget else Unbounded)
  {
    var h := if m == ModeNone then Defaults.(mode := ModeNone)
             else if m == ModeAnd then Defaults.(mode := ModeAnd, r := true)
             else Defaults.(mode := ModeOr, r := false);
    h.(pc := target, count := if budget > 0 then budget else Unbounded)
  }

  /** `kExecute mode, target, budget`: push the registers and enter the block at `target`. */
  function Execute(p: Program, s: State): (o: Outcome)
    requires WellFormed(p, s)
    ensures o.Fault? <==> !IsMode(s.regs.a) || s.regs.b >= |p.code|
    ensures o.Next? ==> WellFormed(p, o.s) && o.s.stack == s.stack + [s.regs]
                        && o.s.regs == BlockRegisters(s.regs.a, s.regs.b, s.regs.c)
                        && o.s.cursor == kBits * s.regs.b && o.s.cache == s.cache && o.s.log == s.log
    ensures !o.Stop? && !o.Hang?
  {
    var g := s.regs;
    if !IsMode(g.a) then Fault
    else if g.b >= |p.code| then Fault
    else JumpBit(p, State(BlockRegisters(g.a, g.b, g.c), s.stack + [g], s.cache, s.cursor, s.log), g.b)
  }

  /** `dispatch`: the effect of the instruction in the registers. */
  function Dispatch(p: Program, s: State): (o: Outcome)
    requires WellFormed(p, s)
    ensures o.Next? ==> WellFormed(p, o.s)
    ensures !o.Stop? && !o.Hang?
  {
    var g := s.regs;
    if g.op == kSkip || g.op == kReturn || g.op == kHalt then After(p, s, false, false)
    else if g.op == kExecute then Execute(p, s)
    else if g.op == kNone then After(p, s.(regs := g.(mode := ModeNone)), false, false)
    else if g.op == kAnd then After(p, s.(regs := g.(mode := ModeAnd, r := true)), false, false)
    else if g.op == kOr then After(p, s.(regs := g.(mode := ModeOr, r := false)), false, false)
    else if g.op == kNot then After(p, s.(regs := g.(n := true)), false, false)
    else if g.op == kFlip then After(p, s.(regs := Result(g, !g.r)), true, !g.r)
    else if g.op == kTrue then After(p, s.(regs := Result(g, true)), true, true)
    else if g.op == kFalse then After(p, s.(regs := Result(g, false)), true, false)
    else if IsPrint(g.op) then
      if g.c >= ModeUpperBound then Fault
      else if PrintSuppressed(g.c, g.r) then After(p, s, false, false)
      else After(p, s.(log := s.log + [PrintCall(g.op, g.a, g.b)]), false, false)
    else if IsDispatchedQuery(g.op) then
      var v := p.backend(Query(g.op, g.a, g.b, g.c));
      After(p, s.(regs := Result(g, v)), true, v)
    else Fault
  }

  /** The mode test as written on return (`b[1] == kOr || kAnd`): its second operand is a nonzero constant. */
  predicate CachesOnReturnAsWritten(mode: Word) {
    mode == ModeOr || ModeAnd != 0
  }

  /** The mode test the comment and the surrounding code evidently intend. */
  predicate CachesOnReturnIntended(mode: Word) {
    mode == ModeOr || mode == ModeAnd
  }

  /** As written the test accepts every mode, kNone included, which the intended test refuses. */
  lemma CachesOnReturnAlways(mode: Word)
    ensures CachesOnReturnAsWritten(mode)
    ensures !CachesOnReturnIntended(ModeNone) && CachesOnReturnAsWritten(ModeNone)
  {
  }

  /**
   * A `kReturn` with a non-empty stack: pop, fold the block's Result through
   * `result()`, and cache the raw block Result in the calling slot when that
   * slot holds a `kExecute`.
   */
  function Unwind(p: Program, s: State): (o: Outcome)
    requires WellFormed(p, s) && |s.stack| > 0
    ensures o.Next? ==> WellFormed(p, o.s) && o.s.log == s.log
    ensures o.Next? ==> o.s.regs == Result(s.stack[|s.stack| - 1], s.regs.r)
                        && o.s.stack == s.stack[..|s.stack| - 1]
    ensures !o.Stop? && !o.Hang?
  {
    var popped := StackPop(s);
    ReturnTo(p, popped.(regs := Result(popped.regs, s.regs.r)), s.regs.r)
  }

  /**
   * After the pop: the cursor goes back to the bits of the calling slot
   * (pc - 1); when that slot holds a `kExecute`, its valid bit is set and its
   * value bit takes the block's raw Result v.
   */
  function ReturnTo(p: Program, s: State, v: bool): (o: Outcome)
    requires WellFormed(p, s)
    ensures o.Next? ==> WellFormed(p, o.s) && o.s.log == s.log && o.s.regs == s.regs && o.s.stack == s.stack
    ensures !o.Stop? && !o.Hang?
  {
    var pc := s.regs.pc;
    if pc == 0 || pc >= |p.code| then Fault
    else
      var previous := pc - 1;
      match JumpBit(p, s, previous)
      case Next(s2) =>
        if kSize * previous >= |p.code| then Fault
        else if p.code[kSize * previous] != kExecute then After(p, s2, false, false)
        else if kSize * previous + 1 >= |p.code| then Fault
        else After(p, s2, CachesOnReturnAsWritten(p.code[kSize * previous + 1]), v)
      case _ => Fault
  }

  /** What follows `dispatch` in the loop: unwind or stop on kReturn, stop on kHalt. */
  function Settle(p: Program, o: Outcome): (r: Outcome)
    requires o.Next? || o.Stop? ==> WellFormed(p, o.s)
    ensures r.Next? || r.Stop? ==> WellFormed(p, r.s)
  {
    match o
    case Next(s) =>
      if s.regs.op == kReturn then
        if |s.stack| > 0 then Unwind(p, s) else Stop(s)
      else if s.regs.op == kHalt then Stop(s)
      else Next(s)
    case _ => o
  }

  /** Whether the current mode lets the next instruction run (no short-circuit). */
  predicate Proceeds(mode: Word, r: bool) {
    mode == ModeNone || (mode == ModeAnd && r) || (mode == ModeOr && !r)
  }

  /** A cache hit: the cached value goes through `result()` and pc steps; nothing is fetched or asked. */
  function CacheHit(p: Program, s: State): (o: Outcome)
    requires WellFormed(p, s)
    ensures o.Next? ==> WellFormed(p, o.s) && o.s.cursor == s.cursor + 2
                        && o.s.regs == Step(Result(s.regs, s.cache[s.cursor + 1]))
                        && o.s.cache == s.cache && o.s.stack == s.stack && o.s.log == s.log
    ensures !o.Stop? && !o.Hang?
  {
    match IncrementBit(p, s)
    case Next(s1) => IncrementBit(p, s1.(regs := Step(Result(s1.regs, s1.cache[s1.cursor]))))
    case _ => Fault
  }

  /** One pass of `run`'s `while (true)` loop. */
  function Iterate(p: Program, s: State): (o: Outcome)
    requires WellFormed(p, s)
    ensures o.Next? || o.Stop? ==> WellFormed(p, o.s)
  {
    var g := s.regs;
    if !IsMode(g.mode) then Fault
    else if g.count == 0 then Settle(p, Dispatch(p, s.(regs := ForceReturn(g))))
    else if Proceeds(g.mode, g.r) then
      if s.cache[s.cursor] then CacheHit(p, s)
      else
        match Fetch(p, s)
        case Next(s1) => Settle(p, Dispatch(p, s1))
        case o => o
    else Settle(p, Dispatch(p, s.(regs := ForceReturn(g))))
  }

  /** The main loop, at most `fuel` passes; the run's value is the Result register when it stops. */
  function RunFrom(p: Program, s: State, fuel: nat): (r: RunResult)
    requires WellFormed(p, s)
    ensures r.Done? ==> WellFormed(p, r.s) && r.value == r.s.regs.r
    decreases fuel, 0
  {
    if fuel == 0 then OutOfFuel
    else Continue(p, Iterate(p, s), fuel - 1)
  }

  /** The rest of a run after a pass with the given outcome. */
  function Continue(p: Program, o: Outcome, fuel: nat): (r: RunResult)
    requires o.Next? || o.Stop? ==> WellFormed(p, o.s)
    ensures r.Done? ==> WellFormed(p, r.s) && r.value == r.s.regs.r
    decreases fuel, 1
  {
    match o
    case Next(s1) => RunFrom(p, s1, fuel)
    case Stop(s1) => Done(s1, s1.regs.r)
    case Fault => Failed
    case Hang => Diverged
  }

  /** The budget register `run(o, j)` starts with: j, or unbounded for 0. */
  function InitialCount(j: Word): (c: Word)
    ensures c > 0
  {
    if j > 0 then j else Unbounded
  }

  /** `run(o, j)`: o below the word count, j below the words after o; enter at o with budget j. */
  function Run(p: Program, s: State, o: Word, j: Word, fuel: nat): (r: RunResult)
    requires WellFormed(p, s)
    ensures r.Done? ==> WellFormed(p, r.s) && r.value == r.s.regs.r
  {
    if o >= |p.code| || j >= |p.code| - o then Failed
    else
      match JumpBit(p, s, o)
      case Next(s1) => RunFrom(p, s1.(regs := s1.regs.(pc := o, count := InitialCount(j))), fuel)
      case _ => Failed
  }
}
