/**
 * The virtual machine of vm.h and vm-impl.h as an object whose fields change
 * in place: the registers, the call stack, the cache bitmap and its cursor.
 * Each method is proved against the function of the `Machine` module that
 * gives its meaning, through the abstraction `State()`.
 *
 * A fatal `ASSERT` makes a method give up with the status `Faulted`; the
 * fields are then left in some valid state, which nothing reads afterwards.
 */
module Vm {
  import opened Opcodes
  import opened Bitmaps
  import opened CStrings
  import M = Machine

  /** How a step of the machine ended. */
  datatype Status = Running | Stopped | Faulted | Hung

  /** How a whole run ended: with a value, a failed assertion, a redirect cycle, or out of fuel. */
  datatype Report = Finished | Aborted | Looping | Exhausted

  /** The outcome a status and the new state stand for. */
  ghost function Observe(st: Status, s: M.State): (o: M.Outcome)
    ensures st == Running <==> o.Next?
    ensures st == Stopped <==> o.Stop?
  {
    match st
    case Running => M.Next(s)
    case Stopped => M.Stop(s)
    case Faulted => M.Fault
    case Hung => M.Hang
  }

  /** The run result a report, the returned value and the final state stand for. */
  ghost function Reported(rr: Report, value: bool, s: M.State): (r: M.RunResult)
    ensures rr == Finished <==> r.Done?
  {
    match rr
    case Finished => M.Done(s, value)
    case Aborted => M.Failed
    case Looping => M.Diverged
    case Exhausted => M.OutOfFuel
  }

  /** `VM<I>`: the backend `I` is the function `backend`, its print calls are appended to `log`. */
  class VM {
    var registers: M.Registers
    var stack: seq<M.Registers>
    const bitmap: Bitmap
    var bit: Bit
    const code: seq<Word>
    const backend: M.Query -> bool
    var log: seq<M.PrintCall>

    /** The bitmap has two bits per code word and the cursor lies between `begin()` and `end()`. */
    ghost predicate Valid()
      reads this, bitmap
    {
      bitmap.Valid() && bitmap.size == M.kBits * |code|
      && bit.bitmap == bitmap && Aligned(bit) && 0 <= Index(bit) <= bitmap.size
    }

    ghost function Program(): M.Program {
      M.Program(code, backend)
    }

    /** The machine state the fields stand for. */
    ghost function State(): (s: M.State)
      reads this, bitmap, bitmap.bits
      requires Valid()
      ensures M.WellFormed(Program(), s)
    {
      M.State(registers, stack, bitmap.Bits(), Index(bit), log)
    }

    /** `VM(i, c, m)`: a clear bitmap of `c.size * kBits` bits, the cursor at `begin()`, mode kNone. */
    constructor (c: seq<Word>, i: M.Query -> bool)
      ensures Valid() && fresh(bitmap) && fresh(bitmap.bits)
      ensures code == c && backend == i
      ensures State() == M.Init(Program())
    {
      code := c;
      backend := i;
      var bm := new Bitmap(M.kBits * |c|, false);
      bitmap := bm;
      registers := M.Defaults.(mode := ModeNone);
      stack := [];
      log := [];
      bit := bm.Begin();
      new;
      assert bitmap.Bits() == seq(M.CacheBits(|code|), _ => false);
    }

    /** `forceReturn`. */
    method ForceReturn()
      requires Valid()
      modifies this
      ensures Valid()
      ensures State() == old(State()).(regs := M.ForceReturn(old(registers)))
    {
      registers := registers.(op := kReturn, a := 0, b := 0, c := 0);
    }

    /** `stackPush`. */
    method StackPush()
      requires Valid()
      modifies this
      ensures Valid()
      ensures State() == M.StackPush(old(State()))
    {
      stack := stack + [registers];
      registers := M.Defaults;
    }

    /** `stackPop`, on a non-empty stack. */
    method StackPop()
      requires Valid() && |stack| > 0
      modifies this
      ensures Valid()
      ensures State() == M.StackPop(old(State()))
    {
      registers := stack[|stack| - 1];
      stack := stack[..|stack| - 1];
    }

    /** `step`. */
    method Step()
      requires Valid()
      modifies this
      ensures Valid()
      ensures State() == old(State()).(regs := M.Step(old(registers)))
    {
      registers := registers.(pc := M.Wrap(registers.pc + 1), count := M.Wrap(registers.count - 1));
    }

    /** `result(v)`. */
    method Result(v: bool)
      requires Valid()
      modifies this
      ensures Valid()
      ensures State() == old(State()).(regs := M.Result(old(registers), v))
    {
      if registers.n {
        registers := registers.(r := !v, n := false);
      } else {
        registers := registers.(r := v);
      }
    }

    /** `jumpBit(i)`: `bitmap_[i * kBits]`, after asserting i is below the word count. */
    method JumpBit(i: Word) returns (st: Status)
      requires Valid()
      modifies this
      ensures Valid()
      ensures Observe(st, State()) == M.JumpBit(Program(), old(State()), i)
    {
      if i >= |code| {
        return Faulted;
      }
      bit := bitmap.At(M.kBits * i);
      OrderIsIndexOrder(bit, bitmap.End());
      st := Running;
    }

    /** `incrementBit`: `++bit_`, which must stay at or before `end()`. */
    method IncrementBit() returns (st: Status)
      requires Valid()
      modifies this
      ensures Valid()
      ensures Observe(st, State()) == M.IncrementBit(Program(), old(State()))
    {
      var next := Inc(bit);
      OrderIsIndexOrder(next, bitmap.End());
      if !LessEq(next, bitmap.End()) {
        return Faulted;
      }
      bit := next;
      st := Running;
    }

    /** `bit_ = v`. */
    method SetBit(v: bool)
      requires Valid()
      modifies bitmap.bits
      ensures Valid()
      ensures State() == M.SetBit(Program(), old(State()), v)
    {
      EndIsStored(bitmap, Index(bit));
      AdvanceAt(bitmap, Index(bit), 0, bit);
      Assign(bit, v);
    }

    /** `fetch`: follow the `kExecuteSingle` redirects, load the instruction, step. */
    method Fetch() returns (st: Status)
      requires Valid()
      modifies this
      ensures Valid()
      ensures Observe(st, State()) == M.Fetch(Program(), old(State()))
    {
      ghost var s0 := State();
      var r := Follow(code, registers.pc);
      if r.BadFetch? {
        return Faulted;
      } else if r.Loops? {
        return Hung;
      }
      var base := M.kSize * r.t;
      registers := registers.(op := code[base], a := code[base + 1], b := code[base + 2], c := code[base + 3]);
      assert State() == s0.(regs := M.Load(s0.regs, code, r.t));
      Step();
      st := Running;
    }

    /** A cache hit in `run`: the cached value goes through `result`, pc steps, the cursor passes the slot. */
    method Hit() returns (st: Status)
      requires Valid()
      modifies this
      ensures Valid()
      ensures Observe(st, State()) == M.CacheHit(Program(), old(State()))
    {
      st := IncrementBit();
      if st != Running {
        return;
      }
      EndIsStored(bitmap, Index(bit));
      AdvanceAt(bitmap, Index(bit), 0, bit);
      Result(Get(bit));
      Step();
      st := IncrementBit();
    }

    /** The tail of `dispatch`: store the value when caching, then move past the slot's two bits. */
    method Tail(cache: bool, v: bool) returns (st: Status)
      requires Valid()
      modifies this, bitmap.bits
      ensures Valid()
      ensures Observe(st, State()) == M.After(Program(), old(State()), cache, v)
    {
      if cache {
        SetBit(true);
      }
      st := IncrementBit();
      if st != Running {
        return;
      }
      if cache {
        SetBit(v);
      }
      st := IncrementBit();
    }

    /** The `kExecute` case of `dispatch`. */
    method Execute() returns (st: Status)
      requires Valid()
      modifies this
      ensures Valid()
      ensures Observe(st, State()) == M.Execute(Program(), old(State()))
    {
      var g := registers;
      if !IsMode(g.a) || g.b >= |code| {
        return Faulted;
      }
      StackPush();
      registers := M.BlockRegisters(g.a, g.b, g.c);
      st := JumpBit(g.b);
    }

    /** `dispatch`: the effect of the instruction in the registers. */
    method Dispatch() returns (st: Status)
      requires Valid()
      modifies this, bitmap.bits
      ensures Valid()
      ensures Observe(st, State()) == M.Dispatch(Program(), old(State()))
    {
      var g := registers;
      if g.op == kSkip || g.op == kReturn || g.op == kHalt {
        st := Tail(false, false);
      } else if g.op == kExecute {
        st := Execute();
      } else if g.op == kNone {
        registers := g.(mode := ModeNone);
        st := Tail(false, false);
      } else if g.op == kAnd {
        registers := g.(mode := ModeAnd, r := true);
        st := Tail(false, false);
      } else if g.op == kOr {
        registers := g.(mode := ModeOr, r := false);
        st := Tail(false, false);
      } else if g.op == kNot {
        registers := g.(n := true);
        st := Tail(false, false);
      } else if g.op == kFlip {
        Result(!g.r);
        st := Tail(true, !g.r);
      } else if g.op == kTrue {
        Result(true);
        st := Tail(true, true);
      } else if g.op == kFalse {
        Result(false);
        st := Tail(true, false);
      } else if IsPrint(g.op) {
        if g.c >= ModeUpperBound {
          st := Faulted;
        } else if M.PrintSuppressed(g.c, g.r) {
          st := Tail(false, false);
        } else {
          log := log + [M.PrintCall(g.op, g.a, g.b)];
          st := Tail(false, false);
        }
      } else if IsDispatchedQuery(g.op) {
        var v := backend(M.Query(g.op, g.a, g.b, g.c));
        Result(v);
        st := Tail(true, v);
      } else {
        st := Faulted;
      }
    }

    /** A `kReturn` with saved registers: pop, fold the block's Result, cache it in the calling slot. */
    method Unwind() returns (st: Status)
      requires Valid() && |stack| > 0
      modifies this, bitmap.bits
      ensures Valid()
      ensures Observe(st, State()) == M.Unwind(Program(), old(State()))
    {
      var v := registers.r;
      StackPop();
      Result(v);
      st := ReturnTo(v);
    }

    /** The rest of an unwind: back to the calling slot's bits, caching the block's raw Result v there. */
    method ReturnTo(v: bool) returns (st: Status)
      requires Valid()
      modifies this, bitmap.bits
      ensures Valid()
      ensures Observe(st, State()) == M.ReturnTo(Program(), old(State()), v)
    {
      var pc := registers.pc;
      if pc == 0 || pc >= |code| {
        return Faulted;
      }
      var previous := pc - 1;
      ghost var s0 := State();
      st := JumpBit(previous);
      assert st == Running && State() == s0.(cursor := M.kBits * previous);
      ghost var s2 := State();
      assert M.ReturnTo(Program(), s0, v) == if M.kSize * previous >= |code| then M.Fault
        else if code[M.kSize * previous] != kExecute then M.After(Program(), s2, false, false)
        else if M.kSize * previous + 1 >= |code| then M.Fault
        else M.After(Program(), s2, M.CachesOnReturnAsWritten(code[M.kSize * previous + 1]), v);
      if M.kSize * previous >= |code| {
        return Faulted;
      }
      if code[M.kSize * previous] != kExecute {
        st := Tail(false, false);
      } else if M.kSize * previous + 1 >= |code| {
        return Faulted;
      } else {
        st := Tail(M.CachesOnReturnAsWritten(code[M.kSize * previous + 1]), v);
      }
    }

    /** What `run` does after `dispatch`: unwind or stop on kReturn, stop on kHalt, else go on. */
    method Settle() returns (st: Status)
      requires Valid()
      modifies this, bitmap.bits
      ensures Valid()
      ensures Observe(st, State()) == M.Settle(Program(), M.Next(old(State())))
    {
      if registers.op == kReturn {
        if |stack| > 0 {
          st := Unwind();
        } else {
          st := Stopped;
        }
      } else if registers.op == kHalt {
        st := Stopped;
      } else {
        st := Running;
      }
    }

    /** One pass of the `while (true)` loop of `run`. */
    method Iterate() returns (st: Status)
      requires Valid()
      modifies this, bitmap.bits
      ensures Valid()
      ensures Observe(st, State()) == M.Iterate(Program(), old(State()))
    {
      var g := registers;
      if !IsMode(g.mode) {
        return Faulted;
      }
      if g.count == 0 {
        ForceReturn();
      } else if M.Proceeds(g.mode, g.r) {
        EndIsStored(bitmap, Index(bit));
        AdvanceAt(bitmap, Index(bit), 0, bit);
        if Get(bit) {
          st := Hit();
          return;
        }
        st := Fetch();
        if st != Running {
          return;
        }
      } else {
        ForceReturn();
      }
      st := Dispatch();
      if st != Running {
        return;
      }
      st := Settle();
    }

    /**
     * `run(o, j)`: enter the code at instruction o with budget j and loop
     * until a top-level kReturn or a kHalt; the value is the Result register.
     * At most `fuel` passes are made.
     */
    method Run(o: Word, j: Word, fuel: nat) returns (rr: Report, value: bool)
      requires Valid()
      modifies this, bitmap.bits
      ensures Valid()
      ensures Reported(rr, value, State()) == M.Run(Program(), old(State()), o, j, fuel)
    {
      if o >= |code| || j >= |code| - o {
        return Aborted, false;
      }
      var st := JumpBit(o);
      registers := registers.(pc := o, count := M.InitialCount(j));
      rr, value := Loop(fuel);
    }

    /** The `while (true)` loop of `run`, at most `fuel` passes. */
    method Loop(fuel: nat) returns (rr: Report, value: bool)
      requires Valid()
      modifies this, bitmap.bits
      ensures Valid()
      ensures Reported(rr, value, State()) == M.Continue(Program(), M.Next(old(State())), fuel)
    {
      var k := fuel;
      while k > 0
        invariant Valid()
        invariant M.Continue(Program(), M.Next(State()), k) == M.Continue(Program(), M.Next(old(State())), fuel)
      {
        var st := Pass(k);
        if st == Stopped {
          return Finished, registers.r;
        } else if st == Faulted {
          return Aborted, false;
        } else if st == Hung {
          return Looping, false;
        }
        k := k - 1;
      }
      return Exhausted, false;
    }

    /** One pass of the loop, stated as what it leaves of a run with `k` passes to go. */
    method Pass(k: nat) returns (st: Status)
      requires Valid() && k > 0
      modifies this, bitmap.bits
      ensures Valid()
      ensures st == Running ==> M.Continue(Program(), M.Next(old(State())), k) == M.Continue(Program(), M.Next(State()), k - 1)
      ensures st == Stopped ==> M.Continue(Program(), M.Next(old(State())), k) == M.Done(State(), registers.r)
      ensures st == Faulted ==> M.Continue(Program(), M.Next(old(State())), k) == M.Failed
      ensures st == Hung ==> M.Continue(Program(), M.Next(old(State())), k) == M.Diverged
    {
      st := Iterate();
      assert M.Continue(Program(), M.Next(old(State())), k) == M.Continue(Program(), Observe(st, State()), k - 1);
    }
  }

  /** The redirect loop of `fetch`: from slot pc, follow `kExecuteSingle` hops, at most one per code word. */
  method Follow(code: seq<Word>, pc: Word) returns (r: M.Resolved)
    ensures r == M.Resolve(code, pc, pc, |code|)
  {
    var slot: nat := pc;
    var hops: nat := |code|;
    while true
      invariant M.Resolve(code, pc, slot, hops) == M.Resolve(code, pc, pc, |code|)
      decreases hops
    {
      if !M.SlotInCode(code, slot) {
        return M.BadFetch;
      }
      if code[M.kSize * slot] != kExecuteSingle {
        return M.Slot(slot);
      }
      var target := code[M.kSize * slot + 1];
      if target == pc || target >= |code| {
        return M.BadFetch;
      }
      if hops == 0 {
        return M.Loops;
      }
      slot, hops := target, hops - 1;
    }
  }

  /** The keys of the entry table, in order. */
  function Keys(entries: seq<(seq<char>, Word)>): (keys: seq<seq<char>>)
    ensures |keys| == |entries|
    ensures forall i :: 0 <= i < |entries| ==> keys[i] == entries[i].0
  {
    seq(|entries|, i requires 0 <= i < |entries| => entries[i].0)
  }

  /** What looking a name up in the entry table yields. */
  datatype Lookup = Found(offset: Word) | Missing | PastEnd

  /**
   * The lookup of `VMProxy::run(k, j)` as written: the entry at the lower
   * bound is dereferenced even when the lower bound is `end()` (`PastEnd`).
   */
  function LookupAsWritten(entries: seq<(seq<char>, Word)>, k: seq<char>): (r: Lookup)
    ensures r.PastEnd? <==> LowerBoundOf(Keys(entries), k) == |entries|
  {
    var i := LowerBoundOf(Keys(entries), k);
    if i == |entries| then PastEnd
    else if entries[i].0 != k then Missing
    else Found(entries[i].1)
  }

  /** The lookup as intended: a name past every key is missing, like any other absent name. */
  function LookupIntended(entries: seq<(seq<char>, Word)>, k: seq<char>): (r: Lookup)
    ensures !r.PastEnd?
  {
    var i := LowerBoundOf(Keys(entries), k);
    if i == |entries| || entries[i].0 != k then Missing
    else Found(entries[i].1)
  }

  /** A name above every key makes the lookup as written read the entry at `end()`. */
  lemma LookupAsWrittenReadsPastEnd()
    ensures LookupAsWritten([("a", 0)], "b") == PastEnd
    ensures LookupIntended([("a", 0)], "b") == Missing
  {
    assert StrLess("a", "b");
  }

  /**
   * On sorted entries the intended lookup finds a name exactly when it is a
   * key, and then yields the offset of its first entry.
   */
  lemma LookupIntendedFinds(entries: seq<(seq<char>, Word)>, k: seq<char>)
    requires Sorted(Keys(entries))
    ensures LookupIntended(entries, k).Found? <==> k in Keys(entries)
    ensures LookupIntended(entries, k).Found? ==>
      exists i :: 0 <= i < |entries| && entries[i] == (k, LookupIntended(entries, k).offset)
                  && forall m :: 0 <= m < i ==> entries[m].0 != k
  {
    var keys := Keys(entries);
    var i := LowerBoundOf(keys, k);
    LowerBoundOfSorted(keys, k);
    LowerBoundFinds(keys, k, i);
    StrLessIrreflexive(k);
    if i < |entries| && entries[i].0 == k {
      assert forall m :: 0 <= m < i ==> keys[m] != k;
    }
  }

  /** `VMProxy`: a VM and its table of named entry points. */
  class Proxy {
    const vm: VM
    const entries: seq<(seq<char>, Word)>

    ghost predicate Valid()
      reads this, vm, vm.bitmap
    {
      vm.Valid()
    }

    constructor (c: seq<Word>, i: M.Query -> bool, e: seq<(seq<char>, Word)>)
      ensures Valid() && fresh(vm) && fresh(vm.bitmap) && fresh(vm.bitmap.bits)
      ensures entries == e && vm.code == c && vm.backend == i
      ensures vm.State() == M.Init(vm.Program())
    {
      vm := new VM(c, i);
      entries := e;
    }

    /** `run(i, j)`: run from an instruction offset. */
    method RunAt(o: Word, j: Word, fuel: nat) returns (rr: Report, value: bool)
      requires Valid()
      modifies vm, vm.bitmap.bits
      ensures Valid()
      ensures Reported(rr, value, vm.State()) == M.Run(vm.Program(), old(vm.State()), o, j, fuel)
    {
      rr, value := vm.Run(o, j, fuel);
    }

    /**
     * `run(k, j)`: find the entry named k by binary search and run from its
     * offset; an unknown name yields false without running. The entries must
     * be sorted by name for the search to mean anything.
     */
    method RunNamed(k: seq<char>, j: Word, fuel: nat) returns (rr: Report, value: bool)
      requires Valid() && Sorted(Keys(entries))
      modifies vm, vm.bitmap.bits
      ensures Valid()
      ensures LookupIntended(entries, k).Missing? ==>
                rr == Finished && !value && vm.State() == old(vm.State())
      ensures LookupIntended(entries, k).Found? ==>
                Reported(rr, value, vm.State())
                == M.Run(vm.Program(), old(vm.State()), LookupIntended(entries, k).offset, j, fuel)
    {
      var i := LowerBound(Keys(entries), k);
      if i == |entries| || entries[i].0 != k {
        return Finished, false;
      }
      rr, value := vm.Run(entries[i].1, j, fuel);
    }
  }
}
