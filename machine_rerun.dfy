/**
 * A second `run` on the same VM (vm-impl.h:23-28). As written, `run` resets
 * neither the Result register nor the pending Not, so a Not left pending when
 * the first run halts applies to the first value of the second run. The
 * corrected run restarts from the constructor's registers; for every program
 * without `kExecute` blocks it returns the verdict of the run before it, the
 * cache standing in for every caching instruction.
 */
module MachineRerun {
  import opened Opcodes
  import opened Machine
  import opened MachineProperties

  /** The registers the VM constructor leaves: every word 0, Result true, no pending Not, mode kNone. */
  const Restart: Registers := Defaults.(mode := ModeNone)

  /** `run` as evidently intended: it starts from the constructor's registers and an empty stack. */
  function Rerun(p: Program, s: State, o: Word, j: Word, fuel: nat): (r: RunResult)
    requires WellFormed(p, s)
    ensures r.Done? ==> WellFormed(p, r.s) && r.value == r.s.regs.r
  {
    Run(p, s.(regs := Restart, stack := []), o, j, fuel)
  }

  /** On a fresh VM the corrected run is the run as written, and it forgets the registers and stack left behind. */
  lemma RerunFresh(p: Program, s: State, g: Registers, stack: seq<Registers>, o: Word, j: Word, fuel: nat)
    requires WellFormed(p, s)
    ensures Rerun(p, Init(p), o, j, fuel) == Run(p, Init(p), o, j, fuel)
    ensures Rerun(p, s.(regs := g, stack := stack), o, j, fuel) == Rerun(p, s, o, j, fuel)
  {
  }

  /** No instruction slot holds a `kExecute`, and the code size fits its `uint32_t`. */
  ghost predicate Flat(p: Program) {
    |p.code| < 0x1_0000_0000
    && forall t: nat :: SlotInCode(p.code, t) ==> p.code[kSize * t] != kExecute
  }

  /** The instruction `fetch` finds from pc k is a caching one. */
  ghost predicate Caches(p: Program, k: Word) {
    match Resolve(p.code, k, k, |p.code|)
    case Slot(t) => IsCaching(p.code[kSize * t])
    case _ => false
  }

  /** Every valid bit of the cache belongs to a slot whose fetched instruction caches. */
  ghost predicate ValidOnlyCaching(p: Program, cache: seq<bool>) {
    forall i :: 0 <= i < |cache| && i % kBits == 0 && cache[i] ==>
      i / kBits < |p.code| && i / kBits < 0x1_0000_0000 && Caches(p, i / kBits)
  }

  /** Cache d keeps every valid slot of c, with the same value bit. */
  ghost predicate Agree(c: seq<bool>, d: seq<bool>) {
    |c| == |d|
    && forall i :: 0 <= i < |c| - 1 && i % kBits == 0 && c[i] ==> d[i] && d[i + 1] == c[i + 1]
  }

  /** The registers agree except for the instruction words, which every pass reloads or ignores. */
  predicate Same(g: Registers, h: Registers) {
    g.pc == h.pc && g.count == h.count && g.r == h.r && g.n == h.n && g.mode == h.mode
  }

  /** A state of a run of a flat program: empty stack, cursor on the bits of slot pc, valid bits only for caching slots. */
  ghost predicate Running(p: Program, s: State) {
    WellFormed(p, s) && s.stack == [] && s.cursor == kBits * s.regs.pc && ValidOnlyCaching(p, s.cache)
  }

  lemma AgreeTransitive(c: seq<bool>, d: seq<bool>, e: seq<bool>)
    requires Agree(c, d) && Agree(d, e)
    ensures Agree(c, e)
  {
  }

  /** The bitmap holds at least two bits past the last slot's cursor. */
  lemma CacheRoom(words: nat)
    ensures CacheBits(words) >= kBits * words + 2
  {
    var m := words * kBits;
    var q, r := m / 8, m % 8;
    assert m == 8 * q + r && 0 <= r < 8;
    // m is even and so is 8q, hence the remainder is at most 6
    assert r == 2 * (words - 4 * q);
  }

  /** `dispatch` computes the registers, cursor and stack without reading the cache or the prints. */
  lemma DispatchIgnoresCache(p: Program, s: State, t: State)
    requires WellFormed(p, s) && WellFormed(p, t)
    requires s.regs == t.regs && s.cursor == t.cursor && s.stack == t.stack
    ensures Dispatch(p, s).Next? == Dispatch(p, t).Next?
    ensures Dispatch(p, s).Next? ==>
      Dispatch(p, s).s.regs == Dispatch(p, t).s.regs && Dispatch(p, s).s.cursor == Dispatch(p, t).s.cursor
      && Dispatch(p, s).s.stack == Dispatch(p, t).s.stack
  {
  }

  /** Outside `kExecute`, `dispatch` keeps pc, budget and stack and moves the cursor past the slot. */
  lemma DispatchInPlace(p: Program, s: State)
    requires WellFormed(p, s) && s.regs.op != kExecute
    ensures Dispatch(p, s).Next? ==>
      Dispatch(p, s).s.regs.pc == s.regs.pc && Dispatch(p, s).s.regs.count == s.regs.count
      && Dispatch(p, s).s.stack == s.stack && Dispatch(p, s).s.cursor == s.cursor + 2
  {
  }

  /** What a pass of a flat program keeps: the run's shape, and every valid slot of the cache before it. */
  ghost predicate Kept(p: Program, s: State, o: Outcome) {
    (o.Next? ==> Running(p, o.s) && Agree(s.cache, o.s.cache))
    && (o.Stop? ==> WellFormed(p, o.s) && o.s.stack == [] && ValidOnlyCaching(p, o.s.cache)
                    && Agree(s.cache, o.s.cache))
  }

  /** A pass of a flat program keeps the run's shape and only adds valid slots to the cache. */
  lemma PassKeeps(p: Program, s: State)
    requires Flat(p) && Running(p, s)
    ensures Kept(p, s, Iterate(p, s))
  {
    var g := s.regs;
    if !IsMode(g.mode) {
    } else if g.count == 0 || !Proceeds(g.mode, g.r) {
      ForcedKeeps(p, s);
    } else if s.cache[s.cursor] {
      HitKeeps(p, s);
    } else {
      MissKeeps(p, s);
    }
  }

  /** A forced return at top level stops without touching the cache. */
  lemma ForcedKeeps(p: Program, s: State)
    requires Flat(p) && Running(p, s) && IsMode(s.regs.mode)
    requires s.regs.count == 0 || !Proceeds(s.regs.mode, s.regs.r)
    ensures Kept(p, s, Iterate(p, s))
  {
    DispatchInPlace(p, s.(regs := ForceReturn(s.regs)));
  }

  /** A cache hit moves pc and the cursor one slot on and leaves the cache as it was. */
  lemma HitKeeps(p: Program, s: State)
    requires Flat(p) && Running(p, s) && IsMode(s.regs.mode) && s.regs.count > 0
    requires Proceeds(s.regs.mode, s.regs.r) && s.cache[s.cursor]
    ensures Kept(p, s, Iterate(p, s))
  {
  }

  /** A fetched instruction: a caching one marks its own slot valid, any other leaves the cache as it was. */
  lemma MissKeeps(p: Program, s: State)
    requires Flat(p) && Running(p, s) && IsMode(s.regs.mode) && s.regs.count > 0
    requires Proceeds(s.regs.mode, s.regs.r) && !s.cache[s.cursor]
    ensures Kept(p, s, Iterate(p, s))
  {
    var g := s.regs;
    match Resolve(p.code, g.pc, g.pc, |p.code|)
    case Slot(t) =>
      var s1 := Fetch(p, s).s;
      assert s1.regs.op == p.code[kSize * t];
      assert Iterate(p, s) == Settle(p, Dispatch(p, s1));
      if IsCaching(s1.regs.op) {
        assert Caches(p, g.pc);
        CachingKeeps(p, s, s1);
      } else {
        PlainKeeps(p, s, s1);
      }
    case _ =>
  }

  /** The state after `fetch` from s: only the registers differ, pc has stepped, and no block was loaded. */
  ghost predicate Fetched(p: Program, s: State, s1: State) {
    Flat(p) && Running(p, s) && !s.cache[s.cursor] && s1 == s.(regs := s1.regs)
    && s1.regs.pc == Wrap(s.regs.pc + 1) && s1.regs.op != kExecute
  }

  /** A fetched caching instruction marks its own slot valid with its raw value. */
  lemma CachingKeeps(p: Program, s: State, s1: State)
    requires Fetched(p, s, s1) && IsCaching(s1.regs.op) && Caches(p, s.regs.pc)
    ensures Kept(p, s, Settle(p, Dispatch(p, s1)))
  {
    var c := s.cursor;
    CachingPass(p, s1);
    if c + 2 <= kBits * |p.code| {
      MarkKeeps(p, s.cache, c, Raw(p, s1.regs));
    }
  }

  /** The pass of a caching instruction once fetched: it faults without room, else it fills its slot. */
  lemma CachingPass(p: Program, s1: State)
    requires WellFormed(p, s1) && IsCaching(s1.regs.op)
    ensures s1.cursor + 2 > kBits * |p.code| ==> Settle(p, Dispatch(p, s1)) == Fault
    ensures s1.cursor + 2 <= kBits * |p.code| ==>
      Settle(p, Dispatch(p, s1)) == Next(s1.(regs := Result(s1.regs, Raw(p, s1.regs)),
                                             cache := s1.cache[s1.cursor := true][s1.cursor + 1 := Raw(p, s1.regs)],
                                             cursor := s1.cursor + 2))
  {
    if s1.cursor + 2 <= kBits * |p.code| {
      CachingStoresRawValue(p, s1);
    }
  }

  /** Marking the unset slot at c, whose instruction caches, keeps every valid slot and adds only that one. */
  lemma MarkKeeps(p: Program, cache: seq<bool>, c: nat, v: bool)
    requires ValidOnlyCaching(p, cache) && c % kBits == 0 && c + 1 < |cache| && !cache[c]
    requires c / kBits < |p.code| && c / kBits < 0x1_0000_0000 && Caches(p, c / kBits)
    ensures ValidOnlyCaching(p, cache[c := true][c + 1 := v])
    ensures Agree(cache, cache[c := true][c + 1 := v])
  {
    var d := cache[c := true][c + 1 := v];
    forall i | 0 <= i < |d| && i % kBits == 0 && d[i]
      ensures i / kBits < |p.code| && i / kBits < 0x1_0000_0000 && Caches(p, i / kBits)
    {
      if i != c {
        assert cache[i];
      }
    }
  }

  /** Any other fetched instruction leaves the cache as it was. */
  lemma PlainKeeps(p: Program, s: State, s1: State)
    requires Fetched(p, s, s1) && !IsCaching(s1.regs.op)
    ensures Kept(p, s, Settle(p, Dispatch(p, s1)))
  {
    DispatchInPlace(p, s1);
    OthersLeaveCache(p, s1);
  }

  /** A finished run of a flat program keeps every valid slot it started with and marks only caching slots. */
  lemma {:induction false} RunKeeps(p: Program, s: State, fuel: nat)
    requires Flat(p) && Running(p, s) && RunFrom(p, s, fuel).Done?
    ensures Agree(s.cache, RunFrom(p, s, fuel).s.cache)
    ensures ValidOnlyCaching(p, RunFrom(p, s, fuel).s.cache)
    ensures Iterate(p, s).Next? ==>
      Running(p, Iterate(p, s).s) && Agree(Iterate(p, s).s.cache, RunFrom(p, s, fuel).s.cache)
    decreases fuel
  {
    PassKeeps(p, s);
    var o := Iterate(p, s);
    var f := RunFrom(p, s, fuel).s;
    if o.Next? {
      assert RunFrom(p, s, fuel) == RunFrom(p, o.s, fuel - 1);
      RunKeeps(p, o.s, fuel - 1);
      AgreeTransitive(s.cache, o.s.cache, f.cache);
    } else {
      assert f == o.s;
    }
  }

  /**
   * The second run's state t shadows the first run's state s: the same
   * registers but for the instruction words, the same cursor, and the cache
   * F the first run ends with, which agrees with the cache s has so far.
   */
  ghost predicate Paired(p: Program, s: State, t: State, cache: seq<bool>) {
    Flat(p) && Running(p, s) && WellFormed(p, t) && Same(s.regs, t.regs) && t.cursor == s.cursor
    && t.stack == [] && t.cache == cache && Agree(s.cache, cache) && ValidOnlyCaching(p, cache)
  }

  /** The outcome of the second run's pass shadows the first run's: same kind, paired states, same Result on a stop. */
  ghost predicate Shadows(o: Outcome, u: Outcome, cache: seq<bool>) {
    (o.Next? ==> u.Next? && Same(o.s.regs, u.s.regs) && u.s.cursor == o.s.cursor && u.s.stack == []
                 && u.s.cache == cache)
    && (o.Stop? ==> u.Stop? && u.s.regs.r == o.s.regs.r)
  }

  /** A pass of the first run that does not fail is shadowed by the second run's pass. */
  lemma PassShadowed(p: Program, s: State, t: State, cache: seq<bool>)
    requires Paired(p, s, t, cache)
    requires Iterate(p, s).Next? || Iterate(p, s).Stop?
    requires Agree(Iterate(p, s).s.cache, cache)
    ensures Shadows(Iterate(p, s), Iterate(p, t), cache)
  {
    var g := s.regs;
    if g.count == 0 || !Proceeds(g.mode, g.r) {
      ForcedShadowed(p, s, t, cache);
    } else if s.cache[s.cursor] {
      HitShadowed(p, s, t, cache);
    } else {
      MissShadowed(p, s, t, cache);
    }
  }

  /** Both passes are the same forced return. */
  lemma ForcedShadowed(p: Program, s: State, t: State, cache: seq<bool>)
    requires Paired(p, s, t, cache) && IsMode(s.regs.mode)
    requires s.regs.count == 0 || !Proceeds(s.regs.mode, s.regs.r)
    ensures Shadows(Iterate(p, s), Iterate(p, t), cache)
  {
    var h := ForceReturn(s.regs);
    assert ForceReturn(t.regs) == h;
    DispatchIgnoresCache(p, s.(regs := h), t.(regs := h));
    OthersLeaveCache(p, t.(regs := h));
  }

  /** A hit in the first run is a hit in the second, on the same value bit. */
  lemma HitShadowed(p: Program, s: State, t: State, cache: seq<bool>)
    requires Paired(p, s, t, cache) && IsMode(s.regs.mode) && s.regs.count > 0
    requires Proceeds(s.regs.mode, s.regs.r) && s.cache[s.cursor]
    ensures Shadows(Iterate(p, s), Iterate(p, t), cache)
  {
    CacheRoom(|p.code|);
    assert cache[s.cursor] && cache[s.cursor + 1] == s.cache[s.cursor + 1];
  }

  /** A pass that fetches: a failed fetch is the pass's outcome, else the fetched instruction is dispatched and settled. */
  lemma MissIterate(p: Program, s: State)
    requires WellFormed(p, s) && IsMode(s.regs.mode) && s.regs.count > 0
    requires Proceeds(s.regs.mode, s.regs.r) && !s.cache[s.cursor]
    ensures !Fetch(p, s).Next? ==> Iterate(p, s) == Fetch(p, s)
    ensures Fetch(p, s).Next? ==> Iterate(p, s) == Settle(p, Dispatch(p, Fetch(p, s).s))
  {
  }

  /** A pass on a valid slot is a cache hit. */
  lemma HitIterate(p: Program, s: State)
    requires WellFormed(p, s) && IsMode(s.regs.mode) && s.regs.count > 0
    requires Proceeds(s.regs.mode, s.regs.r) && s.cache[s.cursor]
    ensures Iterate(p, s) == CacheHit(p, s)
  {
  }

  /** `fetch` reads only pc and the code: states with the same pc fetch the same registers. */
  lemma FetchSame(p: Program, s: State, t: State)
    requires WellFormed(p, s) && WellFormed(p, t) && Same(s.regs, t.regs)
    ensures Fetch(p, t).Next? == Fetch(p, s).Next?
    ensures Fetch(p, s).Next? ==> Fetch(p, t).s == t.(regs := Fetch(p, s).s.regs)
  {
  }

  /** The instruction fetched from pc is a caching one exactly when `Caches` says so, and never a `kExecute` in a flat program. */
  lemma FetchedOp(p: Program, s: State)
    requires Flat(p) && WellFormed(p, s) && Fetch(p, s).Next?
    ensures Caches(p, s.regs.pc) == IsCaching(Fetch(p, s).s.regs.op)
    ensures Fetch(p, s).s.regs.op != kExecute
  {
    match Resolve(p.code, s.regs.pc, s.regs.pc, |p.code|)
    case Slot(k) =>
      assert Fetch(p, s).s.regs.op == p.code[kSize * k];
    case _ =>
  }

  /** A fetch in the first run is a hit in the second exactly when the instruction caches. */
  lemma MissShadowed(p: Program, s: State, t: State, cache: seq<bool>)
    requires Paired(p, s, t, cache) && IsMode(s.regs.mode) && s.regs.count > 0
    requires Proceeds(s.regs.mode, s.regs.r) && !s.cache[s.cursor]
    requires Iterate(p, s).Next? || Iterate(p, s).Stop?
    requires Agree(Iterate(p, s).s.cache, cache)
    ensures Shadows(Iterate(p, s), Iterate(p, t), cache)
  {
    CacheRoom(|p.code|);
    if cache[s.cursor] {
      FilledShadowed(p, s, t, cache);
    } else {
      FetchedShadowed(p, s, t, cache);
    }
  }

  /** The first run fetches a caching instruction whose slot the second run finds valid. */
  lemma FilledShadowed(p: Program, s: State, t: State, cache: seq<bool>)
    requires Paired(p, s, t, cache) && IsMode(s.regs.mode) && s.regs.count > 0
    requires Proceeds(s.regs.mode, s.regs.r) && !s.cache[s.cursor]
    requires Iterate(p, s).Next? || Iterate(p, s).Stop?
    requires Agree(Iterate(p, s).s.cache, cache)
    requires s.cursor + 1 < |cache| && cache[s.cursor]
    ensures Shadows(Iterate(p, s), Iterate(p, t), cache)
  {
    MissIterate(p, s);
    assert Fetch(p, s).Next?;
    FetchedOp(p, s);
    ValidSlotCaches(p, cache, s.regs.pc);
    HitIterate(p, t);
    FillHitShadowed(p, s, t, cache, Fetch(p, s).s);
  }

  /** The fill of the fetched caching instruction is shadowed by the hit on the same slot. */
  lemma FillHitShadowed(p: Program, s: State, t: State, cache: seq<bool>, s1: State)
    requires Paired(p, s, t, cache) && s.cursor + 1 < |cache| && cache[s.cursor]
    requires s1 == s.(regs := s1.regs) && Same(s1.regs, Step(s.regs))
    requires WellFormed(p, s1) && IsCaching(s1.regs.op)
    requires Settle(p, Dispatch(p, s1)).Next? || Settle(p, Dispatch(p, s1)).Stop?
    requires Agree(Settle(p, Dispatch(p, s1)).s.cache, cache)
    ensures Shadows(Settle(p, Dispatch(p, s1)), CacheHit(p, t), cache)
  {
    FilledPass(p, s1, cache);
    HitMatchesFill(p, s, t, cache, s1);
  }

  /** A valid slot of a cache that marks only caching slots belongs to a caching instruction. */
  lemma ValidSlotCaches(p: Program, cache: seq<bool>, k: Word)
    requires ValidOnlyCaching(p, cache) && kBits * k < |cache| && cache[kBits * k]
    ensures Caches(p, k)
  {
    assert (kBits * k) / kBits == k;
  }

  /** The pass of the fetched caching instruction fills the slot with the raw value that `cache` holds. */
  lemma FilledPass(p: Program, s1: State, cache: seq<bool>)
    requires WellFormed(p, s1) && IsCaching(s1.regs.op) && s1.cursor + 1 < |cache|
    requires Settle(p, Dispatch(p, s1)).Next? || Settle(p, Dispatch(p, s1)).Stop?
    requires Agree(Settle(p, Dispatch(p, s1)).s.cache, cache) && s1.cursor % kBits == 0
    ensures Settle(p, Dispatch(p, s1)) == Filled(p, s1)
    ensures cache[s1.cursor + 1] == Raw(p, s1.regs)
  {
    CachingPass(p, s1);
  }

  /** The state after a caching instruction fills its slot. */
  function Filled(p: Program, s1: State): (o: Outcome)
    requires WellFormed(p, s1) && IsCaching(s1.regs.op) && s1.cursor + 2 <= kBits * |p.code|
    ensures o.Next? && o.s.regs.r == (Raw(p, s1.regs) != s1.regs.n) && !o.s.regs.n
  {
    Next(s1.(regs := Result(s1.regs, Raw(p, s1.regs)),
             cache := s1.cache[s1.cursor := true][s1.cursor + 1 := Raw(p, s1.regs)],
             cursor := s1.cursor + 2))
  }

  /** The second run's hit reads back the value the first run's fill stored. */
  lemma HitMatchesFill(p: Program, s: State, t: State, cache: seq<bool>, s1: State)
    requires Paired(p, s, t, cache) && s.cursor + 2 <= kBits * |p.code|
    requires s1 == s.(regs := s1.regs) && Same(s1.regs, Step(s.regs))
    requires IsCaching(s1.regs.op) && cache[s.cursor + 1] == Raw(p, s1.regs)
    ensures Shadows(Filled(p, s1), CacheHit(p, t), cache)
  {
  }

  /** Both runs fetch the same non-caching instruction. */
  lemma FetchedShadowed(p: Program, s: State, t: State, cache: seq<bool>)
    requires Paired(p, s, t, cache) && IsMode(s.regs.mode) && s.regs.count > 0
    requires Proceeds(s.regs.mode, s.regs.r) && !s.cache[s.cursor]
    requires Iterate(p, s).Next? || Iterate(p, s).Stop?
    requires Agree(Iterate(p, s).s.cache, cache)
    requires s.cursor + 1 < |cache| && !cache[s.cursor]
    ensures Shadows(Iterate(p, s), Iterate(p, t), cache)
  {
    MissIterate(p, s);
    FetchSame(p, s, t);
    MissIterate(p, t);
    FetchedOp(p, s);
    PlainShadowed(p, s, t, cache, Fetch(p, s).s, Fetch(p, t).s);
  }

  /** Settling two outcomes that agree on registers, with nothing on either stack, keeps them paired. */
  lemma SettleShadowed(p: Program, o: Outcome, u: Outcome, cache: seq<bool>)
    requires (o.Next? ==> WellFormed(p, o.s)) && (u.Next? ==> WellFormed(p, u.s))
    requires !o.Stop? && !u.Stop? && o.Next? == u.Next?
    requires o.Next? ==> o.s.regs == u.s.regs && o.s.stack == [] && u.s.stack == []
                         && u.s.cursor == o.s.cursor && u.s.cache == cache
    ensures Shadows(Settle(p, o), Settle(p, u), cache)
  {
  }

  /** Both runs fetch the same non-caching instruction and dispatch it alike. */
  lemma PlainShadowed(p: Program, s: State, t: State, cache: seq<bool>, s1: State, t1: State)
    requires Paired(p, s, t, cache) && s.cursor + 1 < |cache| && !cache[s.cursor]
    requires s1 == s.(regs := s1.regs) && t1 == t.(regs := s1.regs) && s1.regs.op != kExecute
    requires Settle(p, Dispatch(p, s1)).Next? || Settle(p, Dispatch(p, s1)).Stop?
    requires Agree(Settle(p, Dispatch(p, s1)).s.cache, cache)
    ensures Shadows(Settle(p, Dispatch(p, s1)), Settle(p, Dispatch(p, t1)), cache)
  {
    if IsCaching(s1.regs.op) {
      CachingPass(p, s1);
      assert false;
    }
    DispatchIgnoresCache(p, s1, t1);
    DispatchInPlace(p, t1);
    OthersLeaveCache(p, t1);
    SettleShadowed(p, Dispatch(p, s1), Dispatch(p, t1), cache);
  }

  lemma AgreeReflexive(c: seq<bool>)
    ensures Agree(c, c)
  {
  }

  /** The first run from s finishes, and t is paired with s over the cache that run ends with. */
  ghost predicate Shadowing(p: Program, s: State, t: State, fuel: nat) {
    Flat(p) && Running(p, s) && RunFrom(p, s, fuel).Done?
    && WellFormed(p, t) && Same(s.regs, t.regs) && t.cursor == s.cursor && t.stack == []
    && t.cache == RunFrom(p, s, fuel).s.cache
  }
}
