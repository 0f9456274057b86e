/**
 * The corrected `run` repeats its verdict: a finished run of a program
 * without `kExecute` blocks is matched, pass by pass, by the run that
 * restarts from the same registers over the cache the first run left.
 */
module MachineLockstep {
  import opened Opcodes
  import opened Machine
  import opened MachineProperties
  import opened MachineRerun

  /**
   * A run of a flat program that finishes is shadowed, pass by pass, by a run
   * from the same registers and cursor over the cache the first run ends with:
   * the second run finishes too, with the same verdict.
   */
  lemma {:induction false} Lockstep(p: Program, s: State, t: State, fuel: nat)
    requires Shadowing(p, s, t, fuel)
    ensures RunFrom(p, t, fuel).Done? && RunFrom(p, t, fuel).value == RunFrom(p, s, fuel).value
    decreases fuel, 1
  {
    RunKeeps(p, s, fuel);
    if Iterate(p, s).Next? {
      LockstepNext(p, s, t, fuel);
    } else {
      LockstepStop(p, s, t, fuel);
    }
  }

  /** The first run's pass goes on: so does the second's, to a paired state, and the rest follows by induction. */
  lemma {:induction false} LockstepNext(p: Program, s: State, t: State, fuel: nat)
    requires Shadowing(p, s, t, fuel) && Iterate(p, s).Next?
    requires Agree(s.cache, t.cache) && ValidOnlyCaching(p, t.cache)
    ensures RunFrom(p, t, fuel).Done? && RunFrom(p, t, fuel).value == RunFrom(p, s, fuel).value
    decreases fuel, 0
  {
    NextPaired(p, s, t, fuel);
    Lockstep(p, Iterate(p, s).s, Iterate(p, t).s, fuel - 1);
  }

  /** One pass of each run when the first goes on: the states after it are paired again. */
  lemma NextPaired(p: Program, s: State, t: State, fuel: nat)
    requires Shadowing(p, s, t, fuel) && Iterate(p, s).Next?
    requires Agree(s.cache, t.cache) && ValidOnlyCaching(p, t.cache)
    ensures fuel > 0 && Iterate(p, t).Next?
    ensures Shadowing(p, Iterate(p, s).s, Iterate(p, t).s, fuel - 1)
    ensures RunFrom(p, Iterate(p, s).s, fuel - 1) == RunFrom(p, s, fuel)
    ensures RunFrom(p, t, fuel) == RunFrom(p, Iterate(p, t).s, fuel - 1)
  {
    GoesOn(p, s, fuel);
    RunKeeps(p, s, fuel);
    PassShadowed(p, s, t, t.cache);
    assert RunFrom(p, t, fuel) == RunFrom(p, Iterate(p, t).s, fuel - 1);
  }

  /** After a pass that goes on, the run continues from the state that pass leaves. */
  lemma GoesOn(p: Program, s: State, fuel: nat)
    requires WellFormed(p, s) && RunFrom(p, s, fuel).Done? && Iterate(p, s).Next?
    ensures fuel > 0 && RunFrom(p, Iterate(p, s).s, fuel - 1) == RunFrom(p, s, fuel)
  {
    var o := Iterate(p, s);
    assert RunFrom(p, s, fuel) == RunFrom(p, o.s, fuel - 1);
  }

  /** The first run's pass stops: so does the second's, with the same Result. */
  lemma LockstepStop(p: Program, s: State, t: State, fuel: nat)
    requires Shadowing(p, s, t, fuel) && !Iterate(p, s).Next?
    requires Agree(s.cache, t.cache) && ValidOnlyCaching(p, t.cache)
    ensures RunFrom(p, t, fuel).Done? && RunFrom(p, t, fuel).value == RunFrom(p, s, fuel).value
  {
    var o := Iterate(p, s);
    assert RunFrom(p, s, fuel) == Continue(p, o, fuel - 1);
    assert RunFrom(p, s, fuel) == Done(o.s, o.s.regs.r);
    AgreeReflexive(t.cache);
    PassShadowed(p, s, t, t.cache);
    assert RunFrom(p, t, fuel) == Done(Iterate(p, t).s, Iterate(p, t).s.regs.r);
  }

  /**
   * The corrected `run` replayed with the same entry and budget returns the
   * verdict of the run before it, for every program without `kExecute`
   * blocks, on any VM whose cache marks only caching slots valid; the cache it
   * leaves keeps that property.
   */
  lemma RerunSameVerdict(p: Program, s: State, o: Word, j: Word, fuel: nat)
    requires Flat(p) && WellFormed(p, s) && ValidOnlyCaching(p, s.cache)
    requires Rerun(p, s, o, j, fuel).Done?
    ensures var r1 := Rerun(p, s, o, j, fuel);
      ValidOnlyCaching(p, r1.s.cache)
      && Rerun(p, r1.s, o, j, fuel).Done? && Rerun(p, r1.s, o, j, fuel).value == r1.value
  {
    var r1 := Rerun(p, s, o, j, fuel);
    var g := Restart.(pc := o, count := InitialCount(j));
    var s0 := State(g, [], s.cache, kBits * o, s.log);
    assert r1 == RunFrom(p, s0, fuel);
    RunKeeps(p, s0, fuel);
    var t0 := State(g, [], r1.s.cache, kBits * o, r1.s.log);
    assert Rerun(p, r1.s, o, j, fuel) == RunFrom(p, t0, fuel);
    Lockstep(p, s0, t0, fuel);
  }

  /** From a fresh VM: the first run is the run as written, and the corrected second run repeats its verdict. */
  lemma RerunFromInitSameVerdict(p: Program, o: Word, j: Word, fuel: nat)
    requires Flat(p) && Run(p, Init(p), o, j, fuel).Done?
    ensures var r1 := Run(p, Init(p), o, j, fuel);
      Rerun(p, r1.s, o, j, fuel).Done? && Rerun(p, r1.s, o, j, fuel).value == r1.value
  {
    RerunFresh(p, Init(p), Init(p).regs, [], o, j, fuel);
    RerunSameVerdict(p, Init(p), o, j, fuel);
  }
}
