/**
 * The compiler of compiler.h and compiler.cc: it lowers an expression tree to
 * assembler instructions.
 *
 * `compileSimple(n)` handles the sequence of sibling nodes that starts at n in
 * two passes. The first pass compiles the child sequence of every And/Or node,
 * each into a block of its own, and remembers each block's entry. The second
 * pass emits the parent block: one instruction per node, in order, followed by
 * `kReturn`. An And/Or node becomes `kExecute(kAnd|kOr, entry of its child
 * block, 0)`, a Not node `kNot`, and an Op node whatever its name's adapter
 * emits. Op names are looked up with `std::lower_bound` in a table sorted by
 * `strcmp`.
 *
 * The specification functions below (`Children`, `Parents`, `Block`) describe
 * the assembler state each pass leaves behind; the methods of `Compiler` are
 * proved to produce exactly that state. `Lowered` states what the emitted code
 * means: the layout a block must have, node by node. `BlockLowers` proves that
 * every compiled block has it.
 */
module Compilers {
  import opened Wrappers
  import opened Opcodes
  import opened CStrings
  import opened Assemblers
  import opened Representation
  import opened DispatchTable
  import opened CompilerAdapters

  /* ---------------------------------------------------------------------- */
  /* What the passes of compileSimple produce                                */
  /* ---------------------------------------------------------------------- */

  /** The assembler's state: the code and the arena. */
  datatype Asm = Asm(instructions: seq<Instruction>, memory: seq<char>, unifier: map<seq<char>, nat>)

  function StateOf(a: Assembler): (s: Asm)
    reads a
    ensures s.instructions == a.instructions && s.memory == a.memory && s.unifier == a.memoryUnifier
  {
    Asm(a.instructions, a.memory, a.memoryUnifier)
  }

  /** The state after appending one instruction, keeping the arena. */
  function Append(st: Asm, op: Word): (r: Asm)
    ensures r.instructions == st.instructions + [Instruction(op, 0, 0, 0)]
    ensures r.memory == st.memory && r.unifier == st.unifier
  {
    Asm(st.instructions + [Instruction(op, 0, 0, 0)], st.memory, st.unifier)
  }

  /** A node `compileSimple` can lower: an And/Or has a child sequence, an Op a known name and fitting parameters. */
  predicate NodeOk(n: Node) {
    match n.kind
    case And => n.child.Some?
    case Or => n.child.Some?
    case Not => true
    case Op(name, p) => OpOk(name, p)
  }

  /** x is nothing, or a node of the arena from which every node reachable along `next` and `child` can be lowered. */
  predicate From(nodes: seq<Node>, x: Option<nat>) {
    Linked(nodes)
    && (x.Some? ==> x.value < |nodes|
                    && forall k | x.value <= k < |nodes| && Reach(nodes, x.value, k) :: NodeOk(nodes[k]))
  }

  /** The And/Or nodes with a child, along the sequence from x. */
  function Owners(nodes: seq<Node>, x: Option<nat>): seq<nat>
    requires From(nodes, x)
    decreases if x.Some? then |nodes| - x.value else 0
  {
    if x.None? then []
    else
      var y := x.value;
      assert LinkOk(nodes, y);
      (if HasChild(nodes[y]) then [y] else []) + Owners(nodes, nodes[y].next)
  }

  /** How many nodes the sequence from x has. */
  function Length(nodes: seq<Node>, x: Option<nat>): nat
    requires Linked(nodes) && (x.Some? ==> x.value < |nodes|)
  {
    if x.None? then 0 else |Chain(nodes, x.value)|
  }

  /** The nodes of a list of (node, child entry) pairs. */
  function Firsts(offs: seq<(nat, Word)>): (f: seq<nat>)
    ensures |f| == |offs|
  {
    seq(|offs|, k requires 0 <= k < |offs| => offs[k].0)
  }

  lemma FirstsTail(offs: seq<(nat, Word)>, it: nat)
    requires it < |offs|
    ensures Firsts(offs[it..]) == [offs[it].0] + Firsts(offs[it + 1..])
  {
  }

  lemma FirstsAppend(offs: seq<(nat, Word)>, o: (nat, Word))
    ensures Firsts(offs + [o]) == Firsts(offs) + [o.0]
  {
  }

  /**
   * The entries recorded for the sequence from y: the first is y's own when y
   * has a child block, and the others are those of the sequence after y.
   */
  lemma OwnersSplit(nodes: seq<Node>, y: nat, offs: seq<(nat, Word)>)
    requires From(nodes, Some(y)) && Firsts(offs) == Owners(nodes, Some(y))
    ensures y < |nodes| && LinkOk(nodes, y)
    ensures HasChild(nodes[y]) ==> |offs| > 0 && offs[0].0 == y
    ensures Firsts(if HasChild(nodes[y]) then offs[1..] else offs) == Owners(nodes, nodes[y].next)
  {
    assert LinkOk(nodes, y);
    var owners := Owners(nodes, nodes[y].next);
    if HasChild(nodes[y]) {
      assert Firsts(offs) == [y] + owners;
      assert Firsts(offs)[0] == y;
      assert |offs[1..]| == |owners|;
      forall k | 0 <= k < |owners|
        ensures Firsts(offs[1..])[k] == owners[k]
      {
        assert Firsts(offs)[k + 1] == owners[k];
      }
    } else {
      assert Firsts(offs) == [] + owners;
    }
  }

  /** What `From` says about node y and the sequences around it. */
  lemma FromUnfold(nodes: seq<Node>, y: nat)
    requires From(nodes, Some(y))
    ensures y < |nodes| && LinkOk(nodes, y) && NodeOk(nodes[y])
    ensures From(nodes, nodes[y].child) && From(nodes, nodes[y].next)
  {
    assert LinkOk(nodes, y);
  }

  /** Every recorded entry lies below size. */
  predicate Below(offs: seq<(nat, Word)>, size: nat) {
    forall k | 0 <= k < |offs| :: offs[k].1 < size
  }

  /** The first pass and its entries, and the assembler state after it. */
  datatype Pass = Pass(asm: Asm, offsets: seq<(nat, Word)>)

  /** A compiled sequence: the state after its block and the block's entry. */
  datatype Compiled = Compiled(asm: Asm, entry: Word)

  /**
   * The first pass of `compileSimple` from node x on: the child sequence of
   * each And/Or node is compiled in turn, and (node, entry) is recorded after
   * offs.
   */
  function Children(nodes: seq<Node>, x: Option<nat>, st: Asm, offs: seq<(nat, Word)>): (r: Pass)
    requires From(nodes, x)
    ensures st.instructions <= r.asm.instructions
    decreases if x.Some? then |nodes| - x.value else 0, 1
  {
    if x.None? then Pass(st, offs)
    else
      var y := x.value;
      FromUnfold(nodes, y);
      if HasChild(nodes[y]) then
        var c := Block(nodes, nodes[y].child.value, st);
        Children(nodes, nodes[y].next, c.asm, offs + [(y, c.entry)])
      else
        Children(nodes, nodes[y].next, st, offs)
  }

  /** The first pass records one entry per And/Or node with a child, in order. */
  lemma {:induction false} ChildrenOwners(nodes: seq<Node>, x: Option<nat>, st: Asm, offs: seq<(nat, Word)>)
    requires From(nodes, x)
    ensures Firsts(Children(nodes, x, st, offs).offsets) == Firsts(offs) + Owners(nodes, x)
    decreases if x.Some? then |nodes| - x.value else 0, 2
  {
    if x.Some? {
      var y := x.value;
      FromUnfold(nodes, y);
      if HasChild(nodes[y]) {
        var c := Block(nodes, nodes[y].child.value, st);
        ChildrenOwners(nodes, nodes[y].next, c.asm, offs + [(y, c.entry)]);
        FirstsAppend(offs, (y, c.entry));
      } else {
        ChildrenOwners(nodes, nodes[y].next, st, offs);
      }
    }
  }

  /** Every entry the first pass records lies inside the code it leaves behind. */
  lemma {:induction false} ChildrenBelow(nodes: seq<Node>, x: Option<nat>, st: Asm, offs: seq<(nat, Word)>)
    requires From(nodes, x) && Below(offs, |st.instructions|)
    ensures Below(Children(nodes, x, st, offs).offsets, |Children(nodes, x, st, offs).asm.instructions|)
    decreases if x.Some? then |nodes| - x.value else 0, 2
  {
    if x.Some? {
      var y := x.value;
      FromUnfold(nodes, y);
      if HasChild(nodes[y]) {
        var c := Block(nodes, nodes[y].child.value, st);
        var offs' := offs + [(y, c.entry)];
        forall k | 0 <= k < |offs'|
          ensures offs'[k].1 < |c.asm.instructions|
        {
          if k < |offs| {
            assert offs'[k] == offs[k];
          }
        }
        ChildrenBelow(nodes, nodes[y].next, c.asm, offs');
      } else {
        ChildrenBelow(nodes, nodes[y].next, st, offs);
      }
    }
  }

  /** The instruction the second pass emits for one node; offs[0] holds its child block's entry. */
  function Lowering(n: Node, offs: seq<(nat, Word)>, st: Asm): (e: Emitted)
    requires NodeOk(n) && (HasChild(n) ==> |offs| > 0)
  {
    if HasChild(n) then
      Emitted(Instruction(kExecute, if n.kind.And? then ModeAnd else ModeOr, offs[0].1, 0), st.memory, st.unifier)
    else if n.kind.Not? then Emitted(Instruction(kNot, 0, 0, 0), st.memory, st.unifier)
    else Lower(AdapterFor(n.kind.name), n.kind.parameters, st.memory, st.unifier)
  }

  /** The state after emitting e. */
  function Emit(st: Asm, e: Emitted): (r: Asm)
    ensures r.instructions == st.instructions + [e.ins] && r.memory == e.memory && r.unifier == e.unifier
  {
    Asm(st.instructions + [e.ins], e.memory, e.unifier)
  }

  /**
   * The second pass from node x on, then `kReturn`: one instruction per node,
   * the And/Or nodes taking their entries from offs in order.
   */
  function Parents(nodes: seq<Node>, x: Option<nat>, offs: seq<(nat, Word)>, st: Asm): (r: Asm)
    requires From(nodes, x) && Firsts(offs) == Owners(nodes, x)
    ensures st.instructions <= r.instructions
    ensures |r.instructions| == |st.instructions| + Length(nodes, x) + 1
    decreases if x.Some? then |nodes| - x.value else 0
  {
    if x.None? then Append(st, kReturn)
    else
      var y := x.value;
      FromUnfold(nodes, y);
      OwnersSplit(nodes, y, offs);
      var e := Lowering(nodes[y], offs, st);
      var rest := if HasChild(nodes[y]) then offs[1..] else offs;
      Parents(nodes, nodes[y].next, rest, Emit(st, e))
  }

  /**
   * `compileSimple(n)`: both passes over the sequence from n. The entry is the
   * code size after the first pass, as a `uint32_t`.
   */
  function Block(nodes: seq<Node>, n: nat, st: Asm): (r: Compiled)
    requires From(nodes, Some(n))
    ensures st.instructions <= r.asm.instructions
    ensures r.entry < |r.asm.instructions|
    ensures |r.asm.instructions| < 0x1_0000_0000 ==> |st.instructions| <= r.entry
    decreases |nodes| - n, 3
  {
    var p := Children(nodes, Some(n), st, []);
    ChildrenOwners(nodes, Some(n), st, []);
    assert Firsts([]) + Owners(nodes, Some(n)) == Owners(nodes, Some(n));
    Compiled(Parents(nodes, Some(n), p.offsets, p.asm), Truncate(|p.asm.instructions|))
  }

  /* ---------------------------------------------------------------------- */
  /* What a compiled block means                                             */
  /* ---------------------------------------------------------------------- */

  /**
   * The sequence from node x is lowered at position at of ins: each node's
   * instruction follows the previous one's, and `kReturn` follows the last.
   */
  ghost predicate Lowered(ins: seq<Instruction>, nodes: seq<Node>, x: nat, at: nat)
    requires Linked(nodes) && x < |nodes|
    decreases |nodes| - x, 1
  {
    assert LinkOk(nodes, x);
    at < |ins| && NodeAt(ins, nodes, x, at)
    && match nodes[x].next
       case None => at + 1 < |ins| && ins[at + 1] == Instruction(kReturn, 0, 0, 0)
       case Some(y) => Lowered(ins, nodes, y, at + 1)
  }

  /**
   * Node x is lowered at position at: an And/Or node is a `kExecute` in its
   * mode of a block lowered earlier from its child; a Not node is `kNot`; an
   * Op node has its adapter's opcode.
   */
  ghost predicate NodeAt(ins: seq<Instruction>, nodes: seq<Node>, x: nat, at: nat)
    requires Linked(nodes) && x < |nodes| && at < |ins|
    decreases |nodes| - x, 0
  {
    assert LinkOk(nodes, x);
    var n := nodes[x];
    var i := ins[at];
    match n.kind
    case And => n.child.Some? && i == Instruction(kExecute, ModeAnd, i.b, 0)
                && i.b < at && Lowered(ins, nodes, n.child.value, i.b)
    case Or => n.child.Some? && i == Instruction(kExecute, ModeOr, i.b, 0)
               && i.b < at && Lowered(ins, nodes, n.child.value, i.b)
    case Not => i == Instruction(kNot, 0, 0, 0)
    case Op(name, _) => Known(name) && i.op == AdapterOpcode(AdapterFor(name))
  }

  /** A lowered sequence stays lowered when code is appended. */
  lemma {:induction false} LoweredExtends(ins: seq<Instruction>, more: seq<Instruction>,
                                          nodes: seq<Node>, x: nat, at: nat)
    requires Linked(nodes) && x < |nodes| && ins <= more && Lowered(ins, nodes, x, at)
    ensures Lowered(more, nodes, x, at)
    decreases |nodes| - x, 1
  {
    assert LinkOk(nodes, x);
    NodeAtExtends(ins, more, nodes, x, at);
    if nodes[x].next.Some? {
      LoweredExtends(ins, more, nodes, nodes[x].next.value, at + 1);
    }
  }

  lemma {:induction false} NodeAtExtends(ins: seq<Instruction>, more: seq<Instruction>,
                                         nodes: seq<Node>, x: nat, at: nat)
    requires Linked(nodes) && x < |nodes| && at < |ins| && ins <= more && NodeAt(ins, nodes, x, at)
    ensures NodeAt(more, nodes, x, at)
    decreases |nodes| - x, 0
  {
    assert LinkOk(nodes, x);
    assert more[at] == ins[at];
    if nodes[x].kind.And? || nodes[x].kind.Or? {
      LoweredExtends(ins, more, nodes, nodes[x].child.value, ins[at].b);
    }
  }

  /** Each recorded (node, entry) pair names an And/Or node whose child sequence is lowered at entry. */
  ghost predicate Blocks(ins: seq<Instruction>, nodes: seq<Node>, offs: seq<(nat, Word)>)
    requires Linked(nodes)
  {
    forall k | 0 <= k < |offs| ::
      offs[k].0 < |nodes| && nodes[offs[k].0].child.Some?
      && (assert LinkOk(nodes, offs[k].0); Lowered(ins, nodes, nodes[offs[k].0].child.value, offs[k].1))
  }

  lemma BlocksExtend(ins: seq<Instruction>, more: seq<Instruction>, nodes: seq<Node>, offs: seq<(nat, Word)>)
    requires Linked(nodes) && ins <= more && Blocks(ins, nodes, offs)
    ensures Blocks(more, nodes, offs)
  {
    forall k | 0 <= k < |offs|
      ensures assert LinkOk(nodes, offs[k].0); Lowered(more, nodes, nodes[offs[k].0].child.value, offs[k].1)
    {
      assert LinkOk(nodes, offs[k].0);
      LoweredExtends(ins, more, nodes, nodes[offs[k].0].child.value, offs[k].1);
    }
  }

  lemma BlocksAppend(ins: seq<Instruction>, nodes: seq<Node>, offs: seq<(nat, Word)>, o: (nat, Word))
    requires Linked(nodes) && Blocks(ins, nodes, offs)
    requires o.0 < |nodes| && nodes[o.0].child.Some?
    requires assert LinkOk(nodes, o.0); Lowered(ins, nodes, nodes[o.0].child.value, o.1)
    ensures Blocks(ins, nodes, offs + [o])
  {
    var s := offs + [o];
    forall k | 0 <= k < |s|
      ensures s[k].0 < |nodes| && nodes[s[k].0].child.Some?
              && (assert LinkOk(nodes, s[k].0); Lowered(ins, nodes, nodes[s[k].0].child.value, s[k].1))
    {
      if k < |offs| {
        assert s[k] == offs[k];
      }
    }
  }

  /**
   * The whole proof that compiled code has the layout `Lowered` describes:
   * the block `compileSimple(n)` emits lowers the sequence from n at its
   * entry, provided the code stays below 2^32 instructions.
   */
  lemma {:induction false} BlockLowers(nodes: seq<Node>, n: nat, st: Asm)
    requires From(nodes, Some(n))
    requires |Block(nodes, n, st).asm.instructions| < 0x1_0000_0000
    ensures Lowered(Block(nodes, n, st).asm.instructions, nodes, n, Block(nodes, n, st).entry)
    decreases |nodes| - n, 2
  {
    var p := Children(nodes, Some(n), st, []);
    var r := Block(nodes, n, st);
    ChildrenOwners(nodes, Some(n), st, []);
    assert Firsts([]) + Owners(nodes, Some(n)) == Owners(nodes, Some(n));
    ChildrenBelow(nodes, Some(n), st, []);
    ChildrenLower(nodes, Some(n), st, []);
    assert r.asm == Parents(nodes, Some(n), p.offsets, p.asm);
    assert r.entry == |p.asm.instructions|;
    ParentsLower(nodes, n, p.offsets, p.asm);
  }

  /** After the first pass every recorded entry starts a lowered child block. */
  lemma {:induction false} ChildrenLower(nodes: seq<Node>, x: Option<nat>, st: Asm, offs: seq<(nat, Word)>)
    requires From(nodes, x) && Blocks(st.instructions, nodes, offs)
    requires |Children(nodes, x, st, offs).asm.instructions| < 0x1_0000_0000
    ensures Blocks(Children(nodes, x, st, offs).asm.instructions, nodes, Children(nodes, x, st, offs).offsets)
    decreases if x.Some? then |nodes| - x.value else 0, 1
  {
    if x.Some? {
      var y := x.value;
      assert LinkOk(nodes, y);
      if HasChild(nodes[y]) {
        var child := nodes[y].child.value;
        var c := Block(nodes, child, st);
        var r := Children(nodes, nodes[y].next, c.asm, offs + [(y, c.entry)]);
        assert |c.asm.instructions| <= |r.asm.instructions|;
        BlockLowers(nodes, child, st);
        BlocksExtend(st.instructions, c.asm.instructions, nodes, offs);
        BlocksAppend(c.asm.instructions, nodes, offs, (y, c.entry));
        ChildrenLower(nodes, nodes[y].next, c.asm, offs + [(y, c.entry)]);
      } else {
        ChildrenLower(nodes, nodes[y].next, st, offs);
      }
    }
  }

  /** The second pass lowers the sequence from x at the current end of the code. */
  lemma {:induction false} ParentsLower(nodes: seq<Node>, x: nat, offs: seq<(nat, Word)>, st: Asm)
    requires From(nodes, Some(x)) && Firsts(offs) == Owners(nodes, Some(x))
    requires Blocks(st.instructions, nodes, offs) && Below(offs, |st.instructions|)
    requires |Parents(nodes, Some(x), offs, st).instructions| < 0x1_0000_0000
    ensures Lowered(Parents(nodes, Some(x), offs, st).instructions, nodes, x, |st.instructions|)
    decreases |nodes| - x, 1
  {
    OwnersSplit(nodes, x, offs);
    var r := Parents(nodes, Some(x), offs, st);
    BlocksExtend(st.instructions, r.instructions, nodes, offs);
    NodeLowered(nodes, x, offs, st, r.instructions);
    ParentsNext(nodes, x, offs, st);
  }

  /** After node x's instruction comes the rest of its sequence, lowered, or `kReturn` when x is the last node. */
  lemma {:induction false} ParentsNext(nodes: seq<Node>, x: nat, offs: seq<(nat, Word)>, st: Asm)
    requires From(nodes, Some(x)) && Firsts(offs) == Owners(nodes, Some(x))
    requires Blocks(st.instructions, nodes, offs) && Below(offs, |st.instructions|)
    requires |Parents(nodes, Some(x), offs, st).instructions| < 0x1_0000_0000
    ensures var r := Parents(nodes, Some(x), offs, st).instructions;
            assert LinkOk(nodes, x);
            match nodes[x].next
            case None => |st.instructions| + 1 < |r| && r[|st.instructions| + 1] == Instruction(kReturn, 0, 0, 0)
            case Some(y) => Lowered(r, nodes, y, |st.instructions| + 1)
    decreases |nodes| - x, 0
  {
    ParentsStep(nodes, x, offs, st);
    var n := nodes[x];
    var rest := if HasChild(n) then offs[1..] else offs;
    var st' := Emit(st, Lowering(n, offs, st));
    if n.next.Some? {
      var y := n.next.value;
      BlocksRest(st.instructions, st'.instructions, nodes, offs, rest);
      ParentsLower(nodes, y, rest, st');
      LoweredSame(Parents(nodes, Some(y), rest, st').instructions, Parents(nodes, Some(x), offs, st).instructions,
                  nodes, y, |st'.instructions|, |st.instructions| + 1);
    }
  }

  /** One round of the second pass: node x's instruction, then the rest of the sequence with the remaining entries. */
  lemma ParentsStep(nodes: seq<Node>, x: nat, offs: seq<(nat, Word)>, st: Asm)
    requires From(nodes, Some(x)) && Firsts(offs) == Owners(nodes, Some(x))
    ensures x < |nodes| && LinkOk(nodes, x) && NodeOk(nodes[x]) && From(nodes, nodes[x].next)
    ensures HasChild(nodes[x]) ==> |offs| > 0 && offs[0].0 == x
    ensures Firsts(if HasChild(nodes[x]) then offs[1..] else offs) == Owners(nodes, nodes[x].next)
    ensures Parents(nodes, Some(x), offs, st)
         == Parents(nodes, nodes[x].next, if HasChild(nodes[x]) then offs[1..] else offs,
                    Emit(st, Lowering(nodes[x], offs, st)))
  {
    FromUnfold(nodes, x);
    OwnersSplit(nodes, x, offs);
  }

  /**
   * The state of the second loop of `compileSimple` at node i: offs are the
   * entries still to take, all below size, the code so far is st, and the
   * second pass from i on still ends in final.
   */
  ghost predicate SecondLoop(nodes: seq<Node>, i: Option<nat>, offs: seq<(nat, Word)>, size: nat, st: Asm, final: Asm) {
    From(nodes, i) && Firsts(offs) == Owners(nodes, i)
    && Below(offs, size) && size <= |st.instructions|
    && Parents(nodes, i, offs, st) == final
  }

  /** At node y the second loop can emit y's instruction: its entries lie below the code so far, which is shorter than final. */
  lemma SecondLoopAt(nodes: seq<Node>, y: nat, offs: seq<(nat, Word)>, size: nat, st: Asm, final: Asm)
    requires SecondLoop(nodes, Some(y), offs, size, st, final)
    ensures From(nodes, Some(y)) && Firsts(offs) == Owners(nodes, Some(y))
    ensures Below(offs, |st.instructions|) && |st.instructions| < |final.instructions|
  {
  }

  /** After node y's instruction the loop goes on at y's successor, y's entry taken when y has children. */
  lemma SecondLoopNext(nodes: seq<Node>, y: nat, offs: seq<(nat, Word)>, size: nat, st: Asm, final: Asm)
    requires SecondLoop(nodes, Some(y), offs, size, st, final)
    ensures y < |nodes| && LinkOk(nodes, y) && NodeOk(nodes[y]) && (HasChild(nodes[y]) ==> |offs| > 0)
    ensures SecondLoop(nodes, nodes[y].next, if HasChild(nodes[y]) then offs[1..] else offs, size,
                       Emit(st, Lowering(nodes[y], offs, st)), final)
  {
    ParentsStep(nodes, y, offs, st);
  }

  /** Restates a layout fact about equal code at an equal position, so that the verifier need not unfold it. */
  lemma LoweredSame(ins: seq<Instruction>, ins': seq<Instruction>, nodes: seq<Node>, x: nat, at: nat, at': nat)
    requires Linked(nodes) && x < |nodes| && ins == ins' && at == at' && Lowered(ins, nodes, x, at)
    ensures Lowered(ins', nodes, x, at')
  {
  }

  /** The instruction the second pass emits for node x is what `NodeAt` asks for. */
  lemma NodeLowered(nodes: seq<Node>, x: nat, offs: seq<(nat, Word)>, st: Asm, ins: seq<Instruction>)
    requires From(nodes, Some(x)) && Firsts(offs) == Owners(nodes, Some(x))
    requires Blocks(ins, nodes, offs) && Below(offs, |st.instructions|)
    requires (OwnersSplit(nodes, x, offs); |st.instructions| < |ins|)
    requires ins[|st.instructions|] == Lowering(nodes[x], offs, st).ins
    ensures NodeAt(ins, nodes, x, |st.instructions|)
  {
    OwnersSplit(nodes, x, offs);
  }

  /** Dropping entries that have been used keeps the others, as code is appended. */
  lemma BlocksRest(ins: seq<Instruction>, more: seq<Instruction>, nodes: seq<Node>,
                   offs: seq<(nat, Word)>, rest: seq<(nat, Word)>)
    requires Linked(nodes) && Blocks(ins, nodes, offs) && Below(offs, |ins|) && ins <= more
    requires rest == offs || (|offs| > 0 && rest == offs[1..])
    ensures Blocks(more, nodes, rest) && Below(rest, |more|)
  {
    BlocksExtend(ins, more, nodes, offs);
    if rest != offs {
      forall k | 0 <= k < |rest|
        ensures rest[k] == offs[k + 1]
      {
      }
    }
  }

  /**
   * The layout of one block: `compileSimple(n)` appends the child blocks and
   * then exactly one instruction per node of the sequence and a `kReturn`,
   * starting at the returned entry.
   */
  lemma BlockLayout(nodes: seq<Node>, n: nat, st: Asm)
    requires From(nodes, Some(n))
    requires |Block(nodes, n, st).asm.instructions| < 0x1_0000_0000
    ensures var r := Block(nodes, n, st);
            st.instructions <= r.asm.instructions && |st.instructions| <= r.entry
            && |r.asm.instructions| == r.entry + |Chain(nodes, n)| + 1
            && r.asm.instructions[|r.asm.instructions| - 1] == Instruction(kReturn, 0, 0, 0)
  {
    var p := Children(nodes, Some(n), st, []);
    var r := Block(nodes, n, st);
    assert |p.asm.instructions| <= |r.asm.instructions|;
    BlockLowers(nodes, n, st);
    LoweredEnds(r.asm.instructions, nodes, n, r.entry);
  }

  /** A lowered sequence ends with `kReturn` right after its last node. */
  lemma {:induction false} LoweredEnds(ins: seq<Instruction>, nodes: seq<Node>, x: nat, at: nat)
    requires Linked(nodes) && x < |nodes| && Lowered(ins, nodes, x, at)
    ensures at + |Chain(nodes, x)| < |ins| && ins[at + |Chain(nodes, x)|] == Instruction(kReturn, 0, 0, 0)
    decreases |nodes| - x
  {
    assert LinkOk(nodes, x);
    match nodes[x].next
    case None =>
      assert Chain(nodes, x) == [x];
    case Some(y) =>
      assert Chain(nodes, x) == [x] + Chain(nodes, y);
      LoweredEnds(ins, nodes, y, at + 1);
  }

  /* ---------------------------------------------------------------------- */
  /* Trees and forests                                                       */
  /* ---------------------------------------------------------------------- */

  /**
   * `compile(const Tree&)`: a tree without a root emits nothing and has entry
   * 0; otherwise the root's sequence is compiled and `kHalt` follows.
   */
  function CompileTree(nodes: seq<Node>, root: Option<nat>, st: Asm): (r: Compiled)
    requires From(nodes, root)
    ensures st.instructions <= r.asm.instructions
  {
    if root.None? then Compiled(st, 0)
    else
      var b := Block(nodes, root.value, st);
      Compiled(Append(b.asm, kHalt), b.entry)
  }

  /**
   * Entry 0 means "no tree": after the leading `kSkip` no block starts at 0,
   * so a tree with a root gets an entry of at least 1 at which its root
   * sequence is lowered, and its code ends with `kHalt`.
   */
  lemma TreeLowered(nodes: seq<Node>, root: Option<nat>, st: Asm)
    requires From(nodes, root) && |st.instructions| >= 1
    requires |CompileTree(nodes, root, st).asm.instructions| < 0x1_0000_0000
    ensures var r := CompileTree(nodes, root, st);
            (r.entry == 0 <==> root.None?)
            && (root.None? ==> r.asm == st)
            && (root.Some? ==> Lowered(r.asm.instructions, nodes, root.value, r.entry)
                               && r.asm.instructions[|r.asm.instructions| - 1] == Instruction(kHalt, 0, 0, 0))
  {
    if root.Some? {
      var b := Block(nodes, root.value, st);
      var r := CompileTree(nodes, root, st);
      assert |b.asm.instructions| < |r.asm.instructions|;
      BlockLowers(nodes, root.value, st);
      LoweredExtends(b.asm.instructions, r.asm.instructions, nodes, root.value, b.entry);
    }
  }

  /** A tree as the compiler sees it: its node arena and its root. */
  type Source = (seq<Node>, Option<nat>)

  predicate Sources(trees: seq<Source>) {
    forall k | 0 <= k < |trees| :: From(trees[k].0, trees[k].1)
  }

  /** The code after a forest and each tree's entry, in order. */
  datatype Output = Output(asm: Asm, entries: seq<Word>)

  /** `compile(const Forest&, Offsets&)`: the trees in order, each entry appended. */
  function CompileTrees(trees: seq<Source>, st: Asm): (r: Output)
    requires Sources(trees)
    ensures |r.entries| == |trees|
    ensures st.instructions <= r.asm.instructions
    decreases |trees|
  {
    if trees == [] then Output(st, [])
    else
      var c := CompileTree(trees[0].0, trees[0].1, st);
      var rest := CompileTrees(trees[1..], c.asm);
      Output(rest.asm, [c.entry] + rest.entries)
  }

  /** Compiling a non-empty forest compiles its first tree, then the others after it. */
  lemma CompileTreesFirst(trees: seq<Source>, st: Asm)
    requires Sources(trees) && trees != []
    ensures From(trees[0].0, trees[0].1) && Sources(trees[1..])
    ensures var c := CompileTree(trees[0].0, trees[0].1, st);
            var rest := CompileTrees(trees[1..], c.asm);
            CompileTrees(trees, st) == Output(rest.asm, [c.entry] + rest.entries)
            && |c.asm.instructions| <= |rest.asm.instructions|
  {
    assert From(trees[0].0, trees[0].1);
    forall k | 0 <= k < |trees[1..]|
      ensures From(trees[1..][k].0, trees[1..][k].1)
    {
      assert trees[1..][k] == trees[k + 1];
    }
  }

  /** Each tree of a compiled forest is lowered at its entry, which is 0 exactly for a tree without a root. */
  lemma {:induction false} ForestLowered(trees: seq<Source>, st: Asm)
    requires Sources(trees) && |st.instructions| >= 1
    requires |CompileTrees(trees, st).asm.instructions| < 0x1_0000_0000
    ensures var r := CompileTrees(trees, st);
            forall k | 0 <= k < |trees| ::
              (r.entries[k] == 0 <==> trees[k].1.None?)
              && (trees[k].1.Some? ==> Lowered(r.asm.instructions, trees[k].0, trees[k].1.value, r.entries[k]))
    decreases |trees|
  {
    if trees != [] {
      var c := CompileTree(trees[0].0, trees[0].1, st);
      var rest := CompileTrees(trees[1..], c.asm);
      var r := CompileTrees(trees, st);
      assert r == Output(rest.asm, [c.entry] + rest.entries);
      TreeLowered(trees[0].0, trees[0].1, st);
      ForestLowered(trees[1..], c.asm);
      if trees[0].1.Some? {
        LoweredExtends(c.asm.instructions, r.asm.instructions, trees[0].0, trees[0].1.value, c.entry);
      }
      forall k | 1 <= k < |trees|
        ensures (r.entries[k] == 0 <==> trees[k].1.None?)
                && (trees[k].1.Some? ==> Lowered(r.asm.instructions, trees[k].0, trees[k].1.value, r.entries[k]))
      {
        assert trees[k] == trees[1..][k - 1] && r.entries[k] == rest.entries[k - 1];
      }
    }
  }

  /* ---------------------------------------------------------------------- */
  /* The compiler                                                            */
  /* ---------------------------------------------------------------------- */

  /** `PushExecute`: the mode must be a valid mode and the offset inside the code; the third word is 0. */
  method PushExecute(a: Assembler, m: Word, o: Word)
    requires a.Valid() && IsMode(m) && o < a.CodeSize()
    modifies a
    ensures a.Valid()
    ensures a.instructions == old(a.instructions) + [Instruction(kExecute, m, o, 0)]
    ensures a.memory == old(a.memory) && a.memoryUnifier == old(a.memoryUnifier) && a.labels == old(a.labels)
  {
    a.PushExecute(m, o, 0);
  }

  class Compiler {
    const assembler: Assembler

    /** The assembler is consistent and its code starts with the `kSkip` the constructor emits. */
    ghost predicate Valid()
      reads this, assembler
    {
      assembler.Valid() && |assembler.instructions| >= 1
      && assembler.instructions[0] == Instruction(kSkip, 0, 0, 0)
    }

    /** A new compiler: a fresh assembler holding one `kSkip`, so that no block starts at 0. */
    constructor()
      ensures Valid() && fresh(assembler)
      ensures assembler.instructions == [Instruction(kSkip, 0, 0, 0)]
      ensures assembler.memory == ['\0'] && assembler.memoryUnifier == map[] && assembler.labels == map[]
    {
      var a := new Assembler();
      a.PushSkip(None);
      assembler := a;
    }

    /**
     * `dispatch(n)`: the name is looked up with a lower-bound search of the
     * sorted table and its adapter is called on the parameters.
     */
    method Dispatch(name: seq<char>, p: seq<seq<char>>)
      requires Valid() && OpOk(name, p)
      modifies assembler
      ensures Valid() && assembler.labels == old(assembler.labels)
      ensures var e := Lower(AdapterFor(name), p, old(assembler.memory), old(assembler.memoryUnifier));
              assembler.instructions == old(assembler.instructions) + [e.ins]
              && assembler.memory == e.memory && assembler.memoryUnifier == e.unifier
    {
      TableLookup(name, 0);
      var i := LowerBound(Names, name);
      LowerBoundFinds(Names, name, i);
      TableLookup(name, i);
      if i < |Names| && Names[i] == name {
        Adapt(assembler, AdapterAt(i), p);
      } else {
        assert false;
      }
    }

    /**
     * `compileSimple(n)`: the two passes over the sequence from n, leaving
     * exactly the state `Block` describes and returning its entry, the code
     * size between the passes.
     */
    method CompileSimple(nodes: seq<Node>, n: nat) returns (e: Word)
      requires Valid() && From(nodes, Some(n))
      requires |Block(nodes, n, StateOf(assembler)).asm.instructions| < 0x1_0000_0000
      modifies assembler
      ensures Valid() && assembler.labels == old(assembler.labels)
      ensures StateOf(assembler) == Block(nodes, n, old(StateOf(assembler))).asm
      ensures e == Block(nodes, n, old(StateOf(assembler))).entry
      decreases |nodes| - n, 1
    {
      ghost var st := StateOf(assembler);
      ghost var whole := Children(nodes, Some(n), st, []);
      ChildrenOwners(nodes, Some(n), st, []);
      assert Firsts([]) + Owners(nodes, Some(n)) == Owners(nodes, Some(n));
      ChildrenBelow(nodes, Some(n), st, []);
      assert Block(nodes, n, st).asm == Parents(nodes, Some(n), whole.offsets, whole.asm);
      var offsets := FirstPass(nodes, n);
      e := assembler.CodeSize();
      SecondPass(nodes, n, offsets);
    }

    /** The first loop of `compileSimple`: each child sequence is compiled and its entry recorded. */
    method FirstPass(nodes: seq<Node>, n: nat) returns (offsets: seq<(nat, Word)>)
      requires Valid() && From(nodes, Some(n))
      requires |Children(nodes, Some(n), StateOf(assembler), []).asm.instructions| < 0x1_0000_0000
      modifies assembler
      ensures Valid() && assembler.labels == old(assembler.labels)
      ensures Children(nodes, Some(n), old(StateOf(assembler)), []) == Pass(StateOf(assembler), offsets)
      decreases |nodes| - n, 0
    {
      ghost var whole := Children(nodes, Some(n), StateOf(assembler), []);
      offsets := [];
      FromUnfold(nodes, n);
      var i: Option<nat> := Some(n);
      var j := nodes[n].next;
      while i.Some?
        invariant Valid() && assembler.labels == old(assembler.labels)
        invariant From(nodes, i) && (i.Some? ==> n <= i.value && j == nodes[i.value].next)
        invariant Children(nodes, i, StateOf(assembler), offsets) == whole
        decreases if i.Some? then |nodes| - i.value else 0
      {
        var y := i.value;
        FromUnfold(nodes, y);
        if HasChild(nodes[y]) {
          ghost var c := Block(nodes, nodes[y].child.value, StateOf(assembler));
          assert Children(nodes, nodes[y].next, c.asm, offsets + [(y, c.entry)]) == whole;
          var entry := CompileSimple(nodes, nodes[y].child.value);
          offsets := offsets + [(y, entry)];
        }
        i := j;
        if i.Some? {
          FromUnfold(nodes, i.value);
          j := nodes[i.value].next;
        }
      }
    }

    /**
     * The second loop of `compileSimple` and the closing `kReturn`: one
     * instruction per node, the And/Or nodes taking the recorded entries in
     * order.
     */
    method SecondPass(nodes: seq<Node>, n: nat, offsets: seq<(nat, Word)>)
      requires Valid() && From(nodes, Some(n)) && Firsts(offsets) == Owners(nodes, Some(n))
      requires Below(offsets, |assembler.instructions|)
      requires |Parents(nodes, Some(n), offsets, StateOf(assembler)).instructions| < 0x1_0000_0000
      modifies assembler
      ensures Valid() && assembler.labels == old(assembler.labels)
      ensures StateOf(assembler) == Parents(nodes, Some(n), offsets, old(StateOf(assembler)))
    {
      ghost var final := Parents(nodes, Some(n), offsets, StateOf(assembler));
      ghost var size := |assembler.instructions|;
      FromUnfold(nodes, n);
      var i: Option<nat> := Some(n);
      var j := nodes[n].next;
      var it := 0;
      assert offsets[0..] == offsets;
      while i.Some?
        invariant Valid() && assembler.labels == old(assembler.labels)
        invariant it <= |offsets| && SecondLoop(nodes, i, offsets[it..], size, StateOf(assembler), final)
        invariant i.Some? ==> i.value < |nodes| && j == nodes[i.value].next
        decreases if i.Some? then |nodes| - i.value else 0
      {
        var y := i.value;
        SecondLoopAt(nodes, y, offsets[it..], size, StateOf(assembler), final);
        SecondLoopNext(nodes, y, offsets[it..], size, StateOf(assembler), final);
        EmitNode(nodes, y, offsets[it..]);
        if HasChild(nodes[y]) {
          assert offsets[it..][1..] == offsets[it + 1..];
          it := it + 1;
        }
        i := j;
        if i.Some? {
          j := nodes[i.value].next;
        }
      }
      assembler.PushPlain(kReturn);
    }

    /**
     * The body of the second loop: the instruction for node y, as `Lowering`
     * describes it; an And/Or node takes the first recorded entry of offs,
     * the one its first pass recorded for it.
     */
    method EmitNode(nodes: seq<Node>, y: nat, offs: seq<(nat, Word)>)
      requires Valid() && From(nodes, Some(y)) && Firsts(offs) == Owners(nodes, Some(y))
      requires Below(offs, |assembler.instructions|) && |assembler.instructions| < 0x1_0000_0000
      modifies assembler
      ensures Valid() && assembler.labels == old(assembler.labels)
      ensures y < |nodes| && NodeOk(nodes[y]) && (HasChild(nodes[y]) ==> |offs| > 0)
      ensures StateOf(assembler) == Emit(old(StateOf(assembler)), Lowering(nodes[y], offs, old(StateOf(assembler))))
    {
      FromUnfold(nodes, y);
      OwnersSplit(nodes, y, offs);
      var node := nodes[y];
      if HasChild(node) {
        var m := if node.kind.And? then ModeAnd else ModeOr;
        PushExecute(assembler, m, offs[0].1);
      } else if node.kind.Not? {
        assembler.PushPlain(kNot);
      } else {
        Dispatch(node.kind.name, node.kind.parameters);
      }
    }

    /** `compile(const Tree&)`: the tree's code as `CompileTree` describes it, and its entry. */
    method Compile(t: Tree) returns (e: Word)
      requires Valid() && From(t.nodes, t.root)
      requires |CompileTree(t.nodes, t.root, StateOf(assembler)).asm.instructions| < 0x1_0000_0000
      modifies assembler
      ensures Valid() && assembler.labels == old(assembler.labels)
      ensures StateOf(assembler) == CompileTree(t.nodes, t.root, old(StateOf(assembler))).asm
      ensures e == CompileTree(t.nodes, t.root, old(StateOf(assembler))).entry
    {
      if t.root.None? {
        return 0;
      }
      e := CompileSimple(t.nodes, t.root.value);
      assembler.PushPlain(kHalt);
    }

    /** `compile(const Forest&, Offsets&)`: the trees in order, their entries appended to r. */
    method CompileForest(forest: seq<Tree>, r: seq<Word>) returns (r': seq<Word>)
      requires Valid() && Sources(SourcesOf(forest))
      requires |CompileTrees(SourcesOf(forest), StateOf(assembler)).asm.instructions| < 0x1_0000_0000
      modifies assembler
      ensures Valid() && assembler.labels == old(assembler.labels)
      ensures StateOf(assembler) == CompileTrees(SourcesOf(forest), old(StateOf(assembler))).asm
      ensures r' == r + CompileTrees(SourcesOf(forest), old(StateOf(assembler))).entries
    {
      ghost var trees := SourcesOf(forest);
      ghost var final := CompileTrees(trees, StateOf(assembler));
      r' := r;
      for k := 0 to |forest|
        invariant Valid() && assembler.labels == old(assembler.labels)
        invariant Sources(trees[k..])
        invariant CompileTrees(trees[k..], StateOf(assembler)).asm == final.asm
        invariant r' + CompileTrees(trees[k..], StateOf(assembler)).entries == r + final.entries
      {
        assert trees[k..][1..] == trees[k + 1..];
        assert trees[k..][0] == trees[k] == (forest[k].nodes, forest[k].root);
        CompileTreesFirst(trees[k..], StateOf(assembler));
        var e := Compile(forest[k]);
        r' := r' + [e];
      }
      assert SourcesOf(forest) == trees;
    }
  }

  /** The trees of a forest, as the compiler reads them. */
  ghost function SourcesOf(forest: seq<Tree>): (s: seq<Source>)
    reads set t | t in forest
    ensures |s| == |forest|
    ensures forall k | 0 <= k < |forest| :: s[k] == (forest[k].nodes, forest[k].root)
  {
    if forest == [] then [] else [(forest[0].nodes, forest[0].root)] + SourcesOf(forest[1..])
  }
}
