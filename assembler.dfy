/**
 * The assembler of assembler.h and assembler.cc: it appends 4-word
 * instructions to a growing vector and interns NUL-terminated strings into a
 * character arena, so that an instruction operand can name a string by its
 * offset.
 *
 * The arena starts with a single NUL, so offset 0 names the empty string;
 * every other string is stored once, with its terminator, at the position the
 * arena had when the string was first seen. `memoryUnifier` remembers those
 * positions.
 *
 * A C pointer argument is an `Option`: None is NULL. The typed helpers throw
 * `std::invalid_argument` on a bad argument; the model returns `thrown` and
 * leaves the assembler as it was, which is what the source does since every
 * check comes before the first change.
 */
module Assemblers {
  import opened Wrappers
  import opened Opcodes
  import opened CStrings

  /** One instruction: an opcode and its three operands. */
  datatype Instruction = Instruction(op: Word, a: Word, b: Word, c: Word)

  /** A `uint32_t` holding a size or a position: the value modulo 2^32. */
  function Truncate(x: nat): (w: Word)
    ensures x < 0x1_0000_0000 ==> w == x
  {
    x % 0x1_0000_0000
  }

  /** `code()`: the instructions laid out as 4 words each, in order. */
  function Code(ins: seq<Instruction>): (w: seq<Word>)
    ensures |w| == 4 * |ins|
  {
    if |ins| == 0 then []
    else
      var last := ins[|ins| - 1];
      Code(ins[..|ins| - 1]) + [last.op, last.a, last.b, last.c]
  }

  /** Appending instructions appends their words. */
  lemma {:induction false} CodeAppend(xs: seq<Instruction>, ys: seq<Instruction>)
    ensures Code(xs + ys) == Code(xs) + Code(ys)
    decreases |ys|
  {
    if |ys| > 0 {
      var zs := xs + ys;
      var last := ys[|ys| - 1];
      assert zs[..|zs| - 1] == xs + ys[..|ys| - 1];
      assert zs[|zs| - 1] == last;
      CodeAppend(xs, ys[..|ys| - 1]);
      calc {
        Code(zs);
        Code(xs + ys[..|ys| - 1]) + [last.op, last.a, last.b, last.c];
        Code(xs) + Code(ys[..|ys| - 1]) + [last.op, last.a, last.b, last.c];
        Code(xs) + Code(ys);
      }
    } else {
      assert xs + ys == xs;
    }
  }

  /** Instruction k occupies words 4k to 4k+3 of the code. */
  lemma {:induction false} CodeAt(ins: seq<Instruction>, k: nat)
    requires k < |ins|
    ensures Code(ins)[4 * k..4 * k + 4] == [ins[k].op, ins[k].a, ins[k].b, ins[k].c]
  {
    var pre, post := ins[..k + 1], ins[k + 1..];
    assert ins == pre + post;
    CodeAppend(pre, post);
    assert pre[..|pre| - 1] == ins[..k];
    assert |Code(ins[..k])| == 4 * k;
  }

  /**
   * The arena invariant: the arena starts with the NUL that offset 0 names,
   * and every remembered string is non-empty and can be read back, with its
   * terminator, at its remembered position.
   */
  predicate Arena(memory: seq<char>, unifier: map<seq<char>, nat>) {
    |memory| >= 1 && memory[0] == '\0'
    && forall k | k in unifier :: k != [] && CStringAt(memory, unifier[k]) == Some(k)
  }

  /** The arena and positions after a call, and the position it returns. */
  datatype Interned = Interned(memory: seq<char>, unifier: map<seq<char>, nat>, offset: nat)

  /**
   * What `pushMemory(a)` does to the arena: the empty string is offset 0; a
   * string seen before gets its remembered position; a new string is appended
   * with its terminator at the arena's old end, which is remembered.
   */
  function Intern(memory: seq<char>, unifier: map<seq<char>, nat>, a: seq<char>): (r: Interned)
    requires NoNul(a)
    ensures a == [] ==> r.offset == 0
    ensures a != [] ==> a in r.unifier && r.unifier[a] == r.offset
  {
    if a == [] then Interned(memory, unifier, 0)
    else if a in unifier then Interned(memory, unifier, unifier[a])
    else Interned(memory + a + ['\0'], unifier[a := |memory|], |memory|)
  }

  /** A later arena keeps every character and every remembered position of an earlier one. */
  predicate Extends(memory: seq<char>, unifier: map<seq<char>, nat>,
                    memory': seq<char>, unifier': map<seq<char>, nat>)
  {
    |memory| <= |memory'| && memory'[..|memory|] == memory
    && forall k | k in unifier :: k in unifier' && unifier'[k] == unifier[k]
  }

  /** Appending a new string with its terminator, and remembering it, keeps the arena invariant. */
  lemma ArenaAppended(memory: seq<char>, unifier: map<seq<char>, nat>, a: seq<char>)
    requires Arena(memory, unifier) && NoNul(a) && a != [] && a !in unifier
    ensures Arena(memory + a + ['\0'], unifier[a := |memory|])
  {
    var m, u := memory + a + ['\0'], unifier[a := |memory|];
    assert m == memory + (a + ['\0']);
    CStringAtAppended(memory, a);
    forall k | k in u
      ensures k != [] && CStringAt(m, u[k]) == Some(k)
    {
      if k != a {
        CStringAtExtended(memory, a + ['\0'], unifier[k]);
      }
    }
  }

  /** Interning keeps the arena invariant and the string can be read back at the returned offset. */
  lemma {:induction false} InternReadsBack(memory: seq<char>, unifier: map<seq<char>, nat>, a: seq<char>)
    requires Arena(memory, unifier) && NoNul(a)
    ensures Arena(Intern(memory, unifier, a).memory, Intern(memory, unifier, a).unifier)
    ensures CStringAt(Intern(memory, unifier, a).memory, Intern(memory, unifier, a).offset) == Some(a)
  {
    if a == [] {
      assert CStringAt(memory, 0) == Some([]);
    } else if a !in unifier {
      CStringAtAppended(memory, a);
      ArenaAppended(memory, unifier, a);
    }
  }

  /** Interning only appends to the arena and never moves a remembered string. */
  lemma InternExtends(memory: seq<char>, unifier: map<seq<char>, nat>, a: seq<char>)
    requires NoNul(a)
    ensures Extends(memory, unifier, Intern(memory, unifier, a).memory, Intern(memory, unifier, a).unifier)
  {
  }

  /** Interning a string a second time returns the same offset and changes nothing. */
  lemma InternAgain(memory: seq<char>, unifier: map<seq<char>, nat>, a: seq<char>)
    requires NoNul(a)
    ensures var i := Intern(memory, unifier, a);
            Intern(i.memory, i.unifier, a) == i
  {
  }

  /** A string read at a position stays the same when the arena grows. */
  lemma ReadsBackLater(memory: seq<char>, unifier: map<seq<char>, nat>,
                       memory': seq<char>, unifier': map<seq<char>, nat>, off: nat, s: seq<char>)
    requires Extends(memory, unifier, memory', unifier')
    requires CStringAt(memory, off) == Some(s)
    ensures CStringAt(memory', off) == Some(s)
  {
    assert memory' == memory + memory'[|memory|..];
    CStringAtExtended(memory, memory'[|memory|..], off);
  }

  /**
   * Deduplication: interning two strings one after the other gives them the
   * same offset exactly when they are the same string.
   */
  lemma InternSeparates(memory: seq<char>, unifier: map<seq<char>, nat>, a: seq<char>, b: seq<char>)
    requires Arena(memory, unifier) && NoNul(a) && NoNul(b)
    ensures var i := Intern(memory, unifier, a);
            var j := Intern(i.memory, i.unifier, b);
            i.offset == j.offset <==> a == b
  {
    var i := Intern(memory, unifier, a);
    var j := Intern(i.memory, i.unifier, b);
    InternReadsBack(memory, unifier, a);
    InternReadsBack(i.memory, i.unifier, b);
    InternExtends(i.memory, i.unifier, b);
    ReadsBackLater(i.memory, i.unifier, j.memory, j.unifier, i.offset, a);
  }

  /** The opcodes `pushHalt`, `pushReturn`, `pushNone`, `pushAnd`, `pushOr`, `pushNot`, `pushTrue`, `pushFalse` emit. */
  predicate IsPlain(op: Word) {
    op == kHalt || op == kReturn || op == kNone || op == kAnd || op == kOr
    || op == kNot || op == kTrue || op == kFalse
  }

  /** Helpers taking one string: the name of a header, query parameter or cookie. */
  datatype KeyHelper = ExistsHeader | ExistsQueryParameter | ExistsCookie

  /** Helpers taking a name and a number to compare with. */
  datatype NumberHelper =
    | GreaterThanHeader | LessThanHeader
    | GreaterThanQueryParameter | LessThanQueryParameter
    | GreaterThanCookie | LessThanCookie

  /** Helpers taking a string and how many of its characters to use. */
  datatype BoundedHelper =
    | IsMethod | IsScheme
    | ContainsDomain | EqualDomain | NotEqualDomain
    | ContainsPath | EqualPath | NotEqualPath

  /** Helpers taking a string, how many of its characters to use, and an offset. */
  datatype BoundedFromHelper = StartsWithDomain | StartsWithPath

  /** Helpers taking a name and a second string. */
  datatype PairHelper =
    | ContainsQueryParameter | ContainsCookie | ContainsHeader
    | EqualQueryParameter | EqualHeader | EqualCookie
    | NotEqualQueryParameter | NotEqualHeader | NotEqualCookie

  /** Helpers taking a name, a second string and a number. */
  datatype PairFromHelper =
    | GreaterThanAfterHeader | LessThanAfterHeader
    | GreaterThanAfterQueryParameter | LessThanAfterQueryParameter
    | GreaterThanAfterCookie | LessThanAfterCookie
    | StartsWithQueryParameter | StartsWithHeader

  function KeyOpcode(h: KeyHelper): (op: Word)
    ensures IsOpcode(op)
  {
    match h
    case ExistsHeader => kExistsHeader
    case ExistsQueryParameter => kExistsQueryParameter
    case ExistsCookie => kExistsCookie
  }

  /** The opcode each number helper emits; the two cookie helpers emit the "after" opcodes. */
  function NumberOpcode(h: NumberHelper): (op: Word)
    ensures IsOpcode(op)
  {
    match h
    case GreaterThanHeader => kGreaterThanHeader
    case LessThanHeader => kLessThanHeader
    case GreaterThanQueryParameter => kGreaterThanQueryParameter
    case LessThanQueryParameter => kLessThanQueryParameter
    case GreaterThanCookie => kGreaterThanAfterCookie
    case LessThanCookie => kLessThanAfterCookie
  }

  /** The opcode each number helper's name stands for. */
  function NumberNamed(h: NumberHelper): Word {
    match h
    case GreaterThanHeader => kGreaterThanHeader
    case LessThanHeader => kLessThanHeader
    case GreaterThanQueryParameter => kGreaterThanQueryParameter
    case LessThanQueryParameter => kLessThanQueryParameter
    case GreaterThanCookie => kGreaterThanCookie
    case LessThanCookie => kLessThanCookie
  }

  function BoundedOpcode(h: BoundedHelper): (op: Word)
    ensures IsOpcode(op)
  {
    match h
    case IsMethod => kIsMethod
    case IsScheme => kIsScheme
    case ContainsDomain => kContainsDomain
    case EqualDomain => kEqualDomain
    case NotEqualDomain => kNotEqualDomain
    case ContainsPath => kContainsPath
    case EqualPath => kEqualPath
    case NotEqualPath => kNotEqualPath
  }

  function BoundedFromOpcode(h: BoundedFromHelper): (op: Word)
    ensures IsOpcode(op)
  {
    match h
    case StartsWithDomain => kStartsWithDomain
    case StartsWithPath => kStartsWithPath
  }

  /** The opcode each pair helper emits; both "not equal" query and cookie helpers emit the header one. */
  function PairOpcode(h: PairHelper): (op: Word)
    ensures IsOpcode(op)
  {
    match h
    case ContainsQueryParameter => kContainsQueryParameter
    case ContainsCookie => kContainsCookie
    case ContainsHeader => kContainsHeader
    case EqualQueryParameter => kEqualQueryParameter
    case EqualHeader => kEqualHeader
    case EqualCookie => kEqualCookie
    case NotEqualQueryParameter => kNotEqualHeader
    case NotEqualHeader => kNotEqualHeader
    case NotEqualCookie => kNotEqualHeader
  }

  /** The opcode each pair helper's name stands for. */
  function PairNamed(h: PairHelper): Word {
    match h
    case ContainsQueryParameter => kContainsQueryParameter
    case ContainsCookie => kContainsCookie
    case ContainsHeader => kContainsHeader
    case EqualQueryParameter => kEqualQueryParameter
    case EqualHeader => kEqualHeader
    case EqualCookie => kEqualCookie
    case NotEqualQueryParameter => kNotEqualQueryParameter
    case NotEqualHeader => kNotEqualHeader
    case NotEqualCookie => kNotEqualCookie
  }

  /** Only `pushEqualHeader` and `pushEqualCookie` leave their second argument unchecked. */
  predicate ChecksSecond(h: PairHelper) {
    h != EqualHeader && h != EqualCookie
  }

  function PairFromOpcode(h: PairFromHelper): (op: Word)
    ensures IsOpcode(op)
  {
    match h
    case GreaterThanAfterHeader => kGreaterThanAfterHeader
    case LessThanAfterHeader => kLessThanAfterHeader
    case GreaterThanAfterQueryParameter => kGreaterThanAfterQueryParameter
    case LessThanAfterQueryParameter => kLessThanAfterQueryParameter
    case GreaterThanAfterCookie => kGreaterThanAfterCookie
    case LessThanAfterCookie => kLessThanAfterCookie
    case StartsWithQueryParameter => kStartsWithQueryParameter
    case StartsWithHeader => kStartsWithHeader
  }

  /** Exactly the two cookie comparisons emit an opcode other than the one their name says. */
  lemma NumberHelpersAsNamed(h: NumberHelper)
    ensures NumberOpcode(h) == NumberNamed(h) <==> h != GreaterThanCookie && h != LessThanCookie
  {
  }

  /** Exactly the query-parameter and cookie "not equal" helpers emit an opcode other than their name's. */
  lemma PairHelpersAsNamed(h: PairHelper)
    ensures PairOpcode(h) == PairNamed(h) <==> h != NotEqualQueryParameter && h != NotEqualCookie
  {
  }

  /** Every label names a position no further than the end of the code. */
  predicate Within(labels: map<seq<char>, Word>, size: nat) {
    forall l | l in labels :: labels[l] <= size
  }

  class Assembler {
    var instructions: seq<Instruction>
    var memory: seq<char>
    /** `memoryUnifier_`: where each interned string starts in the arena. */
    var memoryUnifier: map<seq<char>, nat>
    var labels: map<seq<char>, Word>

    /** The arena invariant, and every label names a position inside the code. */
    ghost predicate Valid()
      reads this
    {
      Arena(memory, memoryUnifier) && Within(labels, |instructions|)
    }

    /** A fresh assembler: no code, no labels, and an arena holding only the NUL of offset 0. */
    constructor()
      ensures Valid()
      ensures instructions == [] && memory == ['\0'] && memoryUnifier == map[] && labels == map[]
      ensures CStringAt(memory, 0) == Some([])
    {
      instructions := [];
      memory := ['\0'];
      memoryUnifier := map[];
      labels := map[];
    }

    /** `codeSize()`: the instruction count as a `uint32_t`. */
    function CodeSize(): (n: Word)
      reads this
      ensures |instructions| < 0x1_0000_0000 ==> n == |instructions|
    {
      Truncate(|instructions|)
    }

    /** `code()`: the instructions, 4 words each. */
    function Words(): (w: seq<Word>)
      reads this
      ensures |w| == 4 * |instructions|
    {
      Code(instructions)
    }

    /** `operator[](l)`: the position recorded for label l, or `-1` as a `uint32_t` when there is none. */
    function Get(l: seq<char>): (r: Word)
      requires Valid()
      reads this
      ensures l in labels ==> r == labels[l] && r <= |instructions|
      ensures l !in labels ==> r == 0xFFFF_FFFF
    {
      if l in labels then labels[l] else 0xFFFF_FFFF
    }

    /**
     * `label(l)`: a new label records the current instruction count; a label
     * seen before keeps its first value. Either way the recorded value is
     * returned, and is what `operator[]` answers afterwards.
     */
    method Label(l: seq<char>) returns (r: Word)
      requires Valid()
      modifies this
      ensures Valid()
      ensures old(l in labels) ==> labels == old(labels) && r == old(labels[l])
      ensures old(l !in labels) ==> labels == old(labels)[l := CodeSize()] && r == CodeSize()
      ensures Get(l) == r
      ensures instructions == old(instructions) && memory == old(memory)
      ensures memoryUnifier == old(memoryUnifier)
    {
      if l !in labels {
        labels := labels[l := Truncate(|instructions|)];
      }
      r := labels[l];
    }

    /** `push`: the opcode must lie strictly between the sentinels; one instruction is appended. */
    method Push(op: Word, a: Word, b: Word, c: Word)
      requires Valid() && IsOpcode(op)
      modifies this
      ensures Valid()
      ensures instructions == old(instructions) + [Instruction(op, a, b, c)]
      ensures memory == old(memory) && memoryUnifier == old(memoryUnifier) && labels == old(labels)
    {
      instructions := instructions + [Instruction(op, a, b, c)];
    }

    /**
     * `pushMemory(a)`: the arena changes as `Intern` says, the string can be
     * read back at the returned offset, and the offset is the position as a
     * `uint32_t`.
     */
    method PushMemory(a: seq<char>) returns (r: Word)
      requires Valid() && NoNul(a)
      modifies this
      ensures Valid()
      ensures var i := Intern(old(memory), old(memoryUnifier), a);
              memory == i.memory && memoryUnifier == i.unifier && r == Truncate(i.offset)
      ensures CStringAt(memory, Intern(old(memory), old(memoryUnifier), a).offset) == Some(a)
      ensures instructions == old(instructions) && labels == old(labels)
    {
      InternReadsBack(memory, memoryUnifier, a);
      var m, u := memory, memoryUnifier;
      if a == [] {
        r := 0;
      } else {
        if a !in u {
          u := u[a := |m|];
          m := m + a + ['\0'];
        }
        r := Truncate(u[a]);
      }
      memory, memoryUnifier := m, u;
    }

    /** `pushHalt`, `pushReturn`, `pushNone`, `pushAnd`, `pushOr`, `pushNot`, `pushTrue`, `pushFalse`. */
    method PushPlain(op: Word)
      requires Valid() && IsPlain(op)
      modifies this
      ensures Valid()
      ensures instructions == old(instructions) + [Instruction(op, 0, 0, 0)]
      ensures memory == old(memory) && memoryUnifier == old(memoryUnifier) && labels == old(labels)
    {
      Push(op, 0, 0, 0);
    }

    /** `pushSkip(a)`: operand a is the interned offset of the string, or 0 without one. */
    method PushSkip(a: Option<seq<char>>)
      requires Valid() && (a.Some? ==> NoNul(a.value))
      modifies this
      ensures Valid()
      ensures a.None? ==> instructions == old(instructions) + [Instruction(kSkip, 0, 0, 0)]
                          && memory == old(memory) && memoryUnifier == old(memoryUnifier)
      ensures a.Some? ==> var i := Intern(old(memory), old(memoryUnifier), a.value);
                          memory == i.memory && memoryUnifier == i.unifier
                          && instructions == old(instructions) + [Instruction(kSkip, Truncate(i.offset), 0, 0)]
      ensures labels == old(labels)
    {
      var b: Word := 0;
      if a.Some? {
        b := PushMemory(a.value);
      }
      Push(kSkip, b, 0, 0);
    }

    /** `pushExecute(m, o, c)`: the mode must be None, And or Or, and the target inside the code. */
    method PushExecute(m: Word, o: Word, c: Word)
      requires Valid() && IsMode(m) && o < CodeSize()
      modifies this
      ensures Valid()
      ensures instructions == old(instructions) + [Instruction(kExecute, m, o, c)]
      ensures memory == old(memory) && memoryUnifier == old(memoryUnifier) && labels == old(labels)
    {
      Push(kExecute, m, o, c);
    }

    /**
     * `pushPrintDebug(a, b, c)`: both strings are interned, but the emitted
     * instruction keeps only the first; the tag b and the mode c are dropped.
     */
    method PushPrintDebug(a: Option<seq<char>>, b: Option<seq<char>>, c: Word) returns (thrown: bool)
      requires Valid() && (a.Some? ==> NoNul(a.value)) && (b.Some? ==> NoNul(b.value))
      modifies this
      ensures Valid()
      ensures thrown <==> a.None?
      ensures thrown ==> instructions == old(instructions) && memory == old(memory)
                         && memoryUnifier == old(memoryUnifier)
      ensures !thrown ==>
                var i := Intern(old(memory), old(memoryUnifier), a.value);
                var j := if b.Some? then Intern(i.memory, i.unifier, b.value) else i;
                memory == j.memory && memoryUnifier == j.unifier
                && instructions == old(instructions) + [Instruction(kPrintDebug, Truncate(i.offset), 0, 0)]
      ensures labels == old(labels)
    {
      if a.None? {
        return true;
      }
      var o := PushMemory(a.value);
      if b.Some? {
        var p := PushMemory(b.value);
      }
      Push(kPrintDebug, o, 0, 0);
      thrown := false;
    }

    /** `pushPrintError(a, b, c)`: the message, the tag (0 without one) and the mode c. */
    method PushPrintError(a: Option<seq<char>>, b: Option<seq<char>>, c: Word) returns (thrown: bool)
      requires Valid() && (a.Some? ==> NoNul(a.value)) && (b.Some? ==> NoNul(b.value))
      modifies this
      ensures Valid()
      ensures thrown <==> a.None?
      ensures thrown ==> instructions == old(instructions) && memory == old(memory)
                         && memoryUnifier == old(memoryUnifier)
      ensures !thrown ==>
                var i := Intern(old(memory), old(memoryUnifier), a.value);
                var j := if b.Some? then Intern(i.memory, i.unifier, b.value) else i;
                var p := if b.Some? then Truncate(j.offset) else 0;
                memory == j.memory && memoryUnifier == j.unifier
                && instructions == old(instructions) + [Instruction(kPrintError, Truncate(i.offset), p, c)]
      ensures labels == old(labels)
    {
      if a.None? {
        return true;
      }
      var o := PushMemory(a.value);
      var p: Word := 0;
      if b.Some? {
        p := PushMemory(b.value);
      }
      Push(kPrintError, o, p, c);
      thrown := false;
    }

    /** `pushExistsHeader`, `pushExistsQueryParameter`, `pushExistsCookie`. */
    method PushKey(h: KeyHelper, a: Option<seq<char>>) returns (thrown: bool)
      requires Valid() && (a.Some? ==> NoNul(a.value))
      modifies this
      ensures Valid()
      ensures thrown <==> a.None?
      ensures thrown ==> instructions == old(instructions) && memory == old(memory)
                         && memoryUnifier == old(memoryUnifier)
      ensures !thrown ==>
                var i := Intern(old(memory), old(memoryUnifier), a.value);
                memory == i.memory && memoryUnifier == i.unifier
                && instructions == old(instructions) + [Instruction(KeyOpcode(h), Truncate(i.offset), 0, 0)]
      ensures labels == old(labels)
    {
      if a.None? {
        return true;
      }
      var o := PushMemory(a.value);
      Push(KeyOpcode(h), o, 0, 0);
      thrown := false;
    }

    /** `pushGreaterThanHeader` … `pushLessThanCookie`: a name and the number b, with no check on b. */
    method PushNumber(h: NumberHelper, a: Option<seq<char>>, b: Word) returns (thrown: bool)
      requires Valid() && (a.Some? ==> NoNul(a.value))
      modifies this
      ensures Valid()
      ensures thrown <==> a.None?
      ensures thrown ==> instructions == old(instructions) && memory == old(memory)
                         && memoryUnifier == old(memoryUnifier)
      ensures !thrown ==>
                var i := Intern(old(memory), old(memoryUnifier), a.value);
                memory == i.memory && memoryUnifier == i.unifier
                && instructions == old(instructions) + [Instruction(NumberOpcode(h), Truncate(i.offset), b, 0)]
      ensures labels == old(labels)
    {
      if a.None? {
        return true;
      }
      var o := PushMemory(a.value);
      Push(NumberOpcode(h), o, b, 0);
      thrown := false;
    }

    /** `pushIsMethod` … `pushNotEqualPath`: b may not exceed the string's length. */
    method PushBounded(h: BoundedHelper, a: Option<seq<char>>, b: Word) returns (thrown: bool)
      requires Valid() && (a.Some? ==> NoNul(a.value))
      modifies this
      ensures Valid()
      ensures thrown <==> a.None? || |a.value| < b
      ensures thrown ==> instructions == old(instructions) && memory == old(memory)
                         && memoryUnifier == old(memoryUnifier)
      ensures !thrown ==>
                var i := Intern(old(memory), old(memoryUnifier), a.value);
                memory == i.memory && memoryUnifier == i.unifier
                && instructions == old(instructions) + [Instruction(BoundedOpcode(h), Truncate(i.offset), b, 0)]
      ensures labels == old(labels)
    {
      if a.None? || |a.value| < b {
        return true;
      }
      var o := PushMemory(a.value);
      Push(BoundedOpcode(h), o, b, 0);
      thrown := false;
    }

    /** `pushStartsWithDomain`, `pushStartsWithPath`: as the bounded helpers, with the offset c. */
    method PushBoundedFrom(h: BoundedFromHelper, a: Option<seq<char>>, b: Word, c: Word) returns (thrown: bool)
      requires Valid() && (a.Some? ==> NoNul(a.value))
      modifies this
      ensures Valid()
      ensures thrown <==> a.None? || |a.value| < b
      ensures thrown ==> instructions == old(instructions) && memory == old(memory)
                         && memoryUnifier == old(memoryUnifier)
      ensures !thrown ==>
                var i := Intern(old(memory), old(memoryUnifier), a.value);
                memory == i.memory && memoryUnifier == i.unifier
                && instructions == old(instructions) + [Instruction(BoundedFromOpcode(h), Truncate(i.offset), b, c)]
      ensures labels == old(labels)
    {
      if a.None? || |a.value| < b {
        return true;
      }
      var o := PushMemory(a.value);
      Push(BoundedFromOpcode(h), o, b, c);
      thrown := false;
    }

    /**
     * The two-string helpers: a NULL name throws; a NULL second string throws
     * too, except in `pushEqualHeader` and `pushEqualCookie`, where it reaches
     * the assertion in `pushMemory` and is therefore excluded here.
     */
    method PushPair(h: PairHelper, a: Option<seq<char>>, b: Option<seq<char>>) returns (thrown: bool)
      requires Valid() && (a.Some? ==> NoNul(a.value)) && (b.Some? ==> NoNul(b.value))
      requires !ChecksSecond(h) && a.Some? ==> b.Some?
      modifies this
      ensures Valid()
      ensures thrown <==> a.None? || b.None?
      ensures thrown ==> instructions == old(instructions) && memory == old(memory)
                         && memoryUnifier == old(memoryUnifier)
      ensures !thrown ==>
                var i := Intern(old(memory), old(memoryUnifier), a.value);
                var j := Intern(i.memory, i.unifier, b.value);
                memory == j.memory && memoryUnifier == j.unifier
                && instructions == old(instructions)
                                   + [Instruction(PairOpcode(h), Truncate(i.offset), Truncate(j.offset), 0)]
      ensures labels == old(labels)
    {
      if a.None? || b.None? {
        return true;
      }
      var o := PushMemory(a.value);
      var p := PushMemory(b.value);
      Push(PairOpcode(h), o, p, 0);
      thrown := false;
    }

    /** The "after" comparisons and the header and query starts-with helpers: two strings and a number. */
    method PushPairFrom(h: PairFromHelper, a: Option<seq<char>>, b: Option<seq<char>>, c: Word)
      returns (thrown: bool)
      requires Valid() && (a.Some? ==> NoNul(a.value)) && (b.Some? ==> NoNul(b.value))
      modifies this
      ensures Valid()
      ensures thrown <==> a.None? || b.None?
      ensures thrown ==> instructions == old(instructions) && memory == old(memory)
                         && memoryUnifier == old(memoryUnifier)
      ensures !thrown ==>
                var i := Intern(old(memory), old(memoryUnifier), a.value);
                var j := Intern(i.memory, i.unifier, b.value);
                memory == j.memory && memoryUnifier == j.unifier
                && instructions == old(instructions)
                                   + [Instruction(PairFromOpcode(h), Truncate(i.offset), Truncate(j.offset), c)]
      ensures labels == old(labels)
    {
      if a.None? || b.None? {
        return true;
      }
      var o := PushMemory(a.value);
      var p := PushMemory(b.value);
      Push(PairFromOpcode(h), o, p, c);
      thrown := false;
    }
  }
}
