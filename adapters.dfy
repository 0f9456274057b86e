/**
 * The parameter adapters of compiler.h and the name table of `dispatch` in
 * compiler.cc: what each adapter emits for an Op's parameters, how the
 * emitted operands carry those parameters, and which adapter each name
 * selects.
 */
module CompilerAdapters {
  import opened Wrappers
  import opened Opcodes
  import opened CStrings
  import opened Assemblers
  import opened DispatchTable

  /* ---------------------------------------------------------------------- */
  /* Parameter adapters (compiler.h)                                         */
  /* ---------------------------------------------------------------------- */

  /**
   * The shapes of the `Push*` adapters: which assembler helper they call and
   * how they turn the Op's parameters into its arguments.
   */
  datatype Adapter =
    | Plain(op: Word)                  // `PushTrue`, `PushFalse`, …: parameters ignored
    | Key(key: KeyHelper)              // one name
    | Number(number: NumberHelper)     // a name and `atoi` of the second parameter
    | Bounded(bounded: BoundedHelper)  // a string and its length
    | BoundedFrom(from: BoundedFromHelper) // a string, its length and offset 0
    | Pair(pair: PairHelper)           // a name and a second string
    | After(after: PairFromHelper)     // a name, a marker and `atoi` of the third parameter
    | PairFrom(starts: PairFromHelper) // a name, a second string and offset 0
    | PrintError
    | PrintDebug

  /** The mode a third `printError`/`printDebug` parameter selects, if any. */
  function ModeText(s: seq<char>): (m: Option<Word>)
    ensures m.Some? ==> m.value == ModeAnd || m.value == ModeOr
  {
    if s == "true" || s == "True" || s == "TRUE" then Some(ModeAnd)
    else if s == "false" || s == "False" || s == "FALSE" then Some(ModeOr)
    else None
  }

  /** The fewest and the most parameters the helper behind an adapter takes. */
  function Arity(ad: Adapter): (r: (nat, nat))
    requires !ad.Plain?
    ensures 1 <= r.0 <= r.1 <= 3
  {
    match ad
    case Key(_) => (1, 1)
    case Bounded(_) => (1, 1)
    case BoundedFrom(_) => (1, 1)
    case Number(_) => (2, 2)
    case Pair(_) => (2, 2)
    case PairFrom(_) => (2, 2)
    case After(_) => (3, 3)
    case PrintError => (1, 3)
    case PrintDebug => (1, 3)
  }

  /** How many leading parameters are handed to the arena as C strings. */
  function Texts(ad: Adapter): (n: nat)
    ensures n <= 2
  {
    match ad
    case Plain(_) => 0
    case Key(_) => 1
    case Bounded(_) => 1
    case BoundedFrom(_) => 1
    case Number(_) => 1
    case _ => 2
  }

  /**
   * What an adapter asserts about the parameters: their count, a known mode
   * text for a third print parameter, and (for the strings handed to the
   * arena through `c_str()`) no NUL inside. A plain instruction ignores its
   * parameters. It is written as a few comparisons rather than a case per
   * adapter, so that a caller has a few facts to establish and not a case
   * split.
   */
  predicate Accepts(ad: Adapter, p: seq<seq<char>>) {
    if ad.Plain? then IsPlain(ad.op)
    else
      Arity(ad).0 <= |p| <= Arity(ad).1
      && (forall k | 0 <= k < |p| && k < Texts(ad) :: NoNul(p[k]))
      && ((ad.PrintError? || ad.PrintDebug?) && |p| == 3 ==> ModeText(p[2]).Some?)
  }

  /** The opcode each adapter's helper emits. */
  function AdapterOpcode(ad: Adapter): Word {
    match ad
    case Plain(op) => op
    case Key(h) => KeyOpcode(h)
    case Number(h) => NumberOpcode(h)
    case Bounded(h) => BoundedOpcode(h)
    case BoundedFrom(h) => BoundedFromOpcode(h)
    case Pair(h) => PairOpcode(h)
    case After(h) => PairFromOpcode(h)
    case PairFrom(h) => PairFromOpcode(h)
    case PrintError => kPrintError
    case PrintDebug => kPrintDebug
  }

  /** One emitted instruction and the arena after it. */
  datatype Emitted = Emitted(ins: Instruction, memory: seq<char>, unifier: map<seq<char>, nat>)

  /**
   * What an adapter emits for the parameters p, starting from the arena
   * (memory, unifier): the strings are interned first to last, and exactly one
   * instruction is produced.
   */
  function Lower(ad: Adapter, p: seq<seq<char>>, memory: seq<char>, unifier: map<seq<char>, nat>): (e: Emitted)
    requires Accepts(ad, p)
    ensures e.ins.op == AdapterOpcode(ad)
  {
    if ad.Plain? then Emitted(Instruction(ad.op, 0, 0, 0), memory, unifier)
    else
      var i := Intern(memory, unifier, p[0]);
      var o := Truncate(i.offset);
      match ad
      case Key(h) => Emitted(Instruction(KeyOpcode(h), o, 0, 0), i.memory, i.unifier)
      case Number(h) => Emitted(Instruction(NumberOpcode(h), o, ToWord(Atoi(p[1])), 0), i.memory, i.unifier)
      case Bounded(h) => Emitted(Instruction(BoundedOpcode(h), o, ToWord(|p[0]|), 0), i.memory, i.unifier)
      case BoundedFrom(h) => Emitted(Instruction(BoundedFromOpcode(h), o, ToWord(|p[0]|), 0), i.memory, i.unifier)
      case Pair(h) =>
        var j := Intern(i.memory, i.unifier, p[1]);
        Emitted(Instruction(PairOpcode(h), o, Truncate(j.offset), 0), j.memory, j.unifier)
      case After(h) =>
        var j := Intern(i.memory, i.unifier, p[1]);
        Emitted(Instruction(PairFromOpcode(h), o, Truncate(j.offset), ToWord(Atoi(p[2]))), j.memory, j.unifier)
      case PairFrom(h) =>
        var j := Intern(i.memory, i.unifier, p[1]);
        Emitted(Instruction(PairFromOpcode(h), o, Truncate(j.offset), 0), j.memory, j.unifier)
      case PrintError =>
        var j := if |p| >= 2 then Intern(i.memory, i.unifier, p[1]) else i;
        var b := if |p| >= 2 then Truncate(j.offset) else 0;
        var c := if |p| == 3 then ModeText(p[2]).value else ModeNone;
        Emitted(Instruction(kPrintError, o, b, c), j.memory, j.unifier)
      case PrintDebug =>
        var j := if |p| >= 2 then Intern(i.memory, i.unifier, p[1]) else i;
        Emitted(Instruction(kPrintDebug, o, 0, 0), j.memory, j.unifier)
  }

  /** The string the arena holds at operand w. */
  predicate Holds(memory: seq<char>, w: Word, s: seq<char>) {
    CStringAt(memory, w) == Some(s)
  }

  /**
   * How an instruction read against an arena carries an adapter's
   * parameters: string operands read back as the parameters, a length operand
   * is the string's length, a number operand is `atoi` of its parameter, and
   * the starts-with offsets are 0.
   */
  predicate Encodes(ad: Adapter, p: seq<seq<char>>, ins: Instruction, memory: seq<char>)
    requires Accepts(ad, p)
  {
    ins.op == AdapterOpcode(ad)
    && match ad
       case Plain(_) => ins.a == 0 && ins.b == 0 && ins.c == 0
       case Key(_) => Holds(memory, ins.a, p[0]) && ins.b == 0 && ins.c == 0
       case Number(_) => Holds(memory, ins.a, p[0]) && ins.b == ToWord(Atoi(p[1])) && ins.c == 0
       case Bounded(_) => Holds(memory, ins.a, p[0]) && ins.b == |p[0]| && ins.c == 0
       case BoundedFrom(_) => Holds(memory, ins.a, p[0]) && ins.b == |p[0]| && ins.c == 0
       case Pair(_) => Holds(memory, ins.a, p[0]) && Holds(memory, ins.b, p[1]) && ins.c == 0
       case PairFrom(_) => Holds(memory, ins.a, p[0]) && Holds(memory, ins.b, p[1]) && ins.c == 0
       case After(_) => Holds(memory, ins.a, p[0]) && Holds(memory, ins.b, p[1])
                        && ins.c == ToWord(Atoi(p[2]))
       case PrintError => Holds(memory, ins.a, p[0])
                          && (if |p| >= 2 then Holds(memory, ins.b, p[1]) else ins.b == 0)
                          && ins.c == (if |p| == 3 then ModeText(p[2]).value else ModeNone)
       case PrintDebug => Holds(memory, ins.a, p[0]) && ins.b == 0 && ins.c == 0
  }

  /** Interning p[0] and then p[1]: both read back in the final arena, which keeps the arena invariant. */
  lemma InternTwice(memory: seq<char>, unifier: map<seq<char>, nat>, a: seq<char>, b: seq<char>)
    requires Arena(memory, unifier) && NoNul(a) && NoNul(b)
    ensures var i := Intern(memory, unifier, a);
            var j := Intern(i.memory, i.unifier, b);
            Arena(j.memory, j.unifier)
            && CStringAt(j.memory, i.offset) == Some(a) && CStringAt(j.memory, j.offset) == Some(b)
  {
    var i := Intern(memory, unifier, a);
    var j := Intern(i.memory, i.unifier, b);
    InternReadsBack(memory, unifier, a);
    InternReadsBack(i.memory, i.unifier, b);
    InternExtends(i.memory, i.unifier, b);
    ReadsBackLater(i.memory, i.unifier, j.memory, j.unifier, i.offset, a);
  }

  /** A string that reads back at a position lies inside the arena. */
  lemma ReadsInside(memory: seq<char>, off: nat, s: seq<char>)
    requires CStringAt(memory, off) == Some(s)
    ensures off + |s| < |memory|
  {
  }

  /**
   * The adapters are decoded by reading the arena: whatever an adapter
   * emits, its operands carry its parameters, and the arena invariant holds
   * afterwards. The arena must stay below 2^32 characters so that offsets fit
   * in an operand.
   */
  lemma LowerEncodes(ad: Adapter, p: seq<seq<char>>, memory: seq<char>, unifier: map<seq<char>, nat>)
    requires Accepts(ad, p) && Arena(memory, unifier)
    requires |Lower(ad, p, memory, unifier).memory| < 0x1_0000_0000
    ensures var e := Lower(ad, p, memory, unifier);
            Arena(e.memory, e.unifier) && Encodes(ad, p, e.ins, e.memory)
  {
    var e := Lower(ad, p, memory, unifier);
    if !ad.Plain? {
      var i := Intern(memory, unifier, p[0]);
      InternReadsBack(memory, unifier, p[0]);
      ReadsInside(i.memory, i.offset, p[0]);
      if ad.Pair? || ad.PairFrom? || ad.After? || ((ad.PrintError? || ad.PrintDebug?) && |p| >= 2) {
        var j := Intern(i.memory, i.unifier, p[1]);
        InternTwice(memory, unifier, p[0], p[1]);
        InternExtends(i.memory, i.unifier, p[1]);
        ReadsInside(j.memory, j.offset, p[1]);
        assert e.memory == j.memory;
      } else {
        assert e.memory == i.memory;
      }
    }
  }

  /* ---------------------------------------------------------------------- */
  /* The name table of `dispatch` (compiler.cc)                              */
  /* ---------------------------------------------------------------------- */

  /** The adapter stored beside each name of the table. */
  function AdapterAt(k: nat): Adapter
    requires k < 36
  {
    match k
    case 0 => Pair(ContainsCookie)
    case 1 => Bounded(ContainsDomain)
    case 2 => Pair(ContainsHeader)
    case 3 => Bounded(ContainsPath)
    case 4 => Pair(ContainsQueryParameter)
    case 5 => Pair(EqualCookie)
    case 6 => Bounded(EqualDomain)
    case 7 => Pair(EqualHeader)
    case 8 => Bounded(EqualPath)
    case 9 => Pair(EqualQueryParameter)
    case 10 => Key(ExistsCookie)
    case 11 => Key(ExistsHeader)
    case 12 => Key(ExistsQueryParameter)
    case 13 => Plain(kFalse)
    case 14 => After(GreaterThanAfterCookie)
    case 15 => After(GreaterThanAfterHeader)
    case 16 => After(GreaterThanAfterQueryParameter)
    case 17 => Number(GreaterThanCookie)
    case 18 => Number(GreaterThanHeader)
    case 19 => Number(GreaterThanQueryParameter)
    case 20 => Bounded(IsMethod)
    case 21 => Bounded(IsScheme)
    case 22 => After(LessThanAfterCookie)
    case 23 => After(LessThanAfterHeader)
    case 24 => After(LessThanAfterQueryParameter)
    case 25 => Number(LessThanCookie)
    case 26 => Number(LessThanHeader)
    case 27 => Number(LessThanQueryParameter)
    case 28 => Pair(NotEqualCookie)
    case 29 => Bounded(NotEqualDomain)
    case 30 => Pair(NotEqualHeader)
    case 31 => Bounded(NotEqualPath)
    case 32 => Pair(NotEqualQueryParameter)
    case 33 => PrintDebug
    case 34 => PrintError
    case _ => Plain(kTrue)
  }

  /**
   * The adapter stored beside the first entry from k on that holds the name.
   * It is a scan rather than `AdapterAt(Index(name))` so that the verifier
   * unfolds it one entry at a time instead of case-splitting on the index.
   */
  function AdapterFrom(name: seq<char>, k: nat): (ad: Adapter)
    requires k <= 36 && exists j | k <= j < 36 :: Name(j) == name
    decreases 36 - k
  {
    if Name(k) == name then AdapterAt(k) else AdapterFrom(name, k + 1)
  }

  /** The scan ends at the name's position. */
  lemma {:induction false} AdapterFromIndex(name: seq<char>, k: nat)
    requires k <= 36 && exists j | k <= j < 36 :: Name(j) == name
    ensures AdapterFrom(name, k) == AdapterAt(IndexFrom(name, k))
    decreases 36 - k
  {
    if Name(k) != name {
      AdapterFromIndex(name, k + 1);
    }
  }

  /** The adapter of a known name: the one stored beside it. */
  function AdapterFor(name: seq<char>): (ad: Adapter)
    requires Known(name)
  {
    AdapterFrom(name, 0)
  }

  /**
   * Every name of the table selects the entry stored beside it: the names are
   * distinct, so looking up the name at position k finds position k.
   */
  lemma DispatchSelects(k: nat)
    requires k < 36
    ensures Known(Name(k)) && Index(Name(k)) == k && AdapterFor(Name(k)) == AdapterAt(k)
  {
    NameAt(k);
    NamesAscending();
    TableLookup(Name(k), k);
  }

  /**
   * What `dispatch` relies on: the table is sorted, a known name is in it, and
   * the entry holding the name carries the name's adapter.
   */
  lemma TableLookup(name: seq<char>, i: nat)
    requires Known(name)
    ensures |Names| == 36 && Sorted(Names) && name in Names
    ensures i < |Names| && Names[i] == name ==> AdapterAt(i) == AdapterFor(name)
  {
    NamesAscending();
    AdapterFromIndex(name, 0);
    var k := Index(name);
    NameAt(k);
    if i < |Names| && Names[i] == name {
      NameAt(i);
    }
  }

  /** The name is known and its adapter accepts the parameters. */
  predicate OpOk(name: seq<char>, p: seq<seq<char>>) {
    Known(name) && Accepts(AdapterFor(name), p)
  }

  /* ---------------------------------------------------------------------- */
  /* The adapters as they run against an assembler                           */
  /* ---------------------------------------------------------------------- */

  /**
   * The adapter stored beside a name, called on the assembler with the Op's
   * parameters: it emits exactly what `Lower` describes, and leaves the
   * labels alone.
   */
  method Adapt(a: Assembler, ad: Adapter, p: seq<seq<char>>)
    requires a.Valid() && Accepts(ad, p)
    modifies a
    ensures a.Valid() && a.labels == old(a.labels)
    ensures var e := Lower(ad, p, old(a.memory), old(a.memoryUnifier));
            a.instructions == old(a.instructions) + [e.ins] && a.memory == e.memory && a.memoryUnifier == e.unifier
  {
    var thrown := false;
    match ad
    case Plain(op) => a.PushPlain(op);
    case Key(h) => thrown := a.PushKey(h, Some(p[0]));
    case Number(h) => thrown := a.PushNumber(h, Some(p[0]), ToWord(Atoi(p[1])));
    case Bounded(h) => thrown := a.PushBounded(h, Some(p[0]), ToWord(|p[0]|));
    case BoundedFrom(h) => thrown := a.PushBoundedFrom(h, Some(p[0]), ToWord(|p[0]|), 0);
    case Pair(h) => thrown := a.PushPair(h, Some(p[0]), Some(p[1]));
    case After(h) => thrown := a.PushPairFrom(h, Some(p[0]), Some(p[1]), ToWord(Atoi(p[2])));
    case PairFrom(h) => thrown := a.PushPairFrom(h, Some(p[0]), Some(p[1]), 0);
    case PrintError => PushPrintError(a, p);
    case PrintDebug => PushPrintDebug(a, p);
  }

  /**
   * `Compiler::PushPrintError`: one to three parameters; a third one selects
   * the mode, and any text other than the six spellings of true and false is
   * rejected.
   */
  method PushPrintError(a: Assembler, p: seq<seq<char>>)
    requires a.Valid() && Accepts(PrintError, p)
    modifies a
    ensures a.Valid() && a.labels == old(a.labels)
    ensures var e := Lower(PrintError, p, old(a.memory), old(a.memoryUnifier));
            a.instructions == old(a.instructions) + [e.ins] && a.memory == e.memory && a.memoryUnifier == e.unifier
  {
    // The helper is called once, with the second string and the mode each
    // branch of the source selects.
    var second: Option<seq<char>> := None;
    var mode := ModeNone;
    if |p| >= 2 {
      second := Some(p[1]);
    }
    if |p| == 3 {
      var s := p[2];
      if s == "true" || s == "True" || s == "TRUE" {
        mode := ModeAnd;
      } else if s == "false" || s == "False" || s == "FALSE" {
        mode := ModeOr;
      } else {
        assert false;
      }
    }
    var thrown := a.PushPrintError(Some(p[0]), second, mode);
  }

  /** `Compiler::PushPrintDebug`: as `PushPrintError`, though the helper drops the tag and the mode. */
  method PushPrintDebug(a: Assembler, p: seq<seq<char>>)
    requires a.Valid() && Accepts(PrintDebug, p)
    modifies a
    ensures a.Valid() && a.labels == old(a.labels)
    ensures var e := Lower(PrintDebug, p, old(a.memory), old(a.memoryUnifier));
            a.instructions == old(a.instructions) + [e.ins] && a.memory == e.memory && a.memoryUnifier == e.unifier
  {
    // The helper is called once, with the second string and the mode each
    // branch of the source selects.
    var second: Option<seq<char>> := None;
    var mode := ModeNone;
    if |p| >= 2 {
      second := Some(p[1]);
    }
    if |p| == 3 {
      var s := p[2];
      if s == "true" || s == "True" || s == "TRUE" {
        mode := ModeAnd;
      } else if s == "false" || s == "False" || s == "FALSE" {
        mode := ModeOr;
      } else {
        assert false;
      }
    }
    var thrown := a.PushPrintDebug(Some(p[0]), second, mode);
  }
}
