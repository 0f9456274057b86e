/**
 * The instruction set of the rule engine (opcodes.h): opcodes and execution
 * modes are plain unsigned numbers in the code words, so they are modelled as
 * constants in the order the enums declare them.
 */
module Opcodes {

  /** A 32-bit code word. */
  type Word = x: nat | x < 0x1_0000_0000

  const kNull: Word := 0
  const kSkip: Word := 1
  const kExecute: Word := 2
  const kExecuteSingle: Word := 3
  const kReturn: Word := 4
  const kHalt: Word := 5
  const kNone: Word := 6
  const kAnd: Word := 7
  const kOr: Word := 8
  const kNot: Word := 9
  const kFlip: Word := 10
  const kFalse: Word := 11
  const kTrue: Word := 12
  const kPrintError: Word := 13
  const kPrintDebug: Word := 14
  const kIsMethod: Word := 15
  const kIsScheme: Word := 16
  const kContainsDomain: Word := 17
  const kEqualDomain: Word := 18
  const kNotEqualDomain: Word := 19
  const kStartsWithDomain: Word := 20
  const kContainsPath: Word := 21
  const kEqualPath: Word := 22
  const kNotEqualPath: Word := 23
  const kStartsWithPath: Word := 24
  const kContainsQueryParameter: Word := 25
  const kEqualQueryParameter: Word := 26
  const kExistsQueryParameter: Word := 27
  const kGreaterThanQueryParameter: Word := 28
  const kGreaterThanAfterQueryParameter: Word := 29
  const kLessThanQueryParameter: Word := 30
  const kLessThanAfterQueryParameter: Word := 31
  const kNotEqualQueryParameter: Word := 32
  const kStartsWithQueryParameter: Word := 33
  const kContainsHeader: Word := 34
  const kEqualHeader: Word := 35
  const kExistsHeader: Word := 36
  const kGreaterThanHeader: Word := 37
  const kGreaterThanAfterHeader: Word := 38
  const kLessThanHeader: Word := 39
  const kLessThanAfterHeader: Word := 40
  const kNotEqualHeader: Word := 41
  const kStartsWithHeader: Word := 42
  const kContainsCookie: Word := 43
  const kEqualCookie: Word := 44
  const kExistsCookie: Word := 45
  const kGreaterThanCookie: Word := 46
  const kGreaterThanAfterCookie: Word := 47
  const kLessThanCookie: Word := 48
  const kLessThanAfterCookie: Word := 49
  const kNotEqualCookie: Word := 50
  const kUpperBound: Word := 51

  /** Execution modes (ExecutionMode::MODES). */
  const ModeNull: Word := 0
  const ModeNone: Word := 1
  const ModeAnd: Word := 2
  const ModeOr: Word := 3
  const ModeUpperBound: Word := 4

  /** An opcode the assembler accepts: strictly between the two sentinels. */
  predicate IsOpcode(op: Word) {
    kNull < op < kUpperBound
  }

  /** A mode a block may run in: strictly between the two mode sentinels. */
  predicate IsMode(m: Word) {
    ModeNull < m < ModeUpperBound
  }

  /** The two print opcodes; their third operand is a mode that guards the print. */
  predicate IsPrint(op: Word) {
    op == kPrintError || op == kPrintDebug
  }

  /** Opcodes that ask the request backend a question (kIsMethod through kNotEqualCookie). */
  predicate IsQuery(op: Word) {
    kIsMethod <= op <= kNotEqualCookie
  }

  /** The starts-with queries: declared, emitted by the assembler, but given no case by the VM. */
  predicate IsStartsWith(op: Word) {
    op == kStartsWithDomain || op == kStartsWithPath
    || op == kStartsWithQueryParameter || op == kStartsWithHeader
  }

  /** Queries the VM actually dispatches to the backend. */
  predicate IsDispatchedQuery(op: Word) {
    IsQuery(op) && !IsStartsWith(op)
  }

  /** Opcodes whose instruction slot is marked valid in the cache after they run. */
  predicate IsCaching(op: Word) {
    op == kTrue || op == kFalse || op == kFlip || IsDispatchedQuery(op)
  }

  /** Every caching opcode is a real opcode, and none of the control or print opcodes caches. */
  lemma CachingOpcodes(op: Word)
    ensures IsCaching(op) ==> IsOpcode(op)
    ensures op in {kSkip, kExecute, kExecuteSingle, kReturn, kHalt, kNone, kAnd, kOr, kNot, kPrintError, kPrintDebug}
            ==> !IsCaching(op)
    ensures IsStartsWith(op) ==> IsOpcode(op) && !IsCaching(op)
  {
  }
}
