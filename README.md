# http-filters rule engine, modelled in Dafny

http-filters is an embeddable rule engine. It compiles a tree of conditions on an HTTP request into bytecode. The conditions are the method, scheme, domain, path, query parameters, headers and cookies, combined with And, Or and Not. A small register machine then runs that bytecode against a request, with short-circuit And/Or and a per-instruction result cache. This project models the engine's core and proves properties of the model.

The modules follow the source files:

- `Opcodes` (opcodes.h): the opcode and execution-mode numbering, and which opcodes cache their result.
- `Arrays` (array.h): `util::Array` as a class over a Dafny array.
- `Bitmaps` (bitmap.h, bitmap.cc):
  - the byte-packed `Bitmap` and its `Bit` cursor;
  - a refinement from bytes to a sequence of bits;
  - the cursor order, increment and `+=` proved against bit indices.
- `StringViews` (string-view.h): `StringView`, `StringViewLess` as a strict weak order, and `operator==` both as written and as intended.
- `CStrings`: the string layer the other modules share:
  - NUL-terminated strings inside the arena;
  - `strcmp` order;
  - `atoi` and the `int64_t` stream read;
  - `std::lower_bound` on sorted names.
- `Assemblers` (assembler.h, assembler.cc): the `Assembler` class.
  - The instruction vector, the interning arena with its unifier, and the labels.
  - Each typed helper is modelled with its validation. A `std::invalid_argument` becomes a returned flag with the state unchanged.
  - The helpers whose opcode differs from their name are kept as written.
- `Representation` (representation.h, representation.cc): the expression tree.
  - Nodes live in an arena and are named by index, so `next`, `previous` and `child` are indices.
  - The tree-building operations are methods of a `Tree` class.
  - `clean` is proved to delete each reachable node exactly once, in order.
- `DispatchTable`, `CompilerAdapters` and `Compilers` (compiler.h, compiler.cc):
  - the name table, proved strictly ascending under `strcmp`;
  - the parameter adapters and what they emit;
  - the `Compiler` class, whose two passes are proved to emit exactly what the specification functions `Children`, `Parents` and `Block` describe;
  - the layout that code must have (`Lowered`), proved for every compiled tree and forest.
- `Machine` and `MachineProperties` (vm.h, vm-impl.h): the register machine as functions over a state value.
  - The state holds the registers, the stack of saved registers, the cache bits, the cursor and a log of print calls.
  - `run` is given fuel.
  - The properties are proved as lemmas: short-circuit, the instruction budget, memoisation soundness, the raw cached value, and the print guard.
- `Vm` (vm.h, vm-impl.h): the `VM` class with its bitmap as a real array.
  - Every helper and the main loop are proved to move the object exactly as the corresponding `Machine` function moves the state value.
  - `VMProxy` is the `Proxy` class.
- `MachineRerun` (vm-impl.h): a second `run` on the same VM.
- `MachineLockstep` (vm-impl.h): the corrected second `run` repeats the first run's verdict, proved by matching the two runs pass by pass.
  - `run` as written keeps the Result register and a pending Not from the run before it.
  - The corrected run starts from the constructor's registers.
  - For programs without `kExecute` blocks it is proved to repeat the previous run's verdict: the second run shadows the first pass by pass, with a cache hit wherever the first run filled a slot.
- `MachineScenarios` (tests.cc): the VM unit tests test1 to test10 replayed on the model, and a program whose second `run` as written flips its verdict.
- `Ts` (ts.cc): the query-string and cookie-string parsers.
  - Each is a class whose `Parse` loop is proved against a character-by-character scan function.
  - The scans are tied to declarative readings: splitting on '&', and the pairs of a cookie string.
  - Round trips for well-formed inputs are proved.
- `TsImpl` (ts-impl.cc):
  - the matchers;
  - `Loop` over a key's values;
  - the comparisons on method, scheme, host and path once the host server has fetched them.

Several behaviours are kept exactly as written:
- the cache-on-return test that accepts every mode (vm-impl.h:71-73);
- the raw, un-negated cached value;
- the bitmap sized by code words;
- the missing `kStartsWith*` dispatch cases;
- the opcode substitutions in the assembler helpers;
- the query parser's key pointer, which is not reset between segments;
- the cookie parser's repeated last value after a trailing ';'.

A fatal `ASSERT` in the assembler, the compiler or the tree builder is a precondition: callers must never reach it. An `ASSERT` in the machine depends on the bytecode, so it is a `Fault` outcome instead. A matcher call that never returns, because an assertion fails or a loop spins, is `None`.

## Model

| member | source | states |
|---|---|---|
| Opcodes.CachingOpcodes | opcodes.h:19-207 | the opcodes whose result is cached are real opcodes strictly between the sentinels; the control, mode, Not and print opcodes never cache, and the starts-with opcodes are real opcodes that do not cache |
| Arrays.Array.Empty | array.h:25-26 | a default array has size 0, a null buffer and no elements |
| Arrays.Array.constructor | array.h:28-32 | the two-argument array needs a buffer and a size above 0, and its elements are the first s of the buffer |
| Arrays.Array.Get | array.h:49-53 | indexing needs i < size and returns element i |
| Arrays.Array.Plus | array.h:44-47 | `t + u` points at the elements from u on: element k of the result is element u + k |
| Arrays.Copy | array.h:34-40 | the copy has the same size and the same elements as the source, in a fresh buffer |
| Bitmaps.SetBitAt | bitmap.h:57-58 | or-ing the mask of bit k sets bit k of the byte and keeps the other seven |
| Bitmaps.ClearBitAt | bitmap.h:59-60 | and-ing with the inverted mask of bit k clears bit k of the byte and keeps the other seven |
| Bitmaps.FillBits | bitmap.h:34 | a byte filled with 0xFF or 0x00 holds the flag in every one of its bits |
| Bitmaps.BitsOf | bitmap.h:47-52 | the bit view of a byte buffer: bit i is bit i % 8 of byte i / 8 |
| Bitmaps.BitsOfUpdate | bitmap.h:54-63 | rewriting one byte so that only bit k changes, to v, changes exactly bit 8a + k of the view |
| Bitmaps.Bitmap.constructor | bitmap.h:30-35 | a new bitmap keeps size/8 + 1 bytes and every one of its bits equals the flag |
| Bitmaps.Bitmap.Reset | bitmap.h:42-44 | after `reset(i)` every bit equals i and the size is unchanged |
| Bitmaps.Bitmap.At | bitmap.cc:11-16 | `operator[](i)` is the cursor at byte i / 8 with mask 1 << (i % 8), i.e. at bit index i |
| Bitmaps.Bitmap.Begin | bitmap.cc:18-20 | `begin()` is the cursor at bit index 0 |
| Bitmaps.Bitmap.End | bitmap.cc:22-24 | `end()` is the cursor at bit index size |
| Bitmaps.Get | bitmap.h:48-52 | reading a cursor gives the bit at its index |
| Bitmaps.Assign | bitmap.h:54-63 | assigning b makes the bit at the cursor's index read b and leaves every other bit unchanged |
| Bitmaps.Inc | bitmap.h:65-73 | `++` moves the cursor to the next bit index, carrying into the next byte after mask 0x80 |
| Bitmaps.PostInc | bitmap.h:75-79 | post-increment returns the old cursor and advances to the next index |
| Bitmaps.AddAssign | bitmap.h:101-106 | `+= n` advances the cursor by n positions (none for n <= 0), as n single increments |
| Bitmaps.OrderIsIndexOrder | bitmap.h:81-98 | `>` (byte index, then mask) is the order of bit indices, `<=` its negation, and `==` index equality |
| Bitmaps.AdvanceAt | bitmap.cc:11-16 | the cursor `bitmap[i]` advanced k times is `bitmap[i + k]` |
| Bitmaps.BeginToEnd | bitmap.h:81-89 | from `begin()`, k increments reach `end()` exactly when k is the size: an iteration visits size bits |
| Bitmaps.EndIsStored | bitmap.h:31 | with size/8 + 1 bytes, every index up to and including size (the `end()` position) lies in the buffer |
| Bitmaps.GuardsAdmitByteOutOfBounds | bitmap.cc:12 | as written, the guards let index 24 of a 16-bit bitmap through and read byte 3 of a 3-byte buffer |
| StringViews.Default | string-view.h:19-20 | the default view has a null pointer and length 1, so `exists()` is false |
| StringViews.Make | string-view.h:22-25 | a view of a null pointer has length 0 and reads as the empty string; otherwise it reads the first l characters |
| StringViews.Str | string-view.h:36-41 | `str()` is empty for a null pointer and otherwise the first `length` characters |
| StringViews.Memcmp | string-view.h:33 | `memcmp` is 0 exactly on equal contents and negative exactly when the first is below the second in unsigned-char order |
| StringViews.EqAsWrittenMeansDifferent | string-view.h:31-34 | as written, `==` holds exactly when the lengths are equal and the contents differ |
| StringViews.EqAsWrittenIrreflexive | string-view.h:31-34 | as written, the view "a" is not equal to itself |
| StringViews.EqIsContentEquality | string-view.h:31-34 | the intended `==` (zero `memcmp`) is content equality, and equals the equivalence `StringViewLess` induces |
| StringViews.LessIrreflexive | string-view.h:48-56 | no view is less than itself |
| StringViews.LessTransitive | string-view.h:48-56 | `StringViewLess` is transitive |
| StringViews.LessEquivalenceIsContentEquality | string-view.h:48-56 | two views are incomparable under `StringViewLess` exactly when their contents are equal, so the order is a strict weak order |
| CStrings.CStringAt | assembler.cc:53-72 | the string a pointer into the arena denotes: the characters up to the first NUL, which lie inside the arena and contain no NUL |
| CStrings.CStringAtMissing | assembler.cc:53-72 | no string can be read at an offset exactly when no NUL follows it inside the arena |
| CStrings.CStringAtAppended | assembler.cc:65-67 | a NUL-free string copied with its terminator to the end of the arena reads back at the old end |
| CStrings.CStringAtExtended | assembler.cc:65-67 | appending to the arena never changes a string already terminated inside it |
| CStrings.StrLessIrreflexive | compiler.cc:87-89 | no name is below itself in `strcmp` order |
| CStrings.StrLessTransitive | compiler.cc:87-89 | `strcmp` order is transitive |
| CStrings.StrLessTotal | compiler.cc:87-92 | two different names are ordered one way or the other, so `strcmp == 0` is equality |
| CStrings.SkipSpacesSuffix | compiler.h:139 | leading white space is removed: the result is a suffix that starts with no space |
| CStrings.DigitRunDigits | compiler.h:139 | the run of digits at the front: all digits, and followed by a non-digit or the end |
| CStrings.ParseInt64OfDecimal | ts-impl.cc:53-56 | the stream parser reads back every `int64_t` written in decimal |
| CStrings.AtoiOfDecimal | compiler.h:139 | `atoi` reads back every integer written in decimal |
| CStrings.DecimalOfDigits | compiler.h:139 | the decimal text of a natural number reads back as that number |
| CStrings.ToWord | compiler.h:139 | an `int` passed as `uint32_t` is its value modulo 2^32, unchanged when already in range |
| CStrings.LowerBound | compiler.cc:144 | `std::lower_bound` on sorted names: every name before the result is below the key, none from it on is, and it equals the reference scan `LowerBoundOf` |
| CStrings.LowerBoundOf | compiler.cc:144 | the reference lower bound: every name before it is below the key, and the name at it is not |
| CStrings.LowerBoundOfUnique | compiler.cc:144 | any position with every name before it below the key and its own name not below it is the lower bound |
| CStrings.LowerBoundOfSorted | compiler.cc:144 | on sorted names, no name from the lower bound on is below the key |
| CStrings.LowerBoundFinds | compiler.cc:144-148 | on sorted names, the name at the lower bound equals the key exactly when the key is one of the names |
| CStrings.AscendingBelow | compiler.cc:102-139 | in a strictly ascending table every name is below every later one |
| CStrings.AscendingSorted | compiler.cc:102-139 | a strictly ascending table is sorted for `lower_bound` and holds no name twice |
| Assemblers.Truncate | assembler.cc:66 | a size stored as `uint32_t` keeps its value while it is below 2^32 |
| Assemblers.Code | assembler.h:69-71 | `code()` has 4 words per instruction |
| Assemblers.CodeAppend | assembler.h:69-71 | the words of appended instructions are appended to the code |
| Assemblers.CodeAt | assembler.h:69-71 | instruction k occupies words 4k to 4k+3, in the order op, a, b, c |
| Assemblers.Intern | assembler.cc:53-72 | `pushMemory`: the empty string is offset 0; any other string is remembered by the unifier at the returned offset |
| Assemblers.ArenaAppended | assembler.cc:53-72 | appending a new non-empty string with its terminator at the old end, and remembering that position, keeps the arena invariant |
| Assemblers.InternReadsBack | assembler.cc:53-72 | interning keeps the arena invariant and the string reads back at the returned offset |
| Assemblers.InternExtends | assembler.cc:61-68 | interning only appends to the arena and never moves a remembered string |
| Assemblers.InternAgain | assembler.cc:61-71 | interning a string a second time returns the same offset and changes nothing |
| Assemblers.ReadsBackLater | assembler.cc:61-68 | a string read at a position stays readable there as the arena grows |
| Assemblers.InternSeparates | assembler.cc:61-71 | two strings interned one after the other get the same offset exactly when they are equal |
| Assemblers.KeyOpcode | assembler.cc:103-109 | the exists helpers emit a real opcode |
| Assemblers.NumberOpcode | assembler.cc:354-388 | the number helpers emit a real opcode |
| Assemblers.NumberHelpersAsNamed | assembler.cc:372-388 | exactly `pushGreaterThanCookie` and `pushLessThanCookie` emit an opcode other than their name's (the "after" cookie opcodes) |
| Assemblers.BoundedOpcode | assembler.cc:145-245 | the method, scheme, domain and path helpers emit a real opcode |
| Assemblers.BoundedFromOpcode | assembler.cc:195-235 | the two starts-with helpers with an offset emit a real opcode |
| Assemblers.PairOpcode | assembler.cc:247-280 | the two-string helpers emit a real opcode |
| Assemblers.PairHelpersAsNamed | assembler.cc:414-460 | exactly `pushNotEqualQueryParameter` and `pushNotEqualCookie` emit an opcode other than their name's (`kNotEqualHeader`) |
| Assemblers.PairFromOpcode | assembler.cc:282-352 | the "after" and starts-with helpers with two strings and a number emit a real opcode |
| Assemblers.Assembler.constructor | assembler.h:32-34 | a new assembler has no code and no labels, and its arena is a single NUL, so offset 0 reads as the empty string |
| Assemblers.Assembler.CodeSize | assembler.h:76-77 | `codeSize()` is the instruction count |
| Assemblers.Assembler.Words | assembler.h:69-71 | `code()` has 4 words per instruction |
| Assemblers.Assembler.Get | assembler.cc:27-36 | `operator[](l)` is the recorded position (at most the code size) of a known label and 0xFFFFFFFF for an unknown one |
| Assemblers.Assembler.Label | assembler.cc:38-44 | `label(l)` records the code size for a new name and keeps the first position for a repeated one, returning the recorded position; code and arena are unchanged |
| Assemblers.Assembler.Push | assembler.cc:46-51 | `push` needs an opcode strictly between the sentinels and appends exactly that instruction, changing nothing else |
| Assemblers.Assembler.PushMemory | assembler.cc:53-72 | `pushMemory` interns the string as `Intern` describes, keeps the arena invariant, and the string reads back at the returned offset |
| Assemblers.Assembler.PushPlain | assembler.h:40-56 | `pushHalt` … `pushFalse` append one instruction with that opcode and zero operands |
| Assemblers.Assembler.PushSkip | assembler.h:42-45 | `pushSkip()` appends `kSkip` with operand 0; `pushSkip(s)` uses the interned offset of s |
| Assemblers.Assembler.PushExecute | assembler.cc:94-101 | `pushExecute` needs a mode None, And or Or and a target below the code size, and appends `kExecute(m, o, c)` |
| Assemblers.Assembler.PushPrintDebug | assembler.cc:74-82 | a null message throws before anything changes; otherwise both strings are interned and `kPrintDebug` keeps only the message, dropping tag and mode |
| Assemblers.Assembler.PushPrintError | assembler.cc:84-92 | a null message throws before anything changes; otherwise `kPrintError` carries the message, the tag (0 without one) and the mode |
| Assemblers.Assembler.PushKey | assembler.cc:103-109 | the exists helpers throw on a null name before anything changes; otherwise they emit their opcode with the interned name |
| Assemblers.Assembler.PushNumber | assembler.cc:129-143 | the number helpers throw on a null name; otherwise they emit their opcode with the interned name and the number |
| Assemblers.Assembler.PushBounded | assembler.cc:145-193 | the method, scheme, domain and path helpers throw on a null string or a length above its `strlen`; otherwise they emit their opcode with the interned string and the length |
| Assemblers.Assembler.PushBoundedFrom | assembler.cc:195-204 | the starts-with domain and path helpers check as the bounded helpers and also carry the offset |
| Assemblers.Assembler.PushPair | assembler.cc:247-257 | the two-string helpers throw on a null first string and, except `pushEqualHeader`/`pushEqualCookie` (whose callers must pass one), on a null second string; otherwise they intern both and emit their opcode |
| Assemblers.Assembler.PushPairFrom | assembler.cc:282-292 | the "after" and starts-with helpers throw on either null string; otherwise they intern both and emit their opcode with the number |
| Machine.Wrap | vm.h:127-128 | unsigned 32-bit arithmetic: a value already in range is unchanged |
| Machine.Init | vm.h:76-81 | a new VM has an empty stack, mode kNone, every cache bit clear and the cursor at `begin()` |
| Machine.ForceReturn | vm.h:87-90 | `forceReturn` sets op to kReturn and a, b, c to 0, and leaves every other register as it was |
| Machine.Result | vm.h:146-152 | `result(v)` stores v negated exactly when the Not flag is set, always clears the flag, and touches nothing else |
| Machine.Step | vm.h:126-129 | `step` raises pc by one and lowers the budget by one (both modulo 2^32), so their sum is unchanged |
| Machine.StackPush | vm.h:92-96 | `stackPush` saves the registers on top of the stack and resets them to `Registers()` |
| Machine.StackPop | vm.h:98-102 | `stackPop` needs a non-empty stack and restores its top |
| Machine.PopUndoesPush | vm.h:92-102 | popping right after pushing gives back the state before the push |
| Machine.JumpBit | vm.h:131-135 | `jumpBit(i)` fails exactly when i is not below the word count, and otherwise moves the cursor to bit 2i |
| Machine.IncrementBit | vm.h:137-140 | `incrementBit` fails exactly when the cursor is already at `end()`, and otherwise moves it by one bit |
| Machine.SetBit | bitmap.h:54-63 | assigning the bit under the cursor changes exactly that cache bit |
| Machine.After | vm-impl.h:365-373 | the tail of `dispatch`: a caching instruction sets its valid bit and stores the raw value in the value bit; the cursor moves past both bits, failing exactly when that would pass `end()` |
| Machine.Resolve | vm.h:112-118 | a redirect chain ends on a slot inside the code that holds no `kExecuteSingle`, and a slot reached by a hop is never the original pc |
| Machine.Fetch | vm.h:104-124 | `fetch` follows the redirects, loads an instruction that is not `kExecuteSingle`, and advances pc by one from its original value and lowers the budget by one; nothing but the registers changes |
| Machine.BlockRegisters | vm-impl.h:105-130 | a block starts with the mode of the `kExecute`, pc at the target, Result true except in kOr mode, no pending Not, and budget c, or unbounded for 0 |
| Machine.Execute | vm-impl.h:103-138 | `kExecute` fails exactly when its mode is not None/And/Or or its target is outside the code; otherwise it pushes the registers and enters the block |
| Machine.Dispatch | vm-impl.h:93-376 | `dispatch` keeps the state well formed and never stops the run by itself |
| Machine.CachesOnReturnAlways | vm-impl.h:71-73 | as written the return test `b[1] == kOr \|\| kAnd` accepts every mode, kNone included, which the intended test refuses |
| Machine.Unwind | vm-impl.h:59-80 | a return into a caller pops the stack and folds the block's Result through `result()`; the prints are unchanged |
| Machine.ReturnTo | vm-impl.h:65-80 | after the pop the cursor goes to the calling slot; registers, stack and prints are unchanged |
| Machine.Settle | vm-impl.h:59-87 | the handling of kReturn and kHalt after `dispatch` keeps the state well formed |
| Machine.CacheHit | vm-impl.h:44-49 | a cache hit moves the cursor past the slot's two bits |
| Machine.Iterate | vm-impl.h:30-88 | one pass of the main loop keeps the state well formed |
| Machine.RunFrom | vm-impl.h:30-90 | a finished run's value is the Result register of its final state |
| Machine.Continue | vm-impl.h:30-90 | the rest of a run after a pass: a finished run's value is its final Result register |
| Machine.InitialCount | vm-impl.h:28 | the starting budget is j, or unbounded for 0; it is never 0 |
| Machine.Run | vm-impl.h:23-91 | `run(o, j)`: a finished run's value is the Result register of its final state |
| MachineProperties.Raw | vm-impl.h:164-183 | the raw value of kTrue is true, of kFalse false, and of kFlip the negated Result register |
| MachineProperties.CachingStoresRawValue | vm-impl.h:164-373 | a caching instruction sets its valid bit, stores its RAW value (before the Not) in the value bit, folds it through `result()`, and leaves stack and prints alone |
| MachineProperties.OthersLeaveCache | vm-impl.h:95-101 | every non-caching instruction except `kExecute` leaves the cache bits as they were |
| MachineProperties.PrintObeysGuard | vm-impl.h:185-199 | a print calls the backend unless (c = kAnd and Result false) or (c = kOr and Result true), and changes nothing else |
| MachineProperties.PrintGuardOutOfRange | vm-impl.h:186 | a print whose guard is not below the mode upper bound is a failed assertion |
| MachineProperties.UndispatchedFault | vm-impl.h:361-362 | the starts-with opcodes, kNull and an unresolved kExecuteSingle have no case and fail |
| MachineProperties.ForcedReturn | vm-impl.h:36-55 | with the budget spent, or kAnd with Result false, or kOr with Result true, the pass is a forced return that never asks the backend; at top level it stops with Result unchanged |
| MachineProperties.BudgetSpentStops | vm-impl.h:36-37 | an exhausted budget at top level stops the run with Result unchanged, whatever the mode |
| MachineProperties.CacheHitIgnoresCodeAndBackend | vm-impl.h:43-49 | a cache hit depends on neither the code words nor the backend |
| MachineProperties.CacheHitReplaysInstruction | vm-impl.h:43-57 | memoisation is sound: replaying a pass with the cache a caching instruction filled is a hit ending in the same Result, pc, budget, mode, cursor and cache |
| MachineProperties.FillingPass | vm-impl.h:50-57 | a pass that runs a caching instruction from an unset slot fetches, dispatches and fills the slot |
| MachineProperties.HittingPass | vm-impl.h:44-49 | a pass that finds its slot valid feeds the cached value through `result()` (a pending Not applies), steps, and moves past both bits |
| MachineProperties.UnwindResumesCaller | vm-impl.h:59-69 | a return pops the stack, folds the block's Result into the caller's registers and puts the cursor at the calling slot |
| MachineProperties.UnwindCachesRawBlockResult | vm-impl.h:68-76 | returning into a `kExecute` slot marks it valid with the block's un-folded Result, while the caller's Result has the pending Not applied |
| MachineProperties.ExecuteEntersBlock | vm-impl.h:103-131 | `kExecute` pushes the registers, sets the mode and its starting Result, jumps to b and sets the budget from c |
| MachineProperties.RunFromMoreFuel | vm-impl.h:30-88 | fuel only bounds the loop: a run that ends within some fuel ends the same way with more |
| MachineProperties.ContinueMoreFuel | vm-impl.h:30-88 | the same for the rest of a run after a pass |
| MachineProperties.RunValueIsResult | vm-impl.h:23-28 | `run(o, j)` fails when o is not below the word count or j not below the words after o; otherwise a finished run returns its Result register |
| MachineScenarios.Test1 | tests.cc:188-208 | the program [kTrue; kHalt] run twice returns true both times and leaves exactly bits 0 and 1 of the cache set |
| MachineScenarios.Test2 | tests.cc:210-230 | [kFalse; kHalt] run twice returns false both times and leaves exactly bit 0 set |
| MachineScenarios.ValueHaltFirstRun | tests.cc:188-198 | the first run of [kTrue; kHalt] or [kFalse; kHalt] fills slot 0 with the value, halts at pc 2 and returns that value |
| MachineScenarios.ValueHaltSecondRun | tests.cc:188-199 | the second run hits slot 0 instead of fetching, and ends in the same state with the same value |
| MachineScenarios.Test3 | tests.cc:232-253 | [kNot; kTrue; kHalt] run twice returns false both times and leaves exactly bits 2 and 3 set |
| MachineScenarios.Test4 | tests.cc:255-277 | [kAnd; kNot; kFalse; kHalt] run twice returns true both times and leaves exactly bit 4 set |
| MachineScenarios.NotTrueFirstRun | tests.cc:232-247 | the first run of test3 folds the Not into the True, fills slot 1 with the raw true, and returns false |
| MachineScenarios.NotTrueSecondRun | tests.cc:232-248 | the second run of test3 fetches the Not again, hits slot 1, and returns false again with the cache unchanged |
| MachineScenarios.AndNotFalseFirstRun | tests.cc:255-270 | the first run of test4 fills slot 2 with the raw false and returns true |
| MachineScenarios.AndNotFalseSecondRun | tests.cc:255-271 | the second run of test4 hits slot 2 and returns true again with the cache unchanged |
| MachineScenarios.Test5 | tests.cc:279-315 | [kOr; kFalse; fourteen kTrue; kHalt] run twice returns true both times, the first run stops at pc 3, and exactly bits 2, 4 and 5 are set |
| MachineScenarios.OrFalseTruesFirstRun | tests.cc:279-305 | the first run of test5 fills the kFalse and the first kTrue slots, and the true Result then short-circuits the Or block with a forced return at pc 3 |
| MachineScenarios.OrFalseTruesSecondRun | tests.cc:279-306 | the second run of test5 short-circuits on its very first pass, because the Or mode and the true Result are left over from the first run |
| MachineScenarios.Test6 | tests.cc:317-353 | [kAnd; kTrue; kFalse; thirteen kTrue; kHalt] run twice returns false both times, the first run stops at pc 3, and exactly bits 2, 3 and 4 are set |
| MachineScenarios.AndTrueFalseFirstRun | tests.cc:317-343 | the first run of test6 fills the kTrue and kFalse slots, and the false Result then short-circuits the And block at pc 3 |
| MachineScenarios.AndTrueFalseSecondRun | tests.cc:317-344 | the second run of test6 short-circuits on its first pass, from the And mode and false Result left over |
| MachineScenarios.Test7 | tests.cc:355-380 | a kExecute of mode kNone and budget 1 into the block [kFalse] returns false both times, stops at pc 2, and leaves exactly bits 0 and 6 set |
| MachineScenarios.Test8 | tests.cc:382-407 | the same with the block [kTrue] returns true both times, stops at pc 2, and leaves exactly bits 0, 1, 6 and 7 set |
| MachineScenarios.ExecuteBlockFirstRun | tests.cc:355-370 | the first run enters the block, spends its budget of one, returns the block's value into the kExecute's slot, caches it there, and halts in slot 1 |
| MachineScenarios.ExecuteBlockSecondRun | tests.cc:355-371 | the second run hits the kExecute's slot, so the block is not entered again, and ends in the same state |
| MachineScenarios.Test9 | tests.cc:409-425 | a kExecuteSingle redirected to a kPrintError returns true both times with pc 2, and each run issues the print once |
| MachineScenarios.SinglePrintRun | tests.cc:409-424 | one run from slot 0 loads the redirected print, steps pc from the kExecuteSingle's own slot, and halts in slot 1 |
| MachineScenarios.Test10 | tests.cc:427-459 | kFalse, two guarded prints, kFlip and the same two prints return true both times, end at pc 7, leave exactly bits 0, 6 and 7 set, and issue the kOr-guarded print, then the kAnd-guarded one, on each run |
| MachineScenarios.GuardedPrintsSecondRun | tests.cc:427-449 | the second run of test10 hits slot 0 and the kFlip's slot, so the prints see the same Result as in the first run |
| MachineScenarios.PendingNotFlipsSecondRun | vm-impl.h:23-28 | for [kTrue; kNot; kHalt] with every query true, the first run returns true with a Not pending, the second `run` as written returns false, and the corrected run returns true |
| MachineRerun.Rerun | vm-impl.h:23-28 | the corrected `run`: it starts from the constructor's registers and an empty stack; a finished run's value is its final Result register |
| MachineRerun.RerunFresh | vm.h:76-81 | on a fresh VM the corrected run is the run as written, and the registers and stack a previous run left do not change it |
| MachineRerun.DispatchIgnoresCache | vm-impl.h:93-376 | whether `dispatch` goes on, and the registers, cursor and stack it leaves, do not depend on the cache bits or the prints |
| MachineRerun.DispatchInPlace | vm-impl.h:93-376 | outside `kExecute`, a dispatch that goes on keeps pc, budget and stack and moves the cursor past the slot's two bits |
| MachineRerun.CachingPass | vm-impl.h:167-183 | a fetched caching instruction faults when its two bits are past the bitmap, and otherwise fills its slot with its raw value and folds that value through `result()` |
| MachineRerun.PassKeeps | vm-impl.h:30-88 | in a program without `kExecute` blocks a pass keeps the stack empty and the cursor on slot pc, keeps every valid slot with its value, and marks valid only slots whose fetched instruction caches |
| MachineRerun.RunKeeps | vm-impl.h:30-88 | over a whole finished run of such a program the same holds between the first state and the last, and after any pass that goes on |
| MachineRerun.MissIterate | vm-impl.h:50-57 | a pass from an unset slot is the failed fetch, or the fetched instruction dispatched and settled |
| MachineRerun.HitIterate | vm-impl.h:43-49 | a pass from a valid slot is a cache hit |
| MachineRerun.FetchSame | vm.h:104-124 | `fetch` reads only pc and the code: states with the same pc and budget fetch the same registers |
| MachineRerun.FetchedOp | vm.h:104-124 | the instruction fetched from pc caches exactly when the slot pc resolves to holds a caching opcode, and is never `kExecute` in such a program |
| MachineRerun.HitMatchesFill | vm-impl.h:43-57 | a hit on the slot the first run filled gives the same registers and cursor as the fill, with the same Result |
| MachineRerun.PassShadowed | vm-impl.h:30-88 | a pass of the first run that does not fail is matched by the second run's pass over the final cache: both go on to states with the same pc, budget, Result, Not flag, mode and cursor, or both stop with the same Result |
| MachineLockstep.Lockstep | vm-impl.h:30-88 | a finished run is matched pass by pass by a run from the same registers and cursor over the cache the first run ends with, which finishes with the same verdict |
| MachineLockstep.RerunSameVerdict | vm-impl.h:23-88 | for a program without `kExecute` blocks, on a VM whose cache marks only caching slots valid, the corrected run repeated returns the same verdict, and its cache keeps that property |
| MachineLockstep.RerunFromInitSameVerdict | tests.cc:196-197 | from a fresh VM, a program without `kExecute` blocks run once as written and then once more by the corrected run returns the same verdict twice |
| Vm.VM.State | vm.h:59-81 | the machine state the VM's fields stand for is well formed |
| Vm.VM.constructor | vm.h:76-81 | a new VM is the machine's initial state: clear bitmap of two bits per code word, cursor at `begin()`, mode kNone, empty stack |
| Vm.VM.ForceReturn | vm.h:87-90 | the new state is the old one with `Machine.ForceReturn` applied to the registers |
| Vm.VM.StackPush | vm.h:92-96 | the new state is `Machine.StackPush` of the old one |
| Vm.VM.StackPop | vm.h:98-102 | on a non-empty stack the new state is `Machine.StackPop` of the old one |
| Vm.VM.Step | vm.h:126-129 | the new state is the old one with `Machine.Step` applied to the registers |
| Vm.VM.Result | vm.h:146-152 | the new state is the old one with `Machine.Result` applied to the registers |
| Vm.VM.JumpBit | vm.h:131-135 | the status and new state are `Machine.JumpBit` of the old state |
| Vm.VM.IncrementBit | vm.h:137-140 | the status and new state are `Machine.IncrementBit` of the old state |
| Vm.VM.SetBit | bitmap.h:54-63 | the new state is `Machine.SetBit` of the old one: exactly the bit under the cursor changes |
| Vm.VM.Fetch | vm.h:104-124 | the status and new state are `Machine.Fetch` of the old state |
| Vm.VM.Hit | vm-impl.h:44-49 | the status and new state are `Machine.CacheHit` of the old state |
| Vm.VM.Tail | vm-impl.h:365-373 | the status and new state are `Machine.After` of the old state |
| Vm.VM.Execute | vm-impl.h:103-138 | the status and new state are `Machine.Execute` of the old state |
| Vm.VM.Dispatch | vm-impl.h:93-376 | the status and new state are `Machine.Dispatch` of the old state |
| Vm.VM.Unwind | vm-impl.h:59-80 | on a non-empty stack the status and new state are `Machine.Unwind` of the old state |
| Vm.VM.ReturnTo | vm-impl.h:65-80 | the status and new state are `Machine.ReturnTo` of the old state |
| Vm.VM.Settle | vm-impl.h:59-87 | the status and new state are `Machine.Settle` of the old state |
| Vm.VM.Iterate | vm-impl.h:30-88 | one pass of the loop: the status and new state are `Machine.Iterate` of the old state |
| Vm.VM.Run | vm-impl.h:23-91 | `run(o, j)`: the report, value and final state are `Machine.Run` of the old state |
| Vm.VM.Loop | vm-impl.h:30-88 | the main loop: the report, value and final state are `Machine.Continue` of the old state |
| Vm.VM.Pass | vm-impl.h:30-88 | one pass leaves exactly the run that k - 1 further passes make |
| Vm.Follow | vm.h:112-118 | the redirect loop of `fetch` ends where `Machine.Resolve` says |
| Vm.Keys | vm.h:157-161 | the names of the entry table, in order |
| Vm.LookupAsWritten | vm.h:171-177 | as written the lookup dereferences `end()` exactly when the name is above every key |
| Vm.LookupIntended | vm.h:171-177 | the intended lookup never reads past the end |
| Vm.LookupAsWrittenReadsPastEnd | vm.h:171-177 | for the table [("a", 0)] and the name "b", the lookup as written reads past the end, while the intended one reports a missing name |
| Vm.LookupIntendedFinds | vm.h:171-178 | on sorted entries the intended lookup finds a name exactly when it is a key, and then yields the offset of its first entry |
| Vm.Proxy.constructor | vm.h:164-165 | a new proxy holds a fresh VM in its initial state and the given entries |
| Vm.Proxy.RunAt | vm.h:167-169 | `run(i, j)` is the VM's run from offset i |
| Vm.Proxy.RunNamed | vm.h:171-179 | with the corrected lookup described under Findings, `run(k, j)` returns false without running when k is not a key, and otherwise is the VM's run from the offset of k's first entry |
| Representation.Type | representation.h:69-105 | each node class reports its own type: And, Or, Not or Op, strictly between kUndefined and kUpperBound, and the type identifies the class |
| Representation.Fresh | representation.h:54 | a new node has no successor, no predecessor and no child |
| Representation.MakeOp | representation.cc:12-20 | the `Op(name, p, s)` constructors keep the name and exactly the first s parameters of p, in order |
| Representation.Chain | representation.h:163-168 | the sequence along `next` from node i starts at i |
| Representation.Last | representation.h:163-168 | the end of the sequence from i lies at or after i and has no successor |
| Representation.ChainInside | representation.h:163-168 | every node of a sequence lies at or after its first node, inside the tree |
| Representation.LastEndsChain | representation.h:163-168 | the node `moveCurrent` stops at is the final node of the sequence, and every earlier node's `next` is the node after it |
| Representation.FreedIsReach | representation.cc:22-35 | `clean(i)` deletes a node exactly when it is reachable from i along `next` and `child` links |
| Representation.ReachForwards | representation.cc:37-66 | `insert` and `insertChild` only link to newer nodes, so everything reachable from i lies at or after i |
| Representation.ReachBack | representation.cc:37-66 | every node reachable from a, other than a, is entered from its `previous` node, which a also reaches |
| Representation.ReachMeets | representation.cc:37-66 | two nodes that reach a common node lie on one path: one of them reaches the other |
| Representation.SiblingsApart | representation.cc:37-66 | the child sequence of a node and the nodes after it share no node |
| Representation.FreedOnce | representation.cc:22-35 | `clean(i)` deletes no node twice |
| Representation.Clean | representation.cc:22-35 | the loop, which reads the successor before deleting a node and cleans each child sequence first, deletes exactly the nodes of `Freed(nodes, i)`, in that order |
| Representation.Tree.constructor | representation.h:116 | a new tree has no nodes, no root, no current node and an empty stack |
| Representation.Tree.MoveCurrent | representation.h:163-168 | the current node moves to the last node of its sequence; nothing else changes |
| Representation.Tree.Insert | representation.cc:37-50 | into an empty tree the new node becomes root and current; otherwise it is linked after the current node, which it points back to, and then becomes current; the tree stays consistently linked |
| Representation.Tree.InsertChild | representation.cc:52-66 | the current And/Or node without a child gets the new node as its child sequence, is pushed on the stack, and the new node becomes current |
| Representation.Tree.Parent | representation.h:170-174 | the stack must not be empty; its top becomes current and is popped |
| Representation.Tree.CleanAll | representation.h:154-158 | the tree must have a root; the nodes reachable from it are deleted in `clean` order and root and current are cleared |
| Representation.CleanForest | representation.cc:68-75 | every tree of the forest, in order, is cleaned as `cleanAll` does |
| DispatchTable.NameAt | compiler.cc:102-139 | the table holds 36 names, the k-th being the k-th entry of `dispatch`'s array |
| DispatchTable.IndexFrom | compiler.cc:102-139 | a linear search from k finds the first position at or after k that holds a known name |
| DispatchTable.Index | compiler.cc:102-139 | a known name has a position in the table that holds it |
| DispatchTable.Ordered | compiler.cc:84-93 | every entry of the table is below the next one under `strcmp` |
| DispatchTable.NamesAscending | compiler.cc:102-144 | the table is strictly ascending under `strcmp`, as `std::lower_bound` needs, and names no predicate twice |
| CompilerAdapters.ModeText | compiler.cc:167-176 | a third print parameter selects ModeAnd for the three spellings of true, ModeOr for the three of false, and nothing otherwise |
| CompilerAdapters.Arity | compiler.h:58-273 | each adapter asserts between one and three parameters: one for names and bounded strings, two for pairs and numbers, three for the after-marker comparisons, one to three for the prints |
| CompilerAdapters.Texts | compiler.h:58-273 | at most two parameters are handed to the arena as C strings |
| CompilerAdapters.Lower | compiler.h:41-273 | every adapter emits exactly one instruction, with the opcode of the assembler helper it calls |
| CompilerAdapters.LowerEncodes | compiler.h:58-273 | whatever an adapter emits, its string operands read back from the arena as its parameters, its length operands are their lengths, its number operands are `atoi` of their parameters, its offsets are 0, and the arena stays well formed |
| CompilerAdapters.AdapterFromIndex | compiler.cc:102-144 | scanning the table for a name ends at the name's position and takes the adapter stored there |
| CompilerAdapters.DispatchSelects | compiler.cc:102-153 | each name of the table is known, is found at its own position, and selects the adapter stored beside it |
| CompilerAdapters.TableLookup | compiler.cc:141-149 | the table is sorted, a known name is in it, and the entry that `lower_bound` lands on holding the name carries the name's adapter |
| CompilerAdapters.Adapt | compiler.cc:148-149 | calling the adapter stored beside a name appends exactly the instruction `Lower` describes and updates the arena as `Lower` does; the labels are untouched |
| CompilerAdapters.PushPrintError | compiler.cc:156-182 | one to three parameters; a third one selects the mode and must be one of the six spellings of true and false; the instruction and the arena are as `Lower` describes |
| CompilerAdapters.PushPrintDebug | compiler.cc:184-210 | as `PushPrintError`, except that the helper keeps only the message operand; the instruction and the arena are as `Lower` describes |
| Compilers.StateOf | assembler.h:69-77 | the assembler state the compiler reasons about is exactly the code, the arena and its unifier |
| Compilers.Append | assembler.h:50-56 | a plain push appends one operand-less instruction and leaves the arena alone |
| Compilers.Emit | compiler.cc:56-79 | emitting one node's instruction appends it to the code and takes the arena it produced |
| Compilers.Children | compiler.cc:35-48 | the first pass only appends code |
| Compilers.Parents | compiler.cc:50-81 | the second pass appends exactly one instruction per node of the sequence and a closing `kReturn` |
| Compilers.Block | compiler.cc:26-82 | `compileSimple(n)` only appends code, and its entry, the code size after the first pass, is an instruction of the code at or after where the block started |
| Compilers.BlockLowers | compiler.cc:26-82 | the block `compileSimple(n)` emits lowers the sequence from n at its entry: each And/Or node is a `kExecute` in its mode of a block lowered from its child, each Not node a `kNot`, each Op node an instruction with its adapter's opcode, and `kReturn` follows the last node |
| Compilers.BlockLayout | compiler.cc:50-81 | from the entry on, a block holds exactly one instruction per node of its sequence followed by `kReturn`, which ends the code |
| Compilers.LoweredEnds | compiler.cc:80 | a lowered sequence has `kReturn` right after its last node |
| Compilers.CompileTree | compiler.h:28-35 | compiling a tree only appends code |
| Compilers.TreeLowered | compiler.h:28-35 | a tree's entry is 0 exactly when it has no root, in which case nothing is emitted; otherwise its root sequence is lowered at the entry and the code ends with `kHalt` |
| Compilers.CompileTrees | compiler.cc:18-24 | compiling a forest appends one entry per tree and only appends code |
| Compilers.ForestLowered | compiler.cc:18-24 | each tree of a compiled forest is lowered at its entry, and that entry is 0 exactly for a tree without a root |
| Compilers.PushExecute | compiler.h:275-282 | the mode must be valid and the offset inside the code; one `kExecute(m, o, 0)` is appended and nothing else changes |
| Compilers.Compiler.constructor | compiler.cc:15-17 | a new compiler's code is a single `kSkip`, so that no block starts at 0, over an empty arena |
| Compilers.Compiler.Dispatch | compiler.cc:95-154 | the name must be in the table and its adapter must accept the parameters; the lower-bound search finds the name's entry and exactly the instruction its adapter emits is appended |
| Compilers.Compiler.CompileSimple | compiler.cc:26-82 | the two passes leave exactly the state `Block` describes and return its entry |
| Compilers.Compiler.FirstPass | compiler.cc:32-48 | the first loop compiles each And/Or node's child sequence in turn and records (node, entry) pairs, leaving exactly the state `Children` describes |
| Compilers.ParentsStep | compiler.cc:50-81 | one round of the second loop: node x's instruction, taking the first recorded entry when x has children, then the rest of the sequence with the remaining entries |
| Compilers.SecondLoopNext | compiler.cc:55-78 | one round of the second loop keeps its state: the next node, the entries left after taking y's, and the same final code |
| Compilers.Compiler.SecondPass | compiler.cc:50-81 | the second loop emits each node's instruction, taking the recorded entries in order, then `kReturn`, leaving exactly the state `Parents` describes |
| Compilers.Compiler.EmitNode | compiler.cc:56-76 | one round of the second loop: an And/Or node becomes `kExecute` of the first recorded entry, which is its own; a Not node `kNot`; an Op node what `dispatch` emits |
| Compilers.Compiler.Compile | compiler.h:28-35 | a tree without a root emits nothing and returns 0; otherwise its root sequence is compiled and followed by `kHalt`, exactly as `CompileTree` describes |
| Compilers.Compiler.CompileForest | compiler.cc:18-24 | the trees are compiled in order and their entries appended to r, exactly as `CompileTrees` describes |
| Ts.Append | ts.cc:112-113 | `map_[key].push_back(...)` appends the values after the key's earlier ones (none for a missing key) |
| Ts.AppendKeys | ts.cc:112-113 | `map_[key]` creates the key if it is missing, and adds no other key |
| Ts.AppendElsewhere | ts.cc:149-152 | pushing under one key leaves every other key's values as they were |
| Ts.PairsAccumulate | ts.cc:149-152 | pushing a list of pairs gives each key its earlier values followed by the values paired with it, in input order |
| Ts.PairsKeys | ts.cc:149-152 | after pushing a list of pairs, a key is present exactly when it was before or some pair names it |
| Ts.FieldsConcat | ts.cc:161-173 | splitting at a separator splits the list of segments there |
| Ts.FieldsOfJoin | ts.cc:161-173 | splitting on a separator undoes joining with it, when no piece holds the separator |
| Ts.JoinOfFields | ts.cc:161-173 | joining the segments with the separator gives back the text |
| Ts.KeyEnd | ts.cc:163-166 | a query key ends at a '=' after the segment's first character, or at the segment's end |
| Ts.KeyEndIsFirst | ts.cc:163-166 | the key ends at the first such '=': a '=' in first position belongs to the key |
| Ts.Value | ts.cc:150-152 | a segment pushes at most one value, and none when the text after the '=' is empty |
| Ts.SegmentOfPair | ts.cc:141-153 | the segment `key=value`, with a key free of '=' and a non-empty value, pushes value under key |
| Ts.SegmentWithoutValue | ts.cc:146-148 | a segment without '=' after its first character is all key and pushes no value |
| Ts.SegmentWithEmptyValue | ts.cc:150-152 | `key=` creates the key and pushes no value |
| Ts.QuerySplits | ts.cc:168-171 | parsing `x&y` is parsing x, then parsing y into the result |
| Ts.QueryOfNothing | ts.cc:174 | an empty query string changes nothing |
| Ts.QuerySkipsEmptySegments | ts.cc:169 | a leading '&' and a doubled "&&" change nothing |
| Ts.Segments | ts.cc:141-153 | one `key=value` segment per pair, in order |
| Ts.QueryRoundTrip | ts.cc:155-175 | a query string `k1=v1&k2=v2&...` with non-empty keys free of '=' and '&' and non-empty values free of '&' parses to exactly its pairs |
| Ts.PushIsSegment | ts.cc:141-153 | `push(i, j, k)` pushes exactly the key and the value of the segment between i and k |
| Ts.PushCollects | ts.cc:141-153 | what `push` does to the dictionary is collecting that segment |
| Ts.QueryParseCollects | ts.cc:155-175 | the character loop of `parse` and its final `push` collect exactly the non-empty '&'-separated segments |
| Ts.QueryScanKeepsLoop | ts.cc:161-173 | after each character the segments before i are collected and j is the first '=' of the open segment, if any |
| Ts.Advance | ts.cc:96-116 | one character of the cookie loop fails an assertion exactly on a ';' whose name or value would have negative length |
| Ts.ScanStep | ts.cc:96-117 | one more character of a scan that has not failed is one `Advance` step |
| Ts.ScanStaysFailed | ts.cc:89-122 | a failed assertion ends the parse: no longer prefix scans |
| Ts.CookiesFail | ts.cc:89-122 | a failed assertion at any point fails the whole parse |
| Ts.CookiesFinish | ts.cc:118-121 | a scan that reaches the end pushes the pending pair, whose value runs to the end of the input |
| Ts.ScanPrefix | ts.cc:96-117 | the cookie loop reads the input left to right: a prefix's scan does not depend on what follows |
| Ts.CookieRoundTrip | ts.cc:89-122 | a cookie string `n1=v1; n2=v2; ...` of section 4.2.1 of RFC 6265, with names non-empty, not starting with a space and free of '=' and ';' and values free of ';', parses to exactly its pairs |
| Ts.TrailingSemicolonRepeatsValue | ts.cc:111-121 | as written, "a=b;" stores "b" and then "b;" under "a": the final push after the loop repeats the last pair |
| Ts.MalformedCookiesFail | ts.cc:111-113 | a lone ';', or a later segment without '=', fails an assertion |
| Ts.QueryParameters.Empty | ts.h:61 | `QueryParameters(void)` holds no keys |
| Ts.QueryParameters.constructor | ts.cc:134-139 | a NULL view gives no keys; otherwise the view must be non-empty and the dictionary is the parse of its text |
| Ts.QueryParameters.Get | ts.cc:177-185 | `operator[]` finds a key exactly when it is present, and then its values |
| Ts.QueryParameters.Push | ts.cc:141-153 | the key ends at j, or at k when no '=' was seen; the key is created and the value after '=' pushed only when not empty |
| Ts.QueryParameters.Parse | ts.cc:155-175 | the dictionary becomes what the scan over the characters and the final push describe, which `QueryParseCollects` equates with the segment split |
| Ts.Cookies.Empty | ts.h:46 | `Cookies(void)` holds no keys |
| Ts.Cookies.constructor | ts.cc:82-87 | a NULL view gives no keys; otherwise the view must be non-empty, and the dictionary is the parse of its text unless an assertion fails |
| Ts.Cookies.Get | ts.cc:124-132 | `operator[]` finds a key exactly when it is present, and then its values |
| Ts.Cookies.PushPair | ts.cc:112-113 | pushing the pair at i, j, k faults exactly when the name or the value would have negative length, and otherwise appends the value under the name |
| Ts.Cookies.Step | ts.cc:97-116 | the loop body for one character moves the cursor and the map as `Advance` says: spaces after a ';' skipped, the name ended at its first '=', a ';' pushing the pair, and `faulted` set exactly when `Advance` fails |
| Ts.Cookies.Parse | ts.cc:89-122 | the parse fails exactly when `CookiesInto` does, and otherwise leaves exactly the dictionary `CookiesInto` describes |
| TsImpl.Search | ts-impl.cc:29 | `std::search` finds the first occurrence of the pattern at or after the start, or reports the end |
| TsImpl.SearchEmpty | ts-impl.cc:29 | an empty pattern is found where the search starts |
| TsImpl.SearchHere | ts-impl.cc:29 | an occurrence at the start is the one found |
| TsImpl.ContainsText | ts-impl.cc:17-31 | `Contains` holds exactly when the pattern occurs in the value at a position before its end |
| TsImpl.EqualText | ts-impl.cc:33-45 | `Equal` holds exactly when the value and the pattern have the same characters |
| TsImpl.NumberOfDecimal | ts-impl.cc:47-58 | `GreaterThan` and `LessThan` on the decimal text of an `int64_t` compare that number |
| TsImpl.NumberExclusive | ts-impl.cc:47-100 | no text is both greater and less than the same bound |
| TsImpl.CompareAfter | ts-impl.cc:60-129 | the loop of `GreaterThanAfter` and `LessThanAfter` answers as `AfterOf` does, None when it would spin on an empty marker |
| TsImpl.AfterAnswers | ts-impl.cc:74-85 | with a non-empty marker the loop always ends with an answer |
| TsImpl.AfterSound | ts-impl.cc:74-85 | a true answer names a marker followed by a number that compares |
| TsImpl.AfterHit | ts-impl.cc:73-85 | a number that compares right after a marker found by the search ends the loop with true |
| TsImpl.AfterMiss | ts-impl.cc:73-85 | after a non-empty marker whose number does not compare, the loop goes on from the next occurrence after the whole marker |
| TsImpl.AfterFirstMarker | ts-impl.cc:73-82 | a number that compares right after the first marker gives true |
| TsImpl.AfterNoMarker | ts-impl.cc:73-85 | a value without the marker gives false |
| TsImpl.AfterOfMarkedNumber | ts-impl.cc:60-129 | a marker that cannot start inside a number, followed by the decimal text of x, gives the comparison of x |
| TsImpl.OverlappingMarkerMissed | ts-impl.cc:83 | the search resumes after the whole marker, so in "aaa5" with marker "aa" the occurrence at 1 followed by 5 is missed and the answer is false |
| TsImpl.NoLeadingNumber | ts-impl.cc:53-56 | text starting with neither white space, a sign nor a digit does not read as a number |
| TsImpl.AfterEmptyMarker | ts-impl.cc:73-83 | an empty marker is found again at the same place, so the loop spins unless the whole value compares |
| TsImpl.StartsWithAsWritten | ts-impl.cc:131-146 | as written, `StartsWith` holds exactly when the first occurrence is NOT at offset o |
| TsImpl.StartsWithAt | ts-impl.cc:285-295 | `StartsWithPath`'s comparison: the first occurrence of the pattern is at offset o |
| TsImpl.StartsWithAtZero | ts-impl.cc:285-295 | at offset 0 the corrected matcher is the prefix test |
| TsImpl.StartsWithInverted | ts-impl.cc:144 | on every input the matcher as written answers the opposite of the intended one |
| TsImpl.StartsWithAsWrittenRejectsPrefix | ts-impl.cc:144 | "abc" starts with "ab", yet the matcher as written says it does not |
| TsImpl.Matches | ts-impl.cc:17-146 | a matcher fails to answer only when it compares after an empty marker |
| TsImpl.Evaluate | ts-impl.cc:17-146 | applying a matcher to a value answers as `Matches` does |
| TsImpl.Loop | ts-impl.cc:148-165 | `Loop` answers as `LoopOf` does: false for a missing key, true at the first matching value, None when an empty value trips its assertion |
| TsImpl.LoopFromStep | ts-impl.cc:148-165 | a non-empty value that answers ends `Loop` with true, or lets it go on with the next value |
| TsImpl.LoopFindsAny | ts-impl.cc:148-165 | when every value is non-empty and answers, `Loop` says whether some value matches |
| TsImpl.LoopFaultsOnEmpty | ts-impl.cc:158-159 | an empty value reached before any match fails the assertion |
| TsImpl.Lookup | ts.cc:177-185 | the lookup finds a key exactly when it is present, and then its values |
| TsImpl.AskMeans | ts-impl.cc:167-373 | a header, query-parameter or cookie predicate is false for a missing key, and otherwise, when every value answers, whether some value matches |
| TsImpl.QueryPredicatesAnswer | ts-impl.cc:298-333 | the query parser stores no empty value, so with a terminating matcher every query-parameter predicate answers |
| TsImpl.EmptyCookieValueIsFatal | ts-impl.cc:336-371 | the cookie "a=" stores an empty value, and any cookie predicate on "a" fails the assertion in `Loop` |
| TsImpl.SameText | ts-impl.cc:212 | same length and a zero `memcmp` is equality of the texts |
| TsImpl.IsMethod | ts-impl.cc:215-224 | b must be the length of a; true exactly when the method is a |
| TsImpl.IsScheme | ts-impl.cc:204-213 | b must be the length of a; true exactly when the scheme is a |
| TsImpl.EqualDomain | ts-impl.cc:238-247 | true exactly when the host is the first b characters of a |
| TsImpl.EqualPath | ts-impl.cc:274-283 | true exactly when the path is the first b characters of a |
| TsImpl.Exists | ts-impl.h:113-149 | `ExistsHeader`, `ExistsQueryParameter` and `ExistsCookie` hold exactly when the key is in the request's table |
| TsImpl.NotEqual | ts-impl.h:123-159 | a missing key is not "not equal": the answer is false without asking `Equal` |
| TsImpl.NotEqualMeans | ts-impl.h:123-159 | with non-empty values, `NotEqual*` holds exactly when the key exists and none of its values is b |
| TsImpl.NotEqualDomain | ts-impl.h:92-94 | true exactly when the host is not the first b characters of a |
| TsImpl.NotEqualPath | ts-impl.h:100-102 | true exactly when the path is not the first b characters of a |
| TsImpl.ContainsDomain | ts-impl.cc:226-236 | true exactly when the first b characters of a occur in the host at a position before its end |
| TsImpl.ContainsPath | ts-impl.cc:262-272 | true exactly when the first b characters of a occur in the path at a position before its end |
| TsImpl.StartsWithDomain | ts-impl.cc:249-259 | with the corrected comparison: the first occurrence of the first b characters of a in the host is at offset c |
| TsImpl.StartsWithPath | ts-impl.cc:285-295 | the first occurrence of the first b characters of a in the path is at offset c |

## Left out

- The Traffic Server integration is not part of this model: plugin registration, hooks and transactions in ats-filters.cc, the `Headers` constructor, `getHeader`, `Headers::print`, the `TS*` API calls, and the parts of ts-impl.h that fetch from Traffic Server. Its inline `Exists*` and `NotEqual*` predicates are modelled. A `TsImpl.Request` holds the strings and dictionaries those calls would fetch.
- The predicate backend is a function from a query to a boolean, given as a parameter of the program. The stub and console backends (base-impl.h, console-impl.h) are not part of this model. Print calls are recorded in a log instead of being written to a stream.
- The disassembler (vm-printer.h, vm-printer.cc) is not part of this model: it only formats diagnostic output.
- Memory management is not modelled: `new`, `delete`, `malloc`, `free` and the destructors. `clean` returns the order in which it would delete nodes. `Copy` allocates a fresh Dafny array.
- Concurrency is not modelled: sharing one compiled program between VM instances does not affect a single run.
- Machine.Run: the `while (true)` loop gets a fuel bound. A run that needs more passes than the fuel reports `OutOfFuel`. `MachineProperties.RunFromMoreFuel` shows that more fuel never changes a finished run.
- Machine.Dispatch: an `ASSERT` that fails at run time is a `Fault` outcome. The registers and cache after a fault are not described.
- Machine.Fetch: a read outside the code words that the source makes without an `ASSERT` is undefined behaviour in C++. The model makes it a `Fault` as well. This covers the slot at pc in `fetch` (vm.h:108-109), a redirect target that passes the `ASSERT` against the word count but lies past the last slot (vm.h:113-116), and the calling slot on return (vm-impl.h:70-72).
- Vm.VM.Run: `run` is kept as written, so it resets neither the Result register nor a pending Not (see Findings). The corrected run, `MachineRerun.Rerun`, is defined on the state value only.
- MachineLockstep.RerunSameVerdict: proved only for programs without `kExecute` blocks (`MachineRerun.Flat`). A block caches its result in the calling slot when it returns, and the pass-by-pass pairing does not cover that.
- Vm.Proxy.RunNamed: uses the corrected lookup described under Findings. It requires sorted keys, which the source's TODO at vm.h:163 leaves to the caller.
- Vm.VM.Run: after a `Fault` the contract does not describe the object's fields. The C++ process would have stopped at the failed assertion.
- CStrings.ParseInt64: `std::istringstream >> int64_t` is modelled as optional white space, an optional sign and decimal digits. Locale effects and the stream's other flags are not modelled.
- CStrings.Atoi: `atoi` of a value outside `int` is undefined behaviour in C. The model keeps the mathematical value and then truncates it modulo 2^32 where the operand is a `uint32_t`.
- Assemblers.Assembler.PushMemory: offsets and the code size are `uint32_t` in the source. The compiler's contracts require the code and the arena to stay below 2^32 entries, so offsets never wrap.
- CompilerAdapters.Accepts: parameters that contain a NUL character are excluded. `c_str()` would cut such a string short, which the model does not represent.
- Compilers.BlockLowers: fixes only the opcode of an Op node's instruction, not its operands. The lowering predicate is stated over the code alone, with no arena. The operands of each emitted instruction are stated one call at a time: CompilerAdapters.LowerEncodes says what they read back as, and Assemblers.ReadsBackLater keeps that true as the arena grows.
- Representation.Tree.Insert: the method takes the new node's kind, not a node, so the new node is always unlinked. The assertions on an already linked node (representation.cc:38-39, 53-54) therefore cannot fail and are not modelled.
- Representation.Tree.InsertChild: the same applies to the assertions at representation.cc:53-54.
- Compilers.Compiler.CompileSimple: the two loops of `compileSimple` are separate methods: `FirstPass`, `SecondPass` and `EmitNode` for one round of the second loop. The behaviour is the same.
- Compilers.From: every node reachable from a compiled root must be lowerable. An And/Or node has a child, and an Op node has a known name and parameters its adapter accepts. The fatal branches of `compileSimple` and `dispatch` are preconditions, so the `std::cerr` line for an unknown name is not modelled.
- The starts-with adapters of compiler.h (lines 87-98 and 259-273) are not in the name table of `dispatch`, so no Op can reach them. They appear only as `CompilerAdapters.Adapter` shapes, and the machine has no dispatch case for their opcodes.
- TsImpl.Matches: the `StartsWith` matcher uses the corrected comparison described under Findings. The comparison as written is `TsImpl.StartsWithAsWritten`.
- TsImpl.StartsWithDomain: uses the corrected comparison as well.

## Findings

| source | as written | input that shows it | evidently intended | confidence | as-written member | corrected member |
|---|---|---|---|---|---|---|
| string-view.h:31-34 | `operator==` holds when the lengths are equal and `memcmp` is nonzero, that is, when the contents differ | the view "a" compared with itself is not equal | equal lengths and `memcmp` equal to 0 | not executed | StringViews.EqAsWrittenIrreflexive | StringViews.EqIsContentEquality |
| bitmap.cc:12 | `operator[](i)` checks `size_ * 8 >= i`, so `Bit` reads and writes can touch the byte after the buffer | a 16-bit bitmap keeps 3 bytes, index 24 passes the guard, and the access reads byte 3 | `i <= size`, which `end()` needs and the buffer holds | not executed | Bitmaps.GuardsAdmitByteOutOfBounds | Bitmaps.EndIsStored |
| vm.h:171-179 | `VMProxy::run(name)` dereferences the `lower_bound` result without comparing it with `end()` | entries [("a", 0)] and the name "b" | a name past every key returns false like any other missing name | not executed | Vm.LookupAsWrittenReadsPastEnd | Vm.LookupIntendedFinds |
| vm-impl.h:23-28 | `run` resets neither the Result register nor the pending Not, so a second `run` on the same VM starts with what the first one left | [kTrue; kNot; kHalt] with every query true: the first run returns true with the Not still pending, and the second returns false | every `run` starts from the constructor's registers and repeats its verdict, as test1 to test10 in tests.cc expect | not executed | MachineScenarios.PendingNotFlipsSecondRun | MachineLockstep.RerunSameVerdict |
| ts-impl.cc:144 | `StartsWith` (and `StartsWithDomain` at ts-impl.cc:258) holds when the first occurrence is NOT at offset o | "abc" does not start with "ab" at offset 0 | the first occurrence is at offset o, as `StartsWithPath` tests at ts-impl.cc:294 | not executed | TsImpl.StartsWithAsWrittenRejectsPrefix | TsImpl.StartsWithAtZero |
