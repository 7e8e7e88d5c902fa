# A verified model of the Vulcan emulators

Vulcan is a 24-bit stack-machine CPU. Its memory is 128 KiB of bytes, and every address
is reduced to 17 bits. Words are 24 bits wide and are stored little-endian in three bytes.
The repository holds three generations of its emulator. This project models all three:

- **cvemu/cvemu.c** is the Lua extension.
  - The data stack grows up from `dp` and the call stack grows down from `sp`. Both live in memory, three bytes per word.
  - A table of up to 100 devices claims address ranges. Each device has optional `reset`, `peek`, `poke` and `tick` hooks, held in up to 256 uservalue slots.
  - Interrupts enter at a single level.
- **wasm/Vulcan.cpp** is the C++ class `Vulcan`. It has the same byte-addressed stacks and no devices. It adds:
  - the diagnostic marks `bottom_dp` and `top_sp`;
  - the depth accessors;
  - `loadROM`;
  - the `SP`, `DP`, `INCSP` and `DECSP` instructions.

  It decodes the numbering of util/opcodes.h.
- **cvemu.c** is the oldest engine. Both stacks live in a circular array of 2048 `int` cells:
  - the data stack grows up from index `data`;
  - the call stack is a chain of frames `[prev, return address, locals count, locals...]` reached from `call`.

  It adds `FRAME`, `LOCAL`, `SETLOCAL`, `HEIGHT` and `DUP2`.

All three run the same cycle:

1. Fetch the byte at `pc`.
2. Split it into a six-bit opcode and a two-bit literal length.
3. Push the little-endian literal that follows, if there is one.
4. Set `next_pc` past the instruction, unless the opcode is `HLT`.
5. Dispatch the opcode.
6. Commit `pc = next_pc`.

## How the model is built

- **Shared modules.**
  - `Words` covers 24-bit words, the push mask, `to_signed`, shifts and the `ARSHIFT` loop.
  - `Memory` covers the byte memory as a sequence of 2^17 bytes, the 8-, 16- and 24-bit accesses, literals, and the view of an in-memory stack as a sequence of words.
  - `Opcodes` holds the enumeration of util/opcodes.h, with its encode and decode functions.
- **Each engine has three modules:**
  - a value-level specification module (`VulcanSpec`, `CvEmuSpec`, `LegacySpec`) with one function per primitive and per instruction case;
  - a module with a class (`VulcanCpu.Vulcan`, `CvEmuCpu.Cpu`, `LegacyCpu.Cpu`) whose fields are the engine's registers, with memory as an `array`. Each method is proved to leave `Snapshot() == F(old(Snapshot()))` for the specification function `F` of the same operation;
  - a properties module (`VulcanProps`, `CvEmuProps`, `LegacyProps`) with the lemmas about those functions.
- **Opcode numbering.** cvemu/cvemu.c and cvemu.c use opcodes that util/opcodes.h does not define (`ROT`, `LOADW`, `STOREW`, `SDP`, `PUSHR`, `POPR`, `PEEKR`; `FRAME`, `LOCAL`, `SETLOCAL`, `HEIGHT`). For these two engines the opcode is an abstract datatype, and the numbering is a decoding function given as a parameter.
- **Undefined behaviour.** Operations that C leaves undefined end the cycle with a `Fault`, and the state is left as it was at the fault. These are:
  - division or remainder by zero;
  - a shift count of 32 or more;
  - in cvemu.c, a `stack[]` index outside the array.

  `MUL` and `LSHIFT` overflow are modelled as the masked 24-bit result.
- **Device hooks** (cvemu/cvemu.c) are not visible code.
  - Each hook call is recorded in a trace of events: which hook, which slot, which arguments.
  - The answer to a peek comes from a function of the trace, the slot and the offset. This function is given as a parameter.
- **Parameters.**
  - The `rand() % 256` fill of memory is a parameter of the constructors.
  - `cpu_run` runs for a bounded amount of fuel.

## Model

| member | source | states |
|---|---|---|
| Words.MaskWord | wasm/Vulcan.cpp:79 | the push mask `& 0xffffff` leaves every 24-bit word unchanged |
| Words.ToSigned | wasm/Vulcan.cpp:354-360 | `to_signed` gives a value in [-2^23, 2^23) congruent to the word modulo 2^24, negative exactly when bit 23 is set |
| Words.SignedRoundTrip | cvemu/cvemu.c:466-472 | masking a value of [-2^23, 2^23) to a word and applying `to_signed` gives the value back |
| Words.MinusOne | cvemu.c:269-275 | `to_signed(0xffffff)` is -1 and -1 masks to 0xffffff |
| Words.Masked | cvemu/cvemu.c:699-701 | the words left by pushing a sequence of values: the same length, each entry the masked value |
| Words.ShlFar | wasm/Vulcan.cpp:205-208 | a left shift by 24 to 31 followed by the push mask gives 0 |
| Words.ShrFar | wasm/Vulcan.cpp:209-212 | a right shift of a word by 24 to 31 gives 0 |
| Words.ArShiftNonNegative | wasm/Vulcan.cpp:220-222 | on a word with bit 23 clear, `a >> b` equals the arithmetic shift (signed value floor-divided by 2^b) |
| Words.ArShiftNegativeFar | wasm/Vulcan.cpp:215-219 | with bit 23 set, an arithmetic shift by 23 or more gives the all-ones word |
| Words.ArShiftLoop | cvemu/cvemu.c:543-547 | the loop `a = (a >> 1) \| 0x800000`, run b times on a word with bit 23 set, computes the arithmetic shift by b and keeps bit 23 set |
| Words.TruncDiv | wasm/Vulcan.cpp:336-346 | C's `/` in `stackSize` and `returnSize` rounds toward zero: on a non-negative dividend it is Euclidean division, and on a negative one it is the least q with q * b >= a, so the quotient rounds up |
| Memory.Addr | wasm/Vulcan.cpp:56-62 | `addr & 0x01ffff` after conversion to `unsigned` is a cell number in [0, 2^17) |
| Memory.ReadAfterWrite | wasm/Vulcan.cpp:56-62 | after `poke(a, v)`, `peek(a)` is `v mod 256` and every other cell keeps its byte |
| Memory.AddrAlias | wasm/Vulcan.cpp:56-62 | addresses that differ by a multiple of 0x20000 name the same cell |
| Memory.Write16Bytes | cvemu.c:414-419 | a 16-bit write stores the low byte at a and the next byte at a + 1 |
| Memory.Write24Bytes | wasm/Vulcan.cpp:111-115 | `poke24` stores bytes 0, 1 and 2 of the value at a, a + 1 and a + 2 |
| Memory.AdjacentCellsDiffer | wasm/Vulcan.cpp:111-115 | the cells of a, a + 1 and a + 2 are pairwise distinct |
| Memory.ByteSplit | wasm/Vulcan.cpp:104-115 | a word is the little-endian sum of its three bytes |
| Memory.Read16Write16 | cvemu.c:401-404 | reading back a 16-bit write gives the low 16 bits of the value |
| Memory.Read24Write24 | wasm/Vulcan.cpp:104-115 | `poke24(a, x)` then `peek24(a)` gives `x & 0xffffff` |
| Memory.Write24Frame | wasm/Vulcan.cpp:111-115 | `poke24` changes no cell other than those of a, a + 1 and a + 2 (modulo 2^17) |
| Memory.ApartSymmetric | wasm/Vulcan.cpp:104-115 | two addresses whose three-cell windows do not meet: the relation is symmetric |
| Memory.ApartCells | wasm/Vulcan.cpp:104-115 | separate windows have no cell in common |
| Memory.DifferentCell | wasm/Vulcan.cpp:104-115 | addresses that are not congruent modulo 2^17 name different cells |
| Memory.Read24Write24Apart | wasm/Vulcan.cpp:104-115 | a 24-bit write at a leaves the word at a separate address b unchanged |
| Memory.Read24WriteOutside | cvemu/cvemu.c:405-410 | a single byte written outside b's window leaves the word at b unchanged |
| Memory.ApartNear | wasm/Vulcan.cpp:104-115 | addresses at least a word apart, and at least a word short of wrapping round, are separate |
| Memory.Read24Write24Near | wasm/Vulcan.cpp:78-102 | a write to one such address does not change the word at the other |
| Memory.LiteralValue | wasm/Vulcan.cpp:128-137 | a k-byte literal is the little-endian number in the k bytes after the opcode byte |
| Memory.LiteralIsWord | wasm/Vulcan.cpp:128-137 | a literal of at most three bytes is below 2^24, so the push does not change it |
| Memory.LoopLiteralValue | wasm/Vulcan.cpp:129-134 | the accumulation `arg += peek(pc + n) << 8(n - 1)` from turn n on ends in the literal |
| Memory.StackWordsCons | cvemu/cvemu.c:425-440 | the listing of n > 0 stacked words is its bottom word followed by the rest |
| Memory.StackWordsAt | cvemu/cvemu.c:433-437 | the listing of n whole words has n entries, entry k being the word at lo + 3k |
| Memory.StackWordsLength | cvemu/cvemu.c:433-437 | the listing of n whole words has n entries |
| Memory.StackWordsAppend | wasm/Vulcan.cpp:78-83 | one more word on top extends the listing by that word |
| Memory.StackWordsWriteAbove | wasm/Vulcan.cpp:78-83 | a write above the stack and short of wrapping onto its bottom leaves the listing unchanged |
| Memory.StackWordsWriteBelow | wasm/Vulcan.cpp:85-89 | a write below the stack and short of wrapping onto its top leaves the listing unchanged |
| Memory.StackWordsExtend | wasm/Vulcan.cpp:78-83 | a memory that keeps the listing of n words and holds w just above them lists those words followed by w |
| Memory.StackWordsPushAbove | wasm/Vulcan.cpp:78-83 | a push on a stack that grows up adds the word at the end of the listing |
| Memory.StackWordsPushBelow | wasm/Vulcan.cpp:85-89 | a push on a stack that grows down adds the word at the front of the listing |
| Memory.TwoPopped | wasm/Vulcan.cpp:235-240 | popping b and then a leaves the sequence without its top two words, a being the second from the top |
| Memory.SwapWords | wasm/Vulcan.cpp:235-240 | pushing b and then a back exchanges the top two words |
| Memory.PickWords | wasm/Vulcan.cpp:241-244 | popping b and pushing the entry b places below the new top |
| Memory.Write24Overwrite | wasm/Vulcan.cpp:111-115 | writing a word twice at the same address leaves only the second |
| Opcodes.Encode | util/opcodes.h:3-49 | every enumerator has a value below 45 |
| Opcodes.DecodeEncode | util/opcodes.h:3-49 | decoding the value of an enumerator gives it back |
| Opcodes.DecodeDefined | util/opcodes.h:3-49 | decoding is defined exactly on 0..44 |
| Opcodes.EncodeDecode | util/opcodes.h:3-49 | each value 0..44 decodes to the enumerator that has that value |
| Opcodes.EncodeDecodeFrom0 | util/opcodes.h:4-18 | the values 0..14 decode to the enumerators numbered 0..14 |
| Opcodes.EncodeDecodeFrom15 | util/opcodes.h:19-33 | the values 15..29 decode to the enumerators numbered 15..29 |
| Opcodes.EncodeDecodeFrom30 | util/opcodes.h:34-48 | the values 30..44 decode to the enumerators numbered 30..44 |
| Opcodes.EncodeInjective | util/opcodes.h:3-49 | no two enumerators share a value |
| Opcodes.OpcodeField | wasm/Vulcan.cpp:126 | `instruction >> 2` of a byte is below 64, and the byte is at least 4 times it |
| Opcodes.LengthField | wasm/Vulcan.cpp:125 | `instruction & 3` is below 4, and the byte is 4 times the opcode field plus it |
| VulcanCpu.Vulcan.constructor | wasm/Vulcan.cpp:9-16 | memory holds the given fill, and dp, sp and the interrupt fields are 0 as `init` sets them |
| VulcanCpu.Vulcan.Peek | wasm/Vulcan.cpp:56-58 | returns the byte of the masked address and changes nothing |
| VulcanCpu.Vulcan.Poke | wasm/Vulcan.cpp:60-62 | the state becomes the specification's write of the masked address |
| VulcanCpu.Vulcan.Peek16 | wasm/Vulcan.cpp:272-275 | returns `peek(b) \| peek(b+1) << 8` and changes nothing |
| VulcanCpu.Vulcan.Poke16 | wasm/Vulcan.cpp:285-290 | the state becomes the two byte writes of STORE16 |
| VulcanCpu.Vulcan.Peek24 | wasm/Vulcan.cpp:104-109 | returns the little-endian word at the address and changes nothing |
| VulcanCpu.Vulcan.Poke24 | wasm/Vulcan.cpp:111-115 | the state becomes the three byte writes of `poke24` |
| VulcanCpu.Vulcan.PushData | wasm/Vulcan.cpp:78-83 | the new state is `VulcanSpec.PushData` of the old |
| VulcanCpu.Vulcan.PopData | wasm/Vulcan.cpp:91-95 | returns and leaves what `VulcanSpec.PopData` gives |
| VulcanCpu.Vulcan.PushCall | wasm/Vulcan.cpp:85-89 | the new state is `VulcanSpec.PushCall` of the old |
| VulcanCpu.Vulcan.PopCall | wasm/Vulcan.cpp:97-102 | returns and leaves what `VulcanSpec.PopCall` gives |
| VulcanCpu.Vulcan.LoadRom | wasm/Vulcan.cpp:64-66 | the copy loop leaves `VulcanSpec.LoadRom` of the old state, for a range inside memory |
| VulcanCpu.Vulcan.Reset | wasm/Vulcan.cpp:68-76 | the new state is `VulcanSpec.Reset` of the old |
| VulcanCpu.Vulcan.ReadLiteral | wasm/Vulcan.cpp:129-134 | the loop returns the little-endian literal of the bytes after pc and changes nothing |
| VulcanCpu.Vulcan.Fetch | wasm/Vulcan.cpp:123-145 | returns the opcode field and leaves the state `VulcanSpec.Fetch` gives |
| VulcanCpu.Vulcan.ExecuteBinary | wasm/Vulcan.cpp:152-204 | the two-operand cases leave `VulcanSpec.BinaryOp` of the old state |
| VulcanCpu.Vulcan.ExecuteShift | wasm/Vulcan.cpp:205-224 | the shift cases, with the ARSHIFT loop, leave `VulcanSpec.ShiftOp` of the old state |
| VulcanCpu.Vulcan.Copy | wasm/Vulcan.cpp:228-230 | `push_data(peek24(dp - depth))` leaves `VulcanSpec.Copy` of the old state |
| VulcanCpu.Vulcan.Not | wasm/Vulcan.cpp:182-184 | leaves `VulcanSpec.Not` of the old state |
| VulcanCpu.Vulcan.Dup2 | wasm/Vulcan.cpp:231-234 | leaves `VulcanSpec.Dup2` of the old state |
| VulcanCpu.Vulcan.Swap | wasm/Vulcan.cpp:235-240 | leaves `VulcanSpec.Swap` of the old state |
| VulcanCpu.Vulcan.Pick | wasm/Vulcan.cpp:241-244 | leaves `VulcanSpec.Pick` of the old state |
| VulcanCpu.Vulcan.ExecuteShuffle | wasm/Vulcan.cpp:225-244 | NOT, POP, DUP, DUP2, SWAP and PICK leave `VulcanSpec.ShuffleOp` of the old state |
| VulcanCpu.Vulcan.Jmpr | wasm/Vulcan.cpp:248-250 | leaves `VulcanSpec.Jmpr` of the old state |
| VulcanCpu.Vulcan.Call | wasm/Vulcan.cpp:251-254 | leaves `VulcanSpec.Call` of the old state |
| VulcanCpu.Vulcan.Branch | wasm/Vulcan.cpp:258-265 | BRZ and BRNZ leave `VulcanSpec.Branch` of the old state |
| VulcanCpu.Vulcan.ExecuteControl | wasm/Vulcan.cpp:245-268 | JMP, JMPR, CALL, RET, BRZ, BRNZ and HLT leave `VulcanSpec.ControlOp` of the old state |
| VulcanCpu.Vulcan.ExecuteAccess | wasm/Vulcan.cpp:269-297 | the load and store cases leave `VulcanSpec.AccessOp` of the old state |
| VulcanCpu.Vulcan.PushSp | wasm/Vulcan.cpp:307-309 | SP leaves `VulcanSpec.PushSp` of the old state |
| VulcanCpu.Vulcan.SetSdp | wasm/Vulcan.cpp:313-318 | the corrected SETSDP of "Findings", with both pops done before dp is set, leaves `VulcanSpec.SetSdp` of the old state |
| VulcanCpu.Vulcan.SetSdpAsWritten | wasm/Vulcan.cpp:313-318 | SETSDP in the code's own order, dp assigned from the first pop before the second pop, leaves `VulcanSpec.SetSdpAsWritten` of the old state |
| VulcanCpu.Vulcan.IncSp | wasm/Vulcan.cpp:319-321 | leaves `VulcanSpec.IncSp` of the old state |
| VulcanCpu.Vulcan.DecSp | wasm/Vulcan.cpp:322-325 | leaves `VulcanSpec.DecSp` of the old state |
| VulcanCpu.Vulcan.ExecuteRegisters | wasm/Vulcan.cpp:298-325 | INTON, INTOFF, SETIV, SP, DP, SETSDP, INCSP and DECSP leave `VulcanSpec.RegistersOp` of the old state |
| VulcanCpu.Vulcan.Execute | wasm/Vulcan.cpp:147-328 | the switch and the commit of pc leave `VulcanSpec.Execute` of the old state, with its status |
| VulcanCpu.Vulcan.Tick | wasm/Vulcan.cpp:117-121 | one tick leaves `VulcanSpec.Tick` of the old state |
| VulcanCpu.Vulcan.StackSize | wasm/Vulcan.cpp:336-338 | returns `(dp - bottom_dp) / 3`, rounded toward zero |
| VulcanCpu.Vulcan.GetStack | wasm/Vulcan.cpp:340-342 | returns `peek24(dp - 3 - 3 index)` |
| VulcanCpu.Vulcan.ReturnSize | wasm/Vulcan.cpp:344-346 | returns `(top_sp - sp) / 3`, rounded toward zero |
| VulcanCpu.Vulcan.GetReturn | wasm/Vulcan.cpp:348-350 | returns `peek24(sp + 3 index)` |
| VulcanProps.PushDataView | wasm/Vulcan.cpp:78-83 | `push_data(w)` puts `w & 0xffffff` on top of the data stack and keeps the words below |
| VulcanProps.PopDataView | wasm/Vulcan.cpp:91-95 | `pop_data()` returns the top of a non-empty data stack and removes it |
| VulcanProps.PushPopData | wasm/Vulcan.cpp:78-95 | push then pop returns the masked word, restores dp and changes only the three cells written |
| VulcanProps.PushCallView | wasm/Vulcan.cpp:85-89 | `push_call(v)` puts `v & 0xffffff` on top of the call stack |
| VulcanProps.PopCallView | wasm/Vulcan.cpp:97-102 | `pop_call()` returns the top of a non-empty call stack and removes it |
| VulcanProps.PushPopCall | wasm/Vulcan.cpp:85-102 | push then pop on the call stack returns the masked word and restores sp |
| VulcanProps.DataAccessors | wasm/Vulcan.cpp:336-342 | `stackSize()` is the depth of the data stack and `getStack(i)` the word i places below its top |
| VulcanProps.ReturnAccessors | wasm/Vulcan.cpp:344-350 | `returnSize()` is the depth of the call stack and `getReturn(i)` the word i places below its top |
| VulcanProps.LoadRomView | wasm/Vulcan.cpp:64-66 | `loadROM` puts the ROM at start.., keeps every other cell and every register |
| VulcanProps.ResetEmpties | wasm/Vulcan.cpp:68-76 | after `reset` both stacks are empty and both depths 0; memory and the interrupt fields are unchanged |
| VulcanProps.SetSdpView | wasm/Vulcan.cpp:313-318 | SETSDP sets dp to the top word and sp to the one below, and empties both stacks |
| VulcanProps.SetSdpAsWrittenMisplacesDp | wasm/Vulcan.cpp:313-318 | as written, the second pop reads below the new dp: sp gets the word at w - 3 and dp ends at w - 3 |
| VulcanProps.BinaryView | wasm/Vulcan.cpp:152-204 | a two-operand case pops b, then a, pushes the masked result, and fails only on DIV or MOD by zero |
| VulcanProps.SignedComparison | wasm/Vulcan.cpp:185-204 | GT/LT agree with AGT/ALT when bit 23 is clear in both words, and disagree when it is set in exactly one |
| VulcanProps.ShiftStatusView | wasm/Vulcan.cpp:205-224 | a shift fails exactly on a count of 32 or more, except ARSHIFT of a negative word, which loops |
| VulcanProps.ShiftLeftView | wasm/Vulcan.cpp:205-208 | LSHIFT by b < 32 replaces a, b by the masked a << b |
| VulcanProps.ShiftRightView | wasm/Vulcan.cpp:209-212 | RSHIFT by b < 32 replaces a, b by a >> b |
| VulcanProps.ArShiftView | wasm/Vulcan.cpp:213-224 | ARSHIFT replaces a, b by the signed a floor-divided by 2^b, for either sign of a |
| VulcanProps.ReplaceTwoView | wasm/Vulcan.cpp:152-154 | popping two words and pushing r replaces the top two words by r |
| VulcanProps.TwoPopsView | wasm/Vulcan.cpp:185-189 | the two pops take b from the top and a from below it |
| VulcanProps.NotView | wasm/Vulcan.cpp:182-184 | NOT replaces the top word by 1 when it is 0 and by 0 otherwise |
| VulcanProps.DupView | wasm/Vulcan.cpp:228-230 | DUP pushes a copy of the top word |
| VulcanProps.CopyView | wasm/Vulcan.cpp:241-244 | reading at dp - 3(i + 1) and pushing copies the word i places below the top |
| VulcanProps.Dup2View | wasm/Vulcan.cpp:231-234 | DUP2 turns [.., a, b] into [.., a, b, a, b] |
| VulcanProps.Dup2Words | wasm/Vulcan.cpp:231-234 | two copies of the entry second from the top append the top pair |
| VulcanProps.SwapView | wasm/Vulcan.cpp:235-240 | SWAP exchanges the top two words |
| VulcanProps.PickView | wasm/Vulcan.cpp:241-244 | PICK pops b and pushes the word b places below the new top |
| VulcanProps.PickZeroIsDup | wasm/Vulcan.cpp:228-244 | PICK with 0 pushed before it has exactly the effect of DUP |
| VulcanProps.BranchView | wasm/Vulcan.cpp:258-265 | BRZ/BRNZ pop a signed offset d and a condition c and set next_pc to pc + d exactly when c is zero / non-zero |
| VulcanProps.CallThenRet | wasm/Vulcan.cpp:251-257 | RET right after CALL resumes at the CALL's fall-through address with sp as it was |
| VulcanProps.CallView | wasm/Vulcan.cpp:251-254 | CALL pushes next_pc on the call stack and jumps to the popped target |
| VulcanProps.StoreView | wasm/Vulcan.cpp:280-284 | STORE leaves the low byte of a at address b |
| VulcanProps.Store16View | wasm/Vulcan.cpp:285-290 | STORE16 leaves the low 16 bits of a at b, b + 1, and LOAD16 reads them back |
| VulcanProps.Store24View | wasm/Vulcan.cpp:291-297 | STORE24 leaves the word a at b, b + 1, b + 2, and LOAD24 reads it back |
| VulcanProps.DispatchFrame | wasm/Vulcan.cpp:150-326 | only SETSDP moves the marks, only INTON/INTOFF the flag, only SETIV the vector, only HLT halts |
| VulcanProps.BinaryFrame | wasm/Vulcan.cpp:152-204 | the two-operand cases keep the marks, the interrupt fields and the halted flag |
| VulcanProps.ShiftFrame | wasm/Vulcan.cpp:205-224 | the shift cases keep the same fields |
| VulcanProps.AccessFrame | wasm/Vulcan.cpp:269-297 | the load and store cases keep the same fields |
| VulcanProps.ShuffleFrame | wasm/Vulcan.cpp:225-244 | the shuffle cases keep the same fields |
| VulcanProps.ControlFrame | wasm/Vulcan.cpp:245-268 | the control cases change only halted, next_pc, the stack pointers and memory |
| VulcanProps.RegistersFrame | wasm/Vulcan.cpp:298-325 | the register cases keep halted and touch each field only in its own case |
| VulcanProps.ExecuteNoCase | wasm/Vulcan.cpp:150-327 | PUSH, DEBUG and the values 45..63 only commit pc = next_pc |
| VulcanProps.ExecuteCommits | wasm/Vulcan.cpp:327 | a cycle that completes leaves pc equal to next_pc |
| VulcanProps.TickHalted | wasm/Vulcan.cpp:117-121 | `tick` on a halted machine changes nothing |
| VulcanProps.FetchView | wasm/Vulcan.cpp:123-145 | the opcode is byte >> 2; a non-zero length pushes the literal; next_pc is pc + len + 1 unless HLT |
| VulcanProps.TickPush | wasm/Vulcan.cpp:117-145 | the bytes 0x00..0x03 push their 0..3-byte literal and move pc past it |
| VulcanProps.TickHalt | wasm/Vulcan.cpp:139-142 | the bytes 0x74..0x77 halt and commit pc to the next_pc left by the previous cycle |
| CvEmuSpec.FirstClaimant | cvemu/cvemu.c:317-325 | the index found is the first claimant from `from` on, or the table length when none claims |
| CvEmuSpec.PeekFrame | cvemu/cvemu.c:364-381 | `cpu_peek` changes nothing but the record of hook calls |
| CvEmuSpec.Poke | cvemu/cvemu.c:313-329 | `cpu_poke` changes only memory and the hook record |
| CvEmuSpec.MemoryOnly | cvemu/cvemu.c:392-410 | without L, `cpu_poke24` writes memory and `cpu_peek24` reads it, reaching no device |
| CvEmuSpec.PushAllFrame | cvemu/cvemu.c:699-701 | the pushes change memory and add 3 per value to dp, and nothing else |
| CvEmuSpec.FetchLiteralFrame | cvemu/cvemu.c:450-454 | the literal loop changes nothing but the record of hook calls |
| CvEmuSpec.FetchArgs | cvemu/cvemu.c:448-457 | the literal is pushed only when the length is non-zero |
| CvEmuSpec.RunCycle | cvemu/cvemu.c:661-666 | a run is the outcome of its first cycle on a fault, and otherwise the run of the remaining fuel |
| CvEmuCpu.Cpu.constructor | cvemu/cvemu.c:98-123 | memory holds the fill, the device table and hook count are empty, interrupts off, and `cpu_reset` applied |
| CvEmuCpu.Cpu.CpuReset | cvemu/cvemu.c:166-175 | leaves `CvEmuSpec.CpuReset` of the old state |
| CvEmuCpu.Cpu.CallHooks | cvemu/cvemu.c:155-160 | the scan appends `CvEmuSpec.HookCalls` of the table to the hook record |
| CvEmuCpu.Cpu.Reset | cvemu/cvemu.c:151-164 | leaves `CvEmuSpec.Reset` of the old state |
| CvEmuCpu.Cpu.TickDevices | cvemu/cvemu.c:681-690 | leaves `CvEmuSpec.TickDevices` of the old state |
| CvEmuCpu.Cpu.StoreHook | cvemu/cvemu.c:201-213 | returns the slot and fit `CvEmuSpec.StoreHook` gives, with the new hook count |
| CvEmuCpu.Cpu.InstallDevice | cvemu/cvemu.c:215-236 | returns and leaves what `CvEmuSpec.InstallDevice` gives |
| CvEmuCpu.Cpu.Peek | cvemu/cvemu.c:364-381 | the scan loop returns and leaves what `CvEmuSpec.Peek` gives |
| CvEmuCpu.Cpu.Poke | cvemu/cvemu.c:313-329 | the scan loop leaves `CvEmuSpec.Poke` of the old state |
| CvEmuCpu.Cpu.Peek24 | cvemu/cvemu.c:405-410 | returns and leaves what `CvEmuSpec.Peek24` gives |
| CvEmuCpu.Cpu.Poke24 | cvemu/cvemu.c:392-396 | leaves `CvEmuSpec.Poke24` of the old state |
| CvEmuCpu.Cpu.PushData | cvemu/cvemu.c:247-252 | leaves `CvEmuSpec.PushData` of the old state |
| CvEmuCpu.Cpu.PopData | cvemu/cvemu.c:260-264 | returns and leaves what `CvEmuSpec.PopData` gives |
| CvEmuCpu.Cpu.PushCall | cvemu/cvemu.c:275-279 | leaves `CvEmuSpec.PushCall` of the old state |
| CvEmuCpu.Cpu.PopCall | cvemu/cvemu.c:287-292 | returns and leaves what `CvEmuSpec.PopCall` gives |
| CvEmuCpu.Cpu.PeekCall | cvemu/cvemu.c:294-298 | returns `CvEmuSpec.PeekCall` and changes nothing |
| CvEmuCpu.Cpu.FetchStack | cvemu/cvemu.c:425-440 | the loop returns `CvEmuSpec.FetchStack`: an underflow, or the words from bottom_dp up to dp |
| CvEmuCpu.Cpu.Interrupt | cvemu/cvemu.c:692-705 | leaves `CvEmuSpec.Interrupt` of the old state and the arguments |
| CvEmuCpu.Cpu.FetchLiteral | cvemu/cvemu.c:449-454 | the loop returns and leaves what `CvEmuSpec.FetchLiteral` gives |
| CvEmuCpu.Cpu.Fetch | cvemu/cvemu.c:443-464 | returns the opcode field and leaves `CvEmuSpec.Fetch` of the old state |
| CvEmuCpu.Cpu.ExecuteBinary | cvemu/cvemu.c:479-531 | leaves `CvEmuSpec.BinaryOp` of the old state |
| CvEmuCpu.Cpu.ExecuteShift | cvemu/cvemu.c:532-551 | the shift cases, with the ARSHIFT loop, leave `CvEmuSpec.ShiftOp` of the old state |
| CvEmuCpu.Cpu.Not | cvemu/cvemu.c:509-511 | leaves `CvEmuSpec.Not` of the old state |
| CvEmuCpu.Cpu.Dup | cvemu/cvemu.c:555-557 | leaves `CvEmuSpec.Dup` of the old state |
| CvEmuCpu.Cpu.Swap | cvemu/cvemu.c:558-563 | leaves `CvEmuSpec.Swap` of the old state |
| CvEmuCpu.Cpu.Pick | cvemu/cvemu.c:564-567 | leaves `CvEmuSpec.Pick` of the old state |
| CvEmuCpu.Cpu.Rot | cvemu/cvemu.c:568-575 | leaves `CvEmuSpec.Rot` of the old state |
| CvEmuCpu.Cpu.ExecuteShuffle | cvemu/cvemu.c:552-575 | NOT, POP, DUP, SWAP, PICK and ROT leave `CvEmuSpec.ShuffleOp` of the old state |
| CvEmuCpu.Cpu.Jmpr | cvemu/cvemu.c:579-581 | leaves `CvEmuSpec.Jmpr` of the old state |
| CvEmuCpu.Cpu.Call | cvemu/cvemu.c:582-585 | leaves `CvEmuSpec.Call` of the old state |
| CvEmuCpu.Cpu.Branch | cvemu/cvemu.c:589-596 | leaves `CvEmuSpec.Branch` of the old state |
| CvEmuCpu.Cpu.ExecuteControl | cvemu/cvemu.c:576-599 | leaves `CvEmuSpec.ControlOp` of the old state |
| CvEmuCpu.Cpu.ExecuteAccess | cvemu/cvemu.c:600-618 | LOAD, LOADW, STORE and STOREW, through the device table, leave `CvEmuSpec.AccessOp` of the old state |
| CvEmuCpu.Cpu.Sdp | cvemu/cvemu.c:628-631 | leaves `CvEmuSpec.Sdp` of the old state |
| CvEmuCpu.Cpu.SetSdp | cvemu/cvemu.c:632-637 | leaves `CvEmuSpec.SetSdp` of the old state |
| CvEmuCpu.Cpu.PushR | cvemu/cvemu.c:638-640 | leaves `CvEmuSpec.PushR` of the old state |
| CvEmuCpu.Cpu.PopR | cvemu/cvemu.c:641-643 | leaves `CvEmuSpec.PopR` of the old state |
| CvEmuCpu.Cpu.PeekR | cvemu/cvemu.c:644-646 | leaves `CvEmuSpec.PeekR` of the old state |
| CvEmuCpu.Cpu.ExecuteRegisters | cvemu/cvemu.c:619-646 | leaves `CvEmuSpec.RegistersOp` of the old state |
| CvEmuCpu.Cpu.Execute | cvemu/cvemu.c:474-653 | the switch and the commit of pc leave `CvEmuSpec.Execute` of the old state, with its status |
| CvEmuCpu.Cpu.Cycle | cvemu/cvemu.c:663-664 | fetch, execute and the device ticks leave `CvEmuSpec.Cycle` of the old state |
| CvEmuCpu.Cpu.Turn | cvemu/cvemu.c:662-665 | one turn of the loop agrees with the fuel-bounded run it belongs to |
| CvEmuCpu.Cpu.Run | cvemu/cvemu.c:661-666 | the loop leaves `CvEmuSpec.Run` of the old state for the given fuel |
| CvEmuProps.PushDataView | cvemu/cvemu.c:247-252 | `cpu_push_data(w)` puts `w & 0xffffff` on top of the data stack and keeps the words below |
| CvEmuProps.PopDataView | cvemu/cvemu.c:260-264 | `cpu_pop_data()` returns the top of a non-empty data stack and removes it |
| CvEmuProps.PushPopData | cvemu/cvemu.c:247-264 | push then pop returns the masked word, restores dp and changes only the three cells written |
| CvEmuProps.PushPopCall | cvemu/cvemu.c:275-298 | pop after push returns the masked value and restores sp; `cpu_peek_call` reads the same word without moving sp |
| CvEmuProps.FetchStackPush | cvemu/cvemu.c:425-440 | pushing a word appends it to the listing; the listing fails only when dp is below bottom_dp |
| CvEmuProps.FetchStackEntries | cvemu/cvemu.c:433-437 | a listing of n whole words has n entries, entry k the word at bottom_dp + 3k |
| CvEmuProps.ScanFinds | cvemu/cvemu.c:317-325 | the scan stops at the first device with the hook whose range holds the address, or at the end of the table |
| CvEmuProps.PokeUnclaimed | cvemu/cvemu.c:313-329 | with no claimant, or without L, `cpu_poke` stores `value mod 256` at `addr & 0x1ffff` only |
| CvEmuProps.PokeClaimed | cvemu/cvemu.c:316-325 | the first claimant's poke hook gets (addr - start, value); memory is unchanged; devices without a poke hook are skipped |
| CvEmuProps.PeekUnclaimed | cvemu/cvemu.c:364-381 | with no claimant, or without L, `cpu_peek` returns `mem[addr & 0x1ffff]` |
| CvEmuProps.PeekClaimed | cvemu/cvemu.c:367-378 | the first claimant's peek hook is asked with addr - start and its answer returned as a byte |
| CvEmuProps.Poke24Unclaimed | cvemu/cvemu.c:392-396 | over unclaimed cells `cpu_poke24` with L stores the word in memory |
| CvEmuProps.Peek24Unclaimed | cvemu/cvemu.c:405-410 | over unclaimed cells `cpu_peek24` with L reads the word from memory |
| CvEmuProps.Poke24Peek24 | cvemu/cvemu.c:392-410 | over unclaimed cells `cpu_peek24` reads back the low 24 bits of what `cpu_poke24` stored |
| CvEmuProps.LuaPoke24AsWrittenLosesUpperBytes | cvemu/cvemu.c:383-390 | as written, `poke24(a, 0x123456)` then `peek24(a)` gives 0x56 |
| CvEmuProps.LuaPoke24RoundTrip | cvemu/cvemu.c:383-410 | with the value passed whole, `peek24` reads back its low 24 bits |
| CvEmuProps.DataAt | cvemu/cvemu.c:555-567 | the word i places below the top is the one at dp - 3(i + 1), which DUP and PICK read |
| CvEmuProps.TwoPopsView | cvemu/cvemu.c:512-521 | the two pops take b from the top and a from below it |
| CvEmuProps.ReplaceTwoView | cvemu/cvemu.c:479-481 | popping two words and pushing r replaces the top two words by r |
| CvEmuProps.BinaryView | cvemu/cvemu.c:479-531 | a two-operand case pops b, then a, pushes the masked result, and fails only on DIV or MOD by zero |
| CvEmuProps.SignedComparison | cvemu/cvemu.c:512-531 | GT/LT agree with AGT/ALT when bit 23 is clear in both words, and disagree when it is set in exactly one |
| CvEmuProps.ShiftStatusView | cvemu/cvemu.c:532-551 | a shift fails exactly on a count of 32 or more, except ARSHIFT of a negative word |
| CvEmuProps.ShiftLeftView | cvemu/cvemu.c:532-535 | LSHIFT by b < 32 replaces a, b by the masked a << b |
| CvEmuProps.ShiftRightView | cvemu/cvemu.c:536-539 | RSHIFT by b < 32 replaces a, b by a >> b |
| CvEmuProps.ArShiftView | cvemu/cvemu.c:540-551 | ARSHIFT replaces a, b by the signed a floor-divided by 2^b |
| CvEmuProps.NotView | cvemu/cvemu.c:509-511 | NOT replaces the top word by 1 when it is 0 and by 0 otherwise |
| CvEmuProps.DupView | cvemu/cvemu.c:555-557 | DUP pushes a copy of the top word |
| CvEmuProps.SwapView | cvemu/cvemu.c:558-563 | SWAP exchanges the top two words |
| CvEmuProps.PickView | cvemu/cvemu.c:564-567 | PICK pops b and pushes the word b places below the new top |
| CvEmuProps.PushCopy | cvemu/cvemu.c:566 | pushing the word b places below the top appends that entry |
| CvEmuProps.PickZeroIsDup | cvemu/cvemu.c:555-567 | PICK with 0 pushed before it has exactly the effect of DUP |
| CvEmuProps.ThreePopped | cvemu/cvemu.c:569-571 | popping c, b and a leaves the sequence without its top three words |
| CvEmuProps.RotView | cvemu/cvemu.c:568-575 | ROT turns [.., a, b, c] into [.., b, c, a] |
| CvEmuProps.BranchView | cvemu/cvemu.c:589-596 | BRZ/BRNZ pop a signed offset d and a condition c and set next_pc to pc + d exactly when c is zero / non-zero |
| CvEmuProps.JmprView | cvemu/cvemu.c:579-581 | JMPR adds the popped word to pc without sign extension |
| CvEmuProps.CallThenRet | cvemu/cvemu.c:582-588 | RET right after CALL resumes at the CALL's fall-through address with sp as it was |
| CvEmuProps.SdpView | cvemu/cvemu.c:628-631 | SDP pushes sp and then the dp that holds once both words are pushed |
| CvEmuProps.SetSdpView | cvemu/cvemu.c:632-637 | SETSDP sets dp to the top word and sp to the one below; bottom_dp is unchanged |
| CvEmuProps.SdpThenSetSdp | cvemu/cvemu.c:628-637 | SETSDP right after SDP changes nothing when both registers hold words |
| CvEmuProps.SdpWords | cvemu/cvemu.c:628-631 | SDP writes sp at the old dp and the new dp just above it |
| CvEmuProps.PushRView | cvemu/cvemu.c:638-640 | PUSHR moves the top data word onto the call stack |
| CvEmuProps.PopRView | cvemu/cvemu.c:641-643 | POPR moves the top call-stack word onto the data stack |
| CvEmuProps.PeekRView | cvemu/cvemu.c:644-646 | PEEKR copies the top call-stack word onto the data stack and keeps sp |
| CvEmuProps.PushRThenPopR | cvemu/cvemu.c:638-643 | POPR right after PUSHR restores the data stack and sp |
| CvEmuProps.PushAllView | cvemu/cvemu.c:699-701 | pushing the values in turn puts their masked words on the data stack in order |
| CvEmuProps.PushAllKeeps | cvemu/cvemu.c:699-701 | the pushes leave a word above the data they write, and within one turn of memory, as it was |
| CvEmuProps.PushCallAbove | cvemu/cvemu.c:275-279 | a call-stack push above the data stack leaves the data stack as it was |
| CvEmuProps.PushAllBelow | cvemu/cvemu.c:697-701 | data pushes that stay below sp put their words in order and keep the top of the call stack |
| CvEmuProps.InterruptView | cvemu/cvemu.c:692-705 | with interrupts off nothing changes; otherwise they go off, halted clears, pc is saved on the call stack, the arguments are pushed in order and pc becomes the vector |
| CvEmuProps.InterruptAccepted | cvemu/cvemu.c:694-703 | an accepted interrupt: the saved pc and the pushed arguments are on their stacks |
| CvEmuProps.InterruptSavesPc | cvemu/cvemu.c:695-697 | the first steps of an accepted interrupt put pc on the call stack and keep the data stack |
| CvEmuProps.NewWellFormed | cvemu/cvemu.c:116-120 | a new CPU, with no devices and no hooks, has sound hook bookkeeping |
| CvEmuProps.InstallDeviceView | cvemu/cvemu.c:215-236 | a full table changes nothing; otherwise the device is added exactly when its hooks fit, numbered in the order reset, peek, poke, tick |
| CvEmuProps.StoreHookStep | cvemu/cvemu.c:201-213 | an absent hook gets slot 0; a present one raises the count and fits when the count is at most 256 |
| CvEmuProps.InstallKeepsWellFormed | cvemu/cvemu.c:215-236 | installing keeps the bookkeeping sound whatever the outcome: at most 100 devices, every slot within the hook count and 256, present slots pairwise distinct |
| CvEmuProps.AddDeviceWellFormed | cvemu/cvemu.c:227-232 | a device whose hooks are fresh slots up to the new count keeps the bookkeeping sound |
| CvEmuProps.HookCallsConcat | cvemu/cvemu.c:155-160 | the calls of a scan over two tables are those over the first, then the second |
| CvEmuProps.HookCallsOne | cvemu/cvemu.c:155-160 | over one device the scan calls its hook when it has one |
| CvEmuProps.HookCallsEvents | cvemu/cvemu.c:155-160 | every call is to the hook, with no arguments, through the slot of a device that has it |
| CvEmuProps.ResetView | cvemu/cvemu.c:151-164 | `cvemu_reset` empties the data stack, keeps memory and devices, and calls the reset hooks in table order |
| CvEmuProps.ResetAfterInstall | cvemu/cvemu.c:151-236 | a device installed last has its reset hook called last |
| CvEmuProps.FetchLiteralFromMemory | cvemu/cvemu.c:449-454 | when the bytes after pc come from memory, the literal loop reads them there and leaves the CPU alone |
| CvEmuProps.FetchLiteralStep | cvemu/cvemu.c:450-454 | one turn of the literal loop over a byte that comes from memory |
| CvEmuProps.FetchView | cvemu/cvemu.c:443-464 | the opcode is byte >> 2; a non-zero length pushes the literal; next_pc is pc + len + 1 unless HLT |
| CvEmuProps.RunHalted | cvemu/cvemu.c:661-666 | a halted CPU runs no cycle |
| CvEmuProps.RunAdd | cvemu/cvemu.c:661-666 | a run with fuel m + n is a run with fuel m followed, if it did not fault, by one with fuel n |
| LegacySpec.NextPrevModulo | cvemu.c:149-165 | the successor and predecessor of an index are `(i + 1) % STACK` and `(i - 1 + STACK) % STACK` |
| LegacySpec.RunCycle | cvemu.c:464-469 | a run is the outcome of its first cycle on a fault, and otherwise the run of the remaining fuel |
| LegacyCpu.Cpu.constructor | cvemu.c:69-94 | the array is zeroed, memory holds the fill, interrupts are off with vector 0, and `cpu_reset` is applied |
| LegacyCpu.Cpu.Reset | cvemu.c:129-140 | leaves `LegacySpec.Reset` of the old state |
| LegacyCpu.Cpu.PushData | cvemu.c:149-153 | leaves `LegacySpec.PushData` of the old state |
| LegacyCpu.Cpu.PopData | cvemu.c:161-165 | returns and leaves what `LegacySpec.PopData` gives |
| LegacyCpu.Cpu.PushCall | cvemu.c:174-183 | leaves `LegacySpec.PushCall` of the old state, and says whether every index was in the array |
| LegacyCpu.Cpu.PopCall | cvemu.c:191-196 | returns and leaves what `LegacySpec.PopCall` gives |
| LegacyCpu.Cpu.Poke | cvemu.c:206-215 | writes `value mod 256` at the masked address |
| LegacyCpu.Cpu.Peek | cvemu.c:224-232 | returns the byte at the masked address and changes nothing |
| LegacyCpu.Cpu.FetchLiteral | cvemu.c:252-257 | the loop returns the little-endian literal of the bytes after pc |
| LegacyCpu.Cpu.Fetch | cvemu.c:246-267 | returns the opcode field and leaves `LegacySpec.Fetch` of the old state |
| LegacyCpu.Cpu.ExecuteBinary | cvemu.c:282-334 | leaves `LegacySpec.BinaryOp` of the old state |
| LegacyCpu.Cpu.ExecuteShift | cvemu.c:335-354 | the shift cases, with the ARSHIFT loop, leave `LegacySpec.ShiftOp` of the old state |
| LegacyCpu.Cpu.Dup2 | cvemu.c:361-364 | leaves `LegacySpec.Dup2` of the old state, faulting on an index outside the array |
| LegacyCpu.Cpu.Swap | cvemu.c:365-370 | leaves `LegacySpec.Swap` of the old state |
| LegacyCpu.Cpu.Pick | cvemu.c:371-374 | leaves `LegacySpec.Pick` of the old state, faulting on an index outside the array |
| LegacyCpu.Cpu.ExecuteShuffle | cvemu.c:312-377 | NOT and the data-stack cases leave `LegacySpec.ShuffleOp` of the old state |
| LegacyCpu.Cpu.Not | cvemu.c:312-314 | leaves `LegacySpec.Not` of the old state |
| LegacyCpu.Cpu.Dup | cvemu.c:358-360 | leaves `LegacySpec.Dup` of the old state |
| LegacyCpu.Cpu.Height | cvemu.c:375-377 | leaves `LegacySpec.Height` of the old state |
| LegacyCpu.Cpu.Call | cvemu.c:384-387 | leaves `LegacySpec.Call` of the old state |
| LegacyCpu.Cpu.Ret | cvemu.c:388-390 | leaves `LegacySpec.Ret` of the old state |
| LegacyCpu.Cpu.Brz | cvemu.c:391-394 | leaves `LegacySpec.Brz` of the old state |
| LegacyCpu.Cpu.ExecuteControl | cvemu.c:378-397 | leaves `LegacySpec.ControlOp` of the old state |
| LegacyCpu.Cpu.Jmp | cvemu.c:378-380 | leaves `LegacySpec.Jmp` of the old state |
| LegacyCpu.Cpu.Jmpr | cvemu.c:381-383 | leaves `LegacySpec.Jmpr` of the old state |
| LegacyCpu.Cpu.LoadValue | cvemu.c:398-408 | returns the one-, two- or three-byte little-endian value at b and changes nothing |
| LegacyCpu.Cpu.Store | cvemu.c:409-426 | writes the low byte, then `a >> 8` and `a >> 16`, as the case's width demands |
| LegacyCpu.Cpu.ExecuteAccess | cvemu.c:398-426 | leaves `LegacySpec.AccessOp` of the old state |
| LegacyCpu.Cpu.ExecuteLoad | cvemu.c:398-408 | LOAD, LOAD16 and LOAD24 leave `LegacySpec.AccessOp` of the old state |
| LegacyCpu.Cpu.ExecuteStore | cvemu.c:409-426 | STORE, STORE16 and STORE24 leave `LegacySpec.AccessOp` of the old state |
| LegacyCpu.Cpu.ExecuteInterrupts | cvemu.c:427-435 | leaves `LegacySpec.InterruptOp` of the old state |
| LegacyCpu.Cpu.Frame | cvemu.c:436-438 | leaves `LegacySpec.Frame` of the old state |
| LegacyCpu.Cpu.Local | cvemu.c:439-446 | leaves `LegacySpec.Local` of the old state |
| LegacyCpu.Cpu.SetLocal | cvemu.c:447-453 | leaves `LegacySpec.SetLocal` of the old state |
| LegacyCpu.Cpu.ExecuteFrame | cvemu.c:436-453 | leaves `LegacySpec.FrameOp` of the old state |
| LegacyCpu.Cpu.Execute | cvemu.c:277-456 | the switch and the commit of pc leave `LegacySpec.Execute` of the old state, with its status |
| LegacyCpu.Cpu.Cycle | cvemu.c:466 | leaves `LegacySpec.Cycle` of the old state |
| LegacyCpu.Cpu.Turn | cvemu.c:465-468 | one turn of the loop agrees with the fuel-bounded run it belongs to |
| LegacyCpu.Cpu.Run | cvemu.c:464-469 | the loop leaves `LegacySpec.Run` of the old state for the given fuel |
| LegacyProps.PushWindow | cvemu.c:149-153 | `cpu_push_data(w)` puts `w & 0xffffff` on top; the n words below stay, for n short of the array |
| LegacyProps.PopWindow | cvemu.c:161-165 | `cpu_pop_data()` returns the top word and leaves the words below on top |
| LegacyProps.PushPopData | cvemu.c:149-165 | push then pop returns the masked word and restores `data`; only the cell written differs |
| LegacyProps.PushAllData | cvemu.c:149-153 | from a reset, k pushes for k up to STACK leave `data` at cell k - 1, or back at the last cell for k = 0 |
| LegacyProps.PushAllFromBottom | cvemu.c:149-153 | from a reset, the pushed words fill the cells from 0 up, masked, and the cells above keep their words |
| LegacyProps.ResetLayout | cvemu.c:129-140 | after a reset and k pushes the data stack holds the k words in cells 0..k-1, and the first frame points at itself with pc at 256 |
| LegacyProps.WindowFromBottom | cvemu.c:149-153 | words pushed into cells 0..k-1 with `data` at k - 1 are the top k words |
| LegacyProps.HeightAfterPushes | cvemu.c:375-377 | after a reset and k pushes HEIGHT pushes k for 1 <= k <= STACK, and STACK on the empty stack |
| LegacyProps.HeightTop | cvemu.c:375-377 | HEIGHT pushes one more than the index of the top cell |
| LegacyProps.NewLayout | cvemu.c:78-91 | `newCpu` leaves a zeroed array apart from the first frame's pointer to itself |
| LegacyProps.PushCallView | cvemu.c:174-183 | `cpu_push_call` succeeds exactly when its cells are in the array; the new frame starts locals + 3 below and holds old call, the masked address and 0 locals |
| LegacyProps.PushPopCall | cvemu.c:174-196 | popping after a successful push returns the masked address and restores `call` |
| LegacyProps.ReturnFromFirstFrame | cvemu.c:191-196 | returning from the first frame a reset makes stays in it |
| LegacyProps.CallThenRet | cvemu.c:384-390 | RET right after CALL resumes at the masked fall-through address, in the caller's frame |
| LegacyProps.FrameView | cvemu.c:436-438 | FRAME n sets the locals count to n and no other cell; it faults only outside the array |
| LegacyProps.LocalView | cvemu.c:439-446 | LOCAL b pushes the cell `call - 3 - b` when the count is above b, and 0 otherwise |
| LegacyProps.SetLocalBeyondFrame | cvemu.c:447-453 | SETLOCAL with at most b locals drops both operands and writes nothing |
| LegacyProps.SetLocalInFrame | cvemu.c:447-453 | SETLOCAL with more than b locals writes a to local b and no other cell |
| LegacyProps.SetLocalThenLocal | cvemu.c:439-453 | SETLOCAL of a as local b, then LOCAL b, reads a back masked |
| LegacyProps.LocalAfterPush | cvemu.c:439-446 | LOCAL b right after b is pushed reads local b |
| LegacyProps.FrameThenLocal | cvemu.c:436-446 | after FRAME n, LOCAL b reads local b for b < n and pushes 0 for b >= n |
| LegacyProps.FrameSizesCall | cvemu.c:174-183 | after FRAME n, a call starts the new frame n + 3 cells below, right under the n locals |
| LegacyProps.BinaryView | cvemu.c:282-334 | a two-operand case pops b and a and pushes `a op b`; only DIV and MOD by zero fault |
| LegacyProps.SwapView | cvemu.c:365-370 | SWAP exchanges the two top words |
| LegacyProps.Dup2View | cvemu.c:361-364 | DUP2 works exactly when the top is neither cell 0 nor the last cell, and then duplicates the top pair |
| LegacyProps.PickView | cvemu.c:371-374 | PICK b pushes the word b places below the top; it faults when that word lies across the wrap of the array |
| LegacyProps.PickZeroIsDup | cvemu.c:358-374 | PICK with 0 on top is DUP of what is below it |
| LegacyProps.DupView | cvemu.c:358-360 | DUP pushes a copy of the top word |
| LegacyProps.BrzView | cvemu.c:391-394 | BRZ pops an unsigned offset d and a condition c and sets next_pc to pc + d only when c is 0 |
| LegacyProps.JmprView | cvemu.c:381-383 | JMPR adds the popped word to pc as an unsigned offset |
| LegacyProps.ExecuteNoCase | cvemu.c:277-456 | a code with no case only commits next_pc |
| LegacyProps.HaltView | cvemu.c:395-397 | HLT halts and commits the next_pc left by the previous instruction; the run then stops |
| LegacyProps.PopTwoPushed | cvemu.c:149-165 | popping twice after pushing a and b gives b, then a masked, and the original `data` and memory |
| LegacyProps.PopPushed | cvemu.c:149-165 | pushing b and then popping gives back b and the original state |
| LegacyProps.StoreThenLoad | cvemu.c:398-413 | STORE of a at b, then LOAD at b, pushes the low byte of a |
| LegacyProps.Store16ThenLoad16 | cvemu.c:401-419 | STORE16 then LOAD16 at the same address pushes the low 16 bits |
| LegacyProps.Store24ThenLoad24 | cvemu.c:405-426 | STORE24 then LOAD24 at the same address pushes the whole masked word |
| LegacyProps.FetchView | cvemu.c:246-267 | the opcode is byte >> 2; a non-zero length pushes the literal; next_pc is pc + len + 1 unless HLT |
| LegacyProps.RunHalted | cvemu.c:464-469 | a halted CPU runs no cycle |
| LegacyProps.RunAdd | cvemu.c:464-469 | a run with fuel m + n is a run with fuel m followed, if it did not fault, by one with fuel n |
| LegacyProps.RunAddTurn | cvemu.c:464-469 | the same, for a running CPU whose first cycle is given |

## Left out

- **Lua glue.** The Lua binding glue is not modelled. This covers `luaopen_cvemu`, the userdata and metatable setup of `newCpu`, `checkCpu`, `cpuToString`, `gcCpu` and `dumpstack`. It also covers the thin `cvemu_*` wrappers that read arguments and push results, and the getters `cvemu_pc`, `cvemu_sp`, `cvemu_dp`, `cvemu_flags` and `cvemu_set_pc`. All of these are plumbing of the Lua runtime. The logic of `cvemu_reset`, `cvemu_install_device`, `cvemu_fetch_stack`, `cvemu_interrupt` and `cvemu_poke24` is modelled.
- **Lua errors.** `luaL_error` in `store_hook`, `cvemu_install_device` and `cvemu_fetch_stack` becomes an outcome value: `OutOfHooks`, `TableFull` or `Underflow`. `lua_setiuservalue` is taken to fail exactly when the slot number exceeds 256.
  - CvEmuSpec.InstallDevice: when the hooks run out, the start, end and hook fields already written into the unused table slot are not kept. Only `num_devices++` makes that slot part of the table, so they are not observable. The increased hook count is kept, as in the code.
  - A non-table hook argument is not modelled, because the hooks are given as presence flags.
- **Device hook bodies** are foreign Lua code.
  - A hook call is recorded in the trace, and a peek answer is a parameter of the trace.
  - A hook that changes the CPU re-entrantly is not modelled.
- **`RAND`** is an unimplemented no-op in all three engines and is modelled as such.
- **Printing.** `DEBUG`, `cvemu_print_stack` (cvemu/cvemu.c and cvemu.c) and the `printf` in `Vulcan::fetch` change no state, so they are not modelled. DEBUG only commits pc.
- **Randomness and seeding.** The `rand() % 256` fill and the `srand` seeding are replaced by an arbitrary initial memory given to the constructors.
- **C++ resource management.** The copy constructor, `operator=`, the destructor and `malloc`/`free` of wasm/Vulcan.cpp are not modelled.
- **Other files.** wasm/emulator.cpp, wasm/public/jsEditor.js and wasm/server.rb are not part of this model.
- CvEmuCpu.Cpu.Run: `cpu_run` and the loop in cvemu.c run until halted and may never stop. The model runs at most `fuel` turns, so a run that never halts is described only by its finite prefixes.
- CvEmuSpec.Cycle: `cpu_run` ticks the devices after every `cpu_execute`. The model ticks them only when the cycle did not fault, since a fault stands for undefined behaviour and ends the run.
- **Register width.** The registers `pc`, `next_pc`, `dp` and `sp` are unbounded integers, so a 32-bit `int` overflow of a register is not modelled. Every memory access reduces its address modulo 2^17, which is what the C conversion to `unsigned` and the mask `& 0x1ffff` give for any 32-bit value.
- **Evaluation order.** ADD, MUL, AND, OR and XOR pop two operands inside one expression. C leaves the order unspecified, but all five are commutative, so the model pops b first. The three reads of LOADW in cvemu/cvemu.c:605 are unsequenced too, and there the order can be observed; see the next two lines.
- CvEmuCpu.Cpu.ExecuteAccess: LOADW in cvemu/cvemu.c:605 calls `cpu_peek` on b, b+1 and b+2 inside one expression, and C does not fix the order of those calls. When devices claim those addresses, the order decides the order of the hook calls in the trace and which peek answer goes with which byte. The model (`CvEmuSpec.AccessOp`, through `CvEmuSpec.Peek24`) always reads b, then b+1, then b+2. Other orders are not modelled. Without a hook on those addresses every order gives the same word.
- CvEmuCpu.Cpu.Execute: LOADW runs through `ExecuteAccess`, so the same fixed address order b, b+1, b+2 applies to `cpu_execute` and to everything built on it (`CvEmuCpu.Cpu.Cycle`, `CvEmuCpu.Cpu.Run`).
- VulcanCpu.Vulcan.SetSdp: this is the corrected SETSDP of "Findings". Both words are popped before either register is set, so for a data stack [.., x, w] it leaves dp = w and sp = x. It does not promise what wasm/Vulcan.cpp:313-318 does as written, which is dp = w - 3 and sp = the word at w - 3. That behaviour is `VulcanCpu.Vulcan.SetSdpAsWritten`.
- VulcanCpu.Vulcan.ExecuteRegisters: its SETSDP case calls the corrected `SetSdp` of "Findings", not the code's `dp = pop_data(); sp = pop_data();`. So for SETSDP the state it promises is the intended one, dp = w and sp = x for a data stack [.., x, w]. The code as written leaves dp = w - 3 and sp = the word at w - 3. The code's order is modelled by `VulcanCpu.Vulcan.SetSdpAsWritten` and `VulcanSpec.SetSdpAsWritten`, which the dispatch does not call.
- VulcanCpu.Vulcan.Execute: through `ExecuteRegisters`, SETSDP executes the corrected version. Every other instruction is as written.
- VulcanCpu.Vulcan.Tick: through `Execute`, a tick that fetches SETSDP gives the corrected state, not the code's.
- VulcanCpu.Vulcan.constructor: `init` does not set pc, bottom_dp, top_sp, halted or next_pc, which hold indeterminate values until `reset`. The model sets them to 0.
- VulcanCpu.Vulcan.LoadRom: `memcpy` beyond the end of memory is undefined behaviour, so the range must lie inside the buffer. This is the only precondition that goes beyond what the code checks.
- LegacyCpu.Cpu.PushCall: a `stack[]` index outside 0..2047 (in `cpu_push_call`, `cpu_pop_call`, DUP2, PICK, FRAME, LOCAL and SETLOCAL) is undefined behaviour. The model ends the cycle with the `StackIndexOutOfRange` fault, instead of guessing what memory it hits. For `cpu_pop_call`, RET faults that way (`LegacySpec.Ret`), while the method `LegacyCpu.Cpu.PopCall` requires both header cells, `stack[call]` and `stack[call - 1]`, to lie in the array.
- **Devices in cvemu.c.** The device code of cvemu.c is commented out in the source, so that engine has no devices.

**Behaviour of the code worth knowing.**

- JMPR adds the popped word to pc as an unsigned number in all three engines. It has no sign extension, unlike BRZ and BRNZ in the two newer engines.
- BRZ in cvemu.c also takes its offset unsigned.
- The `DP` instruction of wasm/Vulcan.cpp pushes `sp`, not `dp`.
- HLT commits pc to the `next_pc` of the previous cycle, because fetch does not set it for HLT. That is the HLT address only when the previous instruction fell through to it.
- HEIGHT in cvemu.c pushes `data + 1`, which is 2048 on the empty stack, whose top index is the last cell.

## Findings

| source | as written | input that shows it | evidently intended | confidence | as-written member | corrected member |
|---|---|---|---|---|---|---|
| wasm/Vulcan.cpp:313-318 | `dp = pop_data(); sp = pop_data();`: dp is set before the second pop, so that pop reads the word just below the new dp and moves dp down by 3 | any data stack [.., x, w]: afterwards dp is w - 3 instead of w, and sp is whatever word memory holds at w - 3 instead of x | dp = the top word and sp = the word below it, as cvemu/cvemu.c:632-637 does, leaving both depths 0 | not executed | VulcanProps.SetSdpAsWrittenMisplacesDp | VulcanProps.SetSdpView |
| cvemu/cvemu.c:383-390 | `cvemu_poke24` masks its value argument with `& 0xff` before calling `cpu_poke24`, so the two upper bytes are always written as 0 | `poke24(a, 0x123456)` then `peek24(a)` at a cell no device claims gives 0x56 | the whole value is passed to `cpu_poke24`, which keeps its low 24 bits, so that peek24 gives back 0x123456 | not executed | CvEmuProps.LuaPoke24AsWrittenLosesUpperBytes | CvEmuProps.LuaPoke24RoundTrip |
