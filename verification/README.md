# gb-disasm control-flow discovery, in Dafny

gb-disasm disassembles a Game Boy cartridge image by following its control
flow. It starts at 0x100 in bank 1 and works out which bytes are code. At
each step it does four things:
- it translates the 16-bit program counter and the current ROM bank into an
  offset in the image (`phy`);
- it decodes the instruction there through a 256-case `switch`, plus the
  256-case switch behind the 0xCB prefix;
- it appends a record (address, length, rendered text) to the instruction
  list;
- it moves the program counter.

Conditional jumps and calls defer their fall-through path on a stack of
(address, bank) continuations. Returns resume the top continuation. When
the traversal reaches an address it has already recorded, it resumes a
deferred path, or finishes if none is left. The engine also tracks the
register `a` and the high-memory page `hmem`. That tracking feeds one
heuristic: a store of `a` to 0x2000 or 0x2100 switches the bank.

The model is a functional state machine with these modules:

- `Bits`: bytes, 16-bit words, the `uint16_t` and `uint32_t` wrap-arounds,
  the `(char)` cast, the little-endian operand and `%.nX` hex rendering.
- `Memory`: the address translator `phy`.
- `Continuations`: the deferred-path stack (`state_push`/`state_pop`).
- `Catalog`: the instruction list (`sops_add`/`sops_contains`).
- `Rendering`: the `op_0`, `op_0_2`, `op_r`, `op_rb`, `op_l` and `op_lb`
  helpers.
- `Opcodes` and `OpcodeLaws`: the primary and 0xCB tables as data, and
  facts about them. The 0xCB table is also defined independently by its
  bit-field rule.
- `Decoder`: the opcode and operand fetch and the record text.
- `Engine`: the loop state, `jmp`/`jmpu` (both overloads), `ret`, and one
  iteration of the `while(1)` loop (`Step`).
- `EngineLaws`: what one iteration does, family by family.
- `Traversal`: the loop itself, bounded by a step count, and what holds of
  every state it reaches.

The model follows the code as written, including these behaviours:
- After popping a continuation on a revisit, the code decodes the resumed
  address straight away. It does not test it against the catalog again.
  `sops_add` is modelled as an append that does not reject a duplicate (its
  implementation is not part of this model), so the catalog can hold two
  records for one address (`EngineLaws.DuplicateAfterResume`).
- A conditional jump defers `pc + 3` for every 16-bit form. That includes
  the one-byte `JP (HL)`, which uses whatever 16-bit operand was read last.
  A conditional relative jump defers `pc + 2`.
- The conditional relative jump (`jmp(uint8_t)`) takes any target below
  0x8000, even one past the end of the image.
- Labels are appended before the range check, so out-of-range targets are
  labelled too. The relative-jump label is `phy(pc + d)`, two bytes before
  the real target `pc + d + 2`.
- `ret()` on an empty stack dereferences a NULL pointer. The model stops
  there with its own `Underflow` outcome. So NOPs followed by a RET with
  nothing deferred end in `Underflow`, after recording every NOP and the RET
  (`Traversal.NopSledUnderflows`).
- RET cc and RST are plain one-byte instructions that fall through.
- STOP reads its operand byte and advances two bytes, but records nothing.

## Model

| member | source | states |
|---|---|---|
| Bits.Wrap16 | main.c:39 | storing into the `uint16_t` pc keeps the value modulo 2^16, and leaves values already in range unchanged |
| Bits.Signed | main.c:77 | the `(char)` cast maps a byte to -128..127, congruent to it modulo 256 |
| Bits.LittleEndian | main.c:264 | `lo \| (hi << 8)`: the low byte of the word is `lo`, the high byte is `hi` |
| Bits.Hex | main.c:129 | `%.nX` gives exactly `n` digits |
| Bits.HexRoundTrip | main.c:128-166 | parsing the rendered upper-case hex digits gives the value back |
| Bits.HexInjective | main.c:128-166 | distinct operands render as distinct digit strings |
| Bits.DigitValueSpec | main.c:129 | the digit reader accepts exactly the sixteen upper-case hex digits and inverts the digit table |
| Memory.Phy | main.c:54-61 | the result fits in a `uint32_t`, and differs from the address only on a banked cartridge above 0x3FFF |
| Memory.PhyTranslation | main.c:54-61 | identity for controller types 0x00, 0x08 and 0x09 and below 0x4000; otherwise `(bank-1)*0x4000 + addr` |
| Memory.PhyIgnoresBank | main.c:54-61 | in the fixed region, or without banking, the translation does not depend on the bank |
| Memory.WindowRoundTrip | main.c:60 | through the 0x4000-0x7FFF window, bank `b` is read at the same offset within the bank, and the window address can be recovered from the physical one |
| Memory.BankZeroAliasesFixed | main.c:60 | bank 0 in the window reads the fixed first bank, because nothing maps it to bank 1 |
| Continuations.Push | main.c:66 | pushing adds exactly one continuation on top and keeps the rest |
| Continuations.Pop | main.c:112-116 | a pop is absent exactly on an empty stack; otherwise it returns the top and the stack below, and pushing them back rebuilds the stack |
| Continuations.PopPush | main.c:63-116 | last in, first out: a pop undoes a push |
| Catalog.Contains | main.c:242 | the membership test holds exactly when some record has the address |
| Catalog.Add | main.c:259 | `sops_add` appends one record after the old ones |
| Catalog.AddContains | main.c:242-259 | after an addition, exactly the old addresses and the new one are present |
| Catalog.AddUnique | main.c:242-259 | on a duplicate-free catalog, an addition keeps it duplicate-free exactly when the address was not present |
| Rendering.Size | main.c:118-166 | record length 1 for `op_0`, 2 for the 8-bit helpers, 3 for the 16-bit ones: one opcode byte plus the operand bytes its hex digits print |
| Rendering.BoundIsDigits | main.c:128-146 | two hex digits hold exactly the `uint8_t` operands and four digits the `uint16_t` ones |
| Rendering.RenderShape | main.c:128-166 | every helper's text is the opening punctuation, the digits, then `)` and/or the suffix; a regrouping of the helpers' formats, used as the step towards `Rendering.RenderRoundTrip` |
| Rendering.RenderRoundTrip | main.c:128-166 | the text starts with the mnemonic, has the helper's exact length, and gives the operand back when read |
| Rendering.RenderWordExample | main.c:128-131 | `op_r("LD BC", 0x1234)` is `LD BC,$1234` |
| Opcodes.Length | main.c:252-2572 | every defined primary opcode is 1, 2 or 3 bytes long |
| OpcodeLaws.UndefinedOpcodes | main.c:2573-2575 | exactly the eleven opcodes D3 DB DD E3 E4 EB EC ED F4 FC FD reach `default` |
| OpcodeLaws.FlowOfOpcode | main.c:252-2572 | every rendered table entry has the control effect that an independent opcode list gives it |
| OpcodeLaws.FlowByOpcodeInverse | main.c:252-2572 | `LD A,d8`, `LDH A,(a8)`, `LDH (a8),A` and the bank store are opcodes 3E, F0, E0 and EA alone; the returns are C9 and D9 alone |
| OpcodeLaws.SpecialOpcodes | main.c:252-2572 | 0x10 is the only STOP and 0xCB the only prefix |
| OpcodeLaws.PlainReturnsAndRestarts | main.c:1242-2572 | RET cc and RST are one-byte `op_0` entries with no control transfer |
| OpcodeLaws.TableConsistent | main.c:252-2572 | every entry that transfers control or touches `a`/`hmem` reads the operand width its action uses |
| OpcodeLaws.ExtendedRegular | main.c:1306-2332 | the written-out 0xCB table agrees at every byte with the rule: register by bits 0-2, shift by bits 3-5 below 0x40, then BIT/RES/SET with bit number `(b >> 3) & 7` |
| OpcodeLaws.ExtendedTotal | main.c:1306-2335 | all 256 second bytes have a mnemonic |
| Decoder.OperandBytes | main.c:118-166 | the operand bytes read after the opcode are the length minus one |
| Decoder.ReadAt | main.c:264 | a read succeeds exactly inside the image and returns that byte; outside it reports the physical offset |
| Decoder.Fetch | main.c:255-2575 | decoding succeeds exactly when the opcode is defined and its bytes are inside the image; the operand is the next byte or the next two little-endian; an undefined opcode inside the image is reported with its address and byte, before any operand is read; a short image is reported at the first byte, in read order, that lies past its end |
| Decoder.WellTypedOperand | main.c:252-2572 | a consistent instruction carries a byte operand for relative jumps and `a`/`hmem` moves, a word for absolute jumps, calls and the bank store, none for `JP (HL)` and the returns |
| Decoder.FetchedWellTyped | main.c:252-2572 | every decoded instruction is consistent |
| Decoder.DecodeWordExample | main.c:262-267 | the bytes 01 34 12 decode as `LD BC,$1234` |
| Decoder.DecodePrefixExample | main.c:1306-1807 | the bytes CB 7C decode as `BIT 7,H` |
| Decoder.DecodeTruncatedExample | main.c:264 | 01 34 at the end of the image reports the missing byte at offset 2 |
| Engine.HighStore | main.c:2439 | a store changes only its own cell, which then holds the stored value |
| Engine.HighLoadStore | main.c:2436-2507 | an `hmem` load sees the last store to its own cell and no other |
| Engine.RelLabel | main.c:387 | the label JR and JR cc add, `phy(pc + (char)d)`; `EngineLaws.RelLabelOffByTwo` shows that without banking it is two below the jump target, so it never names it |
| Engine.RelTarget | main.c:77 | the relative target is `pc + (char)d + 2` modulo 2^16 |
| Engine.Jmp16 | main.c:63-73 | in range (below 0x8000 and inside the image), it defers exactly (pc + 3, bank) and jumps; otherwise it advances to pc + 3 with the stack unchanged; nothing else changes |
| Engine.Jmp8 | main.c:75-86 | for a target below 0x8000, with no image check, it defers exactly (pc + 2, bank) and jumps; otherwise it advances to pc + 2 with the stack unchanged |
| Engine.Jmpu16 | main.c:88-97 | only pc changes: to the target in range, otherwise to 0x100; so pc either is the restart address or names a byte inside the image below 0x8000 |
| Engine.Jmpu8 | main.c:99-109 | only pc changes: to `pc + (char)d + 2` in range, otherwise to 0x100; so pc either is the restart address or names a byte inside the image below 0x8000 |
| EngineLaws.JumpAlwaysLandsInImage | main.c:88-109 | after JR or JP the next opcode byte is inside the image, so the next fetch can be cut short at the opcode itself only at the 0x100 restart |
| EngineLaws.ConditionalRelativeLeavesImage | main.c:75-86 | unlike the unconditional helpers, a taken JR cc below 0x8000 can land past the image, where the next fetch is `Truncated` at the opcode |
| EngineLaws.ConditionalRelativeExample | main.c:427-432 | on a 0x150-byte image without banking, JR NZ,$7F at 0x100 jumps to 0x181, past the end |
| Engine.Ret | main.c:111-116 | absent exactly on an empty stack; otherwise pc and bank come from the top continuation, which is removed, and nothing else changes |
| EngineLaws.TransferGrows | main.c:252-2572 | a control transfer leaves the catalog alone, adds at most one label, and can stop only by underflow |
| EngineLaws.ExecuteGrows | main.c:252-2572 | an instruction appends its own record (STOP none) and at most one label |
| EngineLaws.DispatchRecords | main.c:255-2575 | one decoding adds nothing or the record of the decoded instruction |
| EngineLaws.DispatchNeverFinishes | main.c:255-2575 | decoding never finishes the traversal |
| EngineLaws.StepGrows | main.c:240-2577 | one iteration appends at most one record and one label and removes nothing |
| EngineLaws.StepFinishes | main.c:240-251 | an iteration finishes exactly at a revisit with an empty stack, and then changes nothing |
| EngineLaws.StepResumes | main.c:240-255 | at a recorded address with paths deferred, an iteration pops the newest one and decodes there; at a new address it decodes in place |
| EngineLaws.DuplicateAfterResume | main.c:242-259 | resuming at an address already recorded records it a second time |
| EngineLaws.UnknownOpcodeHalts | main.c:2573-2575 | an undefined opcode stops the run in the same state, with its address and byte |
| EngineLaws.ExecuteStop | main.c:342-345 | STOP advances pc by 2 and changes nothing else |
| EngineLaws.ExecuteDataMove | main.c:590-2507 | LD A,d8 (main.c:590-595), LDH (a8),A (main.c:2436-2441) and LDH A,(a8) (main.c:2502-2507) are two bytes long, add their record and advance pc by 2; only `a` and `hmem` change besides |
| EngineLaws.DataMovesAdvance | main.c:2436-2507 | opcodes 3E, E0 and F0 keep running, advance pc by 2 and leave the stack, the bank, the labels and `addr16` as they were |
| EngineLaws.ExecuteSequential | main.c:252-2572 | a non-transferring instruction or 0xCB pair adds its record and advances pc by its length; only `addr16` may change besides |
| EngineLaws.ExecuteJump16 | main.c:1252-1271 | JP cc and CALL label the target (CALL as a call), then, through `jmp` (main.c:63-73), defer (pc + 3, bank) and jump in range, or fall through to pc + 3; bank and `a` are unchanged |
| EngineLaws.ExecuteJump8 | main.c:427-432 | JR cc labels `phy(pc + d)` first, then, through `jmp(uint8_t)` (main.c:75-86), jumps, deferring (pc + 2, bank), whenever the target is below 0x8000 |
| EngineLaws.ExecuteJumpAlways | main.c:88-109 | JR and JP (main.c:384-389, main.c:1259-1264) never touch the stack, the bank or `a`; pc goes to the target in range, else to 0x100 |
| EngineLaws.ExecuteJumpStale | main.c:2475-2479 | JP (HL) labels and jumps to the last 16-bit operand read, deferring pc + 3 |
| EngineLaws.ExecuteReturn | main.c:1294-1298 | RET/RETI are recorded, then resume the top continuation's pc and bank and drop it; on an empty stack they stop with underflow |
| EngineLaws.ExecuteStoreBank | main.c:2481-2489 | LD (a16),A to 0x2000 or 0x2100 sets the bank to `a`; any other address leaves it |
| EngineLaws.ExecuteRegisters | main.c:252-2572 | only LD A,d8 and LDH A,(a8) change `a`, only LDH (a8),A changes `hmem`, only the bank store and the returns change the bank |
| EngineLaws.DispatchExecutes | main.c:252-2572 | the decoded instruction is consistent and has the effect the opcode list gives its byte |
| EngineLaws.StopRecordsNothing | main.c:342-345 | opcode 0x10 adds no record and advances pc by 2 |
| EngineLaws.PrefixRecord | main.c:1306-2335 | 0xCB xx records the extended mnemonic of xx with length 2 and advances pc by 2 |
| EngineLaws.PlainReturnsFallThrough | main.c:1242-2572 | RET cc and RST advance pc by 1 with no stack or bank change |
| EngineLaws.BankSwitchHeuristic | main.c:2481-2489 | opcode 0xEA with little-endian operand 0x2000 or 0x2100 sets the bank to `a`, else keeps it |
| EngineLaws.BankChangesOnlyBy | main.c:252-2572 | a decoding changes the bank only for opcodes EA, C9 and D9 |
| EngineLaws.AccumulatorChangesOnlyBy | main.c:252-2572 | a decoding changes `a` only for opcodes 3E and F0, and 3E loads the next byte |
| EngineLaws.RelLabelOffByTwo | main.c:384-389 | without banking, the relative-jump label is two below the target, so it never names it |
| EngineLaws.CallReturnRoundTrip | main.c:63-116 | a taken conditional jump or call followed by a return resumes at pc + 3 in the same bank with the old stack |
| EngineLaws.RelativeReturnRoundTrip | main.c:75-116 | a taken conditional relative jump followed by a return resumes at pc + 2 |
| Engine.Initial | main.c:232-238 | the loop's starting state, the assignments before the loop; `Engine.InitialState` spells them out |
| Engine.InitialState | main.c:232-238 | the loop starts at pc 0x100 in bank 1 with `a` zero, `hmem` zero, nothing deferred, nothing recorded and no labels |
| Engine.HighLoad | main.c:2505 | an `hmem` read; `Engine.HighLoadStore` shows it sees the last store to its cell |
| Engine.Transfer | main.c:252-2572 | the control effect of one instruction; `EngineLaws.TransferGrows` and the `EngineLaws.Execute*` lemmas state it per family |
| Engine.Execute | main.c:252-2572 | one decoded instruction's record and effect; `EngineLaws.ExecuteGrows` shows it appends its own record (STOP none) and at most one label |
| Engine.Dispatch | main.c:252-2572 | decode then execute; `EngineLaws.DispatchExecutes` shows it runs the decoded instruction, `EngineLaws.UnknownOpcodeHalts` that an undefined opcode stops it |
| Engine.Step | main.c:240-2577 | one loop iteration; `EngineLaws.StepResumes` and `EngineLaws.StepFinishes` give its revisit branch, `EngineLaws.StepGrows` that it only appends |
| Opcodes.Primary | main.c:255-2575 | the primary table; `OpcodeLaws.UndefinedOpcodes`, `OpcodeLaws.SpecialOpcodes` and `OpcodeLaws.FlowOfOpcode` state which entries exist and what each does |
| Opcodes.Extended | main.c:1307-2332 | the 0xCB table; `OpcodeLaws.ExtendedRegular` shows it follows the bit-field rule at every byte |
| Rendering.Render | main.c:128-166 | an `op_*` helper's text starts with the mnemonic, and only `op_0` adds nothing after it; `Rendering.RenderShape` and `Rendering.RenderRoundTrip` give its layout and show the operand can be read back |
| Traversal.Iterate | main.c:240-2577 | with no fuel, or once halted, the outcome stays as it is |
| Traversal.IterateInvariant | main.c:240-2577 | a property kept by every iteration holds after any number of them |
| Traversal.IterateGrows | main.c:240-2577 | if each iteration appends at most one record, any number of iterations only appends, at most one record each |
| Traversal.Run | main.c:240-2577 | the main loop's catalog only grows, by at most one record per iteration |
| Traversal.RunStep | main.c:240-2577 | a running traversal with fuel left takes one iteration |
| Traversal.CataloguedEach | main.c:259 | every record of a well-formed catalog describes the image |
| Traversal.DispatchKeepsCatalogued | main.c:255-2575 | decoding keeps every record naming a defined opcode inside the image with its length |
| Traversal.StepKeepsCatalogued | main.c:240-2577 | so does one iteration |
| Traversal.RunKeepsCatalogued | main.c:240-2577 | so do any number of iterations |
| Traversal.Disassemble | main.c:232-2577 | start-up followed by the bounded `while(1)` loop; `Traversal.DisassembleCatalogued` shows every record describes the image, `Traversal.NeverFinishes` that some images never reach the exit, and `Traversal.NopSledUnderflows` the exact run on a NOP sled |
| Traversal.DisassembleCatalogued | main.c:232-2577 | every record of the disassembly names a defined opcode inside the image with its length |
| Traversal.StepFinishedAt | main.c:240-251 | an iteration that finishes stands at a recorded address with an empty stack |
| Traversal.RunFinished | main.c:240-251 | a traversal that finishes stands at a recorded address with an empty stack |
| Traversal.NopRecords | main.c:257-260 | the NOP records at 0x100 onwards, one byte each |
| Traversal.SledStep | main.c:240-260 | a NOP in the fixed bank is recorded and pc moves by one |
| Traversal.SledEnd | main.c:1294-1298 | the closing RET is recorded and then underflows |
| Traversal.SledRun | main.c:240-2577 | from any point of the sled, the rest of the run is as predicted |
| Traversal.SledStart | main.c:232-237 | the sled starts from the initial state: pc 0x100, bank 1 |
| Traversal.NopSledUnderflows | main.c:232-2577 | n NOPs then RET from 0x100 record every NOP and the RET in order, then stop with underflow |
| Traversal.StopStep | main.c:342-345 | on an image of STOP bytes with an empty catalog, an iteration records nothing and moves pc by two |
| Traversal.NeverFinishes | main.c:240-2577 | on a 64 KiB unbanked image of STOP bytes the loop keeps running after any number of iterations, with nothing recorded |

## Left out

- Command-line handling, ROM loading and `rom_info`/`rom_free` (main.c:219-230): file I/O. The image and its controller-type byte are parameters (`Rom`). main.c declares the global `mbc` (main.c:31) and reads it only in `phy`; nothing in main.c assigns it, so `Rom.mbc` assumes the loader, which is not part of this model, sets it. With `mbc` 0, as the zero-initialised global stands, every `Memory` lemma reduces to the identity case.
- `print_dump`/`print_asm` and their file variants (main.c:169-212): output only. The model keeps the two label lists and stops there. It does not model the flagging loops, which index `jmp_addr` while iterating `call_addr`.
- The internals of `sops_*` and `state_*` are not part of this model. The catalog is a sequence with append and membership, and the stack is a sequence used last-in first-out.
- `printf` warnings and status lines, and `free`: observational only.
- CPU semantics beyond the `a`/`hmem` tracking that feeds the bank heuristic: no flags, other registers or cycles.
- Termination: the `while(1)` loop need not terminate. On a 64 KiB image without banking made only of STOP bytes, STOP records nothing, so no address is ever found in the catalog and pc wraps around forever (`Traversal.NeverFinishes`). `Traversal.Run` is therefore bounded by a step count.
- Decoder.Fetch: an opcode or operand byte past the end of the image ends the run as `Truncated`. The source reads those bytes without a check.
- Engine.Transfer: a return on an empty stack ends the run as `Underflow`. The source dereferences a NULL pointer there.
- Engine.HighLoad: `hmem` has 0xFF cells. A load at index 0xFF reads 0, where the source reads one past the array.
- Catalog.Add: `sops_add` is modelled as an append that does not check for an existing record at the same address, because its implementation is not part of this model.
- Engine.HighStore: a store at index 0xFF is dropped, where the source writes one past the array.
- Bits.Signed: assumes a platform whose plain `char` is signed. Where it is unsigned, relative jumps only go forward.
- Memory.Bank: the source's `int bank` is only ever assigned 1 or the 8-bit `a`, so the model's bank ranges over 0..255.
- Engine.Initial: `addr16` is uninitialised in the source, so its first value is a parameter.
