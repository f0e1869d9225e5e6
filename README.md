# CHIP-8 interpreter core in Dafny

This project models the emulation engine of a small CHIP-8 interpreter written in C++: the `Chip8` class of `src/main.cpp`. The class holds the following machine state:

- sixteen 8-bit registers V0..VF;
- 4 KiB of memory;
- the 16-bit index register I and program counter;
- a 16-slot return stack with its stack pointer;
- the delay and sound timers;
- a 16-key keypad;
- a 64 x 32 buffer of 32-bit video cells;
- the current instruction word `opcode`.

The model covers:

- the constructor, which loads the hex-digit font at 0x50 and starts the program at 0x200;
- the 34 instruction handlers and the null handler;
- the `decode` switch;
- one fetch-decode-execute `cycle`, which then counts the timers down;
- the byte-copy loop of `load_ROM`.

The model has two layers:

- `MachineState`, `Sprites`, `Instructions` and `Dispatch` describe the machine as a value (`State`). Each handler is a function on that value whose contract states what the instruction does. Further lemmas relate the instructions to one another.
- `Emulator.Chip8` is the class itself. It has arrays and counters that its methods update in place, reading the instruction from the `opcode` field just as the C++ methods do. Every handler method, `LoadRom`, `Fetch`, `Tick` and `Cycle` is proved to leave the object in exactly the state that the function of the same name computes from the state before. The constructor is proved to produce `Dispatch.Initial`, `Execute` and `Decode` are proved against `Dispatch.Exec`, `OpNull` to change nothing, and the loop-body methods `LoadFont`, `DrawRow` and `DrawPixel` against the font image of `Dispatch.Initial` and the steps of `Sprites.DrawLoop`. The loops of the source are proved with loop invariants: the font copy, the row and column loops of the draw, the register dump and load, and the ROM copy.

The model follows the code as written, including four of its behaviours:

- **`decode` always switches on family 0.** It takes `(opcode & 0xF000) >> 16`, which is always 0. So `decode` only ever runs CLS (low nibble 0), RET (low nibble E) or the null handler.
- **SHL stores bit 0 of Vx in VF.** `registers[Vx] & 0x80u >> 7u` parses as `registers[Vx] & (0x80 >> 7)`.
- **The draw uses a row stride of `VIDEO_WIDTH` = 640.** The buffer is only 64 cells wide. The origin is taken modulo 640 and 320, which does nothing to a byte (`ScreenX`, `ScreenY`).
- **Nothing is bounds-checked.** Every access the C++ leaves unchecked is a precondition. Examples: the stack pointer on call and return, the key index of SKP/SKNP, memory at I + x, and every video cell the draw loop addresses.

Integers are unbounded in Dafny, so the C++ widths are written out:

- bytes and 16-bit words are subset types;
- every addition wraps with `% 0x100` or `% 0x1_0000`;
- `&`, `|`, `^` and `>>` on bytes are computed bit by bit.

Lemmas tie each of these bitwise operators to the bit-level meaning it has (`AndBitsBit`, `OrBitsBit`, `XorBitsBit`, `AndBitsPow2`).

## Model

| member | source | states |
|---|---|---|
| MachineState.X | src/main.cpp:159 | `(opcode & 0x0F00) >> 8` names one of the 16 registers |
| MachineState.Y | src/main.cpp:178 | `(opcode & 0x00F0) >> 4` names one of the 16 registers |
| MachineState.N | src/main.cpp:325 | `opcode & 0x000F` is a nibble, below 16 |
| MachineState.KK | src/main.cpp:160 | `opcode & 0x00FF` is the word with everything above the low byte taken away: at most the word, and differing from it by a multiple of 256 |
| MachineState.NNN | src/main.cpp:141 | `opcode & 0x0FFF` is below 0x1000, at most the word, and differs from it by a multiple of 0x1000 |
| MachineState.OperandFieldsReassemble | src/main.cpp:323-325 | the x, y and n nibbles and the top nibble put back together give the instruction word; kk is y and n, and nnn is x and kk |
| MachineState.AndBitsPow2 | src/main.cpp:332 | masking with a single bit 2^k keeps bit k alone: the result is 2^k when bit k is set and 0 otherwise |
| MachineState.AndBitsBit | src/main.cpp:220-225 | bit i of `a & b` is set exactly when bit i of both operands is set |
| MachineState.OrBitsBit | src/main.cpp:211-216 | bit i of a OR b is set exactly when bit i of either operand is set |
| MachineState.XorBitsBit | src/main.cpp:229-234 | bit i of `a ^ b` is set exactly when the two operands' bit i differ |
| MachineState.BitAndBits | src/main.cpp:316 | on bytes, bit i of `a & b` is set exactly when bit i of both is, for each of the 8 bits |
| MachineState.BitOrBits | src/main.cpp:215 | on bytes, bit i of a OR b is set exactly when bit i of either is |
| MachineState.BitXorBits | src/main.cpp:233 | on bytes, bit i of `a ^ b` is set exactly when the two bits differ |
| MachineState.BitXorInvolution | src/main.cpp:229-234 | `(a ^ b) ^ b == a` on bytes |
| Sprites.PixelOnAsWritten | src/main.cpp:332 | the draw loop's test `spriteByte & (0x80 >> col)` is non-zero exactly when bit 7 - col (column col, counting from the most significant bit) is set |
| Sprites.Cell | src/main.cpp:333 | the address `screenX + column + (screenY + row) * VIDEO_WIDTH`: for a column `x + col` inside one stride of 640, the cell divided by 640 gives back the row `y + row` and its remainder the column |
| Sprites.DrawStep | src/main.cpp:331-335 | one column step keeps the buffer's length; what it does to the cell and the flag is `DrawStepEffect` |
| Sprites.DrawStepEffect | src/main.cpp:331-335 | one column step changes at most the cell `x + col + (y + row) * 640`: it is complemented when the sprite bit is set, and the flag is raised exactly when it was already raised or the set bit lands on a lit cell |
| Sprites.DrawLoop | src/main.cpp:329-336 | the row/column loop after any number of steps keeps the buffer's length; its buffer and flag are given by `DrawLoopBuffer` and `DrawLoopFlag` |
| Sprites.DrawLoopKeepsMonochrome | src/main.cpp:329-336 | at every step of the loop, a buffer whose cells were all 0 or 0xFFFFFFFF still is |
| Sprites.DrawLoopBuffer | src/main.cpp:329-336 | after any number of steps of the row/column loop, exactly the cells covered by the set sprite bits of those steps are complemented, and every other cell is unchanged |
| Sprites.DrawLoopFlag | src/main.cpp:329-336 | after any number of steps, the collision flag of the loop is set exactly when one of the cells covered so far was lit before the draw |
| Sprites.CoversExactly | src/main.cpp:331-335 | the cells a draw complements are exactly `x + col + (y + row) * 640` for the set bits (row, col) of the sprite |
| Sprites.DrawnTwice | src/main.cpp:334 | drawing the same sprite at the same place twice gives the original buffer back |
| Sprites.DrawnKeepsMonochrome | src/main.cpp:334 | a buffer whose cells are all 0 or 0xFFFFFFFF keeps that property after a draw |
| Sprites.RedrawCollides | src/main.cpp:334 | the second drawing of a sprite collides exactly when some cell covered by the first drawing was 0 before it |
| Instructions.SkipNext | src/main.cpp:161 | `programCounter += 2` on a 16-bit counter: the result is pc + 2, or pc + 2 - 65536 when pc is 0xFFFE or 0xFFFF, and is never pc itself (also at lines 170, 179, 291, 345, 354) |
| Instructions.Op00E0 | src/main.cpp:124-127 | every video cell becomes 0, and nothing else changes |
| Instructions.Op00EE | src/main.cpp:131-135 | with the stack not empty: the stack pointer goes down by one, the program counter becomes the slot it now points to, and nothing else changes |
| Instructions.Op1nnn | src/main.cpp:139-143 | the program counter becomes nnn, and nothing else changes |
| Instructions.Op2nnn | src/main.cpp:147-153 | with the stack not full: the program counter is saved in the slot at the stack pointer, the pointer goes up by one, the program counter becomes nnn, and no other slot changes |
| Instructions.Op3xkk | src/main.cpp:157-162 | skips the next instruction (pc + 2, with 16-bit wrap) exactly when Vx == kk; only the program counter changes |
| Instructions.Op4xkk | src/main.cpp:166-171 | skips exactly when Vx != kk; only the program counter changes |
| Instructions.Op5xy0 | src/main.cpp:175-180 | skips exactly when Vx == Vy; only the program counter changes |
| Instructions.Op6xkk | src/main.cpp:184-189 | Vx becomes kk; the other registers and the rest of the state are unchanged |
| Instructions.Op7xkk | src/main.cpp:193-198 | Vx becomes (Vx + kk) mod 256 and every other register is unchanged; so VF is left alone when x != F (7Fkk adds to VF itself) |
| Instructions.Op8xy0 | src/main.cpp:202-207 | Vx becomes Vy; nothing else changes |
| Instructions.Op8xy1 | src/main.cpp:211-216 | bit i of the new Vx is set exactly when bit i of the old Vx or of Vy is, for each of the 8 bits; only Vx changes |
| Instructions.Op8xy2 | src/main.cpp:220-225 | bit i of the new Vx is set exactly when bit i of both the old Vx and Vy is; only Vx changes |
| Instructions.Op8xy3 | src/main.cpp:229-234 | bit i of the new Vx is set exactly when bit i of the old Vx and of Vy differ; only Vx changes |
| Instructions.Op8xy4 | src/main.cpp:238-245 | for x != F: Vx becomes (Vx + Vy) mod 256 and VF becomes 1 exactly when Vx + Vy > 255 (0 otherwise); no register other than Vx and VF changes |
| Instructions.Op8xy5 | src/main.cpp:249-255 | for x, y != F: Vx becomes (Vx - Vy) mod 256 and VF becomes 1 exactly when Vx > Vy (0 otherwise); no register other than Vx and VF changes |
| Instructions.Op8xy6 | src/main.cpp:259-264 | for x != F: VF becomes bit 0 of Vx, Vx becomes Vx / 2, and 2 * new Vx + VF is the old Vx |
| Instructions.Op8xy7 | src/main.cpp:268-274 | for x, y != F: Vx becomes (Vy - Vx) mod 256 and VF becomes 1 exactly when Vy > Vx (0 otherwise) |
| Instructions.ShlFlag | src/main.cpp:281 | the SHL flag expression as written, `Vx & 0x80 >> 7`, equals Vx mod 2 (bit 0) |
| Instructions.Op8xyE | src/main.cpp:278-283 | for x != F: VF becomes bit 0 of Vx, and Vx becomes 2 * Vx mod 256 |
| Instructions.Op9xy0 | src/main.cpp:287-292 | skips exactly when Vx != Vy; only the program counter changes |
| Instructions.OpAnnn | src/main.cpp:296-300 | I becomes nnn; nothing else changes |
| Instructions.OpBnnn | src/main.cpp:304-308 | the program counter becomes nnn + V0, a sum that never exceeds 16 bits; nothing else changes |
| Instructions.OpCxkk | src/main.cpp:312-317 | Vx becomes the random byte masked by kk: bit i of Vx is set exactly when bit i of both the random byte and kk is, so Vx has no bit outside kk and is 0 when kk is 0; only Vx changes |
| Instructions.ScreenX | src/main.cpp:326 | the origin `registers[Vx] % VIDEO_WIDTH` equals Vx itself, since a byte is below 640 |
| Instructions.ScreenY | src/main.cpp:327 | the origin `registers[Vy] % VIDEO_HEIGHT` equals Vy itself, since a byte is below 320 |
| Instructions.Sprite | src/main.cpp:329-330 | the sprite has n rows, and row `row` is `memory[index + row]`, inside memory; for n = 0 no memory is read, whatever I is |
| Instructions.OpDxyn | src/main.cpp:321-337 | only VF and the video buffer change, and VF ends as 0 or 1 |
| Instructions.DrawNoRows | src/main.cpp:328-329 | Dxy0 can run for every I and origin, and its only effect is VF = 0 |
| Instructions.DrawEffect | src/main.cpp:321-337 | VF becomes 1 exactly when a set sprite bit lands on a lit cell; the covered cells are complemented and every other cell is unchanged; no register but VF changes |
| Instructions.OpEx9E | src/main.cpp:341-346 | skips exactly when the key numbered Vx is pressed |
| Instructions.OpExA1 | src/main.cpp:350-355 | skips exactly when the key numbered Vx is not pressed |
| Instructions.OpFx07 | src/main.cpp:359-363 | Vx becomes the delay timer; only Vx changes |
| Instructions.FirstPressed | src/main.cpp:370-420 | the key found is pressed and every key before it is not; when none is found, no key from the start on is pressed |
| Instructions.OpFx0A | src/main.cpp:368-422 | when some key is pressed, Vx becomes the smallest pressed key and the program counter stays; when none is, the program counter goes back by 2 (16-bit wrap) and nothing else changes |
| Instructions.OpFx15 | src/main.cpp:426-430 | the delay timer becomes Vx; nothing else changes |
| Instructions.OpFx18 | src/main.cpp:434-438 | the sound timer becomes Vx; nothing else changes |
| Instructions.OpFx1E | src/main.cpp:442-446 | I becomes I + Vx mod 65536 (the plain sum when it fits), and VF is untouched |
| Instructions.OpFx29 | src/main.cpp:450-455 | I becomes 0x50 + 5 * Vx; for a hex digit the five bytes from I lie inside the font |
| Instructions.OpFx33 | src/main.cpp:460-469 | memory[I], [I+1] and [I+2] become digits (each at most 9) whose value 100a + 10b + c is Vx; all other memory and the rest of the state are unchanged |
| Instructions.OpFx55 | src/main.cpp:473-479 | memory[I .. I+x] becomes V0 .. Vx; memory outside that window, I, and the registers are unchanged |
| Instructions.OpFx65 | src/main.cpp:483-489 | V0 .. Vx become memory[I .. I+x]; the registers above x, I, and memory are unchanged |
| Dispatch.Dispatch | src/main.cpp:521-578 | the switch table: in family 0 only CLS (low nibble 0) and RET (low nibble E) are selected, families 1-7 and 9-D always select a handler, and no value past F selects one |
| Dispatch.Decode | src/main.cpp:519-579 | `decode` can only ever select CLS, RET or the null handler |
| Dispatch.Family | src/main.cpp:521 | the value the outer switch of `decode` selects on is always 0 |
| Dispatch.DecodeAsWritten | src/main.cpp:519-579 | `decode` runs CLS when the low nibble is 0, RET when it is E, and the null handler otherwise |
| Dispatch.Exec | src/main.cpp:519-579 | running the selected handler keeps the array sizes and a stack depth of at most 16 |
| Dispatch.Fetch | src/main.cpp:586-589 | the opcode becomes memory[pc] * 256 + memory[pc + 1], the program counter goes up by 2, and nothing else changes |
| Dispatch.Tick | src/main.cpp:594-598 | each timer goes down by 1 when positive and stays at 0 otherwise; nothing else changes |
| Dispatch.Cycle | src/main.cpp:583-599 | a cycle keeps the array sizes and a stack depth of at most 16 |
| Dispatch.CyclePreAsWritten | src/main.cpp:583-599 | a cycle can run exactly when pc + 1 lies in memory and, if the fetched word's low nibble is E, the stack is not empty |
| Dispatch.CycleAsWritten | src/main.cpp:583-599 | a cycle sets the opcode to the fetched word; it clears the video exactly when the low nibble is 0, pops the stack exactly when it is E, and otherwise changes only the program counter (+2) and the timers |
| Dispatch.CycleFrame | src/main.cpp:583-599 | a cycle never changes registers, memory, I, keypad or stack slots, and it changes the video only by clearing it |
| Dispatch.Initial | src/main.cpp:42-118 | after construction: pc = 0x200, sp = 0, the font is at memory[0x50 .. 0xA0], all other memory is 0, the video, registers, stack slots and keypad are all 0, I and both timers are 0, and the opcode is the given (uninitialised) word |
| Dispatch.LoadRom | src/main.cpp:510-512 | memory[0x200 ..] holds the ROM bytes, all other memory and the rest of the state are unchanged |
| Emulator.Chip8.constructor | src/main.cpp:106-118 | the new object is in the state `Initial` describes |
| Emulator.Chip8.LoadFont | src/main.cpp:112 | the loop copies the 80 font bytes to 0x50 onwards and leaves the rest of the zeroed memory as it was |
| Emulator.Chip8.LoadRom | src/main.cpp:510-512 | the copy loop leaves the object in the state `LoadRom` describes |
| Emulator.Chip8.Op00E0 | src/main.cpp:124-127 | the object ends in the state of `Instructions.Op00E0` |
| Emulator.Chip8.Op00EE | src/main.cpp:131-135 | the object ends in the state of `Instructions.Op00EE` |
| Emulator.Chip8.Op1nnn | src/main.cpp:139-143 | the object ends in the state of `Instructions.Op1nnn` |
| Emulator.Chip8.Op2nnn | src/main.cpp:147-153 | the object ends in the state of `Instructions.Op2nnn` |
| Emulator.Chip8.Op3xkk | src/main.cpp:157-162 | the object ends in the state of `Instructions.Op3xkk` |
| Emulator.Chip8.Op4xkk | src/main.cpp:166-171 | the object ends in the state of `Instructions.Op4xkk` |
| Emulator.Chip8.Op5xy0 | src/main.cpp:175-180 | the object ends in the state of `Instructions.Op5xy0` |
| Emulator.Chip8.Op6xkk | src/main.cpp:184-189 | the object ends in the state of `Instructions.Op6xkk` |
| Emulator.Chip8.Op7xkk | src/main.cpp:193-198 | the object ends in the state of `Instructions.Op7xkk` |
| Emulator.Chip8.Op8xy0 | src/main.cpp:202-207 | the object ends in the state of `Instructions.Op8xy0` |
| Emulator.Chip8.Op8xy1 | src/main.cpp:211-216 | the object ends in the state of `Instructions.Op8xy1` |
| Emulator.Chip8.Op8xy2 | src/main.cpp:220-225 | the object ends in the state of `Instructions.Op8xy2` |
| Emulator.Chip8.Op8xy3 | src/main.cpp:229-234 | the object ends in the state of `Instructions.Op8xy3` |
| Emulator.Chip8.Op8xy4 | src/main.cpp:238-245 | the object ends in the state of `Instructions.Op8xy4` |
| Emulator.Chip8.Op8xy5 | src/main.cpp:249-255 | the object ends in the state of `Instructions.Op8xy5` |
| Emulator.Chip8.Op8xy6 | src/main.cpp:259-264 | the object ends in the state of `Instructions.Op8xy6` |
| Emulator.Chip8.Op8xy7 | src/main.cpp:268-274 | the object ends in the state of `Instructions.Op8xy7` |
| Emulator.Chip8.Op8xyE | src/main.cpp:278-283 | the object ends in the state of `Instructions.Op8xyE` |
| Emulator.Chip8.Op9xy0 | src/main.cpp:287-292 | the object ends in the state of `Instructions.Op9xy0` |
| Emulator.Chip8.OpAnnn | src/main.cpp:296-300 | the object ends in the state of `Instructions.OpAnnn` |
| Emulator.Chip8.OpBnnn | src/main.cpp:304-308 | the object ends in the state of `Instructions.OpBnnn` |
| Emulator.Chip8.OpCxkk | src/main.cpp:312-317 | given the random byte, the object ends in the state of `Instructions.OpCxkk` |
| Emulator.Chip8.OpDxyn | src/main.cpp:321-337 | the nested row/column loop leaves the video and VF as `Instructions.OpDxyn` describes, and changes nothing else |
| Emulator.Chip8.DrawRow | src/main.cpp:330-335 | one pass of the column loop carries the video and VF from the state after `row` rows to the state after `row + 1` rows |
| Emulator.Chip8.DrawPixel | src/main.cpp:331-335 | one column step complements the cell when the sprite bit is set, and sets VF if the cell was lit |
| Emulator.Chip8.OpEx9E | src/main.cpp:341-346 | the object ends in the state of `Instructions.OpEx9E` |
| Emulator.Chip8.OpExA1 | src/main.cpp:350-355 | the object ends in the state of `Instructions.OpExA1` |
| Emulator.Chip8.OpFx07 | src/main.cpp:359-363 | the object ends in the state of `Instructions.OpFx07` |
| Emulator.Chip8.OpFx0A | src/main.cpp:368-422 | the key tests in the order keypad[0] .. keypad[15], written as a scan loop, end in the state of `Instructions.OpFx0A` |
| Emulator.Chip8.OpFx15 | src/main.cpp:426-430 | the object ends in the state of `Instructions.OpFx15` |
| Emulator.Chip8.OpFx18 | src/main.cpp:434-438 | the object ends in the state of `Instructions.OpFx18` |
| Emulator.Chip8.OpFx1E | src/main.cpp:442-446 | the object ends in the state of `Instructions.OpFx1E` |
| Emulator.Chip8.OpFx29 | src/main.cpp:450-455 | the object ends in the state of `Instructions.OpFx29` |
| Emulator.Chip8.OpFx33 | src/main.cpp:460-469 | the object ends in the state of `Instructions.OpFx33` |
| Emulator.Chip8.OpFx55 | src/main.cpp:473-479 | the copy loop ends in the state of `Instructions.OpFx55` |
| Emulator.Chip8.OpFx65 | src/main.cpp:483-489 | the copy loop ends in the state of `Instructions.OpFx65` |
| Emulator.Chip8.OpNull | src/main.cpp:493 | the state is unchanged |
| Emulator.Chip8.Execute | src/main.cpp:521-578 | calling the handler of the given instruction ends in the state `Dispatch.Exec` describes |
| Emulator.Chip8.Decode | src/main.cpp:519-579 | `decode` runs the handler that `Dispatch.Decode` selects for the opcode |
| Emulator.Chip8.Cycle | src/main.cpp:583-599 | one cycle ends in the state `Dispatch.Cycle` describes |
| Emulator.Chip8.Fetch | src/main.cpp:586-589 | the fetch at the head of the cycle ends in the state `Dispatch.Fetch` describes |
| Emulator.Chip8.Tick | src/main.cpp:594-598 | the timer countdown at the end of the cycle ends in the state `Dispatch.Tick` describes |
| Properties.CallThenReturn | src/main.cpp:131-153 | CALL followed by RET restores the program counter and the stack pointer; only the used stack slot keeps the return address |
| Properties.StoreThenLoad | src/main.cpp:473-489 | Fx55 then Fx65 with the same x and I leaves every register as it was |
| Properties.DrawTwice | src/main.cpp:321-337 | for x, y != F, Dxyn twice restores the video, and the second draw reports a collision exactly when the first one lit a cell |
| Properties.DrawOnBlankScreen | src/main.cpp:321-337 | a draw on a blank screen leaves VF = 0 |
| Properties.XorTwice | src/main.cpp:229-234 | XOR Vx, Vy twice (x != y) restores every register |
| Properties.AddThenSub | src/main.cpp:238-255 | ADD Vx, Vy then SUB Vx, Vy gives Vx back (x, y != F, x != y) |
| Properties.SkipsComplementary | src/main.cpp:157-180 | on the same operands exactly one of SE and SNE skips (3xkk/4xkk and 5xy0/9xy0) |
| Properties.KeySkipsComplementary | src/main.cpp:341-355 | on the same key exactly one of SKP and SKNP skips |
| Properties.WaitKeyRepeats | src/main.cpp:368-422 | with no key pressed, Fx0A right after its fetch leaves the program counter on itself, so the next cycle fetches it again |
| Properties.FontGlyph | src/main.cpp:450-455 | after construction, Fx29 on a hex digit d points I at the five font rows of d |
| Properties.AddCarryExample | src/main.cpp:238-245 | 0x8014 with V0 = 0xFF, V1 = 1 gives V0 = 0, VF = 1 |
| Properties.SubBorrowExample | src/main.cpp:249-255 | 0x8015 with V0 = 1, V1 = 2 gives V0 = 0xFF, VF = 0 |
| Properties.LoadAddExample | src/main.cpp:184-198 | 0x6A3C then 0x7A05 leaves VA = 0x41 and VF untouched |
| Properties.BcdExample | src/main.cpp:460-469 | 0xF033 with V0 = 234 writes 2, 3, 4 |
| Findings.DecodeMissesJump | src/main.cpp:521 | the jump word 0x1228 is dispatched to the null handler |
| Findings.DecodeAsWrittenReaches | src/main.cpp:519-579 | of all handlers, only CLS, RET and the null handler are selected by their own instruction words |
| Findings.DecodeIntendedReaches | src/main.cpp:519-579 | switching on the top nibble, every handler is selected by its own instruction word |
| Findings.DecodeIntendedIgnoresOperands | src/main.cpp:519-579 | switching on the top nibble, the operands never change the handler of the families without a sub-switch, and it is never the null handler |
| Findings.ShlLosesCarry | src/main.cpp:281 | for Vx = 0x80 the flag as written is 0, so the bit shifted out is lost |
| Findings.ShlIntendedKeepsCarry | src/main.cpp:276-283 | with the flag `(Vx & 0x80) >> 7`, the flag is 0 or 1 and 2 * Vx is the truncated result plus 256 times the flag |
| Findings.StrideOverrunsBuffer | src/main.cpp:333 | a one-row sprite at screen row 4 addresses a cell past the end of the 2048-cell buffer |
| Findings.CellIntendedOnScreen | src/main.cpp:333 | with stride 64, every on-screen position has a cell below 2048, and the cell's quotient and remainder by 64 give back its row and column |
| Findings.CellIntendedInjective | src/main.cpp:333 | with stride 64, distinct on-screen positions get distinct cells |

## Left out

- The `Display` class and the `main` loop (src/main.cpp:603-750) are not part of this model. They are the SDL window, key-event translation and wall-clock pacing with a `float` delta: user interface, I/O and floating point.
- The file handling of `load_ROM` (opening, sizing and reading the file) is not modelled. The ROM bytes are a parameter, and the model has only the copy loop. Its requirement that the ROM fits above 0x200 is a precondition, because the code does not check it.
- The random generator (`std::mt19937`, `uniform_int_distribution`) is not modelled. The random byte of Cxkk is a parameter of `OpCxkk`, `Exec` and `Cycle`.
- The C++ constructor leaves `opcode` uninitialised, so `Dispatch.Initial` takes it as a parameter.
- Undefined behaviour has no semantics in the model; the accesses that would cause it are preconditions instead. These are:
  - stack underflow or overflow;
  - a key index of 16 or more;
  - a memory index past 4095 (sprite rows, Fx33, Fx55/Fx65, the fetch at pc + 1);
  - a video cell index of 2048 or more.

  The draw demands that every cell the loop addresses is in range, not only the cells of set bits, because the C++ takes the address `&video[k]` of each of them.
- Emulator.Chip8.Decode: the C++ `decode` is one nested switch. The model splits it into `Dispatch.Decode`, which computes the selected handler as a value, and the switch `Execute`, which calls it.
- The loop bodies have their own methods:
  - the constructor's font loop is `LoadFont`;
  - the column loop of Dxyn is `DrawRow`;
  - one column step is `DrawPixel`.
- Instructions.Op8xy4: the sum and flag are stated for x != F only. With x = F the code overwrites the flag with the truncated sum, and the function computes exactly that, but its contract says nothing about it.
- Instructions.Op8xy5: stated for x, y != F only. With x = F or y = F the subtraction reads the flag just written.
- Instructions.Op8xy7: stated for x, y != F only, for the same reason.
- Instructions.Op8xy6: stated for x != F only.
- Instructions.Op8xyE: stated for x != F only.
- Instructions.OpDxyn: the contract gives only the frame; what the draw does to VF and the video is in `DrawEffect`.
- Sprites.DrawStep: the contract gives only the buffer length; the effect of a step is `DrawStepEffect`.
- Sprites.DrawLoop: the contract gives only the buffer length; the buffer and flag after each step are `DrawLoopBuffer` and `DrawLoopFlag`.
- Emulator.Chip8.OpFx0A: the sixteen `else if` tests of the source are one scan loop over the keys in the same order; the result is the same.
- Dispatch.Exec: the contract gives only well-formedness. The effect of each handler is the contract of its own function.
- Dispatch.Cycle: the contract gives only well-formedness. Its effect is stated by `CycleAsWritten` and `CycleFrame`.
- Video cells are 32-bit vectors, because the code only XORs, compares and clears them. Registers and memory are integers, and the byte-wide arithmetic is written out.

## Findings

The machine model above follows the code as written. Each finding below has two parts:

- a counterexample lemma about the as-written definition;
- a corrected definition beside it, with the intended property proved.

| source | as written | input that shows it | evidently intended | confidence | as-written member | corrected member |
|---|---|---|---|---|---|---|
| src/main.cpp:521 | the switch value is `(opcode & 0xF000u) >> 16u`, which is always 0, so every family but 0 is unreachable | opcode 0x1228 (JP 0x228) runs the null handler | switch on `(opcode & 0xF000u) >> 12u`, the top nibble | not executed | Findings.DecodeMissesJump | Findings.DecodeIntendedReaches |
| src/main.cpp:281 | `registers[Vx] & 0x80u >> 7u` keeps bit 0, because `>>` binds tighter than `&` | Vx = 0x80: VF is set to 0 although bit 7 is shifted out | `(registers[Vx] & 0x80u) >> 7u`, the most significant bit, as the comment above the handler says | not executed | Findings.ShlLosesCarry | Findings.ShlIntendedKeepsCarry |
| src/main.cpp:13-14, 333 | the draw uses `VIDEO_WIDTH` = 640 (the window size) as the row stride of the 64-wide buffer | Vy = 4, a one-row sprite at x = 0: cell 2560 is past the 2048-cell buffer | a row stride of 64, the width of `video` | not executed | Findings.StrideOverrunsBuffer | Findings.CellIntendedOnScreen |
