# CHIP-8 interpreter core in Dafny

This project models the CHIP-8 virtual machine of a browser-based emulator: the
`Machine` class of `src/frontend/scripts/chip8/machine.ts` together with the frame
buffer (`pixelArr`, `togglePixel`, `clear`, `normalizePixel`) of the `Screen` class
in `src/frontend/scripts/chip8/peripherals/display.ts`.

The model has the following state:
- 4096 bytes of memory;
- sixteen 8-bit registers V0..VF;
- the index register I and the program counter PC;
- the delay and sound timers;
- an unbounded call stack;
- the key-wait state: the paused flag and the register the next key is written to;
- the two quirk switches `originalShiftBehavior` and `incrementIndex`;
- the 64 x 32 frame buffer, held as a flat array of booleans in which pixel (x, y) is at index x + y * 64.

The model is split into six files:

- `bytes.dfy` (module `Bytes`): the byte type and the bit operations the instructions use: the sprite bit `(b >> (7 - col)) & 1`, and `|`, `&` and `^` on bytes.
- `display.dfy` (module `Display`): the frame buffer operations as functions on a `seq<bool>`.
- `opcodes.dfy` (module `Opcodes`): the 16-bit opcode words and the instruction forms the `switch` in `executeInstruction` distinguishes. `Decode` maps a word to its form. `Encode` goes the other way, and the two are proved inverse.
- `semantics.dfy` (module `Semantics`): the machine as a value (`State`) and each operation as a function of that value. Each function follows the statements of the TypeScript in order, which matters where a register is written and then read back (the flag tests of 8xy4/8xy5/8xy7, and Dxyn with x or y equal to F).
- `machine.dfy` (module `Chip8`): the class `Machine`. Memory, registers and the frame buffer are arrays updated in place. PC, I, the timers, the stack and the key-wait state are fields. Every method that executes an instruction, a cycle, a timer tick or a key delivery is proved to change the state exactly as the matching `Semantics` function says: the ghost `Model()` after the call equals the function applied to `Model()` before. A helper that writes only one array (`ExecuteAlu`, `StoreBcd`, `StoreRegisters`, `LoadRegisters`, `LoadProgramIntoRAM`, `TogglePixel`, `ClearScreen`) is proved instead to leave that array equal to a function of its old contents, and to change nothing outside its `modifies` frame. `LoadHexSpritesIntoRAM` is proved to write the font at address 0 and to keep the rest of memory. The sprite blit keeps the nested row/column loops of Dxyn, and Fx55/Fx65 keep their register loops.
- `properties.dfy` (module `Properties`): lemmas about those functions, covering:
  - each instruction's effect in closed form;
  - skipping, jumping, call and return;
  - carry, borrow and shift flags;
  - the store/load round trip of Fx55/Fx65 and the BCD digits of Fx33;
  - loading a program image, and that the font survives it;
  - timers never going below zero;
  - the pause gating of `cycle` and key delivery;
  - the XOR blit of Dxyn: which cells flip, that VF is 1 exactly when a lit cell was erased, and that drawing twice restores the screen.

Four behaviours of the code that are easy to get wrong, all modelled as written:

- `loadProgramIntoRAM` does not reject a program that runs past the end of memory. It writes every byte, and a `Uint8Array` drops the writes past address 4095. `LoadImage` models exactly that.
- No opcode makes the step fail. All sixteen high nibbles have a `case`, so the `throw` at machine.ts:343 cannot be reached. A sub-form none of the inner switches handles (`0nnn`, `8xy8`, `ExFF`, `FxFF` and so on) only advances PC by 2. It is modelled as `Ignored`.
- I is never masked to 12 bits. Fx1E adds without masking, and addresses I + k past 4095 read as 0 and drop their writes.
- The start of a sprite is wrapped only when it is strictly greater than 64 (column) or 32 (row). A start of exactly 64 or 32 therefore stays, and every pixel of the sprite falls off the screen.

Reads past the end of memory are modelled as reads of 0. In JavaScript such a read gives `undefined`, and every use of the value in the interpreter turns it into 0:
- the shift in the fetch;
- the `>>` and `&` in Dxyn;
- the store into the `Uint8Array` of V in Fx65.
So fetching at PC 4095 or beyond, drawing a sprite whose rows run past the end, and loading registers from there are all defined. Only `00EE` on an empty stack (which would set PC to `undefined`) is excluded, by the precondition `CanStep`.

## Model

| member | source | states |
|---|---|---|
| Display.NormalizePixel | src/frontend/scripts/chip8/peripherals/display.ts:59-66 | coordinates within 0..COLS and 0..ROWS are returned unchanged, larger ones lose one COLS/ROWS, negative ones gain one; inputs within one screen of the edges land in 0..COLS, 0..ROWS |
| Display.PixelIndex | src/frontend/scripts/chip8/peripherals/display.ts:25 | an on-screen coordinate (after normalizePixel) addresses slot x + y * COLS, row-major |
| Display.PixelIndexOnScreen | src/frontend/scripts/chip8/peripherals/display.ts:24-25 | an on-screen coordinate addresses slot x + y * COLS, which lies inside the 2048-slot buffer |
| Display.Toggle | src/frontend/scripts/chip8/peripherals/display.ts:23-30 | togglePixel flips exactly the addressed slot, keeps the length and every other slot, and returns true iff that pixel was lit before |
| Display.ToggleOnScreen | src/frontend/scripts/chip8/peripherals/display.ts:23-30 | for 0 <= x < 64 and 0 <= y < 32 the buffer after togglePixel is the old one with slot x + y * 64 negated, and the result is that slot's old value |
| Display.ToggleTwice | src/frontend/scripts/chip8/peripherals/display.ts:23-30 | two togglePixel calls on the same coordinate restore the buffer and return opposite results |
| Display.Cleared | src/frontend/scripts/chip8/peripherals/display.ts:32-34 | the cleared buffer has 2048 slots, all false (also the buffer's initial value, display.ts line 20) |
| Bytes.SpriteBitsMakeByte | src/frontend/scripts/chip8/machine.ts:234-240 | the eight bits the column loop reads, `(byte >> (7 - col)) & 1` for col = 0..7 (Bytes.SpriteBit), weighted by 128 down to 1, add up to the sprite byte: no bit is read twice or missed |
| Opcodes.X | src/frontend/scripts/chip8/machine.ts:92 | x is the second nibble: `(opcode & 0x0f00) >> 8` |
| Opcodes.Y | src/frontend/scripts/chip8/machine.ts:93 | y is the third nibble: `(opcode & 0x00f0) >> 4` |
| Opcodes.N | src/frontend/scripts/chip8/machine.ts:224 | n is the low nibble `opcode & 0xf`: the word is a multiple of 16 plus n |
| Opcodes.KK | src/frontend/scripts/chip8/machine.ts:118 | kk is the low byte `opcode & 0xff`: the word is a multiple of 256 plus kk |
| Opcodes.NNN | src/frontend/scripts/chip8/machine.ts:109 | nnn is the low 12 bits `opcode & 0xfff`: the word is a multiple of 4096 plus nnn |
| Opcodes.Decode | src/frontend/scripts/chip8/machine.ts:95-341 | a word decodes to Ignored, carrying the word itself, exactly when no case handles it (Opcodes.Handled: 0nnn other than 00E0/00EE, 8xy8-8xyD and 8xyF, Ex other than 9E/A1, Fx other than the nine listed bytes) |
| Opcodes.WordOfFields | src/frontend/scripts/chip8/machine.ts:92-93 | every 16-bit word is its high nibble, x, y and low nibble recombined |
| Opcodes.EncodeDecode | src/frontend/scripts/chip8/machine.ts:95-341 | every 16-bit opcode decodes to a form that encodes back to the same opcode |
| Opcodes.DecodeEncode | src/frontend/scripts/chip8/machine.ts:95-341 | every well-formed instruction encodes to an opcode that decodes back to it, so the switch tells all forms apart |
| Semantics.InitialMemory | src/frontend/scripts/chip8/machine.ts:63-87 | memory after construction holds the 80 font bytes at 0x000-0x04F and zeros everywhere else |
| Semantics.Initial | src/frontend/scripts/chip8/machine.ts:20-38 | the reset state: PC = 0x200, I = 0, timers 0, empty stack, not paused, all registers 0, the screen clear |
| Semantics.Poke | src/frontend/scripts/chip8/machine.ts:59 | a store into the Uint8Array changes only its own address and is dropped past the end |
| Semantics.LoadImage | src/frontend/scripts/chip8/machine.ts:57-61 | loading a program keeps the memory size (its effect: Properties.LoadImageAt) |
| Semantics.Fetch | src/frontend/scripts/chip8/machine.ts:43 | the opcode is big-endian: its high byte is the byte at PC and its low byte the byte at PC + 1, each 0 past the end (Semantics.Peek: a read of a `Uint8Array` past its end counts as 0) |
| Semantics.AluResult | src/frontend/scripts/chip8/machine.ts:143-196 | the 8xyN forms keep sixteen registers and change no register other than Vx and VF (their effect: Properties.AluMove, AluAdd, AluSub, AluSubN, AluLogic, AluShift) |
| Semantics.WrapStart | src/frontend/scripts/chip8/machine.ts:220-221 | a sprite start greater than the bound (64 for the column, 32 for the row) is replaced by its remainder mod the bound, which is below the bound; a start at most the bound is kept, so a start of exactly 64 or 32 stays |
| Semantics.DrawSetup | src/frontend/scripts/chip8/machine.ts:219-221 | Dxyn's setup changes only the registers: VF becomes 0; unless it is F, Vx becomes WrapStart(Vx, 64) and Vy becomes WrapStart(Vy, 32), the row wrap applied after the column wrap when x = y; every other register is kept |
| Semantics.DrawPixel | src/frontend/scripts/chip8/machine.ts:237-250 | one pass of the inner loop changes only the frame buffer and VF |
| Semantics.DrawPrefix | src/frontend/scripts/chip8/machine.ts:234-252 | the row and column loops change only the frame buffer and VF |
| Semantics.DrawSprite | src/frontend/scripts/chip8/machine.ts:218-253 | Dxyn changes only the registers and the frame buffer (its effect: Properties.DrawSpriteEffect) |
| Semantics.StoreRegsMem | src/frontend/scripts/chip8/machine.ts:314-325 | Fx55 keeps the memory size (its effect: Properties.StoreRegsMemAt) |
| Semantics.LoadRegsV | src/frontend/scripts/chip8/machine.ts:327-338 | Fx65 keeps sixteen registers (its effect: Properties.LoadRegsVAt) |
| Semantics.StoreBcdMem | src/frontend/scripts/chip8/machine.ts:308-312 | Fx33 keeps the memory size (its effect: Properties.StoreBcdAt) |
| Semantics.Exec | src/frontend/scripts/chip8/machine.ts:95-341 | every executable instruction keeps memory, registers and frame buffer at their sizes |
| Semantics.Execute | src/frontend/scripts/chip8/machine.ts:89-345 | executeInstruction keeps the state well-sized |
| Semantics.Step | src/frontend/scripts/chip8/machine.ts:43-44 | a fetch and execute keeps the state well-sized |
| Semantics.Slot | src/frontend/scripts/chip8/machine.ts:42-45 | one pass of cycle's loop keeps the state well-sized |
| Semantics.Run | src/frontend/scripts/chip8/machine.ts:41-46 | the passes of cycle's loop keep the state well-sized |
| Semantics.Tick | src/frontend/scripts/chip8/machine.ts:347-354 | updateTimers changes only DT and ST |
| Semantics.Cycle | src/frontend/scripts/chip8/machine.ts:40-50 | cycle keeps the state well-sized (pause gating: Properties.CyclePaused) |
| Semantics.DeliverKey | src/frontend/scripts/chip8/machine.ts:279-282 | delivering a key keeps the state well-sized (its effect: Properties.WaitKeyThenDeliver) |
| Properties.StepSkip | src/frontend/scripts/chip8/machine.ts:117-133 | 3xkk, 4xkk, 5xy0, 9xy0, Ex9E and ExA1 advance PC by 4 exactly when their condition holds and by 2 otherwise, and change nothing else |
| Properties.StepJump | src/frontend/scripts/chip8/machine.ts:108-110 | 1nnn sets PC to nnn, and Bnnn sets PC to V0 + nnn (lines 209-211), with nothing else changed |
| Properties.StepIgnored | src/frontend/scripts/chip8/machine.ts:95-341 | an opcode no case handles only advances PC by 2 |
| Properties.StepPastEnd | src/frontend/scripts/chip8/machine.ts:43 | at PC >= 4096 the fetched opcode is 0x0000, which only advances PC by 2 |
| Properties.CallThenReturn | src/frontend/scripts/chip8/machine.ts:102-115 | 2nnn pushes PC + 2 and jumps to nnn; a 00EE there pops it, so PC and the stack are back as before, with PC past the call |
| Properties.StepLoadByte | src/frontend/scripts/chip8/machine.ts:135-137 | 6xkk sets Vx = kk and changes nothing else |
| Properties.StepAddByte | src/frontend/scripts/chip8/machine.ts:139-141 | 7xkk sets Vx = (Vx + kk) mod 256, leaves VF and every other register alone unless x = F, and changes nothing else |
| Properties.StepRandom | src/frontend/scripts/chip8/machine.ts:213-216 | Cxkk sets Vx to the random byte AND kk |
| Properties.StepLoadIndex | src/frontend/scripts/chip8/machine.ts:205-207 | Annn sets I = nnn |
| Properties.StepAddIndex | src/frontend/scripts/chip8/machine.ts:293-295 | Fx1E sets I = I + Vx with no masking |
| Properties.StepLoadFont | src/frontend/scripts/chip8/machine.ts:297-306 | Fx29 sets I = 5 * Vx |
| Properties.StepLoadDelay | src/frontend/scripts/chip8/machine.ts:273-275 | Fx07 sets Vx = DT, advances PC by 2 and changes nothing else |
| Properties.StepSetDelay | src/frontend/scripts/chip8/machine.ts:285-287 | Fx15 sets DT = Vx, advances PC by 2 and changes nothing else |
| Properties.StepSetSound | src/frontend/scripts/chip8/machine.ts:289-291 | Fx18 sets ST = Vx, advances PC by 2 and changes nothing else |
| Properties.StepFontGlyph | src/frontend/scripts/chip8/machine.ts:297-306 | with the font intact and Vx = d < 16, after Fx29 the five bytes at I are digit d's glyph |
| Properties.FontGlyph | src/frontend/scripts/chip8/machine.ts:84-86 | while the font is intact, the five bytes at 5 * d are digit d's glyph |
| Properties.InitialFont | src/frontend/scripts/chip8/machine.ts:37 | the constructed machine has the font at address 0 |
| Properties.AluMove | src/frontend/scripts/chip8/machine.ts:145-147 | 8xy0 sets Vx = Vy and leaves every other register, VF included, alone |
| Properties.AluAdd | src/frontend/scripts/chip8/machine.ts:164-167 | for x != y: Vx = (Vx + Vy) mod 256 and VF = 1 iff the sum exceeded 255, with VF winning for x = F; for x = y, VF = 0; other registers are kept (Semantics.AluResult) |
| Properties.AluSub | src/frontend/scripts/chip8/machine.ts:169-172 | Vx = (Vx - Vy) mod 256 and VF = 1 iff the old Vx >= Vy; other registers are kept (Semantics.AluResult) |
| Properties.AluSubN | src/frontend/scripts/chip8/machine.ts:183-186 | Vx = (Vy - Vx) mod 256 and VF = 1 iff Vy >= the old Vx; other registers are kept (Semantics.AluResult) |
| Properties.AluLogic | src/frontend/scripts/chip8/machine.ts:149-162 | 8xy1/8xy2/8xy3 store Vx OR/AND/XOR Vy in Vx and then set VF = 0 (Bytes.BitOr, BitAnd, BitXor: the operators on 8-bit vectors); other registers are kept (Semantics.AluResult) |
| Properties.AluShift | src/frontend/scripts/chip8/machine.ts:174-195 | 8xy6/8xyE shift Vy under originalShiftBehavior and Vx otherwise; the result goes to Vx and the bit shifted out to VF; other registers are kept (Semantics.AluResult) |
| Properties.ShiftQuirkExample | src/frontend/scripts/chip8/machine.ts:174-181 | with Vx = 0x80 and Vy = 0x01, 8xy6 gives 0x40 with VF = 0 when the quirk is off and 0x00 with VF = 1 when it is on |
| Properties.StoreRegsMemAt | src/frontend/scripts/chip8/machine.ts:314-325 | Fx55 writes V0..Vx at I..I+x (inside memory) and leaves every other address alone |
| Properties.LoadRegsVAt | src/frontend/scripts/chip8/machine.ts:327-338 | Fx65 reads V0..Vx from I..I+x (0 past the end, through Semantics.Peek) and leaves higher registers alone |
| Properties.StoreThenLoad | src/frontend/scripts/chip8/machine.ts:314-338 | Fx55 then Fx65 from the same I gives back V0..Vx; higher registers are untouched; I ends at I + x + 1 under incrementIndex and unchanged otherwise (Semantics.IndexAfterBulk) |
| Properties.StoreBcdAt | src/frontend/scripts/chip8/machine.ts:308-312 | Fx33 stores three decimal digits h, t, o at I, I+1, I+2 with 100h + 10t + o = Vx, and no other address changes |
| Properties.LoadImageAt | src/frontend/scripts/chip8/machine.ts:57-61 | program byte k lands at 0x200 + k where that is inside memory; every other address is unchanged |
| Properties.LoadImageKeepsFont | src/frontend/scripts/chip8/machine.ts:57-61 | loading a program keeps the font intact |
| Properties.TicksFloor | src/frontend/scripts/chip8/machine.ts:347-354 | k calls of updateTimers lower each timer by k but never below 0, and change nothing else |
| Properties.RunPaused | src/frontend/scripts/chip8/machine.ts:41-46 | while paused, the passes of the loop execute no opcode |
| Properties.CyclePaused | src/frontend/scripts/chip8/machine.ts:40-50 | a paused cycle executes nothing and leaves the timers alone: the state is unchanged |
| Properties.WaitKeyThenDeliver | src/frontend/scripts/chip8/machine.ts:277-283 | Fx0A pauses on register x; cycles then change nothing; a delivered key lands in Vx and clears the pause |
| Properties.ClearIdempotent | src/frontend/scripts/chip8/machine.ts:98-100 | 00E0 blanks all 2048 pixels, and twice is the same as once |
| Properties.HitsMembers | src/frontend/scripts/chip8/machine.ts:234-252 | the cells the loops visit are exactly those of set sprite bits that fall on the screen |
| Properties.HitsBound | src/frontend/scripts/chip8/machine.ts:241-245 | every cell the sprite hits lies inside the buffer and before the cell of the next bit |
| Properties.CollidesAdd | src/frontend/scripts/chip8/machine.ts:246-248 | a collision with one more cell is a collision so far or that cell being lit |
| Properties.DrawPixelAt | src/frontend/scripts/chip8/machine.ts:237-250 | a set on-screen bit flips exactly its cell and sets VF iff the cell was lit; any other bit changes nothing |
| Properties.DrawPrefixEffect | src/frontend/scripts/chip8/machine.ts:234-252 | after any prefix of the loops, exactly the hit cells are flipped and VF is 1 iff one of them was lit (x, y != F) |
| Properties.DrawPixelEffect | src/frontend/scripts/chip8/machine.ts:237-250 | one more pass of the inner loop extends that effect by one cell |
| Properties.ToggleOne | src/frontend/scripts/chip8/machine.ts:245-248 | flipping one new cell and recording whether it was lit extends the effect |
| Properties.DrawSpriteEffect | src/frontend/scripts/chip8/machine.ts:218-253 | Dxyn (x, y != F): Vx/Vy hold the wrapped start, VF = 1 iff a lit hit cell was erased, exactly the hit cells flip, other registers are kept |
| Properties.DrawTwice | src/frontend/scripts/chip8/machine.ts:218-253 | drawing the same sprite twice from the same registers restores the frame buffer |
| Properties.DrawTwiceCollides | src/frontend/scripts/chip8/machine.ts:218-253 | on a blank screen the second of two identical draws sets VF = 1 iff the sprite put any pixel on the screen |
| Chip8.Machine.constructor | src/frontend/scripts/chip8/machine.ts:20-38 | the new machine's state is Semantics.Initial with the given quirks |
| Chip8.Machine.LoadHexSpritesIntoRAM | src/frontend/scripts/chip8/machine.ts:63-87 | writes the font at 0x000-0x04F and leaves the rest of memory as it was |
| Chip8.Machine.LoadProgramIntoRAM | src/frontend/scripts/chip8/machine.ts:57-61 | memory becomes LoadImage of the old memory and the program; nothing else changes |
| Chip8.Machine.TogglePixel | src/frontend/scripts/chip8/peripherals/display.ts:23-30 | the frame buffer and the result are Display.Toggle's |
| Chip8.Machine.ClearScreen | src/frontend/scripts/chip8/peripherals/display.ts:32-34 | the frame buffer becomes Display.Cleared |
| Chip8.Machine.FetchOpcode | src/frontend/scripts/chip8/machine.ts:43 | returns Semantics.Fetch of memory at PC, and changes nothing |
| Chip8.Machine.Step | src/frontend/scripts/chip8/machine.ts:43-44 | the new state is Semantics.Step of the old |
| Chip8.Machine.ExecuteInstruction | src/frontend/scripts/chip8/machine.ts:89-345 | the new state is Semantics.Execute of the old state and the opcode |
| Chip8.Machine.ExecuteFlow | src/frontend/scripts/chip8/machine.ts:96-133 | the control-flow forms (00E0, 00EE, 1nnn, 2nnn, Bnnn at lines 209-211, the skips including 9xy0 at lines 199-203 and Ex9E/ExA1 at lines 255-268, ignored words) change the state as Semantics.Exec |
| Chip8.Machine.ExecuteData | src/frontend/scripts/chip8/machine.ts:135-338 | the remaining forms change the state as Semantics.Exec |
| Chip8.Machine.ExecuteControl | src/frontend/scripts/chip8/machine.ts:96-115 | 00E0, 00EE, 1nnn, 2nnn, Bnnn (lines 209-211) and ignored words as Semantics.Exec |
| Chip8.Machine.ExecuteSkipByte | src/frontend/scripts/chip8/machine.ts:117-127 | 3xkk and 4xkk as Semantics.Exec |
| Chip8.Machine.ExecuteSkipReg | src/frontend/scripts/chip8/machine.ts:129-133 | 5xy0 and 9xy0 (lines 199-203) as Semantics.Exec |
| Chip8.Machine.ExecuteSkipKey | src/frontend/scripts/chip8/machine.ts:255-268 | Ex9E and ExA1 as Semantics.Exec, with the pressed keys as a set |
| Chip8.Machine.ExecuteByte | src/frontend/scripts/chip8/machine.ts:135-141 | 6xkk and 7xkk as Semantics.Exec |
| Chip8.Machine.ExecuteRead | src/frontend/scripts/chip8/machine.ts:213-216 | Cxkk and Fx07 (lines 273-275) as Semantics.Exec |
| Chip8.Machine.ExecuteTimers | src/frontend/scripts/chip8/machine.ts:277-291 | Fx0A, Fx15 and Fx18 as Semantics.Exec |
| Chip8.Machine.ExecuteIndex | src/frontend/scripts/chip8/machine.ts:293-306 | Annn (lines 205-207), Fx1E and Fx29 as Semantics.Exec |
| Chip8.Machine.ExecuteAlu | src/frontend/scripts/chip8/machine.ts:143-196 | the register file becomes Semantics.AluResult of the old one |
| Chip8.Machine.DrawSprite | src/frontend/scripts/chip8/machine.ts:218-253 | the new state is Semantics.DrawSprite of the old |
| Chip8.Machine.NormalizeStart | src/frontend/scripts/chip8/machine.ts:219-221 | the new state is Semantics.DrawSetup of the old |
| Chip8.Machine.DrawRow | src/frontend/scripts/chip8/machine.ts:235-251 | one sprite row: the state advances from DrawPrefix at (row, 0) to DrawPrefix at (row + 1, 0) |
| Chip8.Machine.DrawNext | src/frontend/scripts/chip8/machine.ts:237-250 | one pass of the inner loop: from DrawPrefix at (row, col) to (row, col + 1) |
| Chip8.Machine.DrawBit | src/frontend/scripts/chip8/machine.ts:238-250 | the new state is Semantics.DrawPixel of the old |
| Chip8.Machine.StoreBcd | src/frontend/scripts/chip8/machine.ts:308-312 | memory becomes StoreBcdMem of the old memory, I and Vx |
| Chip8.Machine.StoreRegisters | src/frontend/scripts/chip8/machine.ts:314-325 | memory becomes StoreRegsMem over V0..Vx from the old I; I becomes Semantics.IndexAfterBulk: the loop of lines 316-319 steps I once per register, ending at I + x + 1, and the loop of lines 321-323 leaves I alone |
| Chip8.Machine.LoadRegisters | src/frontend/scripts/chip8/machine.ts:327-338 | registers become LoadRegsV over V0..Vx from the old I (Semantics.Peek: 0 past the end); I becomes Semantics.IndexAfterBulk: the loop of lines 329-332 steps I once per register, ending at I + x + 1, and the loop of lines 334-336 leaves I alone |
| Chip8.Machine.UpdateTimers | src/frontend/scripts/chip8/machine.ts:347-354 | the new state is Semantics.Tick of the old |
| Chip8.Machine.Cycle | src/frontend/scripts/chip8/machine.ts:40-50 | the new state is Semantics.Cycle of the old: SPEED gated passes, then the timers unless paused |
| Chip8.Machine.DeliverKey | src/frontend/scripts/chip8/machine.ts:279-282 | the new state is Semantics.DeliverKey of the old: Vtarget := key and unpause when waiting, else no change |

## Left out

- Sound: `playSound` and the `Speaker` (machine.ts:52, 356-362) are side effects on audio hardware. Only the sound timer is modelled.
- Drawing to the canvas: the `Screen` constructor's canvas set-up, `refresh`, and the call to it in `cycle` (display.ts:14-18, 36-56; machine.ts:53). This is rendering; the frame buffer it reads is modelled.
- The keyboard: `Keyboard` is not part of this model. `isKeyPressed` becomes a set of pressed keys passed to each step. The `onNextKeypress` callback installed by Fx0A becomes the explicit `DeliverKey` operation. A key delivered while no Fx0A is waiting changes nothing.
- Randomness: `Math.floor(Math.random() * 0xff)` in Cxkk is floating point. The model takes the random byte as a parameter of type `RandomByte`, which ranges over 0..254, the values that expression can produce.
- Time: how often `cycle` is called is wall-clock pacing and is not modelled. SPEED = 8 is the loop bound of `Cycle`.
- Concurrency: the key callback can fire between cycles. The model applies `DeliverKey` as a separate step between calls.
- Program bytes: `loadProgramIntoRAM` accepts any array, and a `Uint8Array` store reduces each element mod 256. The model takes the program as bytes already.
- `00EE` on an empty stack: `STACK.pop()` gives `undefined` and PC stops being a number. The model excludes it: `Exec` requires `Executable`, and `Step` requires `CanStep`.
- Display.Toggle and Chip8.Machine.TogglePixel: require the addressed slot to lie inside the 2048-slot buffer. In the source, `togglePixel(0, 32)` keeps the coordinate, writes `pixelArr[2048]`, grows the JavaScript array to 2049 entries and returns false. Its only caller, Dxyn (machine.ts:241-246), passes 0 <= x < 64 and 0 <= y < 32, so the interpreter never reaches that case, and the model does not represent a growing buffer.
- The `throw` for an unknown opcode (machine.ts:342-343) is unreachable, since every high nibble has a case. It has no counterpart in the model.
- 5xyN and 9xyN: the source does not check the low nibble, so `SkipEqReg` and `SkipNeReg` keep it. This is why `Encode` and `Decode` are inverse on every word.
- Properties.DrawSpriteEffect: requires x and y other than F. With x or y equal to F, the loops re-read the start coordinate from VF after a collision has set it to 1. `Semantics.DrawSprite` and `Chip8.Machine.DrawSprite` model that case as written, but no closed form is proved for it.
- Properties.DrawPrefixEffect: requires x and y other than F, for the same reason.
- Properties.DrawPixelEffect: requires x and y other than F, for the same reason.
- Properties.DrawTwice: requires x and y other than F, for the same reason.
- Properties.DrawTwiceCollides: requires x and y other than F, for the same reason.
- Properties.AluAdd: states Vx only for x different from y and from F. With x = F the flag overwrites the sum, which the VF clause states. With x = y the sum is 2 * Vx mod 256, which is not stated.
