/** The interpreter as a function of its state: what one instruction, one fetch,
    one burst of a cycle, one timer tick and one key delivery do to the machine.
    Every definition follows the statements of the interpreter in order, including
    the order in which a register is written and then read back. */
module Semantics {
  import opened Bytes
  import opened Opcodes
  import Display

  const MEMORY_SIZE: nat := 4096
  const REGISTERS: nat := 16
  const PROGRAM_START: nat := 0x200
  const FLAG: nibble := 0xF
  /** Instructions attempted per cycle. */
  const SPEED: nat := 8

  /** The hexadecimal digit glyphs, five rows each, loaded at address 0. */
  const FONT: seq<byte> := [
    0xF0, 0x90, 0x90, 0x90, 0xF0, // 0
    0x20, 0x60, 0x20, 0x20, 0x70, // 1
    0xF0, 0x10, 0xF0, 0x80, 0xF0, // 2
    0xF0, 0x10, 0xF0, 0x10, 0xF0, // 3
    0x90, 0x90, 0xF0, 0x10, 0x10, // 4
    0xF0, 0x80, 0xF0, 0x10, 0xF0, // 5
    0xF0, 0x80, 0xF0, 0x90, 0xF0, // 6
    0xF0, 0x10, 0x20, 0x40, 0x40, // 7
    0xF0, 0x90, 0xF0, 0x90, 0xF0, // 8
    0xF0, 0x90, 0xF0, 0x10, 0xF0, // 9
    0xF0, 0x90, 0xF0, 0x90, 0x90, // A
    0xE0, 0x90, 0xE0, 0x90, 0xE0, // B
    0xF0, 0x80, 0x80, 0x80, 0xF0, // C
    0xE0, 0x90, 0x90, 0x90, 0xE0, // D
    0xF0, 0x80, 0xF0, 0x80, 0xF0, // E
    0xF0, 0x80, 0xF0, 0x80, 0x80  // F
  ]

  /** The two compatibility switches; a switch missing from the configuration is off. */
  datatype Quirks = Quirks(originalShiftBehavior: bool, incrementIndex: bool)

  /** What `Math.floor(Math.random() * 0xff)` can produce: 0 to 254. */
  type RandomByte = r: int | 0 <= r < 0xFF

  /** The whole machine: memory, V0..VF, I, PC, the two timers, the call stack,
      the key-wait state (paused, and the register the next key goes to) and the
      display's frame buffer. */
  datatype State = State(
    mem: seq<byte>,
    v: seq<byte>,
    index: nat,
    pc: nat,
    dt: byte,
    st: byte,
    stack: seq<nat>,
    paused: bool,
    keyTarget: nibble,
    pixels: seq<bool>)

  predicate Valid(s: State)
  {
    |s.mem| == MEMORY_SIZE && |s.v| == REGISTERS && |s.pixels| == Display.SIZE
  }

  /** Memory right after construction: the font, then zeros. */
  function InitialMemory(): (m: seq<byte>)
    ensures |m| == MEMORY_SIZE
    ensures m[..|FONT|] == FONT
    ensures forall a :: |FONT| <= a < MEMORY_SIZE ==> m[a] == 0
  {
    FONT + seq(MEMORY_SIZE - |FONT|, _ => 0)
  }

  /** The machine right after construction. */
  function Initial(): (s: State)
    ensures Valid(s)
    ensures s.pc == PROGRAM_START && s.index == 0 && s.dt == 0 && s.st == 0
    ensures s.stack == [] && !s.paused
    ensures forall r :: 0 <= r < REGISTERS ==> s.v[r] == 0
    ensures forall p :: 0 <= p < Display.SIZE ==> !s.pixels[p]
  {
    State(InitialMemory(), seq(REGISTERS, _ => 0), 0, PROGRAM_START, 0, 0, [], false, 0, Display.Cleared())
  }

  /** A store into a Uint8Array: an address past the end is silently ignored. */
  function Poke(mem: seq<byte>, a: nat, b: byte): (r: seq<byte>)
    ensures |r| == |mem|
    ensures forall k :: 0 <= k < |mem| ==> r[k] == if k == a then b else mem[k]
  {
    if a < |mem| then mem[a := b] else mem
  }

  /** loadProgramIntoRAM: byte k of the program goes to PROGRAM_START + k, in order. */
  function LoadImage(mem: seq<byte>, program: seq<byte>): (r: seq<byte>)
    ensures |r| == |mem|
    decreases |program|
  {
    if program == [] then mem
    else
      var k := |program| - 1;
      Poke(LoadImage(mem, program[..k]), PROGRAM_START + k, program[k])
  }

  /** A read from a Uint8Array as the interpreter uses it: past the end the read
      gives `undefined`, which every use here (a shift, an `|`, a store into a
      Uint8Array) turns into 0. */
  function Peek(mem: seq<byte>, a: nat): (r: byte)
    ensures a < |mem| ==> r == mem[a]
    ensures |mem| <= a ==> r == 0
  {
    if a < |mem| then mem[a] else 0
  }

  /** The opcode at `pc`: `MEMORY[pc] << 8 | MEMORY[pc + 1]`, big-endian. */
  function Fetch(mem: seq<byte>, pc: nat): (op: word)
    ensures op / 0x100 == Peek(mem, pc) && op % 0x100 == Peek(mem, pc + 1)
  {
    var hi, lo := Peek(mem, pc), Peek(mem, pc + 1);
    Div256(hi as int * 0x100 + lo, hi, lo);
    hi as int * 0x100 + lo
  }

  /** The 8xyN forms on the register file. Each writes Vx first and VF last; the
      carry and borrow tests of 8xy4, 8xy5 and 8xy7 are made on the registers as
      they are after Vx has been written. */
  function AluResult(v: seq<byte>, x: nibble, y: nibble, f: AluOp, q: Quirks): (r: seq<byte>)
    requires |v| == REGISTERS
    ensures |r| == REGISTERS
    ensures forall i :: 0 <= i < REGISTERS && i != x && i != FLAG ==> r[i] == v[i]
  {
    match f
    case Mov => v[x := v[y]]
    case Or => v[x := BitOr(v[x], v[y])][FLAG := 0]
    case And => v[x := BitAnd(v[x], v[y])][FLAG := 0]
    case Xor => v[x := BitXor(v[x], v[y])][FLAG := 0]
    case Add =>
      var w := v[x := (v[x] as int + v[y]) % 256];
      w[FLAG := if w[x] < w[y] then 1 else 0]
    case Sub =>
      var w := v[x := (v[x] as int - v[y]) % 256];
      w[FLAG := if (w[x] + w[y]) % 256 < w[y] then 0 else 1]
    case Shr =>
      var w := if q.originalShiftBehavior then v[x := v[y]] else v;
      var bit := w[x] % 2;
      w[x := w[x] / 2][FLAG := bit]
    case SubN =>
      var w := v[x := (v[y] as int - v[x]) % 256];
      w[FLAG := if w[x] > w[y] then 0 else 1]
    case Shl =>
      var w := if q.originalShiftBehavior then v[x := v[y]] else v;
      var bit := w[x] / 128;
      w[x := (w[x] as int * 2) % 256][FLAG := bit]
  }

  /** A start coordinate as Dxyn normalises it: its remainder when above the bound. */
  function WrapStart(a: byte, bound: nat): (r: byte)
    requires 0 < bound < 256
    ensures r <= bound && r <= a
    ensures a <= bound ==> r == a
    ensures a > bound ==> r == a % bound && r < bound
  {
    if a > bound then a % bound else a
  }

  /** Dxyn before its loops: VF := 0, then a start column above COLS (a start row
      above ROWS) is replaced in its register by its remainder. */
  function DrawSetup(s: State, x: nibble, y: nibble): (r: State)
    requires Valid(s)
    ensures Valid(r) && r == s.(v := r.v)
    ensures r.v[FLAG] == 0
    ensures x != FLAG && x != y ==> r.v[x] == WrapStart(s.v[x], Display.COLS)
    ensures y != FLAG && y != x ==> r.v[y] == WrapStart(s.v[y], Display.ROWS)
    ensures x != FLAG && x == y ==> r.v[x] == WrapStart(WrapStart(s.v[x], Display.COLS), Display.ROWS)
    ensures forall i :: 0 <= i < REGISTERS && i != x && i != y && i != FLAG ==> r.v[i] == s.v[i]
  {
    var v1 := s.v[FLAG := 0];
    var v2 := if v1[x] > Display.COLS then v1[x := v1[x] % Display.COLS] else v1;
    var v3 := if v2[y] > Display.ROWS then v2[y := v2[y] % Display.ROWS] else v2;
    s.(v := v3)
  }

  /** One pass of the inner loop of Dxyn: bit `col` of sprite row `row`, placed
      relative to the current Vx and Vy. */
  function DrawPixel(s: State, x: nibble, y: nibble, row: nat, col: nat): (r: State)
    requires Valid(s) && col < 8
    ensures Valid(r) && r == s.(v := r.v, pixels := r.pixels)
    ensures forall i :: 0 <= i < FLAG ==> r.v[i] == s.v[i]
  {
    var px := s.v[x] + col;
    var py := s.v[y] + row;
    if SpriteBit(Peek(s.mem, s.index + row), col) && px < Display.COLS && py < Display.ROWS then
      Display.PixelIndexOnScreen(px, py);
      var (pixels, erased) := Display.Toggle(s.pixels, px, py);
      s.(pixels := pixels, v := if erased then s.v[FLAG := 1] else s.v)
    else s
  }

  /** The state after the loops of Dxyn have run all rows before `r` and the first
      `c` bits of row `r`. */
  function DrawPrefix(s: State, x: nibble, y: nibble, r: nat, c: nat): (t: State)
    requires Valid(s) && c <= 8
    ensures Valid(t) && t == s.(v := t.v, pixels := t.pixels)
    ensures forall i :: 0 <= i < FLAG ==> t.v[i] == s.v[i]
    decreases r, c
  {
    if c == 0 then
      if r == 0 then s else DrawPrefix(s, x, y, r - 1, 8)
    else
      DrawPixel(DrawPrefix(s, x, y, r, c - 1), x, y, r, c - 1)
  }

  /** Dxyn as a whole. */
  function DrawSprite(s: State, x: nibble, y: nibble, n: nibble): (r: State)
    requires Valid(s)
    ensures Valid(r) && r == s.(v := r.v, pixels := r.pixels)
  {
    DrawPrefix(DrawSetup(s, x, y), x, y, n, 0)
  }

  /** Memory after Fx55 has stored V0 .. V(k-1) from address `index` on. */
  function StoreRegsMem(mem: seq<byte>, index: nat, v: seq<byte>, k: nat): (r: seq<byte>)
    requires k <= |v|
    ensures |r| == |mem|
  {
    if k == 0 then mem else Poke(StoreRegsMem(mem, index, v, k - 1), index + k - 1, v[k - 1])
  }

  /** Registers after Fx65 has loaded V0 .. V(k-1) from address `index` on. */
  function LoadRegsV(mem: seq<byte>, index: nat, v: seq<byte>, k: nat): (r: seq<byte>)
    requires k <= |v|
    ensures |r| == |v|
  {
    if k == 0 then v else LoadRegsV(mem, index, v, k - 1)[k - 1 := Peek(mem, index + k - 1)]
  }

  /** Fx33: hundreds, tens and ones of `b` at `index`, `index + 1`, `index + 2`. */
  function StoreBcdMem(mem: seq<byte>, index: nat, b: byte): (r: seq<byte>)
    ensures |r| == |mem|
  {
    Poke(Poke(Poke(mem, index, b / 100), index + 1, (b % 100) / 10), index + 2, b % 10)
  }

  /** I after Fx55 / Fx65 over V0 .. Vx. */
  function IndexAfterBulk(index: nat, x: nibble, q: Quirks): (r: nat)
    ensures q.incrementIndex ==> r == index + x + 1
    ensures !q.incrementIndex ==> r == index
  {
    if q.incrementIndex then index + x + 1 else index
  }

  /** What executing `ins` needs of the state: 00EE needs a return address on the
      stack (popping an empty one would leave PC `undefined`). */
  predicate Executable(s: State, ins: Instr)
  {
    ins.Ret? ==> |s.stack| > 0
  }

  function SkipIf(s: State, b: bool): State
  {
    if b then s.(pc := s.pc + 2) else s
  }

  /** executeInstruction after its `PC += 2`: the effect of one decoded instruction. */
  function Exec(s: State, ins: Instr, q: Quirks, keys: set<byte>, rnd: RandomByte): (r: State)
    requires Valid(s) && Executable(s, ins)
    ensures Valid(r)
  {
    match ins
    case Cls => s.(pixels := Display.Cleared())
    case Ret => s.(pc := s.stack[|s.stack| - 1], stack := s.stack[..|s.stack| - 1])
    case Jump(a) => s.(pc := a)
    case Call(a) => s.(stack := s.stack + [s.pc], pc := a)
    case SkipEqByte(x, kk) => SkipIf(s, s.v[x] == kk)
    case SkipNeByte(x, kk) => SkipIf(s, s.v[x] != kk)
    case SkipEqReg(x, y, _) => SkipIf(s, s.v[x] == s.v[y])
    case LoadByte(x, kk) => s.(v := s.v[x := kk])
    case AddByte(x, kk) => s.(v := s.v[x := (s.v[x] as int + kk) % 256])
    case Alu(x, y, f) => s.(v := AluResult(s.v, x, y, f, q))
    case SkipNeReg(x, y, _) => SkipIf(s, s.v[x] != s.v[y])
    case LoadIndex(a) => s.(index := a)
    case JumpV0(a) => s.(pc := s.v[0] + a)
    case Random(x, kk) => s.(v := s.v[x := BitAnd(rnd, kk)])
    case Draw(x, y, n) => DrawSprite(s, x, y, n)
    case SkipKey(x) => SkipIf(s, s.v[x] in keys)
    case SkipNoKey(x) => SkipIf(s, s.v[x] !in keys)
    case LoadDelay(x) => s.(v := s.v[x := s.dt])
    case WaitKey(x) => s.(paused := true, keyTarget := x)
    case SetDelay(x) => s.(dt := s.v[x])
    case SetSound(x) => s.(st := s.v[x])
    case AddIndex(x) => s.(index := s.index + s.v[x])
    case LoadFont(x) => s.(index := s.v[x] as int * 5)
    case StoreBcd(x) => s.(mem := StoreBcdMem(s.mem, s.index, s.v[x]))
    case StoreRegs(x) =>
      s.(mem := StoreRegsMem(s.mem, s.index, s.v, x + 1), index := IndexAfterBulk(s.index, x, q))
    case LoadRegs(x) =>
      s.(v := LoadRegsV(s.mem, s.index, s.v, x + 1), index := IndexAfterBulk(s.index, x, q))
    case Ignored(_) => s
  }

  /** What one fetch-and-execute needs: the decoded instruction is executable. */
  predicate CanStep(s: State)
  {
    Valid(s) && Executable(s, Decode(Fetch(s.mem, s.pc)))
  }

  /** executeInstruction: PC += 2, then the decoded instruction. */
  function Execute(s: State, opcode: word, q: Quirks, keys: set<byte>, rnd: RandomByte): (r: State)
    requires Valid(s) && Executable(s, Decode(opcode))
    ensures Valid(r)
  {
    Exec(s.(pc := s.pc + 2), Decode(opcode), q, keys, rnd)
  }

  /** One pass of the loop in cycle when not paused: fetch at PC, then execute. */
  function Step(s: State, q: Quirks, keys: set<byte>, rnd: RandomByte): (r: State)
    requires CanStep(s)
    ensures Valid(r)
  {
    Execute(s, Fetch(s.mem, s.pc), q, keys, rnd)
  }

  /** One pass of the loop in cycle: an instruction only when not paused. */
  function Slot(s: State, q: Quirks, keys: set<byte>, rnd: RandomByte): (r: State)
    requires Valid(s) && (s.paused || CanStep(s))
    ensures Valid(r)
  {
    if s.paused then s else Step(s, q, keys, rnd)
  }

  /** Every instruction the passes of the loop in cycle reach can be executed. */
  predicate CanRun(s: State, q: Quirks, keys: set<byte>, rnds: seq<RandomByte>)
    decreases |rnds|
  {
    Valid(s) &&
    (rnds != [] ==> (s.paused || CanStep(s)) && CanRun(Slot(s, q, keys, rnds[0]), q, keys, rnds[1..]))
  }

  /** The passes of the loop in cycle, one per random byte. */
  function Run(s: State, q: Quirks, keys: set<byte>, rnds: seq<RandomByte>): (r: State)
    requires CanRun(s, q, keys, rnds)
    ensures Valid(r)
    decreases |rnds|
  {
    if rnds == [] then s else Run(Slot(s, q, keys, rnds[0]), q, keys, rnds[1..])
  }

  /** updateTimers. */
  function Tick(s: State): (r: State)
    requires Valid(s)
    ensures Valid(r) && r == s.(dt := r.dt, st := r.st)
  {
    s.(dt := if s.dt > 0 then s.dt - 1 else s.dt, st := if s.st > 0 then s.st - 1 else s.st)
  }

  /** cycle, without the sound and screen refresh: the loop, then the timers unless
      the machine is paused. */
  function Cycle(s: State, q: Quirks, keys: set<byte>, rnds: seq<RandomByte>): (r: State)
    requires CanRun(s, q, keys, rnds)
    ensures Valid(r)
  {
    var t := Run(s, q, keys, rnds);
    if t.paused then t else Tick(t)
  }

  /** The Fx0A continuation: a key press while waiting lands in the target register
      and resumes the machine; a key press while not waiting changes nothing. */
  function DeliverKey(s: State, key: byte): (r: State)
    requires Valid(s)
    ensures Valid(r)
  {
    if s.paused then s.(v := s.v[s.keyTarget := key], paused := false) else s
  }
}
